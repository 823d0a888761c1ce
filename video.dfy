/** The item model: one catalogue entry. Its identity in a snapshot is the
    value itself (the Swift type is `Hashable`). */
module Videos {
  import opened Wrappers

  /** A web address, kept as its absolute string. */
  datatype Url = Url(absoluteString: string)

  /** A catalogue entry: a display title and an optional link to the video. */
  datatype Video = Video(title: string, link: Option<Url>)
}
