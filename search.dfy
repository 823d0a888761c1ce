/** The search filter of the videos screen (`filteredVideos(for:)`): a
    case-insensitive substring match of the query against each title,
    keeping the catalogue's order. */
module Search {
  import opened Wrappers
  import opened Text
  import opened Sequences
  import opened Videos

  /** The filter's closure: the lower-cased title contains the lower-cased
      query. */
  predicate Matches(v: Video, query: string)
  {
    Contains(Lowercased(v.title), Lowercased(query))
  }

  /** `videos.filter { Matches($0, query) }`. */
  function FilterByTitle(videos: seq<Video>, query: string): (r: seq<Video>)
    ensures |r| <= |videos|
    ensures forall i :: 0 <= i < |r| ==> Matches(r[i], query)
  {
    if videos == [] then []
    else if Matches(videos[0], query) then [videos[0]] + FilterByTitle(videos[1..], query)
    else FilterByTitle(videos[1..], query)
  }

  /** `filteredVideos(for:)`, with the catalogue it starts from as a
      parameter: a missing or empty query keeps every video, any other query
      keeps the matching ones. */
  function FilteredVideos(videos: seq<Video>, queryOrNil: Option<string>): (r: seq<Video>)
    ensures queryOrNil == None || queryOrNil == Some("") ==> r == videos
    ensures IsSubsequence(r, videos)
  {
    match queryOrNil
    case None => SubsequenceReflexive(videos); videos
    case Some(query) =>
      if query == "" then SubsequenceReflexive(videos); videos
      else FilterIsSubsequence(videos, query); FilterByTitle(videos, query)
  }

  /** The filter result keeps the original relative order: it is a
      sub-sequence of its input. */
  lemma {:induction false} FilterIsSubsequence(videos: seq<Video>, query: string)
    ensures IsSubsequence(FilterByTitle(videos, query), videos)
  {
    if videos != [] {
      var rest := FilterByTitle(videos[1..], query);
      FilterIsSubsequence(videos[1..], query);
      if Matches(videos[0], query) {
        assert ([videos[0]] + rest)[1..] == rest;
      } else if rest != [] {
        assert Matches(rest[0], query);
      }
    }
  }

  /** Each video occurs in the result exactly as often as in the input when
      it matches, and not at all otherwise. */
  lemma {:induction false} FilterCount(videos: seq<Video>, query: string, v: Video)
    ensures multiset(FilterByTitle(videos, query))[v]
         == if Matches(v, query) then multiset(videos)[v] else 0
  {
    if videos != [] {
      FilterCount(videos[1..], query, v);
      assert videos == [videos[0]] + videos[1..];
    }
  }

  /** Soundness and completeness: a video is in the result if and only if it
      is in the input and its title matches the query. */
  lemma FilterMembership(videos: seq<Video>, query: string, v: Video)
    ensures v in FilterByTitle(videos, query) <==> v in videos && Matches(v, query)
  {
    FilterCount(videos, query, v);
    assert v in FilterByTitle(videos, query) <==> v in multiset(FilterByTitle(videos, query));
    assert v in videos <==> v in multiset(videos);
  }

  /** Filtering an already filtered list by the same query changes nothing. */
  lemma {:induction false} FilterIdempotent(videos: seq<Video>, query: string)
    ensures FilterByTitle(FilterByTitle(videos, query), query) == FilterByTitle(videos, query)
  {
    if videos != [] {
      FilterIdempotent(videos[1..], query);
      var rest := FilterByTitle(videos[1..], query);
      if Matches(videos[0], query) {
        assert ([videos[0]] + rest)[1..] == rest;
      }
    }
  }

  /** The same, for the screen's filter with its missing and empty queries. */
  lemma FilteredVideosIdempotent(videos: seq<Video>, queryOrNil: Option<string>)
    ensures FilteredVideos(FilteredVideos(videos, queryOrNil), queryOrNil)
         == FilteredVideos(videos, queryOrNil)
  {
    if queryOrNil.Some? && queryOrNil.value != "" {
      FilterIdempotent(videos, queryOrNil.value);
    }
  }

  /** Two queries that lower-case to the same string select the same videos. */
  lemma {:induction false} FilterCaseInsensitive(videos: seq<Video>, q1: string, q2: string)
    requires Lowercased(q1) == Lowercased(q2)
    ensures FilterByTitle(videos, q1) == FilterByTitle(videos, q2)
  {
    if videos != [] {
      FilterCaseInsensitive(videos[1..], q1, q2);
    }
  }

  /** The same, for the screen's filter: "Swift", "SWIFT" and "swift" give
      one result. */
  lemma FilteredVideosCaseInsensitive(videos: seq<Video>, q1: string, q2: string)
    requires Lowercased(q1) == Lowercased(q2)
    ensures FilteredVideos(videos, Some(q1)) == FilteredVideos(videos, Some(q2))
  {
    assert |q1| == |q2|;
    FilterCaseInsensitive(videos, q1, q2);
  }

  /** A query and its lower-cased form select the same videos: typing in
      capitals changes nothing. */
  lemma LowercasedQuerySameResult(videos: seq<Video>, query: string)
    ensures FilteredVideos(videos, Some(Lowercased(query))) == FilteredVideos(videos, Some(query))
  {
    LowercasedIdempotent(query);
    FilteredVideosCaseInsensitive(videos, Lowercased(query), query);
  }

  /** Typing more of a query only narrows the result: when the longer query
      contains the shorter one, filtering the shorter query's result by the
      longer one is the same as filtering the whole list by the longer one. */
  lemma {:induction false} FilterNarrowing(videos: seq<Video>, shorter: string, longer: string)
    requires Contains(Lowercased(longer), Lowercased(shorter))
    ensures FilterByTitle(FilterByTitle(videos, shorter), longer) == FilterByTitle(videos, longer)
  {
    if videos != [] {
      FilterNarrowing(videos[1..], shorter, longer);
      var v := videos[0];
      if Matches(v, longer) {
        ContainsTransitive(Lowercased(v.title), Lowercased(longer), Lowercased(shorter));
        var rest := FilterByTitle(videos[1..], shorter);
        assert ([v] + rest)[1..] == rest;
      }
    }
  }

  /** A title containing the query exactly as typed is always found. */
  lemma VerbatimMatchFound(videos: seq<Video>, query: string, v: Video)
    requires v in videos && Contains(v.title, query)
    ensures v in FilterByTitle(videos, query)
  {
    ContainsLowercased(v.title, query);
    FilterMembership(videos, query, v);
  }
}
