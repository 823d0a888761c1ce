/** The videos screen: it keeps the list currently shown, rebuilds it from
    the catalogue on every search, hands the data source a one-section
    snapshot of it, and opens a tapped video's link. */
module VideosController {
  import opened Wrappers
  import opened Sequences
  import opened Videos
  import opened Search
  import opened Snapshots

  /** The screen's only section. */
  datatype Section = Main

  /** A tapped position: a section and an item within it. */
  datatype IndexPath = IndexPath(section: int, item: int)

  /** The snapshot `applySnapshot` builds from a list: the single section
      `.main` holding the list's videos in order. */
  function MainSnapshot(videos: seq<Video>): Snapshot<Section, Video>
  {
    Snapshot([SectionItems(Main, videos)])
  }

  class VideosViewController {
    /** `Video.allVideos`: the catalogue every search starts from. */
    const allVideos: seq<Video>
    /** The videos currently listed. */
    var videoList: seq<Video>
    /** The snapshot the data source last applied. */
    var applied: Snapshot<Section, Video>

    /** The catalogue holds no video twice, and the list shown is drawn from
        it in its order. */
    ghost predicate Valid()
      reads this
    {
      NoDuplicates(allVideos) && IsSubsequence(videoList, allVideos)
    }

    /** A fresh screen lists the whole catalogue; its data source has not
        applied anything yet. */
    constructor (catalogue: seq<Video>)
      requires NoDuplicates(catalogue)
      ensures Valid()
      ensures allVideos == catalogue && videoList == catalogue
      ensures applied == Empty()
    {
      allVideos := catalogue;
      videoList := catalogue;
      applied := Empty();
      new;
      SubsequenceReflexive(catalogue);
    }

    /** `viewDidLoad`: shows the current list without animation. */
    method ViewDidLoad()
      requires Valid()
      modifies this`applied
      ensures Valid()
      ensures applied == MainSnapshot(videoList)
    {
      ApplySnapshot();
    }

    /** `applySnapshot`: builds a snapshot from scratch (no sections, then
        `.main`, then the listed videos in order) and has the data source
        apply it, which here means it becomes the applied snapshot. */
    method ApplySnapshot()
      requires Valid()
      modifies this`applied
      ensures Valid()
      ensures applied == MainSnapshot(videoList)
      ensures SectionIds(applied.sections) == [Main]
      ensures ItemIds(applied.sections) == videoList
    {
      SingleSectionBuild(Main, videoList);
      SubsequenceNoDuplicates(videoList, allVideos);
      var snapshot := Empty<Section, Video>();
      var withSection := AppendSections(snapshot, [Main]);
      snapshot := withSection.value;
      var withItems := AppendItems(snapshot, videoList);
      snapshot := withItems.value;
      applied := snapshot;
      assert ItemIds(applied.sections) == ItemIds(applied.sections[..0]) + videoList;
    }

    /** `updateSearchResults(for:)`: replaces the list with the catalogue
        filtered by the search text, whatever was listed before, and applies
        a snapshot of it. */
    method UpdateSearchResults(searchText: Option<string>)
      requires Valid()
      modifies this`videoList, this`applied
      ensures Valid()
      ensures videoList == FilteredVideos(allVideos, searchText)
      ensures applied == MainSnapshot(videoList)
    {
      videoList := FilteredVideos(allVideos, searchText);
      ApplySnapshot();
    }

    /** `collectionView(_:didSelectItemAt:)`: the link to open for a tapped
        position. Nothing is opened when no item is shown there or when the
        item has no link. */
    method DidSelectItemAt(indexPath: IndexPath) returns (presented: Option<Url>)
      ensures var video := ItemIdentifier(applied, indexPath.section, indexPath.item);
              presented.Some? <==> video.Some? && video.value.link.Some?
      ensures var video := ItemIdentifier(applied, indexPath.section, indexPath.item);
              presented.Some? ==> presented == video.value.link
    {
      var video := ItemIdentifier(applied, indexPath.section, indexPath.item);
      if video.None? {
        return None;
      }
      var link := video.value.link;
      if link.None? {
        return None;
      }
      presented := link;
    }
  }

  /** After a search, the position at row `i` of the only section shows the
      `i`-th matching video, and any other position shows nothing. */
  lemma SelectInMainSnapshot(videos: seq<Video>, indexPath: IndexPath)
    ensures var r := ItemIdentifier(MainSnapshot(videos), indexPath.section, indexPath.item);
            (r.Some? <==> indexPath.section == 0 && 0 <= indexPath.item < |videos|)
            && (r.Some? ==> r.value == videos[indexPath.item])
  {
  }
}
