/** Two concrete videos and what the screen does with them: a search for
    "swift", then one for "uikit", then taps. */
module Scenarios {
  import opened Wrappers
  import opened Text
  import opened Sequences
  import opened Videos
  import opened Search
  import opened Snapshots
  import opened VideosController

  const SwiftBasics := Video("Swift Basics", Some(Url("https://videos.example/swift-basics")))
  const UIKitIntro := Video("UIKit Intro", None)

  lemma TitlesLowercased()
    ensures Lowercased(SwiftBasics.title) == "swift basics"
    ensures Lowercased(UIKitIntro.title) == "uikit intro"
    ensures Lowercased("swift") == "swift" && Lowercased("uikit") == "uikit"
  {
  }

  /** Searching for "swift" keeps only the first video. */
  lemma SwiftQueryScenario()
    ensures FilteredVideos([SwiftBasics, UIKitIntro], Some("swift")) == [SwiftBasics]
  {
    TitlesLowercased();
    assert OccursAt("swift basics", "swift", 0);
    forall i | 0 <= i <= |"uikit intro"|
      ensures !OccursAt("uikit intro", "swift", i)
    {
      if i + 5 <= 11 {
        assert "uikit intro"[i..i + 5][0] != 's';
      }
    }
    assert Matches(SwiftBasics, "swift");
    assert !Matches(UIKitIntro, "swift");
    assert [SwiftBasics, UIKitIntro][1..] == [UIKitIntro];
    assert [UIKitIntro][1..] == [];
    assert FilterByTitle([UIKitIntro], "swift") == [];
    assert FilterByTitle([SwiftBasics, UIKitIntro], "swift") == [SwiftBasics] + [];
  }

  /** Each search starts again from the catalogue: "uikit" after "swift"
      lists the UIKit video, although filtering the "swift" result by "uikit"
      would leave nothing. */
  lemma SearchesDoNotNarrowCumulatively()
    ensures FilteredVideos([SwiftBasics, UIKitIntro], Some("uikit")) == [UIKitIntro]
    ensures FilteredVideos(FilteredVideos([SwiftBasics, UIKitIntro], Some("swift")), Some("uikit")) == []
  {
    TitlesLowercased();
    SwiftQueryScenario();
    assert OccursAt("uikit intro", "uikit", 0);
    forall i | 0 <= i <= |"swift basics"|
      ensures !OccursAt("swift basics", "uikit", i)
    {
      if i + 5 <= 12 {
        assert "swift basics"[i..i + 5][0] != 'u';
      }
    }
    assert Matches(UIKitIntro, "uikit");
    assert !Matches(SwiftBasics, "uikit");
    assert [SwiftBasics, UIKitIntro][1..] == [UIKitIntro];
    assert [UIKitIntro][1..] == [];
    assert [SwiftBasics][1..] == [];
    assert FilterByTitle([UIKitIntro], "uikit") == [UIKitIntro] + [];
    assert FilterByTitle([SwiftBasics], "uikit") == [];
  }

  /** The screen driven through a launch, two searches and some taps. */
  method SearchThenTap()
  {
    var screen := new VideosViewController([SwiftBasics, UIKitIntro]);
    screen.ViewDidLoad();
    var link := screen.DidSelectItemAt(IndexPath(0, 1));
    assert link == None;
    link := screen.DidSelectItemAt(IndexPath(0, 0));
    assert link == SwiftBasics.link;

    SwiftQueryScenario();
    screen.UpdateSearchResults(Some("swift"));
    assert screen.videoList == [SwiftBasics];
    link := screen.DidSelectItemAt(IndexPath(0, 1));
    assert link == None;

    SearchesDoNotNarrowCumulatively();
    screen.UpdateSearchResults(Some("uikit"));
    assert screen.videoList == [UIKitIntro];
    link := screen.DidSelectItemAt(IndexPath(0, 0));
    assert link == None;

    screen.UpdateSearchResults(None);
    assert screen.videoList == [SwiftBasics, UIKitIntro];
  }
}
