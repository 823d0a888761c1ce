/** The part of a diffable data source snapshot the videos screen uses: an
    ordered list of sections, each with an ordered list of item identifiers,
    built by appending sections and then appending items to the last one.
    Identifiers must be unique across the whole snapshot. */
module Snapshots {
  import opened Wrappers
  import opened Sequences

  datatype SectionItems<S, I> = SectionItems(id: S, items: seq<I>)

  datatype Snapshot<S, I> = Snapshot(sections: seq<SectionItems<S, I>>)

  /** Why an append was refused: a section identifier given twice, items
      appended while there is no section to hold them, or an item identifier
      given twice. */
  datatype SnapshotError = DuplicateSection | NoSection | DuplicateItem

  /** The section identifiers, in order. */
  function SectionIds<S, I>(sections: seq<SectionItems<S, I>>): (r: seq<S>)
    ensures |r| == |sections|
    ensures forall k :: 0 <= k < |r| ==> r[k] == sections[k].id
  {
    seq(|sections|, k requires 0 <= k < |sections| => sections[k].id)
  }

  /** All item identifiers, section after section. */
  function ItemIds<S, I>(sections: seq<SectionItems<S, I>>): seq<I>
  {
    if sections == [] then []
    else ItemIds(sections[..|sections| - 1]) + sections[|sections| - 1].items
  }

  /** Section identifiers are unique, and so are item identifiers. */
  predicate Valid<S(==), I(==)>(s: Snapshot<S, I>)
  {
    NoDuplicates(SectionIds(s.sections)) && NoDuplicates(ItemIds(s.sections))
  }

  /** A snapshot with no sections and no items. */
  function Empty<S, I>(): (r: Snapshot<S, I>)
    ensures SectionIds(r.sections) == [] && ItemIds(r.sections) == []
  {
    Snapshot([])
  }

  /** Sections that hold no items add no item identifiers. */
  lemma {:induction false} ItemIdsOfEmptySections<S, I>(sections: seq<SectionItems<S, I>>, ids: seq<S>)
    ensures ItemIds(sections + seq(|ids|, k requires 0 <= k < |ids| => SectionItems(ids[k], []))) == ItemIds(sections)
  {
    var empties := seq(|ids|, k requires 0 <= k < |ids| => SectionItems(ids[k], []));
    if ids != [] {
      var shorter := ids[..|ids| - 1];
      ItemIdsOfEmptySections(sections, shorter);
      var whole := sections + empties;
      assert whole[..|whole| - 1] == sections + seq(|shorter|, k requires 0 <= k < |shorter| => SectionItems(shorter[k], []));
    } else {
      assert sections + empties == sections;
    }
  }

  /** `appendSections(_:)`: adds one empty section per identifier, at the end.
      Refused when an identifier is already present or given twice. */
  function AppendSections<S(==), I>(s: Snapshot<S, I>, ids: seq<S>): (r: Result<Snapshot<S, I>, SnapshotError>)
    ensures r.Ok? <==> NoDuplicates(SectionIds(s.sections) + ids)
    ensures r.Err? ==> r.error == DuplicateSection
    ensures r.Ok? ==> SectionIds(r.value.sections) == SectionIds(s.sections) + ids
    ensures r.Ok? ==> ItemIds(r.value.sections) == ItemIds(s.sections)
    ensures r.Ok? ==> r.value.sections[..|s.sections|] == s.sections
  {
    if NoDuplicates(SectionIds(s.sections) + ids) then
      var empties := seq(|ids|, k requires 0 <= k < |ids| => SectionItems(ids[k], []));
      ItemIdsOfEmptySections(s.sections, ids);
      assert SectionIds(s.sections + empties) == SectionIds(s.sections) + ids;
      Ok(Snapshot(s.sections + empties))
    else
      Err(DuplicateSection)
  }

  /** `appendItems(_:toSection: nil)`: adds the items, in order, at the end of
      the last section. Refused when there is no section, or when an item is
      already present or given twice. */
  function AppendItems<S, I(==)>(s: Snapshot<S, I>, items: seq<I>): (r: Result<Snapshot<S, I>, SnapshotError>)
    ensures r.Ok? <==> s.sections != [] && NoDuplicates(ItemIds(s.sections) + items)
    ensures r.Err? ==> r.error == (if s.sections == [] then NoSection else DuplicateItem)
    ensures r.Ok? ==> SectionIds(r.value.sections) == SectionIds(s.sections)
    ensures r.Ok? ==> ItemIds(r.value.sections) == ItemIds(s.sections) + items
    ensures r.Ok? ==> r.value.sections[..|s.sections| - 1] == s.sections[..|s.sections| - 1]
  {
    if s.sections == [] then Err(NoSection)
    else if !NoDuplicates(ItemIds(s.sections) + items) then Err(DuplicateItem)
    else
      var n := |s.sections|;
      var last := s.sections[n - 1];
      var sections := s.sections[..n - 1] + [SectionItems(last.id, last.items + items)];
      assert sections[..n - 1] == s.sections[..n - 1];
      assert SectionIds(sections) == SectionIds(s.sections) by {
        assert forall k :: 0 <= k < n ==> SectionIds(sections)[k] == SectionIds(s.sections)[k];
      }
      Ok(Snapshot(sections))
  }

  /** `itemIdentifier(for:)`: the item at a section and a position in it, or
      nothing when either is out of range. */
  function ItemIdentifier<S, I>(s: Snapshot<S, I>, section: int, item: int): (r: Option<I>)
    ensures r.Some? <==> 0 <= section < |s.sections| && 0 <= item < |s.sections[section].items|
    ensures r.Some? ==> r.value == s.sections[section].items[item]
  {
    if 0 <= section < |s.sections| && 0 <= item < |s.sections[section].items| then
      Some(s.sections[section].items[item])
    else
      None
  }

  /** Appending preserves validity: what is accepted keeps section and item
      identifiers unique. */
  lemma AppendsPreserveValid<S, I>(s: Snapshot<S, I>, ids: seq<S>, items: seq<I>)
    requires Valid(s)
    ensures AppendSections(s, ids).Ok? ==> Valid(AppendSections(s, ids).value)
    ensures AppendItems(s, items).Ok? ==> Valid(AppendItems(s, items).value)
  {
  }

  /** Building a one-section snapshot the way the screen does (start empty,
      append the section, append the items) succeeds exactly when the items
      are unique, and the result is that one section holding those items in
      order. */
  lemma SingleSectionBuild<S, I>(id: S, items: seq<I>)
    ensures AppendSections(Empty<S, I>(), [id]).Ok?
    ensures AppendSections(Empty<S, I>(), [id]).value == Snapshot([SectionItems(id, [])])
    ensures var r := AppendItems(AppendSections(Empty<S, I>(), [id]).value, items);
            (r.Ok? <==> NoDuplicates(items))
            && (r.Ok? ==> r.value == Snapshot([SectionItems(id, items)]))
  {
    var one := AppendSections(Empty<S, I>(), [id]);
    assert SectionIds(Empty<S, I>().sections) + [id] == [id];
    assert one.value.sections == [SectionItems(id, [])];
    assert ItemIds(one.value.sections) == [];
    assert ItemIds(one.value.sections) + items == items;
  }
}
