/** The grid the videos screen lays out: one horizontal group per row, of
    fixed height, holding a fixed number of equally wide items. */
module Layout {

  /** `UIUserInterfaceIdiom`: the kind of device the screen runs on. */
  datatype Idiom = Unspecified | Phone | Pad | TV | CarPlay | Mac | Vision

  /** The height of each row and the number of items in it. */
  datatype GroupLayout = GroupLayout(itemHeight: nat, itemsPerGroup: nat)

  /** `configureLayout`'s section provider: a phone shows one video per row,
      280 points high; every other device three per row, 250 points high. */
  function ConfigureLayout(idiom: Idiom): (r: GroupLayout)
    ensures r.itemsPerGroup >= 1
    ensures idiom == Phone ==> r.itemHeight == 280 && r.itemsPerGroup == 1
    ensures idiom != Phone ==> r.itemHeight == 250 && r.itemsPerGroup == 3
  {
    var isPhone := idiom == Phone;
    GroupLayout(if isPhone then 280 else 250, if isPhone then 1 else 3)
  }
}
