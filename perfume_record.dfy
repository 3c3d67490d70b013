/** A perfume record as the server sends it to the components. */
module PerfumeRecord {
  import opened JsValues

  /** One `accord_{i}_name` / `accord_{i}_width` pair of a stored perfume;
      None stands for `null` or `undefined`. */
  datatype StoredAccord = StoredAccord(name: Option<string>, width: Option<real>)

  const NoAccord := StoredAccord(None, None)

  /** The five accord pairs `accord_1_*` .. `accord_5_*`, slot i at position i - 1. */
  type StoredAccords = s: seq<StoredAccord> | |s| == 5
    witness [NoAccord, NoAccord, NoAccord, NoAccord, NoAccord]

  /** What `fragrance_notes` holds: an array, or anything else. */
  datatype NotesValue = NotesArray(items: seq<string>) | NotAnArray

  datatype Perfume = Perfume(
    name: Option<string>,
    brandId: Option<int>,
    topNotes: Option<seq<string>>,
    middleNotes: Option<seq<string>>,
    baseNotes: Option<seq<string>>,
    fragranceNotes: NotesValue,
    notes: Option<seq<string>>,
    accords: StoredAccords)
}
