/** The note panel of a perfume: the structured top/middle/base sections,
    the legacy flat list as a fallback, or a "no notes" message. */
module NoteDisplay {
  import opened JsValues
  import opened PerfumeRecord

  /** The note lists after the component's defaulting. */
  datatype NoteFields = NoteFields(
    top: seq<string>,
    middle: seq<string>,
    base: seq<string>,
    fragrance: seq<string>,
    legacy: seq<string>)

  /** `x || []` for the three groups and `notes`; `fragrance_notes` is used
      only when it is an array. */
  function Fields(p: Perfume): (f: NoteFields)
    ensures p.topNotes.None? ==> f.top == []
    ensures p.middleNotes.None? ==> f.middle == []
    ensures p.baseNotes.None? ==> f.base == []
    ensures p.notes.None? ==> f.legacy == []
    ensures p.fragranceNotes.NotAnArray? ==> f.fragrance == []
    ensures p.topNotes.Some? ==> f.top == p.topNotes.value
    ensures p.middleNotes.Some? ==> f.middle == p.middleNotes.value
    ensures p.baseNotes.Some? ==> f.base == p.baseNotes.value
    ensures p.notes.Some? ==> f.legacy == p.notes.value
    ensures p.fragranceNotes.NotesArray? ==> f.fragrance == p.fragranceNotes.items
  {
    NoteFields(
      OrEmptyList(p.topNotes),
      OrEmptyList(p.middleNotes),
      OrEmptyList(p.baseNotes),
      if p.fragranceNotes.NotesArray? then p.fragranceNotes.items else [],
      OrEmptyList(p.notes))
  }

  /** The `type` argument of the section helpers: 'top', 'middle' or 'base'. */
  datatype NoteKind = Top | Middle | Base

  function KindName(k: NoteKind): string {
    match k
    case Top => "top"
    case Middle => "middle"
    case Base => "base"
  }

  /** The position of a kind in the structured view. */
  function Rank(k: NoteKind): nat {
    match k
    case Top => 0
    case Middle => 1
    case Base => 2
  }

  function Title(k: NoteKind): string {
    match k
    case Top => "탑 노트"
    case Middle => "미들 노트"
    case Base => "베이스 노트"
  }

  function Group(f: NoteFields, k: NoteKind): seq<string> {
    match k
    case Top => f.top
    case Middle => f.middle
    case Base => f.base
  }

  datatype NoteSection = NoteSection(kind: NoteKind, title: string, notes: seq<string>)

  datatype NoteView =
    | Structured(sections: seq<NoteSection>)
    | LegacyList(notes: seq<string>)
    | NoNotes

  /** `renderNoteSection`: nothing for an empty list, otherwise one section. */
  function RenderSection(notes: seq<string>, kind: NoteKind): (r: seq<NoteSection>)
    ensures notes == [] ==> r == []
    ensures notes != [] ==> r == [NoteSection(kind, Title(kind), notes)]
  {
    if |notes| == 0 then [] else [NoteSection(kind, Title(kind), notes)]
  }

  predicate HasNewNoteStructure(f: NoteFields) {
    |f.top| > 0 || |f.middle| > 0 || |f.base| > 0
  }

  predicate HasLegacyNotes(f: NoteFields) {
    |f.legacy| > 0
  }

  /** The three sections in the order top, middle, base, each skipped when empty. */
  function Sections(f: NoteFields): seq<NoteSection> {
    RenderSection(f.top, Top) + RenderSection(f.middle, Middle) + RenderSection(f.base, Base)
  }

  lemma SectionsCoverGroups(f: NoteFields)
    ensures forall k :: Group(f, k) != [] ==> NoteSection(k, Title(k), Group(f, k)) in Sections(f)
  {
    forall k | Group(f, k) != []
      ensures NoteSection(k, Title(k), Group(f, k)) in Sections(f)
    {
      match k
      case Top =>
      case Middle =>
      case Base =>
    }
  }

  /** The component's choice: the structured view whenever one of the three
      groups has notes (legacy notes are then ignored), the legacy list only
      when all three are empty, and the message when there is nothing. */
  function ChooseNoteView(f: NoteFields): (v: NoteView)
    ensures v.Structured? <==> f.top != [] || f.middle != [] || f.base != []
    ensures v.LegacyList? <==> f.top == [] && f.middle == [] && f.base == [] && f.legacy != []
    ensures v.LegacyList? ==> v.notes == f.legacy
    ensures v.NoNotes? <==> f.top == [] && f.middle == [] && f.base == [] && f.legacy == []
    ensures v.Structured? ==>
      && (forall s :: s in v.sections ==>
            s.notes != [] && s.notes == Group(f, s.kind) && s.title == Title(s.kind))
      && (forall k :: Group(f, k) != [] ==> NoteSection(k, Title(k), Group(f, k)) in v.sections)
      && (forall i, j :: 0 <= i < j < |v.sections| ==> Rank(v.sections[i].kind) < Rank(v.sections[j].kind))
  {
    if HasNewNoteStructure(f) then
      SectionsCoverGroups(f);
      Structured(Sections(f))
    else if HasLegacyNotes(f) then LegacyList(f.legacy)
    else NoNotes
  }

  /** The view of a perfume; a perfume with structured notes shows them
      whatever its legacy list holds. */
  lemma StructuredWins(p: Perfume, legacy: Option<seq<string>>)
    requires HasNewNoteStructure(Fields(p))
    ensures ChooseNoteView(Fields(p.(notes := legacy))) == ChooseNoteView(Fields(p))
  {
  }

  /** `getNoteTypeColor`: three fixed colours for the three kinds, '#888' for any other type. */
  function NoteTypeColor(t: string): (c: string)
    ensures t == "top" ==> c == "#ff6b6b"
    ensures t == "middle" ==> c == "#4ecdc4"
    ensures t == "base" ==> c == "#45b7d1"
    ensures c == "#888" <==> t != "top" && t != "middle" && t != "base"
  {
    if t == "top" then "#ff6b6b"
    else if t == "middle" then "#4ecdc4"
    else if t == "base" then "#45b7d1"
    else "#888"
  }

  /** Each section colours its chips by its own `type`, and each of the three
      types gets a fixed colour of its own, never the fallback. */
  lemma SectionColor(k: NoteKind, l: NoteKind)
    ensures NoteTypeColor(KindName(k)) != "#888"
    ensures k != l ==> NoteTypeColor(KindName(k)) != NoteTypeColor(KindName(l))
  {
    match k
    case Top =>
    case Middle =>
    case Base =>
  }
}
