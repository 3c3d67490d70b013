/** The perfume create/edit form: its field state, the five accord slots, the
    handlers that edit them, and the data handed to `onSubmit`. */
module PerfumeForm {
  import opened JsValues
  import opened PerfumeRecord

  /** A width as the form holds it: `''` (Empty) or a parsed number. */
  datatype Width = Empty | Num(r: real)

  /** A width is truthy when it is a number other than 0. */
  predicate WidthTruthy(w: Width) {
    w.Num? && w.r != 0.0
  }

  /** The selected brand: `''` (NoBrand) or the id of a brand. */
  datatype BrandChoice = NoBrand | BrandId(id: int)

  predicate BrandTruthy(b: BrandChoice) {
    b.BrandId? && b.id != 0
  }

  /** One accord slot: `accord_{i}_name` and `accord_{i}_width`. */
  datatype Slot = Slot(name: string, width: Width)

  const BlankSlot := Slot("", Empty)

  /** The five slots, slot i (1-based, as in the field names) at position i - 1. */
  type Slots = s: seq<Slot> | |s| == 5
    witness [BlankSlot, BlankSlot, BlankSlot, BlankSlot, BlankSlot]

  /** A snapshot of the whole `form` state object. */
  datatype Form = Form(
    name: string,
    brand: BrandChoice,
    topNotes: seq<string>,
    middleNotes: seq<string>,
    baseNotes: seq<string>,
    slots: Slots)

  /** What `onSubmit` receives: the form spread, plus `fragrance_notes`. */
  datatype Submission = Submission(form: Form, fragranceNotes: seq<string>)

  /** An entry of the list that `getActiveAccords` builds (`index` is 1-based). */
  datatype ActiveAccord = ActiveAccord(index: nat, name: string, width: Width)

  /** The argument pair `(field, value)` of `handleFormChange`. */
  datatype FormEdit =
    | SetName(name: string)
    | SetBrand(brand: BrandChoice)
    | SetTopNotes(notes: seq<string>)
    | SetMiddleNotes(notes: seq<string>)
    | SetBaseNotes(notes: seq<string>)

  /** The `(field, value)` pair of `handleAccordChange`. */
  datatype AccordField = AccordName(name: string) | AccordWidth(width: Width)

  /** A slot is listed by `getActiveAccords` when its name or width is truthy. */
  predicate IsActive(s: Slot) {
    Truthy(s.name) || WidthTruthy(s.width)
  }

  function BlankForm(): Form {
    Form("", NoBrand, [], [], [], [BlankSlot, BlankSlot, BlankSlot, BlankSlot, BlankSlot])
  }

  // ---------------------------------------------------------------------------
  // Initialisation from the `perfume` prop
  // ---------------------------------------------------------------------------

  /** `perfume.brand_id || ''`. */
  function InitialBrand(id: Option<int>): (b: BrandChoice)
    ensures BrandTruthy(b) <==> id.Some? && id.value != 0
    ensures b.BrandId? ==> BrandTruthy(b) && b.id == id.value
  {
    if id.Some? && id.value != 0 then BrandId(id.value) else NoBrand
  }

  /** `accord_{i}_name || ''` and `accord_{i}_width || ''` for one stored pair. */
  function InitialSlot(a: StoredAccord): (s: Slot)
    ensures a.name.Some? ==> s.name == a.name.value
    ensures a.name.None? ==> s.name == ""
    ensures WidthTruthy(s.width) <==> a.width.Some? && a.width.value != 0.0
    ensures s.width.Num? ==> WidthTruthy(s.width) && s.width.r == a.width.value
  {
    Slot(OrEmptyString(a.name),
         if a.width.Some? && a.width.value != 0.0 then Num(a.width.value) else Empty)
  }

  /** The form the effect on `[perfume, open]` sets: blank without a perfume,
      otherwise each field copied from the perfume when truthy and defaulted
      otherwise. A stored width of 0 is falsy and therefore comes back as `''`. */
  function InitialForm(perfume: Option<Perfume>): (f: Form)
    ensures perfume.None? ==> f == BlankForm()
    ensures forall k :: 0 <= k < 5 ==> f.slots[k].width != Num(0.0)
    ensures perfume.Some? ==>
      var p := perfume.value;
      && f.name == (if p.name.Some? then p.name.value else "")
      && f.brand == InitialBrand(p.brandId)
      && f.topNotes == (if p.topNotes.Some? then p.topNotes.value else [])
      && f.middleNotes == (if p.middleNotes.Some? then p.middleNotes.value else [])
      && f.baseNotes == (if p.baseNotes.Some? then p.baseNotes.value else [])
      && (forall k :: 0 <= k < 5 ==> f.slots[k] == InitialSlot(p.accords[k]))
    ensures perfume.Some? ==>
      && (Truthy(f.name) <==> perfume.value.name.Some? && Truthy(perfume.value.name.value))
      && (BrandTruthy(f.brand) <==> perfume.value.brandId.Some? && perfume.value.brandId.value != 0)
      && (forall k :: 0 <= k < 5 ==>
            (IsActive(f.slots[k]) <==>
               (perfume.value.accords[k].name.Some? && Truthy(perfume.value.accords[k].name.value))
               || (perfume.value.accords[k].width.Some? && perfume.value.accords[k].width.value != 0.0)))
  {
    match perfume
    case None => BlankForm()
    case Some(p) =>
      Form(OrEmptyString(p.name), InitialBrand(p.brandId),
           OrEmptyList(p.topNotes), OrEmptyList(p.middleNotes), OrEmptyList(p.baseNotes),
           [InitialSlot(p.accords[0]), InitialSlot(p.accords[1]), InitialSlot(p.accords[2]),
            InitialSlot(p.accords[3]), InitialSlot(p.accords[4])])
  }

  /** The record of a perfume whose stored fields hold exactly the values of `f`. */
  function RecordOf(f: Form): Perfume {
    Perfume(Some(f.name),
            if f.brand.BrandId? then Some(f.brand.id) else None,
            Some(f.topNotes), Some(f.middleNotes), Some(f.baseNotes),
            NotAnArray, None,
            [StoredOf(f.slots[0]), StoredOf(f.slots[1]), StoredOf(f.slots[2]),
             StoredOf(f.slots[3]), StoredOf(f.slots[4])])
  }

  function StoredOf(s: Slot): StoredAccord {
    StoredAccord(Some(s.name), if s.width.Num? then Some(s.width.r) else None)
  }

  /** Editing a perfume that stores exactly the values of a form gives back
      that form, provided no width and no brand id is the falsy number 0. */
  lemma ReloadRoundTrip(f: Form)
    requires f.brand != BrandId(0)
    requires forall k :: 0 <= k < 5 ==> f.slots[k].width != Num(0.0)
    ensures InitialForm(Some(RecordOf(f))) == f
  {
    var g := InitialForm(Some(RecordOf(f)));
    forall k | 0 <= k < 5
      ensures g.slots[k] == f.slots[k]
    {
      assert g.slots[k] == InitialSlot(StoredOf(f.slots[k]));
    }
    assert g.slots == f.slots;
  }

  /** A width of 0 does not survive a reload: it comes back as `''`. */
  lemma ZeroWidthLostOnReload(f: Form, k: nat)
    requires k < 5 && f.slots[k].width == Num(0.0)
    ensures InitialForm(Some(RecordOf(f))).slots[k].width == Empty
    ensures InitialForm(Some(RecordOf(f))) != f
  {
    assert InitialForm(Some(RecordOf(f))).slots[k] == InitialSlot(StoredOf(f.slots[k]));
  }

  // ---------------------------------------------------------------------------
  // Submission
  // ---------------------------------------------------------------------------

  /** `[...].filter(Boolean)` on a list of strings: drops the empty strings. */
  function Compact(s: seq<string>): (r: seq<string>)
    ensures forall n :: n in r <==> n in s && Truthy(n)
    ensures forall n :: Truthy(n) ==> multiset(r)[n] == multiset(s)[n]
    ensures (forall n :: n in s ==> Truthy(n)) ==> r == s
  {
    if s == [] then []
    else
      assert s == [s[0]] + s[1..];
      if Truthy(s[0]) then [s[0]] + Compact(s[1..]) else Compact(s[1..])
  }

  /** Filtering a concatenation filters each part, keeping the parts' order. */
  lemma {:induction false} CompactAppend(a: seq<string>, b: seq<string>)
    ensures Compact(a + b) == Compact(a) + Compact(b)
  {
    if a == [] {
      assert a + b == b;
    } else {
      var ab := a + b;
      assert ab[1..] == a[1..] + b;
      assert ab[0] == a[0];
      CompactAppend(a[1..], b);
      if Truthy(a[0]) {
        calc {
          Compact(ab);
          [a[0]] + Compact(a[1..] + b);
          [a[0]] + (Compact(a[1..]) + Compact(b));
          ([a[0]] + Compact(a[1..])) + Compact(b);
        }
      } else {
        assert Compact(ab) == Compact(a[1..] + b);
      }
    }
  }

  /** `handleSubmit`: nothing is submitted unless `name` and `brand_id` are
      truthy; otherwise the whole form goes out unchanged, with
      `fragrance_notes` the non-empty top, middle and base notes in that
      order, duplicates kept. */
  function Submit(f: Form): (r: Option<Submission>)
    ensures r.None? <==> !Truthy(f.name) || !BrandTruthy(f.brand)
    ensures r.Some? ==> r.value.form == f
    ensures r.Some? ==>
      r.value.fragranceNotes == Compact(f.topNotes) + Compact(f.middleNotes) + Compact(f.baseNotes)
  {
    if !Truthy(f.name) || !BrandTruthy(f.brand) then None
    else
      CompactAppend(f.topNotes, f.middleNotes);
      CompactAppend(f.topNotes + f.middleNotes, f.baseNotes);
      Some(Submission(f, Compact(f.topNotes + f.middleNotes + f.baseNotes)))
  }

  /** No deduplication: a note that occurs in several groups is submitted once per occurrence. */
  lemma SubmittedNoteCount(f: Form, n: string)
    requires Truthy(n) && Submit(f).Some?
    ensures multiset(Submit(f).value.fragranceNotes)[n]
         == multiset(f.topNotes)[n] + multiset(f.middleNotes)[n] + multiset(f.baseNotes)[n]
  {
    var r := Submit(f).value.fragranceNotes;
    assert r == Compact(f.topNotes) + Compact(f.middleNotes) + Compact(f.baseNotes);
    assert multiset(r) == multiset(Compact(f.topNotes)) + multiset(Compact(f.middleNotes))
                          + multiset(Compact(f.baseNotes));
  }

  // ---------------------------------------------------------------------------
  // Active accords and the free slot
  // ---------------------------------------------------------------------------

  /** The active entries among slots 1..n, in ascending slot order. */
  function ActiveUpTo(s: Slots, n: nat): seq<ActiveAccord>
    requires n <= 5
  {
    if n == 0 then []
    else ActiveUpTo(s, n - 1)
         + (if IsActive(s[n - 1]) then [ActiveAccord(n, s[n - 1].name, s[n - 1].width)] else [])
  }

  /** What `getActiveAccords` returns for the slots `s`. */
  function ActiveAccords(s: Slots): seq<ActiveAccord> {
    ActiveUpTo(s, 5)
  }

  /** `a` is the entry for an active slot, carrying that slot's name and width. */
  predicate ListsSlot(s: Slots, a: ActiveAccord) {
    1 <= a.index <= 5 && IsActive(s[a.index - 1])
    && a == ActiveAccord(a.index, s[a.index - 1].name, s[a.index - 1].width)
  }

  /** Every entry among slots 1..n is the entry of an active slot with index at most n. */
  lemma {:induction false} ActiveUpToSound(s: Slots, n: nat)
    requires n <= 5
    ensures forall a :: a in ActiveUpTo(s, n) ==> a.index <= n && ListsSlot(s, a)
  {
    if n > 0 {
      ActiveUpToSound(s, n - 1);
    }
  }

  /** Every active slot among 1..n has an entry. */
  lemma {:induction false} ActiveUpToComplete(s: Slots, n: nat)
    requires n <= 5
    ensures forall i :: 0 <= i < n && IsActive(s[i]) ==>
      ActiveAccord(i + 1, s[i].name, s[i].width) in ActiveUpTo(s, n)
  {
    if n > 0 {
      ActiveUpToComplete(s, n - 1);
      assert ActiveUpTo(s, n - 1) <= ActiveUpTo(s, n);
    }
  }

  /** Entries among slots 1..n have strictly increasing indexes. */
  lemma {:induction false} ActiveUpToIncreasing(s: Slots, n: nat)
    requires n <= 5
    ensures forall k, l :: 0 <= k < l < |ActiveUpTo(s, n)| ==>
      ActiveUpTo(s, n)[k].index < ActiveUpTo(s, n)[l].index
  {
    if n > 0 {
      ActiveUpToIncreasing(s, n - 1);
      ActiveUpToSound(s, n - 1);
      var prev := ActiveUpTo(s, n - 1);
      assert forall k :: 0 <= k < |prev| ==> prev[k] in prev;
    }
  }

  /** Slots 1..n give n entries exactly when all of them are active, and never more. */
  lemma {:induction false} ActiveUpToLength(s: Slots, n: nat)
    requires n <= 5
    ensures |ActiveUpTo(s, n)| <= n
    ensures |ActiveUpTo(s, n)| == n <==> forall j :: 0 <= j < n ==> IsActive(s[j])
  {
    if n > 0 {
      ActiveUpToLength(s, n - 1);
    }
  }

  /** `getActiveAccords` lists exactly the active slots, each once with its
      name and width, in ascending order of index, so never more than five. */
  lemma ActiveAccordsSpec(s: Slots)
    ensures |ActiveAccords(s)| <= 5
    ensures forall a :: a in ActiveAccords(s) ==> ListsSlot(s, a)
    ensures forall i :: 0 <= i < 5 ==>
      (IsActive(s[i]) <==> ActiveAccord(i + 1, s[i].name, s[i].width) in ActiveAccords(s))
    ensures forall k, l :: 0 <= k < l < |ActiveAccords(s)| ==>
      ActiveAccords(s)[k].index < ActiveAccords(s)[l].index
  {
    ActiveUpToSound(s, 5);
    ActiveUpToComplete(s, 5);
    ActiveUpToIncreasing(s, 5);
    ActiveUpToLength(s, 5);
  }

  /** Putting an inactive value into an inactive slot leaves the active list as it was. */
  lemma {:induction false} ReplaceInactiveKeepsActive(s: Slots, k: nat, t: Slot, n: nat)
    requires k < 5 && n <= 5
    requires !IsActive(s[k]) && !IsActive(t)
    ensures ActiveUpTo(s[k := t], n) == ActiveUpTo(s, n)
  {
    if n > 0 {
      ReplaceInactiveKeepsActive(s, k, t, n - 1);
    }
  }

  /** Blanking slot k removes index k + 1 from the active list and keeps every other entry. */
  lemma RemoveAccordEffect(s: Slots, k: nat)
    requires k < 5
    ensures forall a :: a in ActiveAccords(s[k := BlankSlot]) ==> a.index != k + 1
    ensures forall a :: a in ActiveAccords(s) && a.index != k + 1 ==> a in ActiveAccords(s[k := BlankSlot])
  {
    var t: Slots := s[k := BlankSlot];
    ActiveAccordsSpec(s);
    ActiveAccordsSpec(t);
    forall a | a in ActiveAccords(s) && a.index != k + 1
      ensures a in ActiveAccords(t)
    {
      var i := a.index - 1;
      assert t[i] == s[i];
      assert ActiveAccord(i + 1, t[i].name, t[i].width) in ActiveAccords(t);
    }
  }

  /** The first slot (0-based) at or after `from` that is not active. */
  function FirstInactiveFrom(s: Slots, from: nat): (r: Option<nat>)
    requires from <= 5
    decreases 5 - from
    ensures r.Some? ==>
      && from <= r.value < 5
      && !IsActive(s[r.value])
      && (forall j :: from <= j < r.value ==> IsActive(s[j]))
    ensures r.None? ==> forall j :: from <= j < 5 ==> IsActive(s[j])
  {
    if from == 5 then None
    else if !IsActive(s[from]) then Some(from)
    else FirstInactiveFrom(s, from + 1)
  }

  /** The slot `addAccord` writes into: the first one whose name and width are both falsy. */
  function FirstInactive(s: Slots): Option<nat> {
    FirstInactiveFrom(s, 0)
  }

  /** The "add accord" button is shown (fewer than five active accords)
      exactly when `addAccord` finds a free slot. */
  lemma AddButtonShownIffFreeSlot(s: Slots)
    ensures |ActiveAccords(s)| < 5 <==> FirstInactive(s).Some?
  {
    ActiveUpToLength(s, 5);
  }

  // ---------------------------------------------------------------------------
  // The form state and its handlers
  // ---------------------------------------------------------------------------

  /** The `form` state object: scalar fields and the five accord slots. */
  class FormState {
    var name: string
    var brand: BrandChoice
    var topNotes: seq<string>
    var middleNotes: seq<string>
    var baseNotes: seq<string>
    const slots: array<Slot>

    ghost predicate Valid()
      reads this
    {
      slots.Length == 5
    }

    /** The state as one value. */
    function Snapshot(): Form
      reads this, slots
      requires Valid()
    {
      Form(name, brand, topNotes, middleNotes, baseNotes, slots[..])
    }

    /** The initial `useState` value: every field `''` or `[]`. */
    constructor ()
      ensures Valid() && fresh(slots)
      ensures Snapshot() == BlankForm()
    {
      name, brand := "", NoBrand;
      topNotes, middleNotes, baseNotes := [], [], [];
      slots := new Slot[5](_ => BlankSlot);
    }

    /** The effect run when `perfume` or `open` changes. */
    method Initialize(perfume: Option<Perfume>)
      requires Valid()
      modifies this, slots
      ensures Valid()
      ensures Snapshot() == InitialForm(perfume)
    {
      var f := InitialForm(perfume);
      name, brand := f.name, f.brand;
      topNotes, middleNotes, baseNotes := f.topNotes, f.middleNotes, f.baseNotes;
      forall k | 0 <= k < 5 {
        slots[k] := f.slots[k];
      }
    }

    /** `handleFormChange(field, value)`: sets the one named field. */
    method HandleFormChange(edit: FormEdit)
      requires Valid()
      modifies this
      ensures Valid()
      ensures name == (if edit.SetName? then edit.name else old(name))
      ensures brand == (if edit.SetBrand? then edit.brand else old(brand))
      ensures topNotes == (if edit.SetTopNotes? then edit.notes else old(topNotes))
      ensures middleNotes == (if edit.SetMiddleNotes? then edit.notes else old(middleNotes))
      ensures baseNotes == (if edit.SetBaseNotes? then edit.notes else old(baseNotes))
      ensures slots[..] == old(slots[..])
    {
      match edit
      case SetName(n) => name := n;
      case SetBrand(b) => brand := b;
      case SetTopNotes(ns) => topNotes := ns;
      case SetMiddleNotes(ns) => middleNotes := ns;
      case SetBaseNotes(ns) => baseNotes := ns;
    }

    /** `handleAccordChange(index, field, value)`: sets `accord_{index}_{field}`
        and nothing else. */
    method HandleAccordChange(index: nat, field: AccordField)
      requires Valid() && 1 <= index <= 5
      modifies slots
      ensures unchanged(this)
      ensures slots[index - 1] == match field
        case AccordName(n) => old(slots[index - 1]).(name := n)
        case AccordWidth(w) => old(slots[index - 1]).(width := w)
      ensures forall k :: 0 <= k < 5 && k != index - 1 ==> slots[k] == old(slots[k])
    {
      match field
      case AccordName(n) => slots[index - 1] := slots[index - 1].(name := n);
      case AccordWidth(w) => slots[index - 1] := slots[index - 1].(width := w);
    }

    /** The width field's `onChange`: the parsed value (None for NaN) is stored
        only when it lies in 0..100; otherwise the form stays as it was. */
    method EditAccordWidth(index: nat, parsed: Option<real>)
      requires Valid() && 1 <= index <= 5
      modifies slots
      ensures unchanged(this)
      ensures parsed.Some? && 0.0 <= parsed.value <= 100.0 ==>
        slots[..] == old(slots[..])[index - 1 := old(slots[index - 1]).(width := Num(parsed.value))]
      ensures !(parsed.Some? && 0.0 <= parsed.value <= 100.0) ==> slots[..] == old(slots[..])
    {
      if parsed.Some? && parsed.value >= 0.0 && parsed.value <= 100.0 {
        HandleAccordChange(index, AccordWidth(Num(parsed.value)));
      }
    }

    /** `removeAccord(index)`: blanks slot `index`, leaves the other four alone. */
    method RemoveAccord(index: nat)
      requires Valid() && 1 <= index <= 5
      modifies slots
      ensures unchanged(this)
      ensures slots[..] == old(slots[..])[index - 1 := BlankSlot]
    {
      HandleAccordChange(index, AccordName(""));
      HandleAccordChange(index, AccordWidth(Empty));
    }

    /** `addAccord`: blanks the first slot whose name and width are both
        falsy, if there is one, which never changes the active list. */
    method AddAccord()
      requires Valid()
      modifies slots
      ensures unchanged(this)
      ensures FirstInactive(old(slots[..])).None? ==> slots[..] == old(slots[..])
      ensures FirstInactive(old(slots[..])).Some? ==>
        slots[..] == old(slots[..])[FirstInactive(old(slots[..])).value := BlankSlot]
      ensures ActiveAccords(slots[..]) == old(ActiveAccords(slots[..]))
    {
      ghost var before: Slots := slots[..];
      var i := 1;
      while i <= 5
        invariant 1 <= i <= 6
        invariant slots[..] == before
        invariant forall j :: 0 <= j < i - 1 ==> IsActive(slots[j])
      {
        if !Truthy(slots[i - 1].name) && !WidthTruthy(slots[i - 1].width) {
          assert FirstInactiveFrom(before, i - 1) == Some(i - 1);
          FirstInactivePrefix(before, i - 1);
          HandleAccordChange(i, AccordName(""));
          HandleAccordChange(i, AccordWidth(Empty));
          assert slots[..] == before[i - 1 := BlankSlot];
          ReplaceInactiveKeepsActive(before, i - 1, BlankSlot, 5);
          break;
        }
        i := i + 1;
      }
      if i == 6 {
        FirstInactivePrefix(before, 5);
      }
    }

    /** `getActiveAccords`: scans slots 1..5 and pushes the active ones. */
    method GetActiveAccords() returns (accords: seq<ActiveAccord>)
      requires Valid()
      ensures accords == ActiveAccords(slots[..])
    {
      accords := [];
      var i := 1;
      while i <= 5
        invariant 1 <= i <= 6
        invariant accords == ActiveUpTo(slots[..], i - 1)
      {
        if Truthy(slots[i - 1].name) || WidthTruthy(slots[i - 1].width) {
          accords := accords + [ActiveAccord(i, slots[i - 1].name, slots[i - 1].width)];
        }
        i := i + 1;
      }
    }

    /** `handleSubmit`: the value passed to `onSubmit`, or None when it returns early. */
    method HandleSubmit() returns (submitted: Option<Submission>)
      requires Valid()
      ensures submitted == Submit(Snapshot())
    {
      if !Truthy(name) || !BrandTruthy(brand) {
        return None;
      }
      var allNotes := Compact(topNotes + middleNotes + baseNotes);
      submitted := Some(Submission(Snapshot(), allNotes));
    }
  }

  /** If every slot before `upTo` is active, the search from 0 gives the same answer as the search from `upTo`. */
  lemma {:induction false} FirstInactivePrefix(s: Slots, upTo: nat)
    requires upTo <= 5
    requires forall j :: 0 <= j < upTo ==> IsActive(s[j])
    ensures FirstInactive(s) == FirstInactiveFrom(s, upTo)
  {
    if upTo > 0 {
      FirstInactivePrefix(s, upTo - 1);
    }
  }
}
