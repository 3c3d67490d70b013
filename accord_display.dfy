/** The accord bars of a perfume: which stored accord slots are shown, in
    which order, and in which colour. */
module AccordDisplay {
  import opened JsValues
  import opened PerfumeRecord

  /** An entry pushed by `getAccords`. */
  datatype Accord = Accord(name: string, width: real)

  /** A stored slot is shown when its name is truthy and its width is neither
      `null` nor `undefined`; a width of 0 is shown. */
  predicate Keeps(a: StoredAccord) {
    a.name.Some? && Truthy(a.name.value) && a.width.Some?
  }

  /** The kept slots among 1..n, in slot order (the array before sorting). */
  function KeptUpTo(s: StoredAccords, n: nat): seq<Accord>
    requires n <= 5
  {
    if n == 0 then []
    else KeptUpTo(s, n - 1)
         + (if Keeps(s[n - 1]) then [Accord(s[n - 1].name.value, s[n - 1].width.value)] else [])
  }

  /** The kept slots of a perfume in slot order. */
  function Kept(p: Perfume): seq<Accord> {
    KeptUpTo(p.accords, 5)
  }

  /** The entries among slots 1..n are exactly the kept slots' names and widths. */
  lemma {:induction false} KeptUpToSpec(s: StoredAccords, n: nat)
    requires n <= 5
    ensures |KeptUpTo(s, n)| <= n
    ensures forall x :: x in KeptUpTo(s, n) <==>
      exists i :: 0 <= i < n && Keeps(s[i]) && x == Accord(s[i].name.value, s[i].width.value)
  {
    if n > 0 {
      KeptUpToSpec(s, n - 1);
      forall y | y in KeptUpTo(s, n)
        ensures exists i :: 0 <= i < n && Keeps(s[i]) && y == Accord(s[i].name.value, s[i].width.value)
      {
        if y !in KeptUpTo(s, n - 1) {
          assert Keeps(s[n - 1]) && y == Accord(s[n - 1].name.value, s[n - 1].width.value);
        }
      }
    }
  }

  /** Slot i is shown, with its own name and width, exactly when it is kept;
      so at most five accords are shown. */
  lemma KeptSpec(p: Perfume)
    ensures |Kept(p)| <= 5
    ensures forall i :: 0 <= i < 5 && Keeps(p.accords[i]) ==>
      Accord(p.accords[i].name.value, p.accords[i].width.value) in Kept(p)
    ensures forall x :: x in Kept(p) ==>
      exists i :: 0 <= i < 5 && Keeps(p.accords[i])
                  && x == Accord(p.accords[i].name.value, p.accords[i].width.value)
  {
    KeptUpToSpec(p.accords, 5);
  }

  /** The 0-based positions among slots 1..n that `getAccords` keeps: each
      kept slot exactly once, in ascending order. */
  function KeptIndexesUpTo(s: StoredAccords, n: nat): (idx: seq<nat>)
    requires n <= 5
    ensures |idx| <= n
    ensures forall k :: 0 <= k < |idx| ==> idx[k] < n && Keeps(s[idx[k]])
    ensures forall k, l :: 0 <= k < l < |idx| ==> idx[k] < idx[l]
    ensures forall i :: 0 <= i < n && Keeps(s[i]) ==> i in idx
  {
    if n == 0 then []
    else KeptIndexesUpTo(s, n - 1) + (if Keeps(s[n - 1]) then [n - 1] else [])
  }

  /** The pushed array, entry by entry: its k-th entry is the k-th kept slot's
      name and width, so it has one entry per kept slot, duplicates included,
      in slot order. */
  lemma {:induction false} KeptUpToByIndexes(s: StoredAccords, n: nat)
    requires n <= 5
    ensures |KeptUpTo(s, n)| == |KeptIndexesUpTo(s, n)|
    ensures forall k :: 0 <= k < |KeptUpTo(s, n)| ==>
      var i := KeptIndexesUpTo(s, n)[k];
      KeptUpTo(s, n)[k] == Accord(s[i].name.value, s[i].width.value)
  {
    if n > 0 {
      KeptUpToByIndexes(s, n - 1);
    }
  }

  /** `Kept(p)` is the kept slots of `p`, one entry each, in slot order. */
  lemma KeptInSlotOrder(p: Perfume)
    ensures var idx := KeptIndexesUpTo(p.accords, 5);
      && |Kept(p)| == |idx|
      && (forall k :: 0 <= k < |idx| ==>
            Kept(p)[k] == Accord(p.accords[idx[k]].name.value, p.accords[idx[k]].width.value))
  {
    KeptUpToByIndexes(p.accords, 5);
  }

  /** A named slot whose width is 0 is still shown. */
  lemma ZeroWidthKept(p: Perfume, i: nat)
    requires i < 5
    requires p.accords[i].name.Some? && Truthy(p.accords[i].name.value)
    requires p.accords[i].width == Some(0.0)
    ensures Accord(p.accords[i].name.value, 0.0) in Kept(p)
  {
    KeptSpec(p);
  }

  // ---------------------------------------------------------------------------
  // `sort((a, b) => b.width - a.width)`: a stable sort, widest first
  // ---------------------------------------------------------------------------

  predicate SortedByWidthDesc(s: seq<Accord>) {
    forall i, j :: 0 <= i < j < |s| ==> s[i].width >= s[j].width
  }

  /** The entries of `s` whose width is `w`, in their order in `s`. */
  function WithWidth(s: seq<Accord>, w: real): seq<Accord> {
    if s == [] then []
    else (if s[0].width == w then [s[0]] else []) + WithWidth(s[1..], w)
  }

  /** Places `x` before the first entry no wider than it. */
  function Insert(x: Accord, t: seq<Accord>): (r: seq<Accord>)
    ensures multiset(r) == multiset(t) + multiset{x}
  {
    if t == [] then [x]
    else if x.width >= t[0].width then [x] + t
    else
      assert t == [t[0]] + t[1..];
      [t[0]] + Insert(x, t[1..])
  }

  /** An entry at least as wide as every entry of a sorted list can go in front of it. */
  lemma ConsSorted(y: Accord, t: seq<Accord>)
    requires SortedByWidthDesc(t)
    requires forall z :: z in t ==> z.width <= y.width
    ensures SortedByWidthDesc([y] + t)
  {
    var r := [y] + t;
    forall i, j | 0 <= i < j < |r| ensures r[i].width >= r[j].width {
      if i == 0 {
        assert r[j] == t[j - 1] && r[j] in t;
      } else {
        assert r[i] == t[i - 1] && r[j] == t[j - 1];
      }
    }
  }

  /** Inserting into a sorted list keeps it sorted. */
  lemma {:induction false} InsertSorted(x: Accord, t: seq<Accord>)
    requires SortedByWidthDesc(t)
    ensures SortedByWidthDesc(Insert(x, t))
  {
    if t == [] {
    } else if x.width >= t[0].width {
      forall z | z in t ensures z.width <= x.width {
        var k :| 0 <= k < |t| && t[k] == z;
      }
      ConsSorted(x, t);
    } else {
      var tail := t[1..];
      assert SortedByWidthDesc(tail);
      InsertSorted(x, tail);
      var rest := Insert(x, tail);
      forall z | z in rest ensures z.width <= t[0].width {
        assert z in multiset(rest);
        if z != x {
          var k :| 0 <= k < |tail| && tail[k] == z;
          assert t[k + 1] == z;
        }
      }
      ConsSorted(t[0], rest);
    }
  }

  /** The order `Array.prototype.sort` gives with the comparator
      `b.width - a.width`: widest first, and (sorting being stable) entries of
      equal width in their original order. */
  function SortByWidthDesc(s: seq<Accord>): (r: seq<Accord>)
    ensures SortedByWidthDesc(r)
    ensures multiset(r) == multiset(s)
  {
    if s == [] then []
    else
      assert s == [s[0]] + s[1..];
      var sortedTail := SortByWidthDesc(s[1..]);
      InsertSorted(s[0], sortedTail);
      Insert(s[0], sortedTail)
  }

  /** Inserting keeps every width class in order, with `x` at the front of its class. */
  lemma {:induction false} InsertStable(x: Accord, t: seq<Accord>, w: real)
    ensures WithWidth(Insert(x, t), w) == (if x.width == w then [x] else []) + WithWidth(t, w)
  {
    if t == [] {
    } else if x.width >= t[0].width {
      assert ([x] + t)[1..] == t;
    } else {
      InsertStable(x, t[1..], w);
      var rest := Insert(x, t[1..]);
      assert ([t[0]] + rest)[1..] == rest;
    }
  }

  /** The sort is stable: for every width, the entries of that width appear
      in the same order before and after sorting. */
  lemma {:induction false} SortStable(s: seq<Accord>, w: real)
    ensures WithWidth(SortByWidthDesc(s), w) == WithWidth(s, w)
  {
    if s != [] {
      SortStable(s[1..], w);
      InsertStable(s[0], SortByWidthDesc(s[1..]), w);
    }
  }

  /** `getAccords`: scans slots 1..5, pushes the kept ones, then sorts them. */
  method GetAccords(p: Perfume) returns (accords: seq<Accord>)
    ensures SortedByWidthDesc(accords)
    ensures multiset(accords) == multiset(Kept(p))
    ensures forall w :: WithWidth(accords, w) == WithWidth(Kept(p), w)
    ensures |accords| <= 5
  {
    var found: seq<Accord> := [];
    var i := 0;
    while i < 5
      invariant 0 <= i <= 5
      invariant found == KeptUpTo(p.accords, i)
      invariant |found| <= i
    {
      var slot := p.accords[i];  // accord_{i + 1}_name, accord_{i + 1}_width
      if slot.name.Some? && Truthy(slot.name.value) && slot.width.Some? {
        found := found + [Accord(slot.name.value, slot.width.value)];
      }
      i := i + 1;
    }
    accords := SortByWidthDesc(found);
    forall w ensures WithWidth(accords, w) == WithWidth(found, w) {
      SortStable(found, w);
    }
    assert |accords| == |multiset(accords)| == |multiset(found)| == |found|;
  }

  // ---------------------------------------------------------------------------
  // Colours and the rendered view
  // ---------------------------------------------------------------------------

  const AccordPalette: seq<string> := [
    "#ff6b6b", "#4ecdc4", "#45b7d1", "#96ceb4", "#feca57",
    "#ff9ff3", "#54a0ff", "#5f27cd", "#00d2d3", "#ff9f43"]

  /** `getAccordColor(index)`: the palette entry at `index` modulo its length. */
  function AccordColor(index: nat): (c: string)
    ensures c in AccordPalette
  {
    AccordPalette[index % |AccordPalette|]
  }

  /** Colours repeat with period ten and the first ten positions all differ. */
  lemma AccordColorCycle(i: nat, j: nat)
    ensures AccordColor(i + 10) == AccordColor(i)
    ensures i < j < 10 ==> AccordColor(i) != AccordColor(j)
  {
    assert (i + 10) % 10 == i % 10;
    if i < j < 10 {
      assert i % 10 == i && j % 10 == j;
      PaletteDistinct();
    }
  }

  /** The ten palette entries are pairwise different. */
  lemma PaletteDistinct()
    ensures forall i, j :: 0 <= i < j < |AccordPalette| ==> AccordPalette[i] != AccordPalette[j]
  {
    forall i, j | 0 <= i < j < |AccordPalette|
      ensures AccordPalette[i] != AccordPalette[j]
    {
      PalettePositionOf(i);
      PalettePositionOf(j);
    }
  }

  /** The position of a colour in the palette (9 for anything not among the first nine). */
  function PalettePosition(c: string): nat {
    if c == "#ff6b6b" then 0 else if c == "#4ecdc4" then 1 else if c == "#45b7d1" then 2
    else if c == "#96ceb4" then 3 else if c == "#feca57" then 4 else if c == "#ff9ff3" then 5
    else if c == "#54a0ff" then 6 else if c == "#5f27cd" then 7 else if c == "#00d2d3" then 8
    else 9
  }

  lemma PalettePositionOf(k: nat)
    requires k < 10
    ensures PalettePosition(AccordPalette[k]) == k
  {
    if k == 0 {} else if k == 1 {} else if k == 2 {} else if k == 3 {} else if k == 4 {}
    else if k == 5 {} else if k == 6 {} else if k == 7 {} else if k == 8 {} else {}
  }

  datatype AccordRow = AccordRow(accord: Accord, color: string)
  datatype AccordView = NoAccordInfo | AccordRows(rows: seq<AccordRow>)

  /** The component's output for the sorted accords: the "no accord info"
      message for an empty list, otherwise one row per accord, in order, coloured by position. */
  function RenderAccords(accords: seq<Accord>): (v: AccordView)
    ensures v.NoAccordInfo? <==> accords == []
    ensures v.AccordRows? ==>
      && |v.rows| == |accords|
      && forall k :: 0 <= k < |accords| ==> v.rows[k] == AccordRow(accords[k], AccordColor(k))
  {
    if |accords| == 0 then NoAccordInfo
    else AccordRows(seq(|accords|, k requires 0 <= k < |accords| => AccordRow(accords[k], AccordColor(k))))
  }

  /** Since at most five accords are shown, the rows of a perfume never share a colour. */
  lemma RowColorsDistinct(accords: seq<Accord>, k: nat, l: nat)
    requires |accords| <= 5
    requires RenderAccords(accords).AccordRows?
    requires k < l < |accords|
    ensures RenderAccords(accords).rows[k].color != RenderAccords(accords).rows[l].color
  {
    AccordColorCycle(k, l);
  }
}
