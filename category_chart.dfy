/**
 * The CategoryChart component of the Spring frontend: the total of the category sums, the entries
 * sorted in place by value, descending, and the pie segments laid out one after another around the
 * circle with a colour each.
 */
module CategoryChart {
  /** An `[name, value]` pair of `Object.entries(categories)`. */
  datatype Entry = Entry(name: string, value: real)

  datatype Segment = Segment(name: string, value: real, startAngle: real, endAngle: real, color: string)

  const Palette: seq<string> := ["#fbbf24", "#22c55e", "#ef4444", "#5843be", "#ec4899", "#8b5cf6", "#14b8a6", "#f97316"]

  /** Σ value, adding from the front as `reduce` does. */
  function Sum(s: seq<Entry>): real
  {
    if s == [] then 0.0 else Sum(s[..|s| - 1]) + s[|s| - 1].value
  }

  lemma SumStep(s: seq<Entry>, i: int)
    requires 0 <= i < |s|
    ensures Sum(s[..i + 1]) == Sum(s[..i]) + s[i].value
  {
    assert s[..i + 1][..i] == s[..i];
  }

  lemma {:induction false} SumConcat(a: seq<Entry>, b: seq<Entry>)
    ensures Sum(a + b) == Sum(a) + Sum(b)
    decreases |b|
  {
    if b != [] {
      var b' := b[..|b| - 1];
      assert (a + b)[..|a + b| - 1] == a + b';
      assert (a + b)[|a + b| - 1] == b[|b| - 1];
      SumConcat(a, b');
      assert Sum(a + b) == Sum(a + b') + b[|b| - 1].value;
      assert Sum(b) == Sum(b') + b[|b| - 1].value;
    } else {
      assert a + b == a;
    }
  }

  /** Taking out the entry at k takes its value out of the sum. */
  lemma SumWithout(t: seq<Entry>, k: int)
    requires 0 <= k < |t|
    ensures Sum(t) == Sum(t[..k] + t[k + 1..]) + t[k].value
  {
    var x := t[k];
    assert t == t[..k] + [x] + t[k + 1..];
    SumConcat(t[..k] + [x], t[k + 1..]);
    SumConcat(t[..k], [x]);
    SumConcat(t[..k], t[k + 1..]);
    assert Sum([x]) == x.value by {
      assert [x][..0] == [];
    }
  }

  lemma MultisetWithout(t: seq<Entry>, k: int)
    requires 0 <= k < |t|
    ensures multiset(t[..k] + t[k + 1..]) == multiset(t) - multiset{t[k]}
  {
    assert t == t[..k] + [t[k]] + t[k + 1..];
    assert multiset(t) == multiset(t[..k]) + multiset{t[k]} + multiset(t[k + 1..]);
  }

  /** Sums do not depend on the order of the entries. */
  lemma {:induction false} SumOfPermutation(s: seq<Entry>, t: seq<Entry>)
    requires multiset(s) == multiset(t)
    ensures Sum(s) == Sum(t)
    decreases |s|
  {
    if s == [] {
      assert |t| == |multiset(t)| == 0;
    } else {
      var x := s[|s| - 1];
      var init := s[..|s| - 1];
      assert s == init + [x];
      assert multiset(init) == multiset(s) - multiset{x};
      assert x in multiset(t);
      var k :| 0 <= k < |t| && t[k] == x;
      MultisetWithout(t, k);
      SumOfPermutation(init, t[..k] + t[k + 1..]);
      SumWithout(t, k);
    }
  }

  /** `Object.values(categories).reduce((sum, val) => sum + val, 0)` */
  method Total(entries: seq<Entry>) returns (total: real)
    ensures total == Sum(entries)
  {
    total := 0.0;
    var i := 0;
    while i < |entries|
      invariant 0 <= i <= |entries|
      invariant total == Sum(entries[..i])
    {
      SumStep(entries, i);
      total := total + entries[i].value;
      i := i + 1;
    }
    assert entries[..i] == entries;
  }

  predicate Descending(s: seq<Entry>)
  {
    forall i, j :: 0 <= i < j < |s| ==> s[i].value >= s[j].value
  }

  /** Descending over positions 0..n, leaving out position j, the element being moved. */
  predicate DescendingExcept(s: seq<Entry>, n: int, j: int)
    requires n < |s|
  {
    forall p, q :: 0 <= p < q <= n && p != j && q != j ==> s[p].value >= s[q].value
  }

  /** The moving element at j is larger than everything it has passed, up to n. */
  predicate AboveRest(s: seq<Entry>, j: int, n: int)
    requires 0 <= j && n < |s|
  {
    forall q :: j < q <= n ==> s[j].value > s[q].value
  }

  lemma SwapStep(s: seq<Entry>, j: int, n: int)
    requires 0 < j <= n < |s|
    requires DescendingExcept(s, n, j) && AboveRest(s, j, n) && s[j - 1].value < s[j].value
    ensures var t := s[j - 1 := s[j]][j := s[j - 1]];
            DescendingExcept(t, n, j - 1) && AboveRest(t, j - 1, n) && multiset(t) == multiset(s)
  {
    var t := s[j - 1 := s[j]][j := s[j - 1]];
    assert t == s[..j - 1] + [s[j], s[j - 1]] + s[j + 1..];
    assert s == s[..j - 1] + [s[j - 1], s[j]] + s[j + 1..];
  }

  lemma InsertionDone(s: seq<Entry>, j: int, n: int)
    requires 0 <= j <= n < |s|
    requires DescendingExcept(s, n, j) && AboveRest(s, j, n)
    requires j == 0 || s[j - 1].value >= s[j].value
    ensures forall p, q :: 0 <= p < q <= n ==> s[p].value >= s[q].value
  {
    forall p, q | 0 <= p < q <= n
      ensures s[p].value >= s[q].value
    {
      if q == j {
        if p < j - 1 {
          assert s[p].value >= s[j - 1].value;
        }
      }
    }
  }

  /** `categoryData.sort((a, b) => b.value - a.value)`, as an insertion sort by adjacent swaps. */
  method SortDescending(a: array<Entry>)
    modifies a
    ensures Descending(a[..])
    ensures multiset(a[..]) == multiset(old(a[..]))
  {
    var i := 0;
    while i < a.Length
      invariant 0 <= i <= a.Length
      invariant forall p, q :: 0 <= p < q < i ==> a[p].value >= a[q].value
      invariant multiset(a[..]) == multiset(old(a[..]))
    {
      var j := i;
      while j > 0 && a[j - 1].value < a[j].value
        invariant 0 <= j <= i
        invariant DescendingExcept(a[..], i, j) && AboveRest(a[..], j, i)
        invariant multiset(a[..]) == multiset(old(a[..]))
      {
        SwapStep(a[..], j, i);
        a[j - 1], a[j] := a[j], a[j - 1];
        j := j - 1;
      }
      InsertionDone(a[..], j, i);
      i := i + 1;
    }
  }

  /** The angle a value sweeps: its share of the total, in degrees. */
  function Sweep(value: real, total: real): real
    requires total != 0.0
  {
    value / total * 360.0
  }

  /** createArcPath's flag: '1' exactly when the arc is wider than a half circle. */
  function LargeArcFlag(startAngle: real, endAngle: real): (flag: string)
    ensures flag == "1" <==> endAngle - startAngle > 180.0
    ensures flag == "0" <==> endAngle - startAngle <= 180.0
  {
    if endAngle - startAngle <= 180.0 then "0" else "1"
  }

  lemma DivAtMostOne(x: real, s: real)
    requires 0.0 < s && x <= s
    ensures x / s <= 1.0
  {
  }

  lemma SweepAdds(a: real, b: real, total: real)
    requires total != 0.0
    ensures Sweep(a + b, total) == Sweep(a, total) + Sweep(b, total)
  {
  }

  /** Segment g is what the map builds for entry k: its name, value and colour, at the running angle. */
  predicate Placed(g: Segment, data: seq<Entry>, total: real, k: int)
    requires 0 <= k < |data| && total != 0.0
  {
    && g.name == data[k].name && g.value == data[k].value
    && g.color == Palette[k % |Palette|]
    && g.startAngle == Sweep(Sum(data[..k]), total)
    && g.endAngle == g.startAngle + Sweep(data[k].value, total)
  }

  /** Placed segments are contiguous: each starts where the one before it ends. */
  lemma PlacedAreContiguous(segments: seq<Segment>, data: seq<Entry>, total: real, k: int)
    requires |segments| == |data| && total != 0.0 && 0 < k < |data|
    requires Placed(segments[k - 1], data, total, k - 1) && Placed(segments[k], data, total, k)
    ensures segments[k].startAngle == segments[k - 1].endAngle
  {
    SumStep(data, k - 1);
    SweepAdds(Sum(data[..k - 1]), data[k - 1].value, total);
  }

  /** When the total is the sum of the entries, the last placed segment ends at 360 degrees. */
  lemma LastEndsAtFullCircle(g: Segment, data: seq<Entry>, total: real)
    requires |data| > 0 && total != 0.0 && total == Sum(data)
    requires Placed(g, data, total, |data| - 1)
    ensures g.endAngle == 360.0
  {
    var n := |data|;
    SumStep(data, n - 1);
    assert data[..n] == data;
    SweepAdds(Sum(data[..n - 1]), data[n - 1].value, total);
    assert g.endAngle == Sweep(Sum(data), total);
    FullShare(total);
  }

  /** The whole total sweeps the full circle. */
  lemma FullShare(total: real)
    requires total != 0.0
    ensures Sweep(total, total) == 360.0
  {
    assert total / total == 1.0;
  }

  /**
   * The segments map: each entry starts where the running angle stands, sweeps its share and takes
   * the palette colour of its position.
   */
  method Layout(data: seq<Entry>, total: real) returns (segments: seq<Segment>)
    requires total != 0.0
    ensures |segments| == |data|
    ensures forall i :: 0 <= i < |data| ==> Placed(segments[i], data, total, i)
    ensures |data| > 0 ==> segments[0].startAngle == 0.0
    ensures forall i :: 0 < i < |data| ==> segments[i].startAngle == segments[i - 1].endAngle
    ensures |data| > 0 && total == Sum(data) ==> segments[|data| - 1].endAngle == 360.0
  {
    var currentAngle := 0.0;
    segments := [];
    var i := 0;
    while i < |data|
      invariant 0 <= i <= |data| && |segments| == i
      invariant currentAngle == Sweep(Sum(data[..i]), total)
      invariant forall k :: 0 <= k < i ==> Placed(segments[k], data, total, k)
    {
      var angle := Sweep(data[i].value, total);
      var segment := Segment(data[i].name, data[i].value, currentAngle, currentAngle + angle, Palette[i % |Palette|]);
      assert Placed(segment, data, total, i);
      SumStep(data, i);
      SweepAdds(Sum(data[..i]), data[i].value, total);
      segments := segments + [segment];
      currentAngle := currentAngle + angle;
      i := i + 1;
    }
    forall k | 0 < k < |data|
      ensures segments[k].startAngle == segments[k - 1].endAngle
    {
      PlacedAreContiguous(segments, data, total, k);
    }
    if |data| > 0 {
      assert data[..0] == [];
      if total == Sum(data) {
        LastEndsAtFullCircle(segments[|data| - 1], data, total);
      }
    }
  }

  function EntriesOf(segments: seq<Segment>): (r: seq<Entry>)
    ensures |r| == |segments| && forall i :: 0 <= i < |r| ==> r[i] == Entry(segments[i].name, segments[i].value)
  {
    if segments == [] then [] else [Entry(segments[0].name, segments[0].value)] + EntriesOf(segments[1..])
  }

  /**
   * The whole chart: the entries, largest value first, as contiguous segments from 0 to 360 degrees.
   * A non-zero total is required; the component divides by it. A negative total is laid out as
   * well: the shares are then taken of that total, so an all-negative breakdown still fills the circle.
   */
  method Segments(categories: seq<Entry>) returns (segments: seq<Segment>)
    requires Sum(categories) != 0.0
    ensures multiset(EntriesOf(segments)) == multiset(categories)
    ensures Descending(EntriesOf(segments))
    ensures |segments| > 0 && segments[0].startAngle == 0.0 && segments[|segments| - 1].endAngle == 360.0
    ensures forall i :: 0 < i < |segments| ==> segments[i].startAngle == segments[i - 1].endAngle
    ensures forall i :: 0 <= i < |segments| ==> segments[i].color == Palette[i % |Palette|]
    ensures forall i :: 0 <= i < |segments| ==>
              segments[i].endAngle - segments[i].startAngle == Sweep(segments[i].value, Sum(categories))
    ensures forall i :: 0 <= i < |segments| ==> (LargeArcFlag(segments[i].startAngle, segments[i].endAngle) == "1" <==>
              Sweep(segments[i].value, Sum(categories)) > 180.0)
  {
    var total := Total(categories);
    var sorted := SortedCopy(categories);
    SumOfPermutation(sorted, categories);
    segments := Layout(sorted, total);
    LaidOut(segments, sorted, total);
  }

  /**
   * The entries built by `Object.entries(...).map(...)` are a fresh array, sorted in place by
   * descending value; the input is left alone.
   */
  method SortedCopy(categories: seq<Entry>) returns (sorted: seq<Entry>)
    ensures multiset(sorted) == multiset(categories)
    ensures Descending(sorted)
  {
    var data := new Entry[|categories|](k requires 0 <= k < |categories| => categories[k]);
    assert data[..] == categories;
    SortDescending(data);
    sorted := data[..];
  }

  /** What each placed segment carries: its entry, its colour, its sweep and its large-arc flag. */
  lemma LaidOut(segments: seq<Segment>, sorted: seq<Entry>, total: real)
    requires total != 0.0 && |segments| == |sorted|
    requires forall i :: 0 <= i < |sorted| ==> Placed(segments[i], sorted, total, i)
    ensures EntriesOf(segments) == sorted
    ensures forall i :: 0 <= i < |segments| ==> segments[i].color == Palette[i % |Palette|]
    ensures forall i :: 0 <= i < |segments| ==> segments[i].endAngle - segments[i].startAngle == Sweep(segments[i].value, total)
    ensures forall i :: 0 <= i < |segments| ==> (LargeArcFlag(segments[i].startAngle, segments[i].endAngle) == "1" <==>
              Sweep(segments[i].value, total) > 180.0)
  {
    assert EntriesOf(segments) == sorted;
  }

  /** Two entries of a sum of non-negative values add up to at most the sum. */
  lemma {:induction false} TwoBelowSum(s: seq<Entry>, i: int, j: int)
    requires forall k :: 0 <= k < |s| ==> s[k].value >= 0.0
    requires 0 <= i < j < |s|
    ensures s[i].value + s[j].value <= Sum(s)
    decreases |s|
  {
    var init := s[..|s| - 1];
    if j < |s| - 1 {
      TwoBelowSum(init, i, j);
    } else {
      OneBelowSum(init, i);
    }
  }

  lemma {:induction false} OneBelowSum(s: seq<Entry>, i: int)
    requires forall k :: 0 <= k < |s| ==> s[k].value >= 0.0
    requires 0 <= i < |s|
    ensures s[i].value <= Sum(s)
    decreases |s|
  {
    var init := s[..|s| - 1];
    if i < |s| - 1 {
      OneBelowSum(init, i);
    }
    NonNegativeSum(init);
  }

  lemma {:induction false} NonNegativeSum(s: seq<Entry>)
    requires forall k :: 0 <= k < |s| ==> s[k].value >= 0.0
    ensures Sum(s) >= 0.0
    decreases |s|
  {
    if s != [] {
      NonNegativeSum(s[..|s| - 1]);
    }
  }

  /** With non-negative values, no two segments can both be drawn with the large-arc flag. */
  lemma AtMostOneLargeArc(data: seq<Entry>, i: int, j: int)
    requires forall k :: 0 <= k < |data| ==> data[k].value >= 0.0
    requires Sum(data) > 0.0 && 0 <= i < j < |data|
    ensures !(LargeArcFlag(0.0, Sweep(data[i].value, Sum(data))) == "1" && LargeArcFlag(0.0, Sweep(data[j].value, Sum(data))) == "1")
  {
    TwoBelowSum(data, i, j);
    SweepAdds(data[i].value, data[j].value, Sum(data));
    DivAtMostOne(data[i].value + data[j].value, Sum(data));
  }
}
