/**
 * Column values and the element-wise operations the script applies to
 * whole columns: comparison, logical and, subtraction, and selection of
 * the rows a boolean mask marks.
 */
module Series {
  import opened Results

  /** One spreadsheet cell: a monument count or a piece of text (a region name). */
  datatype Cell = Count(n: int) | Text(s: string)

  /** A missing column (Python's KeyError) or arithmetic on text (Python's TypeError). */
  datatype Error = MissingColumn(name: string) | NonNumeric

  predicate AllCounts(a: seq<Cell>) {
    forall i :: 0 <= i < |a| ==> a[i].Count?
  }

  /** `a > b` on two aligned columns; fails when either column holds text. */
  function Greater(a: seq<Cell>, b: seq<Cell>): (r: Result<seq<bool>, Error>)
    requires |a| == |b|
    ensures r.Success? <==> AllCounts(a) && AllCounts(b)
    ensures r.Failure? ==> r.error == NonNumeric
    ensures r.Success? ==> |r.value| == |a|
    ensures r.Success? ==> forall i :: 0 <= i < |a| ==> (r.value[i] <==> a[i].n > b[i].n)
  {
    if |a| == 0 then Success([])
    else if !(a[0].Count? && b[0].Count?) then Failure(NonNumeric)
    else
      var rest :- Greater(a[1..], b[1..]);
      Success([a[0].n > b[0].n] + rest)
  }

  /** `a - b` on two aligned columns; fails when either column holds text. */
  function Difference(a: seq<Cell>, b: seq<Cell>): (r: Result<seq<int>, Error>)
    requires |a| == |b|
    ensures r.Success? <==> AllCounts(a) && AllCounts(b)
    ensures r.Failure? ==> r.error == NonNumeric
    ensures r.Success? ==> |r.value| == |a|
    ensures r.Success? ==> forall i :: 0 <= i < |a| ==> r.value[i] == a[i].n - b[i].n
  {
    if |a| == 0 then Success([])
    else if !(a[0].Count? && b[0].Count?) then Failure(NonNumeric)
    else
      var rest :- Difference(a[1..], b[1..]);
      Success([a[0].n - b[0].n] + rest)
  }

  /** `a & b` on two aligned boolean masks. */
  function And(a: seq<bool>, b: seq<bool>): (r: seq<bool>)
    requires |a| == |b|
    ensures |r| == |a|
    ensures forall i :: 0 <= i < |a| ==> (r[i] <==> a[i] && b[i])
  {
    if |a| == 0 then [] else [a[0] && b[0]] + And(a[1..], b[1..])
  }

  predicate StrictlyIncreasing(p: seq<nat>) {
    forall j, k :: 0 <= j < k < |p| ==> p[j] < p[k]
  }

  /** The positions a mask marks, in increasing order. */
  function KeptIndices(mask: seq<bool>): (p: seq<nat>)
    ensures |p| <= |mask|
    ensures StrictlyIncreasing(p)
    ensures forall k :: 0 <= k < |p| ==> p[k] < |mask| && mask[p[k]]
    ensures forall i :: 0 <= i < |mask| ==> (i in p <==> mask[i])
  {
    if |mask| == 0 then []
    else
      var last := |mask| - 1;
      KeptIndices(mask[..last]) + (if mask[last] then [last] else [])
  }

  /** `xs[mask]`: the elements at the marked positions, in their original order. */
  function Select<T>(xs: seq<T>, mask: seq<bool>): (r: seq<T>)
    requires |xs| == |mask|
    ensures |r| == |KeptIndices(mask)|
    ensures forall k :: 0 <= k < |r| ==> r[k] == xs[KeptIndices(mask)[k]]
  {
    if |xs| == 0 then []
    else
      var last := |xs| - 1;
      Select(xs[..last], mask[..last]) + (if mask[last] then [xs[last]] else [])
  }

  /** An element survives the selection exactly when it sits at some marked position. */
  lemma SelectMembership<T>(xs: seq<T>, mask: seq<bool>, x: T)
    requires |xs| == |mask|
    ensures x in Select(xs, mask) <==> exists i :: 0 <= i < |xs| && mask[i] && xs[i] == x
  {
    var r, p := Select(xs, mask), KeptIndices(mask);
    if x in r {
      var k :| 0 <= k < |r| && r[k] == x;
      assert mask[p[k]] && xs[p[k]] == x;
    }
    if i :| 0 <= i < |xs| && mask[i] && xs[i] == x {
      var k :| 0 <= k < |p| && p[k] == i;
      assert r[k] == x;
    }
  }

  /** A mask that marks every position keeps everything. */
  lemma {:induction false} SelectAll<T>(xs: seq<T>, mask: seq<bool>)
    requires |xs| == |mask|
    requires forall i :: 0 <= i < |mask| ==> mask[i]
    ensures Select(xs, mask) == xs
  {
    if |xs| > 0 {
      var last := |xs| - 1;
      var init, flags := xs[..last], mask[..last];
      SelectAll(init, flags);
      calc {
        Select(xs, mask);
        Select(init, flags) + [xs[last]];
        init + [xs[last]];
        xs;
      }
    }
  }
}
