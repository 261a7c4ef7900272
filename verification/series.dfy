/** Column operations shared by every stage. Each mirrors one pandas
    `Series` operation on an index-aligned column; a missing cell (NaN) is
    `None`, and, as in pandas, any comparison involving a missing cell is
    false while arithmetic with one stays missing. */
module Series {
  import opened Wrappers

  /** Sum of a column, accumulated left to right. */
  function Sum(xs: seq<real>): real
  {
    if |xs| == 0 then 0.0 else Sum(xs[..|xs| - 1]) + xs[|xs| - 1]
  }

  /** Summing from the front gives the same total as summing from the back. */
  lemma {:induction false} SumFront(xs: seq<real>)
    requires |xs| > 0
    ensures Sum(xs) == xs[0] + Sum(xs[1..])
  {
    if |xs| > 1 {
      var ys := xs[..|xs| - 1];
      SumFront(ys);
      assert ys[1..] == xs[1..][..|xs| - 2];
    }
  }

  /** Extending a window by one cell at its right end adds that cell. */
  lemma SumExtend(xs: seq<real>, lo: nat, hi: nat)
    requires lo <= hi < |xs|
    ensures Sum(xs[lo..hi + 1]) == Sum(xs[lo..hi]) + xs[hi]
  {
    assert xs[lo..hi + 1][..hi - lo] == xs[lo..hi];
  }

  /** The sum of `n` copies of one value. */
  lemma {:induction false} SumConstant(xs: seq<real>, c: real)
    requires forall i :: 0 <= i < |xs| ==> xs[i] == c
    ensures Sum(xs) == |xs| as real * c
  {
    if |xs| > 0 {
      SumConstant(xs[..|xs| - 1], c);
    }
  }

  /** `Series.shift(1)`: each row sees the previous row's value; row 0 sees
      a missing value. */
  function Shift<T>(xs: seq<T>): (r: seq<Option<T>>)
    ensures |r| == |xs|
    ensures |xs| > 0 ==> r[0] == None
    ensures forall t {:trigger r[t]} :: 1 <= t < |xs| ==> r[t] == Some(xs[t - 1])
  {
    if |xs| == 0 then [] else [None] + seq(|xs| - 1, i requires 0 <= i < |xs| - 1 => Some(xs[i]))
  }

  /** `a < b` on possibly-missing cells. */
  predicate Less(a: Option<real>, b: Option<real>)
  {
    a.Some? && b.Some? && a.value < b.value
  }

  /** `a <= b` on possibly-missing cells. */
  predicate AtMost(a: Option<real>, b: Option<real>)
  {
    a.Some? && b.Some? && a.value <= b.value
  }

  /** Product of two possibly-missing cells; missing if either is. */
  function Times(a: Option<real>, b: Option<real>): Option<real>
  {
    if a.Some? && b.Some? then Some(a.value * b.value) else None
  }

  /** `Series.pct_change()`: relative change from the previous row, missing
      at row 0. Every row that serves as a divisor must be non-zero. */
  function PctChange(xs: seq<real>): (r: seq<Option<real>>)
    requires forall t :: 0 <= t < |xs| - 1 ==> xs[t] != 0.0
    ensures |r| == |xs|
    ensures |xs| > 0 ==> r[0] == None
    ensures forall t :: 1 <= t < |xs| ==> r[t].Some?
  {
    seq(|xs|, t requires 0 <= t < |xs| => if t == 0 then None else Some(xs[t] / xs[t - 1] - 1.0))
  }

  /** Compounding a row's relative change onto the previous value gives back
      the row's value: `pct_change` is inverted by growth. */
  lemma PctChangeGrows(xs: seq<real>, t: nat)
    requires forall t :: 0 <= t < |xs| - 1 ==> xs[t] != 0.0
    requires 1 <= t < |xs|
    ensures PctChange(xs)[t].Some?
    ensures xs[t] == xs[t - 1] * (1.0 + PctChange(xs)[t].value)
  {
    var ratio := xs[t] / xs[t - 1];
    assert 1.0 + PctChange(xs)[t].value == ratio;
  }

  /** The present cells of a column, in order (pandas' `skipna`). */
  function Present(xs: seq<Option<real>>): (r: seq<real>)
    ensures |r| <= |xs|
    ensures (forall t :: 0 <= t < |xs| ==> xs[t].Some?) ==> |r| == |xs|
  {
    if |xs| == 0 then []
    else if xs[|xs| - 1].Some? then Present(xs[..|xs| - 1]) + [xs[|xs| - 1].value]
    else Present(xs[..|xs| - 1])
  }

  /** Skipping the missing first cell of a `pct_change` column leaves one
      value per later row. */
  lemma PresentAfterFirst(xs: seq<Option<real>>)
    requires |xs| > 0 && xs[0].None?
    requires forall t :: 1 <= t < |xs| ==> xs[t].Some?
    ensures Present(xs) == Present(xs[1..])
    ensures |Present(xs)| == |xs| - 1
  {
    if |xs| > 1 {
      PresentAfterFirst(xs[..|xs| - 1]);
      assert xs[..|xs| - 1][1..] == xs[1..][..|xs| - 2];
    } else {
      assert xs[1..] == [];
    }
  }

  /** When no cell is missing, skipping missing cells keeps every value in
      place. */
  lemma {:induction false} PresentAllSome(xs: seq<Option<real>>)
    requires forall t :: 0 <= t < |xs| ==> xs[t].Some?
    ensures |Present(xs)| == |xs|
    ensures forall t :: 0 <= t < |xs| ==> Present(xs)[t] == xs[t].value
  {
    if |xs| > 0 {
      PresentAllSome(xs[..|xs| - 1]);
    }
  }

  /** The present cells of a `pct_change` column are its rows 1, 2, ... in
      order. */
  lemma PresentPctChange(xs: seq<real>)
    requires forall t :: 0 <= t < |xs| - 1 ==> xs[t] != 0.0
    requires |xs| > 0
    ensures |Present(PctChange(xs))| == |xs| - 1
    ensures forall k :: 0 <= k < |xs| - 1 ==> Present(PctChange(xs))[k] == PctChange(xs)[k + 1].value
  {
    var changes := PctChange(xs);
    PresentAfterFirst(changes);
    PresentAllSome(changes[1..]);
  }
}
