/** Evenly spaced sampling of an interval, as numpy's `linspace(start, stop, num)`
    does with its default `endpoint=True`: `num` values from `start` to `stop`,
    both ends included.  Arithmetic is over `real`, so no rounding is modelled. */
module Sampling {

  /** The distance between consecutive samples; a single sample (or none) has no spacing. */
  function Spacing(start: real, stop: real, n: nat): real
  {
    if n > 1 then (stop - start) / ((n - 1) as real) else 0.0
  }

  /** The `i`-th of `n` evenly spaced samples. */
  function Sample(start: real, stop: real, n: nat, i: nat): real
  {
    start + (i as real) * Spacing(start, stop, n)
  }

  /** `n` evenly spaced values from `start` to `stop`.  With `n == 1` this is
      `[start]` and with `n == 0` the empty sequence, as numpy returns. */
  function Linspace(start: real, stop: real, n: nat): (ts: seq<real>)
    ensures |ts| == n
    ensures n >= 1 ==> ts[0] == start
    ensures n >= 2 ==> ts[n - 1] == stop
    ensures forall i :: 0 <= i < n - 1 ==> ts[i + 1] - ts[i] == (stop - start) / ((n - 1) as real)
  {
    var ts := seq(n, i requires 0 <= i < n => Sample(start, stop, n, i));
    if n >= 2 then
      LastSample(start, stop, n);
      forall i | 0 <= i < n - 1
        ensures ts[i + 1] - ts[i] == (stop - start) / ((n - 1) as real)
      {
        SampleGap(start, stop, n, i);
      }
      ts
    else
      ts
  }

  /** Sampling from 0, the sample times are whole multiples of the spacing. */
  lemma SampleInstant(stop: real, n: nat, i: nat)
    requires 2 <= n && i < n
    ensures Linspace(0.0, stop, n)[i] == (i as real) * (stop / ((n - 1) as real))
  {
    assert Linspace(0.0, stop, n)[i] == Sample(0.0, stop, n, i);
  }

  lemma LastSample(start: real, stop: real, n: nat)
    requires n >= 2
    ensures Sample(start, stop, n, n - 1) == stop
  {
    var d := (n - 1) as real;
    assert d * ((stop - start) / d) == stop - start;
  }

  lemma SampleGap(start: real, stop: real, n: nat, i: nat)
    requires i + 1 < n
    ensures Sample(start, stop, n, i + 1) - Sample(start, stop, n, i) == (stop - start) / ((n - 1) as real)
  {
    var step := Spacing(start, stop, n);
    assert ((i + 1) as real) * step == (i as real) * step + step;
  }

  /** On an increasing interval the samples are in order and none goes past either end. */
  lemma LinspaceOrdered(start: real, stop: real, n: nat)
    requires start <= stop
    ensures forall i :: 0 <= i < n ==> start <= Linspace(start, stop, n)[i] <= stop
    ensures forall i, j :: 0 <= i <= j < n ==> Linspace(start, stop, n)[i] <= Linspace(start, stop, n)[j]
  {
    var ts := Linspace(start, stop, n);
    forall i, j | 0 <= i <= j < n
      ensures start <= ts[i] <= ts[j] <= stop
    {
      assert ts[i] == Sample(start, stop, n, i) && ts[j] == Sample(start, stop, n, j);
      SamplesOrdered(start, stop, n, i, j);
    }
  }

  lemma SamplesOrdered(start: real, stop: real, n: nat, i: nat, j: nat)
    requires start <= stop
    requires i <= j < n
    ensures start <= Sample(start, stop, n, i) <= Sample(start, stop, n, j) <= stop
  {
    var step := Spacing(start, stop, n);
    assert step >= 0.0;
    ScaledOrder(step, i, j, n);
    assert Sample(start, stop, n, i) == start + (i as real) * step;
    assert Sample(start, stop, n, j) == start + (j as real) * step;
    if n >= 2 {
      LastSample(start, stop, n);
      assert Sample(start, stop, n, n - 1) == start + ((n - 1) as real) * step;
      assert start + (j as real) * step <= start + ((n - 1) as real) * step;
    } else {
      assert j == 0 && i == 0;
    }
  }

  /** With a non-negative step, later samples lie further along, and none passes the last. */
  lemma ScaledOrder(step: real, i: nat, j: nat, n: nat)
    requires i <= j < n
    requires step >= 0.0
    ensures 0.0 <= (i as real) * step <= (j as real) * step <= ((n - 1) as real) * step
  {
    assert (j as real) * step - (i as real) * step == ((j - i) as real) * step;
    assert ((n - 1) as real) * step - (j as real) * step == ((n - 1 - j) as real) * step;
  }
}
