/** The bounded history of recent velocities (`mVelocities`) and its rolling average. */
module VelocityHistory {

  /** MAX_VELOCITIES: how many recent velocities the average is taken over. */
  const MAX_VELOCITIES: nat := 10

  /** Sum of the entries, accumulated from the front as the source's loop does. */
  function Sum(s: seq<real>): real {
    if |s| == 0 then 0.0 else Sum(s[..|s| - 1]) + s[|s| - 1]
  }

  /** Arithmetic mean of the entries; 0 for an empty history. */
  function Average(s: seq<real>): real {
    if |s| == 0 then 0.0 else Sum(s) / |s| as real
  }

  /** getAverage: sums the list in a loop and divides by its size. */
  method GetAverage(values: seq<real>) returns (average: real)
    ensures average == Average(values)
    ensures values == [] ==> average == 0.0
  {
    var sum := 0.0;
    if |values| != 0 {
      var i := 0;
      while i < |values|
        invariant 0 <= i <= |values|
        invariant sum == Sum(values[..i])
      {
        assert values[..i + 1][..i] == values[..i];
        sum := sum + values[i];
        i := i + 1;
      }
      assert values[..|values|] == values;
      return sum / |values| as real;
    }
    return sum;
  }

  /** Every entry lies in [lo, hi]. */
  predicate AllWithin(s: seq<real>, lo: real, hi: real) {
    forall i :: 0 <= i < |s| ==> lo <= s[i] <= hi
  }

  lemma {:induction false} SumWithin(s: seq<real>, lo: real, hi: real)
    requires AllWithin(s, lo, hi)
    ensures |s| as real * lo <= Sum(s) <= |s| as real * hi
  {
    if |s| > 0 {
      var init := s[..|s| - 1];
      assert AllWithin(init, lo, hi) by {
        forall i | 0 <= i < |init| ensures lo <= init[i] <= hi {
          assert init[i] == s[i];
        }
      }
      SumWithin(init, lo, hi);
      assert lo <= s[|s| - 1] <= hi;
    }
  }

  /** The rolling average never leaves the range spanned by the history it averages. */
  lemma AverageWithin(s: seq<real>, lo: real, hi: real)
    requires |s| > 0
    requires AllWithin(s, lo, hi)
    ensures lo <= Average(s) <= hi
  {
    SumWithin(s, lo, hi);
    var n := |s| as real;
    assert Average(s) * n == Sum(s);
  }

  /** The newest MAX_VELOCITIES entries of s (all of s when it is shorter). */
  function Newest(s: seq<real>): (r: seq<real>)
    ensures |r| == if |s| <= MAX_VELOCITIES then |s| else MAX_VELOCITIES
    ensures r == s[|s| - |r|..]
  {
    if |s| <= MAX_VELOCITIES then s else s[|s| - MAX_VELOCITIES..]
  }

  /** Appending a velocity: when the history is full, its oldest entry is removed
      first (`remove(0)`), then the new one is added at the end (`add`). */
  function Pushed(history: seq<real>, v: real): (r: seq<real>)
    ensures |r| > 0 && r[|r| - 1] == v
    ensures |history| <= MAX_VELOCITIES ==> |r| <= MAX_VELOCITIES
  {
    if |history| == MAX_VELOCITIES then history[1..] + [v] else history + [v]
  }

  /** With a history that respects the bound, one push keeps exactly the newest
      MAX_VELOCITIES entries. */
  lemma PushedKeepsNewest(history: seq<real>, v: real)
    requires |history| <= MAX_VELOCITIES
    ensures Pushed(history, v) == Newest(history + [v])
  {
  }

  /** The history after a run of accepted wheel events appending vs in order. */
  function PushAll(history: seq<real>, vs: seq<real>): seq<real>
    decreases |vs|
  {
    if vs == [] then history else PushAll(Pushed(history, vs[0]), vs[1..])
  }

  lemma NewestOfNewest(a: seq<real>, b: seq<real>)
    ensures Newest(Newest(a) + b) == Newest(a + b)
  {
    var n := Newest(a);
    assert n == a[|a| - |n|..];
    assert n + b == (a + b)[|a| - |n|..];
  }

  /** However many velocities are appended, the history is exactly the newest
      MAX_VELOCITIES of them (after whatever was there before). */
  lemma {:induction false} PushAllKeepsNewest(history: seq<real>, vs: seq<real>)
    requires |history| <= MAX_VELOCITIES
    ensures PushAll(history, vs) == Newest(history + vs)
    ensures |PushAll(history, vs)| == if |history| + |vs| <= MAX_VELOCITIES then |history| + |vs| else MAX_VELOCITIES
    decreases |vs|
  {
    if vs != [] {
      var next := Pushed(history, vs[0]);
      calc {
        PushAll(history, vs);
        PushAll(next, vs[1..]);
        { PushAllKeepsNewest(next, vs[1..]); }
        Newest(next + vs[1..]);
        { PushedKeepsNewest(history, vs[0]); NewestOfNewest(history + [vs[0]], vs[1..]); }
        Newest(history + [vs[0]] + vs[1..]);
        { assert history + [vs[0]] + vs[1..] == history + vs; }
        Newest(history + vs);
      }
    }
  }
}
