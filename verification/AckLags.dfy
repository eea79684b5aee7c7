/** Acknowledgement lags of a read: how long ago each valid message was published, and
    what is reported of them. */
module AckLags {
  import opened Numbers
  import opened Ranks
  import opened QueueMirror

  /** The lags of the valid messages, in reading order. */
  function Lags(ms: seq<Message>, tick: int): seq<int> {
    if ms == [] then []
    else
      var m := ms[|ms| - 1];
      Lags(ms[..|ms| - 1], tick) + if m.valid then [tick - m.tick] else []
  }

  function Largest(lags: seq<int>): int {
    if lags == [] then 0
    else if |lags| == 1 then lags[0]
    else Max(Largest(lags[..|lags| - 1]), lags[|lags| - 1])
  }

  /** The place of a percentile among n ordered values. */
  function Place(n: nat, percentile: real): (i: nat)
    requires n > 0 && 0.0 <= percentile <= 1.0
    ensures i < n
  {
    var above := (n - 1) as real * percentile;
    assert above >= 0.0;
    Min(n - 1, (above + 0.999999).Floor)
  }

  /** `_percentile` */
  function Percentile(lags: seq<int>, percentile: real): int
    requires 0.0 <= percentile <= 1.0
  {
    if lags == [] then 0
    else
      SortedLength(lags);
      Sorted(lags)[Place(|lags|, percentile)]
  }

  /** A percentile reaches v exactly when at most as many lags as its place stay below v. */
  lemma PercentileReaches(lags: seq<int>, percentile: real, v: int)
    requires lags != [] && 0.0 <= percentile <= 1.0
    ensures Percentile(lags, percentile) >= v <==> CountAtLeast(lags, v) >= |lags| - Place(|lags|, percentile)
  {
    RankOf(lags, Place(|lags|, percentile), v);
  }

  // ---------------------------------------------------------------- lags of two values

  function Repeated(x: int, n: nat): (r: seq<int>)
    ensures |r| == n && forall k | 0 <= k < n :: r[k] == x
  {
    seq(n, k requires 0 <= k => x)
  }

  /** A number of lags of one value and then a number of a smaller one. */
  function Falling(high: int, x: nat, low: int, y: nat): (r: seq<int>)
    ensures |r| == x + y
  {
    Repeated(high, x) + Repeated(low, y)
  }

  lemma InsertLow(low: int, y: nat, high: int, x: nat)
    requires low <= high
    ensures Insert(low, Repeated(low, y) + Repeated(high, x)) == Repeated(low, y + 1) + Repeated(high, x)
  {
    var s := Repeated(low, y) + Repeated(high, x);
    assert s == [] || low <= s[0];
    assert [low] + s == Repeated(low, y + 1) + Repeated(high, x);
  }

  lemma {:induction false} OrderedFalling(high: int, x: nat, low: int, y: nat)
    requires low <= high
    ensures Sorted(Falling(high, x, low, y)) == Repeated(low, y) + Repeated(high, x)
    decreases y, x
  {
    var s := Falling(high, x, low, y);
    if y > 0 {
      assert s[..|s| - 1] == Falling(high, x, low, y - 1);
      OrderedFalling(high, x, low, y - 1);
      InsertLow(low, y - 1, high, x);
    } else if x > 0 {
      assert s[..|s| - 1] == Falling(high, x - 1, low, 0);
      OrderedFalling(high, x - 1, low, 0);
      InsertLow(high, x - 1, high, 0);
      assert Repeated(low, 0) + Repeated(high, x - 1) == Repeated(high, x - 1) + Repeated(high, 0);
      assert Repeated(low, 0) + Repeated(high, x) == Repeated(high, x) + Repeated(high, 0);
    }
  }

  /** Percentiles of such lags: the high value counts once its share is reached. */
  lemma PercentileFalling(high: int, x: nat, low: int, y: nat, percentile: real)
    requires low <= high && x + y > 0 && 0.0 <= percentile <= 1.0
    ensures Percentile(Falling(high, x, low, y), percentile) == if Place(x + y, percentile) < y then low else high
  {
    OrderedFalling(high, x, low, y);
  }

  lemma {:induction false} LargestFalling(high: int, x: nat, low: int, y: nat)
    requires low <= high && x + y > 0
    ensures Largest(Falling(high, x, low, y)) == if x > 0 then high else low
    decreases x + y
  {
    var s := Falling(high, x, low, y);
    if y > 0 {
      assert s[..|s| - 1] == Falling(high, x, low, y - 1);
      if x + y > 1 {
        LargestFalling(high, x, low, y - 1);
      }
    } else {
      assert s[..|s| - 1] == Falling(high, x - 1, low, 0);
      if x > 1 {
        LargestFalling(high, x - 1, low, 0);
      }
    }
  }

  lemma {:induction false} LagsAppend(a: seq<Message>, b: seq<Message>, tick: int)
    ensures Lags(a + b, tick) == Lags(a, tick) + Lags(b, tick)
    decreases |b|
  {
    if b == [] {
      assert a + b == a;
    } else {
      assert (a + b)[..|a + b| - 1] == a + b[..|b| - 1];
      LagsAppend(a, b[..|b| - 1], tick);
    }
  }

  lemma {:induction false} LagsOfValid(ms: seq<Message>, tick: int, lags: seq<int>)
    requires |lags| == |ms| && forall k | 0 <= k < |ms| :: ms[k].valid && lags[k] == tick - ms[k].tick
    ensures Lags(ms, tick) == lags
  {
    if ms != [] {
      var n := |ms| - 1;
      LagsOfValid(ms[..n], tick, lags[..n]);
      assert lags == lags[..n] + [lags[n]];
    }
  }

  lemma {:induction false} LagsOfInvalid(ms: seq<Message>, tick: int)
    requires forall k | 0 <= k < |ms| :: !ms[k].valid
    ensures Lags(ms, tick) == []
  {
    if ms != [] {
      LagsOfInvalid(ms[..|ms| - 1], tick);
    }
  }
}
