/** Sorting numbers and what the k-th of them says. */
module Ranks {
  function CountAtLeast(s: seq<int>, v: int): (n: nat)
    ensures n <= |s|
  {
    if s == [] then 0 else CountAtLeast(s[..|s| - 1], v) + (if s[|s| - 1] >= v then 1 else 0)
  }

  function Insert(x: int, s: seq<int>): seq<int> {
    if s == [] || x <= s[0] then [x] + s else [s[0]] + Insert(x, s[1..])
  }

  function Sorted(s: seq<int>): seq<int> {
    if s == [] then [] else Insert(s[|s| - 1], Sorted(s[..|s| - 1]))
  }

  lemma {:induction false} InsertLength(x: int, s: seq<int>)
    ensures |Insert(x, s)| == |s| + 1
  {
    if s != [] && x > s[0] {
      InsertLength(x, s[1..]);
    }
  }

  lemma {:induction false} SortedLength(s: seq<int>)
    ensures |Sorted(s)| == |s|
  {
    if s != [] {
      SortedLength(s[..|s| - 1]);
      InsertLength(s[|s| - 1], Sorted(s[..|s| - 1]));
    }
  }

  predicate Ordered(s: seq<int>) {
    forall i, j | 0 <= i < j < |s| :: s[i] <= s[j]
  }

  lemma {:induction false} CountAppend(a: seq<int>, b: seq<int>, v: int)
    ensures CountAtLeast(a + b, v) == CountAtLeast(a, v) + CountAtLeast(b, v)
    decreases |b|
  {
    if b == [] {
      assert a + b == a;
    } else {
      assert (a + b)[..|a + b| - 1] == a + b[..|b| - 1];
      CountAppend(a, b[..|b| - 1], v);
    }
  }

  lemma {:induction false} InsertKeeps(x: int, s: seq<int>, v: int)
    requires Ordered(s)
    ensures Ordered(Insert(x, s))
    ensures CountAtLeast(Insert(x, s), v) == CountAtLeast(s, v) + CountAtLeast([x], v)
    ensures forall y <- Insert(x, s) :: y == x || y in s
  {
    if s == [] || x <= s[0] {
      CountAppend([x], s, v);
      PrependOrdered(x, s);
    } else {
      InsertKeeps(x, s[1..], v);
      assert [s[0]] + s[1..] == s;
      CountAppend([s[0]], s[1..], v);
      CountAppend([s[0]], Insert(x, s[1..]), v);
      forall y <- Insert(x, s[1..]) ensures s[0] <= y {
      }
      PrependOrdered(s[0], Insert(x, s[1..]));
    }
  }

  lemma PrependOrdered(x: int, s: seq<int>)
    requires Ordered(s) && forall y <- s :: x <= y
    ensures Ordered([x] + s)
  {
    var t := [x] + s;
    forall i, j | 0 <= i < j < |t| ensures t[i] <= t[j] {
      assert t[j] == s[j - 1];
      assert s[j - 1] in s;
      assert i > 0 ==> t[i] == s[i - 1];
    }
  }

  lemma {:induction false} SortedKeeps(s: seq<int>, v: int)
    ensures Ordered(Sorted(s)) && CountAtLeast(Sorted(s), v) == CountAtLeast(s, v)
  {
    if s != [] {
      var n := |s| - 1;
      SortedKeeps(s[..n], v);
      InsertKeeps(s[n], Sorted(s[..n]), v);
      assert CountAtLeast([s[n]], v) == if s[n] >= v then 1 else 0;
    }
  }

  /** In an ordered sequence the k-th value reaches `v` exactly when at most k
      values stay below it. */
  lemma {:induction false} NearestRank(s: seq<int>, k: nat, v: int)
    requires Ordered(s) && k < |s|
    ensures s[k] >= v <==> CountAtLeast(s, v) >= |s| - k
  {
    var n := |s| - 1;
    if k < n {
      NearestRank(s[..n], k, v);
      assert s[k] <= s[n];
    } else {
      assert s[..n] + [s[n]] == s;
      if s[n] < v {
        NoneAtLeast(s, v);
      }
    }
  }

  lemma {:induction false} NoneAtLeast(s: seq<int>, v: int)
    requires forall i | 0 <= i < |s| :: s[i] < v
    ensures CountAtLeast(s, v) == 0
  {
    if s != [] {
      NoneAtLeast(s[..|s| - 1], v);
    }
  }

  lemma RankOf(s: seq<int>, k: nat, v: int)
    requires k < |s|
    ensures |Sorted(s)| == |s|
    ensures Sorted(s)[k] >= v <==> CountAtLeast(s, v) >= |s| - k
  {
    SortedLength(s);
    SortedKeeps(s, v);
    NearestRank(Sorted(s), k, v);
  }
}
