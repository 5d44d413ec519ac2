/** The exchange sort that several detectors write out by hand
    (`for i { for j > i { if key(a[i]) > key(a[j]) { swap } } }`), and the
    split of a key-sorted sequence into runs of close neighbours. */
module Sorting {

  ghost predicate SortedBy<T>(s: seq<T>, key: T -> int)
  {
    forall p, q :: 0 <= p < q < |s| ==> key(s[p]) <= key(s[q])
  }

  /** Every key left of `i` is no larger than any key from `i` on. */
  ghost predicate Partitioned<T>(s: seq<T>, i: int, key: T -> int)
  {
    forall p, q :: 0 <= p < i <= q < |s| ==> key(s[p]) <= key(s[q])
  }

  /** `s[i]` holds a smallest key of `s[i..j]`. */
  ghost predicate SmallestAt<T>(s: seq<T>, i: int, j: int, key: T -> int)
    requires 0 <= i < |s|
  {
    forall k :: i < k < j && k < |s| ==> key(s[i]) <= key(s[k])
  }

  /** Sorts `a` in place by `key`, exactly as the nested swap loops of the
      sources do: after round `i`, `a[i]` holds a smallest key of `a[i..]`. */
  method ExchangeSort<T>(a: array<T>, key: T -> int)
    modifies a
    ensures SortedBy(a[..], key)
    ensures multiset(a[..]) == multiset(old(a[..]))
  {
    var n := a.Length;
    var i := 0;
    while i < n
      invariant 0 <= i <= n
      invariant SortedBy(a[..i], key)
      invariant Partitioned(a[..], i, key)
      invariant multiset(a[..]) == multiset(old(a[..]))
    {
      SmallestToFront(a, i, key);
      i := i + 1;
    }
    assert a[..i] == a[..];
  }

  /** One round of the outer loop: the inner `j` loop. */
  method SmallestToFront<T>(a: array<T>, i: int, key: T -> int)
    requires 0 <= i < a.Length
    requires SortedBy(a[..i], key) && Partitioned(a[..], i, key)
    modifies a
    ensures SortedBy(a[..i + 1], key) && Partitioned(a[..], i + 1, key)
    ensures multiset(a[..]) == multiset(old(a[..]))
  {
    var j := i + 1;
    while j < a.Length
      invariant i < j <= a.Length
      invariant SmallestAt(a[..], i, j, key)
      invariant a[..i] == old(a[..i])
      invariant Partitioned(a[..], i, key)
      invariant multiset(a[..]) == multiset(old(a[..]))
    {
      if key(a[i]) > key(a[j]) {
        ghost var before := a[..];
        Swap(a, i, j);
        SwapKeepsOrder(before, a[..], i, j, key);
      }
      j := j + 1;
    }
    RoundDone(a[..], i, key);
  }

  /** Swapping a smaller key from `j` into position `i` keeps `after[i]`
      the smallest of `i..j` and keeps the partition at `i`. */
  lemma SwapKeepsOrder<T>(before: seq<T>, after: seq<T>, i: int, j: int, key: T -> int)
    requires 0 <= i < j < |before| == |after|
    requires after[i] == before[j] && after[j] == before[i]
    requires forall k :: 0 <= k < |before| && k != i && k != j ==> after[k] == before[k]
    requires key(before[i]) > key(before[j])
    requires SmallestAt(before, i, j, key) && Partitioned(before, i, key)
    ensures SmallestAt(after, i, j + 1, key)
    ensures after[..i] == before[..i]
    ensures Partitioned(after, i, key)
  {
  }

  /** After the inner loop the sorted prefix grows by one. */
  lemma RoundDone<T>(s: seq<T>, i: int, key: T -> int)
    requires 0 <= i < |s|
    requires SortedBy(s[..i], key) && Partitioned(s, i, key) && SmallestAt(s, i, |s|, key)
    ensures SortedBy(s[..i + 1], key) && Partitioned(s, i + 1, key)
  {
  }

  method Swap<T>(a: array<T>, i: int, j: int)
    requires 0 <= i < j < a.Length
    modifies a
    ensures a[i] == old(a[j]) && a[j] == old(a[i])
    ensures forall k :: 0 <= k < a.Length && k != i && k != j ==> a[k] == old(a[k])
    ensures multiset(a[..]) == multiset(old(a[..]))
  {
    a[i], a[j] := a[j], a[i];
  }

  lemma AppendAssoc<T>(a: seq<T>, b: seq<T>, c: seq<T>)
    ensures a + (b + c) == (a + b) + c
  {
  }

  /** Concatenation of a sequence of clusters. */
  function Flatten<T>(ss: seq<seq<T>>): (r: seq<T>)
  {
    if ss == [] then [] else Flatten(ss[..|ss| - 1]) + ss[|ss| - 1]
  }

  lemma FlattenAppend<T>(ss: seq<seq<T>>, s: seq<T>)
    ensures Flatten(ss + [s]) == Flatten(ss) + s
  {
    assert (ss + [s])[..|ss|] == ss;
  }

  lemma {:induction false} FlattenConcat<T>(a: seq<seq<T>>, b: seq<seq<T>>)
    ensures Flatten(a + b) == Flatten(a) + Flatten(b)
    decreases |b|
  {
    if b == [] {
      assert a + b == a;
    } else {
      var b' := b[..|b| - 1];
      assert a + b == (a + b') + [b[|b| - 1]];
      FlattenAppend(a + b', b[|b| - 1]);
      FlattenConcat(a, b');
      FlattenAppend(b', b[|b| - 1]);
      assert b == b' + [b[|b| - 1]];
    }
  }

  /** The runs a left-to-right scan produces over `s`: the element at index
      `i > 0` joins the current run iff `near(s[i-1], s[i])`, otherwise it
      closes the current run and opens a new one. */
  function Runs<T>(s: seq<T>, near: (T, T) -> bool): (r: seq<seq<T>>)
    requires s != []
    ensures r != [] && |r| <= |s|
    decreases |s|
  {
    if |s| == 1 then [[s[0]]]
    else
      var prev := Runs(s[..|s| - 1], near);
      var last := s[|s| - 1];
      if near(s[|s| - 2], last) then prev[..|prev| - 1] + [prev[|prev| - 1] + [last]]
      else prev + [[last]]
  }

  /** Every run is non-empty, and the last run ends with the last element. */
  lemma {:induction false} RunsShape<T>(s: seq<T>, near: (T, T) -> bool)
    requires s != []
    ensures forall k :: 0 <= k < |Runs(s, near)| ==> Runs(s, near)[k] != []
    ensures Runs(s, near)[|Runs(s, near)| - 1] != []
    ensures Runs(s, near)[|Runs(s, near)| - 1][|Runs(s, near)[|Runs(s, near)| - 1]| - 1] == s[|s| - 1]
    decreases |s|
  {
    if |s| > 1 {
      var init := s[..|s| - 1];
      RunsShape(init, near);
      var prev := Runs(init, near);
      var last := s[|s| - 1];
      var r := Runs(s, near);
      if near(s[|s| - 2], last) {
        var n := |prev| - 1;
        assert r == prev[..n] + [prev[n] + [last]];
        assert forall k :: 0 <= k < n ==> r[k] == prev[k];
      } else {
        assert r == prev + [[last]];
        assert forall k :: 0 <= k < |prev| ==> r[k] == prev[k];
      }
    }
  }

  /** The runs partition `s`: concatenated they give `s` back. */
  lemma {:induction false} RunsFlatten<T>(s: seq<T>, near: (T, T) -> bool)
    requires s != []
    ensures Flatten(Runs(s, near)) == s
    decreases |s|
  {
    if |s| == 1 {
      FlattenAppend([], [s[0]]);
      assert [] + [[s[0]]] == [[s[0]]];
    } else {
      var init := s[..|s| - 1];
      assert init + [s[|s| - 1]] == s;
      RunsFlatten(init, near);
      RunsStep(s, near, Runs(init, near));
    }
  }

  lemma RunsStep<T>(s: seq<T>, near: (T, T) -> bool, prev: seq<seq<T>>)
    requires |s| > 1 && prev == Runs(s[..|s| - 1], near)
    ensures Flatten(Runs(s, near)) == Flatten(prev) + [s[|s| - 1]]
  {
    var last := s[|s| - 1];
    if near(s[|s| - 2], last) {
      FlattenJoin(prev, last, Runs(s, near));
    } else {
      FlattenAppend(prev, [last]);
    }
  }

  lemma FlattenJoin<T>(prev: seq<seq<T>>, last: T, r: seq<seq<T>>)
    requires prev != [] && r == prev[..|prev| - 1] + [prev[|prev| - 1] + [last]]
    ensures Flatten(r) == Flatten(prev) + [last]
  {
    var front := prev[..|prev| - 1];
    var tail := prev[|prev| - 1];
    assert prev == front + [tail];
    FlattenAppend(front, tail);
    FlattenAppend(front, tail + [last]);
  }

  /** Inside a run every neighbour pair is `near`. */
  ghost predicate Linked<T>(c: seq<T>, near: (T, T) -> bool)
  {
    forall i :: 0 < i < |c| ==> near(c[i - 1], c[i])
  }

  /** Extending a linked run by an element `near` its last one keeps it
      linked. */
  lemma LinkedExtend<T>(c: seq<T>, x: T, near: (T, T) -> bool)
    requires c != [] && Linked(c, near) && near(c[|c| - 1], x)
    ensures Linked(c + [x], near)
  {
    var t := c + [x];
    forall i | 0 < i < |t| ensures near(t[i - 1], t[i]) {
      if i < |c| {
        assert t[i - 1] == c[i - 1] && t[i] == c[i];
      }
    }
  }

  /** Runs are internally linked: inside a run every neighbour pair is
      `near`. */
  lemma {:induction false} RunsLinked<T>(s: seq<T>, near: (T, T) -> bool)
    requires s != []
    ensures forall k :: 0 <= k < |Runs(s, near)| ==> Linked(Runs(s, near)[k], near)
    decreases |s|
  {
    if |s| > 1 {
      var init := s[..|s| - 1];
      RunsLinked(init, near);
      var prev := Runs(init, near);
      var last := s[|s| - 1];
      var r := Runs(s, near);
      if near(s[|s| - 2], last) {
        var n := |prev| - 1;
        assert prev[n][|prev[n]| - 1] == s[|s| - 2];
        LinkedExtend(prev[n], last, near);
        assert r == prev[..n] + [prev[n] + [last]];
        forall k | 0 <= k < |r| ensures Linked(r[k], near) {
          if k < n {
            assert r[k] == prev[k];
          }
        }
      } else {
        assert r == prev + [[last]];
        forall k | 0 <= k < |r| ensures Linked(r[k], near) {
          if k < |prev| {
            assert r[k] == prev[k];
          }
        }
      }
    }
  }

  /** A new run starts exactly where the neighbour test fails: the last
      element of a run is never `near` the first element of the next one. */
  ghost predicate Breaks<T>(r: seq<seq<T>>, near: (T, T) -> bool)
    requires forall k :: 0 <= k < |r| ==> r[k] != []
  {
    forall k :: 0 < k < |r| ==> !near(r[k - 1][|r[k - 1]| - 1], r[k][0])
  }

  lemma {:induction false} RunsBreak<T>(s: seq<T>, near: (T, T) -> bool)
    requires s != []
    ensures forall k :: 0 <= k < |Runs(s, near)| ==> Runs(s, near)[k] != []
    ensures Breaks(Runs(s, near), near)
    decreases |s|
  {
    RunsShape(s, near);
    if |s| > 1 {
      var init := s[..|s| - 1];
      RunsBreak(init, near);
      RunsShape(init, near);
      var prev := Runs(init, near);
      var last := s[|s| - 1];
      if near(s[|s| - 2], last) {
        BreaksJoin(prev, last, Runs(s, near), near);
      } else {
        assert prev[|prev| - 1][|prev[|prev| - 1]| - 1] == s[|s| - 2];
        BreaksOpen(prev, last, Runs(s, near), near);
      }
    }
  }

  lemma BreaksJoin<T>(prev: seq<seq<T>>, last: T, r: seq<seq<T>>, near: (T, T) -> bool)
    requires prev != [] && forall k :: 0 <= k < |prev| ==> prev[k] != []
    requires Breaks(prev, near)
    requires r == prev[..|prev| - 1] + [prev[|prev| - 1] + [last]]
    ensures forall k :: 0 <= k < |r| ==> r[k] != []
    ensures Breaks(r, near)
  {
    var n := |prev| - 1;
    assert forall k :: 0 <= k < n ==> r[k] == prev[k];
    assert r[n][0] == prev[n][0];
  }

  lemma BreaksOpen<T>(prev: seq<seq<T>>, last: T, r: seq<seq<T>>, near: (T, T) -> bool)
    requires prev != [] && forall k :: 0 <= k < |prev| ==> prev[k] != []
    requires Breaks(prev, near)
    requires !near(prev[|prev| - 1][|prev[|prev| - 1]| - 1], last)
    requires r == prev + [[last]]
    ensures forall k :: 0 <= k < |r| ==> r[k] != []
    ensures Breaks(r, near)
  {
    assert forall k :: 0 <= k < |prev| ==> r[k] == prev[k];
  }

  lemma RunsPrefixStep<T>(s: seq<T>, i: int, near: (T, T) -> bool, done: seq<seq<T>>, current: seq<T>)
    requires 1 <= i < |s| && done + [current] == Runs(s[..i], near)
    ensures near(s[i - 1], s[i]) ==> done + [current + [s[i]]] == Runs(s[..i + 1], near)
    ensures !near(s[i - 1], s[i]) ==> (done + [current]) + [[s[i]]] == Runs(s[..i + 1], near)
  {
    var t := s[..i + 1];
    assert t[..|t| - 1] == s[..i];
    assert t[|t| - 2] == s[i - 1] && t[|t| - 1] == s[i];
    var prev := done + [current];
    assert prev[..|prev| - 1] == done && prev[|prev| - 1] == current;
  }

  /** The left-to-right scan itself: `done` holds the closed runs and
      `current` the run being extended. */
  method SplitRuns<T>(s: seq<T>, near: (T, T) -> bool) returns (runs: seq<seq<T>>)
    requires s != []
    ensures runs == Runs(s, near)
  {
    var done: seq<seq<T>> := [];
    var current := [s[0]];
    var i := 1;
    assert s[..1] == [s[0]];
    while i < |s|
      invariant 1 <= i <= |s|
      invariant done + [current] == Runs(s[..i], near)
    {
      RunsPrefixStep(s, i, near, done, current);
      if near(s[i - 1], s[i]) {
        current := current + [s[i]];
      } else {
        done := done + [current];
        current := [s[i]];
      }
      i := i + 1;
    }
    assert s[..i] == s;
    runs := done + [current];
  }

  /** `rs` cuts `s` into non-empty pieces, in order, each linked inside by
      `near` and broken from the next one: a description of the runs that
      does not say how they are computed. */
  ghost predicate RunsOf<T>(rs: seq<seq<T>>, s: seq<T>, near: (T, T) -> bool)
  {
    && (forall k :: 0 <= k < |rs| ==> rs[k] != [])
    && Flatten(rs) == s
    && (forall k :: 0 <= k < |rs| ==> Linked(rs[k], near))
    && Breaks(rs, near)
  }

  /** The scan's runs are runs in the sense of `RunsOf`. */
  lemma RunsAreRunsOf<T>(s: seq<T>, near: (T, T) -> bool)
    requires s != []
    ensures RunsOf(Runs(s, near), s, near)
  {
    RunsShape(s, near);
    RunsFlatten(s, near);
    RunsLinked(s, near);
    RunsBreak(s, near);
  }

  /** ... and they are the only ones: any cut of `s` that is linked inside
      and broken between its pieces is the scan's. */
  lemma {:induction false} RunsUnique<T>(rs: seq<seq<T>>, s: seq<T>, near: (T, T) -> bool)
    requires s != [] && RunsOf(rs, s, near)
    ensures rs == Runs(s, near)
    decreases |s|
  {
    var n := |rs| - 1;
    if |rs[n]| == 1 {
      DropSingle(rs, s, near);
      if |s| == 1 {
        assert rs == [[s[0]]];
      } else {
        RunsUnique(rs[..n], s[..|s| - 1], near);
        RunsOpen(rs, s, near);
      }
    } else {
      var rs' := rs[..n] + [rs[n][..|rs[n]| - 1]];
      DropFromLong(rs, s, near);
      RunsUnique(rs', s[..|s| - 1], near);
      RunsJoin(rs, rs', s, near);
    }
  }

  lemma RunsOpen<T>(rs: seq<seq<T>>, s: seq<T>, near: (T, T) -> bool)
    requires |s| > 1 && rs != [] && rs[|rs| - 1] == [s[|s| - 1]]
    requires rs[..|rs| - 1] == Runs(s[..|s| - 1], near) && !near(s[|s| - 2], s[|s| - 1])
    ensures rs == Runs(s, near)
  {
    assert rs == rs[..|rs| - 1] + [rs[|rs| - 1]];
  }

  lemma RunsJoin<T>(rs: seq<seq<T>>, rs': seq<seq<T>>, s: seq<T>, near: (T, T) -> bool)
    requires |s| > 1 && rs != [] && |rs'| == |rs| && rs[|rs| - 1] != []
    requires rs' == rs[..|rs| - 1] + [rs[|rs| - 1][..|rs[|rs| - 1]| - 1]]
    requires rs[|rs| - 1] == rs'[|rs| - 1] + [s[|s| - 1]]
    requires rs' == Runs(s[..|s| - 1], near) && near(s[|s| - 2], s[|s| - 1])
    ensures rs == Runs(s, near)
  {
    var n := |rs| - 1;
    assert rs'[..n] == rs[..n];
    assert rs == rs[..n] + [rs[n]];
  }

  /** Dropping a last piece of one element leaves the runs of the rest, and
      that element was not `near` its predecessor. */
  lemma DropSingle<T>(rs: seq<seq<T>>, s: seq<T>, near: (T, T) -> bool)
    requires s != [] && RunsOf(rs, s, near) && rs != [] && |rs[|rs| - 1]| == 1
    ensures Flatten(rs[..|rs| - 1]) == s[..|s| - 1]
    ensures rs[|rs| - 1] == [s[|s| - 1]]
    ensures |s| > 1 ==> RunsOf(rs[..|rs| - 1], s[..|s| - 1], near)
    ensures |s| > 1 ==> !near(s[|s| - 2], s[|s| - 1])
  {
    var n := |rs| - 1;
    var front := rs[..n];
    assert rs == front + [rs[n]];
    FlattenAppend(front, rs[n]);
    if |s| > 1 {
      assert front != [];
      assert Flatten(front) == Flatten(front[..n - 1]) + front[n - 1];
      assert front[n - 1][|front[n - 1]| - 1] == s[|s| - 2];
      assert !near(rs[n - 1][|rs[n - 1]| - 1], rs[n][0]);
      assert forall k :: 0 <= k < n ==> front[k] == rs[k];
    }
  }

  /** Dropping the last element of a longer last piece leaves the runs of
      the rest, and that element was `near` its predecessor. */
  lemma DropFromLong<T>(rs: seq<seq<T>>, s: seq<T>, near: (T, T) -> bool)
    requires s != [] && RunsOf(rs, s, near) && rs != [] && |rs[|rs| - 1]| > 1
    ensures |s| > 1
    ensures RunsOf(rs[..|rs| - 1] + [rs[|rs| - 1][..|rs[|rs| - 1]| - 1]], s[..|s| - 1], near)
    ensures rs[|rs| - 1] == rs[|rs| - 1][..|rs[|rs| - 1]| - 1] + [s[|s| - 1]]
    ensures near(s[|s| - 2], s[|s| - 1])
  {
    var n := |rs| - 1;
    var front, piece := rs[..n], rs[n];
    var shorter := piece[..|piece| - 1];
    var rs' := front + [shorter];
    assert rs == front + [piece];
    FlattenAppend(front, piece);
    FlattenAppend(front, shorter);
    assert piece == shorter + [s[|s| - 1]];
    assert Flatten(rs') == s[..|s| - 1];
    forall k | 0 <= k < |rs'| ensures rs'[k] != [] && Linked(rs'[k], near) {
      if k < n {
        assert rs'[k] == rs[k];
      }
    }
    forall k | 0 < k < |rs'| ensures !near(rs'[k - 1][|rs'[k - 1]| - 1], rs'[k][0]) {
      assert rs'[k - 1] == rs[k - 1];
      assert rs'[k][0] == rs[k][0];
    }
    assert s[|s| - 2] == piece[|piece| - 2];
  }

  /** The runs of each block in turn, concatenated: the second pass of a
      two-pass clustering, which cuts every first-pass block on its own. */
  function RunsEach<T>(blocks: seq<seq<T>>, near: (T, T) -> bool): seq<seq<T>>
  {
    if blocks == [] then []
    else RunsEach(blocks[..|blocks| - 1], near)
         + (if blocks[|blocks| - 1] == [] then [] else Runs(blocks[|blocks| - 1], near))
  }

  lemma RunsEachSnoc<T>(blocks: seq<seq<T>>, b: seq<T>, near: (T, T) -> bool)
    requires b != []
    ensures RunsEach(blocks + [b], near) == RunsEach(blocks, near) + Runs(b, near)
  {
    assert (blocks + [b])[..|blocks|] == blocks;
  }

  lemma {:induction false} RunsEachPrefix<T>(blocks: seq<seq<T>>, j: int, near: (T, T) -> bool)
    requires 0 <= j <= |blocks|
    ensures RunsEach(blocks[..j], near) <= RunsEach(blocks, near)
    decreases |blocks|
  {
    if j < |blocks| {
      var init := blocks[..|blocks| - 1];
      assert init[..j] == blocks[..j];
      RunsEachPrefix(init, j, near);
    } else {
      assert blocks[..j] == blocks;
    }
  }

  /** The pieces the second pass makes of block `k` are the runs of that
      block and nothing else, so inside one block a piece ends exactly
      where neighbours are not `near`. */
  lemma RunsEachBlock<T>(blocks: seq<seq<T>>, k: int, near: (T, T) -> bool)
    requires 0 <= k < |blocks| && blocks[k] != []
    ensures |RunsEach(blocks[..k], near)| <= |RunsEach(blocks[..k + 1], near)| <= |RunsEach(blocks, near)|
    ensures RunsOf(RunsEach(blocks, near)[|RunsEach(blocks[..k], near)|..|RunsEach(blocks[..k + 1], near)|],
                   blocks[k], near)
  {
    var lo := RunsEach(blocks[..k], near);
    assert blocks[..k + 1] == blocks[..k] + [blocks[k]];
    RunsEachSnoc(blocks[..k], blocks[k], near);
    RunsEachPrefix(blocks, k + 1, near);
    var all := RunsEach(blocks, near);
    var hi := RunsEach(blocks[..k + 1], near);
    assert all[|lo|..|hi|] == hi[|lo|..] == Runs(blocks[k], near);
    RunsAreRunsOf(blocks[k], near);
  }

  /** The second pass keeps every element: its pieces concatenate to the
      blocks concatenated. */
  lemma {:induction false} RunsEachFlatten<T>(blocks: seq<seq<T>>, near: (T, T) -> bool)
    ensures Flatten(RunsEach(blocks, near)) == Flatten(blocks)
    ensures forall k :: 0 <= k < |RunsEach(blocks, near)| ==> RunsEach(blocks, near)[k] != []
    decreases |blocks|
  {
    if blocks != [] {
      var init, b := blocks[..|blocks| - 1], blocks[|blocks| - 1];
      RunsEachFlatten(init, near);
      assert blocks == init + [b];
      FlattenAppend(init, b);
      if b != [] {
        RunsEachSnoc(init, b, near);
        FlattenConcat(RunsEach(init, near), Runs(b, near));
        RunsFlatten(b, near);
        RunsShape(b, near);
        var r := RunsEach(blocks, near);
        forall k | 0 <= k < |r| ensures r[k] != [] {
          if k >= |RunsEach(init, near)| {
            assert r[k] == Runs(b, near)[k - |RunsEach(init, near)|];
          }
        }
      } else {
        assert RunsEach(blocks, near) == RunsEach(init, near);
        assert Flatten(blocks) == Flatten(init) + b;
        assert Flatten(init) + b == Flatten(init);
      }
    }
  }

  /** Blocks equal as multisets one by one concatenate to equal multisets. */
  lemma {:induction false} FlattenBlockwise<T>(a: seq<seq<T>>, b: seq<seq<T>>)
    requires |a| == |b| && forall k :: 0 <= k < |a| ==> multiset(a[k]) == multiset(b[k])
    ensures multiset(Flatten(a)) == multiset(Flatten(b))
    decreases |a|
  {
    if a != [] {
      FlattenBlockwise(a[..|a| - 1], b[..|b| - 1]);
    }
  }

  /** Non-empty clusters are never more numerous than their elements. */
  lemma {:induction false} FlattenLength<T>(ss: seq<seq<T>>)
    requires forall k :: 0 <= k < |ss| ==> ss[k] != []
    ensures |ss| <= |Flatten(ss)|
  {
    if ss != [] {
      FlattenLength(ss[..|ss| - 1]);
    }
  }

  /** Every element of the concatenation comes from one of the clusters. */
  lemma {:induction false} InFlatten<T>(ss: seq<seq<T>>, x: T)
    requires x in Flatten(ss)
    ensures exists k :: 0 <= k < |ss| && x in ss[k]
  {
    var init := ss[..|ss| - 1];
    if x !in ss[|ss| - 1] {
      InFlatten(init, x);
      var k :| 0 <= k < |init| && x in init[k];
      assert x in ss[k];
    }
  }

  /** Appending the sub-clusters of the next block keeps the collected
      elements equal, as a multiset, to the blocks consumed so far. */
  lemma FlattenStep<T>(clusters: seq<seq<T>>, ys: seq<seq<T>>, blocks: seq<seq<T>>, k: int)
    requires 0 <= k < |blocks|
    requires multiset(Flatten(clusters)) == multiset(Flatten(blocks[..k]))
    requires multiset(Flatten(ys)) == multiset(blocks[k])
    ensures multiset(Flatten(clusters + ys)) == multiset(Flatten(blocks[..k + 1]))
  {
    FlattenConcatMultiset(clusters, ys);
    FlattenPrefixMultiset(blocks, k);
  }

  lemma FlattenConcatMultiset<T>(a: seq<seq<T>>, b: seq<seq<T>>)
    ensures multiset(Flatten(a + b)) == multiset(Flatten(a)) + multiset(Flatten(b))
  {
    FlattenConcat(a, b);
  }

  lemma FlattenPrefixMultiset<T>(blocks: seq<seq<T>>, k: int)
    requires 0 <= k < |blocks|
    ensures multiset(Flatten(blocks[..k + 1])) == multiset(Flatten(blocks[..k])) + multiset(blocks[k])
  {
    assert blocks[..k + 1][..k] == blocks[..k];
  }

  /** Python's stable `sorted(s, key=key, reverse=True)`: best key first,
      equal keys in input order. Built by insertion from the back. */
  function SortDesc<T>(s: seq<T>, key: T -> real): (r: seq<T>)
    ensures |r| == |s|
  {
    if s == [] then []
    else InsertDesc(s[|s| - 1], SortDesc(s[..|s| - 1], key), key)
  }

  /** Inserts `x` after every element whose key is at least its own. */
  function InsertDesc<T>(x: T, s: seq<T>, key: T -> real): (r: seq<T>)
    ensures |r| == |s| + 1
  {
    if s == [] then [x]
    else if key(s[0]) >= key(x) then [s[0]] + InsertDesc(x, s[1..], key)
    else [x] + s
  }

  ghost predicate SortedDesc<T>(s: seq<T>, key: T -> real)
  {
    forall a, b :: 0 <= a < b < |s| ==> key(s[a]) >= key(s[b])
  }

  lemma {:induction false} InsertDescPerm<T>(x: T, s: seq<T>, key: T -> real)
    ensures multiset(InsertDesc(x, s, key)) == multiset(s) + multiset{x}
  {
    if s != [] && key(s[0]) >= key(x) {
      assert s == [s[0]] + s[1..];
      InsertDescPerm(x, s[1..], key);
    }
  }

  /** No key of `s` exceeds `b`. */
  ghost predicate AllAtMost<T>(s: seq<T>, key: T -> real, b: real)
  {
    forall k :: 0 <= k < |s| ==> key(s[k]) <= b
  }

  /** No key of `s` is below `b`. */
  ghost predicate AllAtLeast<T>(s: seq<T>, key: T -> real, b: real)
  {
    forall k :: 0 <= k < |s| ==> key(s[k]) >= b
  }

  lemma {:induction false} InsertDescBounded<T>(x: T, s: seq<T>, key: T -> real, b: real)
    requires AllAtMost(s, key, b) && key(x) <= b
    ensures AllAtMost(InsertDesc(x, s, key), key, b)
  {
    if s != [] && key(s[0]) >= key(x) {
      InsertDescBounded(x, s[1..], key, b);
    }
  }

  lemma {:induction false} InsertDescSorted<T>(x: T, s: seq<T>, key: T -> real)
    requires SortedDesc(s, key)
    ensures SortedDesc(InsertDesc(x, s, key), key)
  {
    if s != [] && key(s[0]) >= key(x) {
      var tail := s[1..];
      InsertDescSorted(x, tail, key);
      InsertDescBounded(x, tail, key, key(s[0]));
      ConsSorted(s[0], InsertDesc(x, tail, key), key);
    }
  }

  lemma ConsSorted<T>(h: T, r: seq<T>, key: T -> real)
    requires SortedDesc(r, key) && AllAtMost(r, key, key(h))
    ensures SortedDesc([h] + r, key)
  {
  }

  /** The sorted list is ordered best first and is a permutation. */
  lemma {:induction false} SortDescSpec<T>(s: seq<T>, key: T -> real)
    ensures SortedDesc(SortDesc(s, key), key)
    ensures multiset(SortDesc(s, key)) == multiset(s)
  {
    if s != [] {
      assert s == s[..|s| - 1] + [s[|s| - 1]];
      SortDescSpec(s[..|s| - 1], key);
      InsertDescSorted(s[|s| - 1], SortDesc(s[..|s| - 1], key), key);
      InsertDescPerm(s[|s| - 1], SortDesc(s[..|s| - 1], key), key);
    }
  }

  /** The elements of `s` that satisfy `keep`, in order (a list
      comprehension with a condition). */
  function Filter<T>(s: seq<T>, keep: T -> bool): (r: seq<T>)
    ensures |r| <= |s|
  {
    if s == [] then []
    else Filter(s[..|s| - 1], keep) + (if keep(s[|s| - 1]) then [s[|s| - 1]] else [])
  }

  lemma {:induction false} FilterSpec<T>(s: seq<T>, keep: T -> bool)
    ensures forall x :: x in Filter(s, keep) <==> x in s && keep(x)
    ensures multiset(Filter(s, keep)) <= multiset(s)
  {
    if s != [] {
      assert s == s[..|s| - 1] + [s[|s| - 1]];
      FilterSpec(s[..|s| - 1], keep);
    }
  }

  lemma {:induction false} FilterKeepsAll<T>(s: seq<T>, keep: T -> bool)
    requires forall x :: x in s ==> keep(x)
    ensures Filter(s, keep) == s
  {
    if s != [] {
      assert s == s[..|s| - 1] + [s[|s| - 1]];
      FilterKeepsAll(s[..|s| - 1], keep);
    }
  }

  lemma {:induction false} FilterAtLeast<T>(s: seq<T>, keep: T -> bool, key: T -> real, b: real)
    requires AllAtLeast(s, key, b)
    ensures AllAtLeast(Filter(s, keep), key, b)
  {
    if s != [] {
      FilterAtLeast(s[..|s| - 1], keep, key, b);
    }
  }

  /** Filtering keeps a best-first order. */
  lemma {:induction false} FilterSortedDesc<T>(s: seq<T>, keep: T -> bool, key: T -> real)
    requires SortedDesc(s, key)
    ensures SortedDesc(Filter(s, keep), key)
  {
    if s != [] {
      var init := s[..|s| - 1];
      FilterSortedDesc(init, keep, key);
      FilterAtLeast(init, keep, key, key(s[|s| - 1]));
      SnocSorted(Filter(init, keep), s[|s| - 1], key);
    }
  }

  lemma SnocSorted<T>(r: seq<T>, x: T, key: T -> real)
    requires SortedDesc(r, key) && AllAtLeast(r, key, key(x))
    ensures SortedDesc(r + [x], key)
  {
  }
}
