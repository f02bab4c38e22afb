/**
 * Python's `sorted(xs, key=...)` as a stable insertion sort over a total preorder,
 * and the flattening of a sequence of groups (what iterating over
 * `itertools.groupby` and then over each group visits).
 */
module Sorting {

  /** `le` is total and transitive: the order `sorted` needs to be deterministic. */
  ghost predicate TotalPreorder<T(!new)>(le: (T, T) -> bool) {
    (forall a, b :: le(a, b) || le(b, a)) &&
    (forall a, b, c :: le(a, b) && le(b, c) ==> le(a, c))
  }

  predicate SortedBy<T>(s: seq<T>, le: (T, T) -> bool) {
    forall i, j :: 0 <= i < j < |s| ==> le(s[i], s[j])
  }

  /** Places `x` in front of the first element it does not exceed. */
  function Insert<T(!new)>(x: T, s: seq<T>, le: (T, T) -> bool): (r: seq<T>)
    ensures multiset(r) == multiset(s) + multiset{x}
  {
    if s == [] then [x]
    else if le(x, s[0]) then [x] + s
    else
      assert s == [s[0]] + s[1..];
      [s[0]] + Insert(x, s[1..], le)
  }

  lemma {:induction false} InsertSorted<T(!new)>(x: T, s: seq<T>, le: (T, T) -> bool)
    requires TotalPreorder(le) && SortedBy(s, le)
    ensures SortedBy(Insert(x, s, le), le)
  {
    if s != [] {
      if le(x, s[0]) {
        forall j | 0 < j < |s| ensures le(x, s[j]) {
          assert le(s[0], s[j]);
        }
      } else {
        var rest := Insert(x, s[1..], le);
        InsertSorted(x, s[1..], le);
        assert le(s[0], x);
        forall k | 0 <= k < |rest| ensures le(s[0], rest[k]) {
          assert rest[k] in multiset(rest);
          if rest[k] != x {
            assert rest[k] in s[1..];
          }
        }
        var r := [s[0]] + rest;
        forall i, j | 0 <= i < j < |r| ensures le(r[i], r[j]) {
          if i > 0 {
            assert r[i] == rest[i - 1] && r[j] == rest[j - 1];
          } else {
            assert r[j] == rest[j - 1];
          }
        }
      }
    }
  }

  /** `sorted(s, key=...)`: a sorted permutation of `s`; equal elements keep their order. */
  function Sort<T(!new)>(s: seq<T>, le: (T, T) -> bool): (r: seq<T>)
    requires TotalPreorder(le)
    ensures |r| == |s|
    ensures multiset(r) == multiset(s)
    ensures SortedBy(r, le)
  {
    if s == [] then []
    else
      assert s == [s[0]] + s[1..];
      var rest := Sort(s[1..], le);
      InsertSorted(s[0], rest, le);
      var r := Insert(s[0], rest, le);
      assert |r| == |multiset(r)| == |s|;
      r
  }

  lemma SortedElementsIn<T(!new)>(s: seq<T>, le: (T, T) -> bool, x: T)
    requires TotalPreorder(le)
    ensures x in Sort(s, le) <==> x in s
  {
    assert x in Sort(s, le) <==> x in multiset(Sort(s, le));
  }

  // ----------------------------------------------------------------- Flatten

  function Flatten<T>(ss: seq<seq<T>>): (r: seq<T>)
  {
    if ss == [] then [] else ss[0] + Flatten(ss[1..])
  }

  lemma {:induction false} FlattenConcat<T>(a: seq<seq<T>>, b: seq<seq<T>>)
    ensures Flatten(a + b) == Flatten(a) + Flatten(b)
  {
    if a == [] {
      assert a + b == b;
    } else {
      assert (a + b)[1..] == a[1..] + b;
      FlattenConcat(a[1..], b);
    }
  }

  lemma FlattenSnoc<T>(a: seq<seq<T>>, x: seq<T>)
    ensures Flatten(a + [x]) == Flatten(a) + x
  {
    FlattenConcat(a, [x]);
    assert Flatten([x]) == x + Flatten([x][1..]);
  }

  /** Groups of equal lengths flatten to equal lengths, prefix by prefix. */
  lemma {:induction false} FlattenSameShape<T, U>(ss: seq<seq<T>>, ts: seq<seq<U>>, n: nat)
    requires n <= |ss| == |ts|
    requires forall i :: 0 <= i < |ss| ==> |ss[i]| == |ts[i]|
    ensures |Flatten(ss[..n])| == |Flatten(ts[..n])|
  {
    if n > 0 {
      FlattenSameShape(ss, ts, n - 1);
      FlattenTakeStep(ss, n - 1);
      FlattenTakeStep(ts, n - 1);
    }
  }

  /** Groups of equal lengths flatten to equal lengths. */
  lemma FlattenSameLength<T, U>(ss: seq<seq<T>>, ts: seq<seq<U>>)
    requires |ss| == |ts|
    requires forall i :: 0 <= i < |ss| ==> |ss[i]| == |ts[i]|
    ensures |Flatten(ss)| == |Flatten(ts)|
  {
    FlattenSameShape(ss, ts, |ss|);
    assert ss[..|ss|] == ss && ts[..|ts|] == ts;
  }

  /** One more group extends the flattened prefix by that group. */
  lemma FlattenTakeStep<T>(ss: seq<seq<T>>, i: nat)
    requires i < |ss|
    ensures Flatten(ss[..i + 1]) == Flatten(ss[..i]) + ss[i]
  {
    assert ss[..i + 1] == ss[..i] + [ss[i]];
    FlattenSnoc(ss[..i], ss[i]);
  }

  /** Taking all of a sequence. */
  lemma TakeAll<T>(s: seq<T>, n: nat)
    requires n == |s|
    ensures s[..n] == s
  {
  }

  /** A taken prefix extended by the next element is the next prefix. */
  lemma ExtendTaken<T>(s: seq<T>, n: nat, x: T)
    requires n < |s| && x == s[n]
    ensures s[..n] + [x] == s[..n + 1]
  {
    assert s[..n + 1] == s[..n] + [s[n]];
  }

  /** `f` applied to each element, told whether the element is the first. */
  function MapFirst<T, U>(g: seq<T>, f: (T, bool) -> U): (r: seq<U>)
    ensures |r| == |g|
    ensures forall j :: 0 <= j < |g| ==> r[j] == f(g[j], j == 0)
  {
    seq(|g|, j requires 0 <= j < |g| => f(g[j], j == 0))
  }

  /** `MapFirst` on every group. */
  function MapGroups<T, U>(ss: seq<seq<T>>, f: (T, bool) -> U): (r: seq<seq<U>>)
    ensures |r| == |ss|
    ensures forall i :: 0 <= i < |ss| ==> r[i] == MapFirst(ss[i], f)
  {
    seq(|ss|, i requires 0 <= i < |ss| => MapFirst(ss[i], f))
  }

  /** Element `idx` of group `gi` of the mapped groups sits where it sits in the flattening. */
  lemma FlattenMapIndex<T, U>(ss: seq<seq<T>>, f: (T, bool) -> U, gi: nat, idx: nat)
    requires gi < |ss| && idx < |ss[gi]|
    ensures var rs, k := Flatten(MapGroups(ss, f)), |Flatten(ss[..gi])| + idx;
      k < |rs| && rs[k] == f(ss[gi][idx], idx == 0)
  {
    var rss := MapGroups(ss, f);
    FlattenSameShape(rss, ss, gi);
    FlattenIndex(rss, gi, idx);
  }

  /** Mapping keeps the flattened length. */
  lemma FlattenMapLength<T, U>(ss: seq<seq<T>>, f: (T, bool) -> U)
    ensures |Flatten(MapGroups(ss, f))| == |Flatten(ss)|
  {
    FlattenSameLength(MapGroups(ss, f), ss);
  }

  /** Element `idx` of group `gi` sits at offset |Flatten(ss[..gi])| + idx of the flattening. */
  lemma FlattenIndex<T>(ss: seq<seq<T>>, gi: nat, idx: nat)
    requires gi < |ss| && idx < |ss[gi]|
    ensures |Flatten(ss[..gi])| + idx < |Flatten(ss)|
    ensures Flatten(ss)[|Flatten(ss[..gi])| + idx] == ss[gi][idx]
  {
    assert ss == ss[..gi] + ss[gi..];
    FlattenConcat(ss[..gi], ss[gi..]);
    assert Flatten(ss[gi..]) == ss[gi] + Flatten(ss[gi + 1..]);
  }

  /** Every position of the flattening belongs to some group. */
  lemma FlattenLocate<T>(ss: seq<seq<T>>, k: nat) returns (gi: nat, idx: nat)
    requires k < |Flatten(ss)|
    ensures gi < |ss| && idx < |ss[gi]|
    ensures k == |Flatten(ss[..gi])| + idx
  {
    if k < |ss[0]| {
      gi, idx := 0, k;
    } else {
      var g, i := FlattenLocate(ss[1..], k - |ss[0]|);
      gi, idx := g + 1, i;
      assert ss[..gi] == [ss[0]] + ss[1..][..g];
      assert Flatten(ss[..gi]) == ss[0] + Flatten(ss[1..][..g]);
    }
  }

  lemma {:induction false} FlattenMultiset<T>(ss: seq<seq<T>>, ts: seq<seq<T>>)
    requires |ss| == |ts|
    requires forall i :: 0 <= i < |ss| ==> multiset(ss[i]) == multiset(ts[i])
    ensures multiset(Flatten(ss)) == multiset(Flatten(ts))
  {
    if ss != [] {
      FlattenMultiset(ss[1..], ts[1..]);
    }
  }
}
