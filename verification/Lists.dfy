/** Facts about duplicate-free sequences of addresses that several of the models share. */
module Lists {

  ghost predicate Distinct(s: seq<nat>) {
    s == [] || (s[0] !in s[1..] && Distinct(s[1..]))
  }

  ghost function Elems(s: seq<nat>): set<nat> {
    set x | x in s
  }

  ghost function RemoveAt(s: seq<nat>, i: nat): seq<nat>
    requires i < |s|
  {
    s[..i] + s[i+1..]
  }

  lemma {:induction false} RemoveAtCons(x: nat, s: seq<nat>, i: nat)
    requires i < |s|
    ensures RemoveAt([x] + s, i + 1) == [x] + RemoveAt(s, i)
  {
  }

  lemma {:induction false} DistinctIndices(s: seq<nat>, i: nat, j: nat)
    requires Distinct(s) && i < |s| && j < |s|
    ensures s[i] == s[j] <==> i == j
  {
    if i != j {
      if i > 0 { assert s[i] == s[1..][i-1]; }
      if j > 0 { assert s[j] == s[1..][j-1]; }
      if i > 0 && j > 0 { DistinctIndices(s[1..], i - 1, j - 1); }
    }
  }

  lemma {:induction false} DistinctTail(s: seq<nat>)
    requires Distinct(s) && s != []
    ensures Distinct(s[1..]) && forall x :: x in s[1..] <==> x in s && x != s[0]
  {
    assert s == [s[0]] + s[1..];
  }

  lemma {:induction false} DistinctCard(s: seq<nat>)
    requires Distinct(s)
    ensures |Elems(s)| == |s|
  {
    if s != [] {
      DistinctCard(s[1..]);
      assert s == [s[0]] + s[1..];
      assert Elems(s) == {s[0]} + Elems(s[1..]);
    }
  }

  lemma {:induction false} OnlyElement(s: seq<nat>, x: nat)
    requires Distinct(s) && Elems(s) == {x}
    ensures s == [x]
  {
    DistinctCard(s);
    assert s[0] in Elems(s);
  }

  lemma {:induction false} DistinctCons(x: nat, s: seq<nat>)
    requires Distinct(s) && x !in s
    ensures Distinct([x] + s) && Elems([x] + s) == {x} + Elems(s)
  {
    assert ([x] + s)[1..] == s;
  }

  lemma {:induction false} DistinctRemove(s: seq<nat>, i: nat)
    requires Distinct(s) && i < |s|
    ensures Distinct(RemoveAt(s, i)) && s[i] !in RemoveAt(s, i)
    ensures Elems(RemoveAt(s, i)) == Elems(s) - {s[i]}
  {
    var r := RemoveAt(s, i);
    assert s == [s[0]] + s[1..];
    if i == 0 {
      assert r == s[1..];
    } else {
      DistinctRemove(s[1..], i - 1);
      var t := RemoveAt(s[1..], i - 1);
      assert r == [s[0]] + t;
      assert r[1..] == t;
      assert forall x :: x in t ==> x in Elems(t);
      assert s[i] == s[1..][i-1];
    }
  }

  /** More entries than values below n: two entries are equal. */
  lemma {:induction false} Pigeonhole(s: seq<nat>, n: nat) returns (j: nat, k: nat)
    requires |s| > n && forall i :: 0 <= i < |s| ==> s[i] < n
    ensures j < k < |s| && s[j] == s[k]
  {
    if Distinct(s) {
      DistinctCard(s);
      BoundedCard(Elems(s), n);
      assert false;
    }
    j, k := Repeated(s);
  }

  lemma {:induction false} Repeated(s: seq<nat>) returns (j: nat, k: nat)
    requires !Distinct(s)
    ensures j < k < |s| && s[j] == s[k]
  {
    if i :| 0 <= i < |s[1..]| && s[1..][i] == s[0] {
      j, k := 0, i + 1;
    } else {
      j, k := Repeated(s[1..]);
      j, k := j + 1, k + 1;
    }
  }

  lemma {:induction false} BoundedCard(xs: set<nat>, n: nat)
    requires forall x :: x in xs ==> x < n
    ensures |xs| <= n
  {
    if n == 0 {
      assert xs == {};
    } else {
      BoundedCard(xs - {n - 1}, n - 1);
      assert |xs| <= |xs - {n - 1}| + 1;
    }
  }

  // Where x first stands in s, or |s|.
  ghost function Find(s: seq<nat>, x: nat): (k: nat)
    ensures k <= |s| && (k < |s| <==> x in s) && (k < |s| ==> s[k] == x)
  {
    if s == [] then 0 else if s[0] == x then 0 else 1 + Find(s[1..], x)
  }

  ghost function Sum(ns: seq<nat>): nat {
    if ns == [] then 0 else ns[0] + Sum(ns[1..])
  }

  lemma {:induction false} SumUpdate(ns: seq<nat>, i: nat, n: nat)
    requires i < |ns|
    ensures Sum(ns[i := n]) == Sum(ns) - ns[i] + n
  {
    if i == 0 {
      assert ns[0 := n][1..] == ns[1..];
    } else {
      SumUpdate(ns[1..], i - 1, n);
      assert ns[i := n][1..] == ns[1..][i - 1 := n];
    }
  }

  lemma {:induction false} SumLess(a: seq<nat>, b: seq<nat>, i: nat)
    requires |a| == |b| && i <= |a| && forall j :: 0 <= j < |a| ==> a[j] <= b[j]
    requires i < |a| ==> a[i] < b[i]
    ensures Sum(a) <= Sum(b) && (i < |a| ==> Sum(a) < Sum(b))
  {
    if a != [] { SumLess(a[1..], b[1..], if i == 0 then |a| - 1 else i - 1); }
  }

  // ---------------------------------------------------------------- filtering

  /** The elements of s that lie in `keep`, in order. */
  ghost function Keep(s: seq<nat>, keep: set<nat>): seq<nat> {
    if s == [] then [] else (if s[0] in keep then [s[0]] else []) + Keep(s[1..], keep)
  }

  lemma {:induction false} KeepMember(s: seq<nat>, keep: set<nat>)
    ensures forall a :: a in Keep(s, keep) <==> a in s && a in keep
  {
    if s != [] {
      KeepMember(s[1..], keep);
      assert s == [s[0]] + s[1..];
    }
  }

  lemma {:induction false} KeepAll(s: seq<nat>, keep: set<nat>)
    requires forall a :: a in s ==> a in keep
    ensures Keep(s, keep) == s
  {
    if s != [] {
      assert s == [s[0]] + s[1..];
      KeepAll(s[1..], keep);
    }
  }

  lemma {:induction false} KeepSame(s: seq<nat>, keep: set<nat>, x: nat)
    requires x !in Keep(s, keep)
    ensures Keep(s, keep - {x}) == Keep(s, keep)
  {
    if s != [] {
      assert Keep(s, keep) == (if s[0] in keep then [s[0]] else []) + Keep(s[1..], keep);
      KeepSame(s[1..], keep, x);
    }
  }

  /** Keeping one element less is removing that element where it stands. */
  lemma {:induction false} KeepRemove(s: seq<nat>, keep: set<nat>, i: nat)
    requires Distinct(Keep(s, keep)) && i < |Keep(s, keep)|
    ensures Keep(s, keep - {Keep(s, keep)[i]}) == RemoveAt(Keep(s, keep), i)
  {
    var g := Keep(s, keep);
    var tail := Keep(s[1..], keep);
    if s[0] !in keep {
      assert g == tail;
      KeepRemove(s[1..], keep, i);
    } else if i == 0 {
      assert g == [s[0]] + tail && g[1..] == tail;
      KeepSame(s[1..], keep, s[0]);
      assert RemoveAt(g, 0) == tail;
    } else {
      assert g == [s[0]] + tail && g[1..] == tail;
      KeepRemove(s[1..], keep, i - 1);
      RemoveAtCons(s[0], tail, i - 1);
      assert g[i] == tail[i-1] && tail[i-1] in tail && s[0] !in tail;
    }
  }
}
