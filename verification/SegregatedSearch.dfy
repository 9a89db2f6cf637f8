/**
 The search of the segregated malloc, turn by turn, over bins in any state. It ends by
 finding a block, ends by giving up, or goes on forever, and each of the three is decided by
 the first bin, from the request's class upward, that offers a fitting block or never ends.
 */
module SegregatedSearch {
  import opened Arithmetic
  import opened HeapLayout
  import opened HeapMemory
  import opened FreeLinks
  import opened Lists
  import opened BinStores

  // ---------------------------------------------------------------- the loops, turn by turn

  // The bin and the block the search looks at; bin CLASSES when it has given up.
  datatype Cursor = In(i: nat, p: Ptr)

  // The first look at bin i.
  function Enter(st: Store, i: nat): Cursor
    requires |st.bins| == CLASSES
  {
    if i < CLASSES then In(i, st.bins[i]) else In(CLASSES, Null)
  }

  predicate Serves(st: Store, n: nat, p: Ptr) {
    p.At? && p.addr in st.m && st.m[p.addr].free && n <= st.m[p.addr].size
  }

  predicate IsHit(st: Store, n: nat, c: Cursor) {
    c.i < CLASSES && Serves(st, n, c.p)
  }

  predicate Stops(st: Store, n: nat, c: Cursor) {
    c.i >= CLASSES || IsHit(st, n, c)
  }

  function NextOf(st: Store, p: Ptr): Ptr {
    if p.At? && p.addr in st.m then st.m[p.addr].next else Null
  }

  // One turn of the two loops.
  function Advance(st: Store, n: nat, c: Cursor): Cursor
    requires |st.bins| == CLASSES
  {
    if Stops(st, n, c) then c
    else if c.p.At? then In(c.i, NextOf(st, c.p))
    else Enter(st, c.i + 1)
  }

  function Position(st: Store, n: nat, k: nat): Cursor
    requires |st.bins| == CLASSES
  {
    if k == 0 then Enter(st, Class(n)) else Advance(st, n, Position(st, n, k - 1))
  }

  ghost predicate Finds(st: Store, n: nat, a: nat)
    requires |st.bins| == CLASSES
  {
    exists k :: IsHit(st, n, Position(st, n, k)) && Position(st, n, k).p == At(a)
  }

  ghost predicate GivesUp(st: Store, n: nat)
    requires |st.bins| == CLASSES
  {
    exists k :: Position(st, n, k).i >= CLASSES
  }

  ghost predicate Hangs(st: Store, n: nat)
    requires |st.bins| == CLASSES
  {
    forall k :: !Stops(st, n, Position(st, n, k))
  }

  /** However the bins look, the search only ever looks at block headers. */
  lemma {:induction false} SearchInBounds(s: Layout, st: Store, n: nat, k: nat)
    requires LinksOk(s, st)
    ensures LinkOk(s, Position(st, n, k).p)
  {
    if k > 0 { SearchInBounds(s, st, n, k - 1); }
  }

  lemma {:induction false} StaysStopped(st: Store, n: nat, k: nat, e: nat)
    requires |st.bins| == CLASSES && k <= e && Stops(st, n, Position(st, n, k))
    ensures Position(st, n, e) == Position(st, n, k)
    decreases e
  {
    if k < e { StaysStopped(st, n, k, e - 1); }
  }

  // ---------------------------------------------------------------- a bound on the search

  /** There are this many places the search can be in: a bin, and a block or the end. */
  function SearchBound(s: Layout): nat {
    CLASSES * (|s| + 1)
  }

  // The place of a cursor, as a number below the bound.
  ghost function PlaceOf(s: Layout, c: Cursor): nat {
    c.i * (|s| + 1) + (if c.p.At? then IndexAt(s, c.p.addr) else |s|)
  }

  lemma {:induction false} PlaceInBounds(s: Layout, c: Cursor)
    requires c.i < CLASSES
    ensures PlaceOf(s, c) < SearchBound(s)
  {
    var w := |s| + 1;
    var x := if c.p.At? then IndexAt(s, c.p.addr) else |s|;
    assert x < w;
    assert c.i * w + w == (c.i + 1) * w <= CLASSES * w;
  }

  lemma {:induction false} PlaceInjective(s: Layout, c: Cursor, d: Cursor)
    requires LinkOk(s, c.p) && LinkOk(s, d.p) && PlaceOf(s, c) == PlaceOf(s, d)
    ensures c == d
  {
    var w := |s| + 1;
    var x := if c.p.At? then IndexAt(s, c.p.addr) else |s|;
    var y := if d.p.At? then IndexAt(s, d.p.addr) else |s|;
    assert c.i * w + x == d.i * w + y && x < w && y < w;
    QuotientUnique(c.i, d.i, x, y, w);
    if c.p.At? { StartIndexed(s, c.p.addr); }
    if d.p.At? { StartIndexed(s, d.p.addr); }
  }

  lemma {:induction false} StartIndexed(s: Layout, a: nat)
    requires StartsAt(s, a)
    ensures IndexAt(s, a) < |s|
  {
    var b :| b in s && b.addr == a;
  }

  // The places of the first k cursors.
  ghost function Visited(s: Layout, st: Store, n: nat, k: nat): seq<nat>
    requires |st.bins| == CLASSES
  {
    seq(k, j requires 0 <= j < k => PlaceOf(s, Position(st, n, j)))
  }

  /** A search that has not ended after as many turns as there are places has been somewhere
      twice. */
  lemma {:induction false} SomewhereTwice(s: Layout, st: Store, n: nat) returns (j: nat, k: nat)
    requires LinksOk(s, st) && !Stops(st, n, Position(st, n, SearchBound(s)))
    ensures j < k <= SearchBound(s) && Position(st, n, j) == Position(st, n, k) && !Stops(st, n, Position(st, n, j))
  {
    var e := SearchBound(s);
    var places := Visited(s, st, n, e + 1);
    forall i | 0 <= i <= e ensures !Stops(st, n, Position(st, n, i)) && places[i] < e {
      if Stops(st, n, Position(st, n, i)) { StaysStopped(st, n, i, e); }
      PlaceInBounds(s, Position(st, n, i));
    }
    j, k := Pigeonhole(places, e);
    SearchInBounds(s, st, n, j);
    SearchInBounds(s, st, n, k);
    PlaceInjective(s, Position(st, n, j), Position(st, n, k));
  }

  /** A search that is somewhere twice without ending goes round forever. */
  lemma {:induction false} RoundAndRound(st: Store, n: nat, j: nat, k: nat, m: nat)
    requires |st.bins| == CLASSES && j < k && Position(st, n, j) == Position(st, n, k) && !Stops(st, n, Position(st, n, j))
    ensures !Stops(st, n, Position(st, n, m))
    decreases m
  {
    if m <= k {
      if Stops(st, n, Position(st, n, m)) { StaysStopped(st, n, m, k); }
    } else {
      Shifted(st, n, j, k, m - k);
      RoundAndRound(st, n, j, k, m - (k - j));
    }
  }

  lemma {:induction false} Shifted(st: Store, n: nat, j: nat, k: nat, d: nat)
    requires |st.bins| == CLASSES && Position(st, n, j) == Position(st, n, k)
    ensures Position(st, n, j + d) == Position(st, n, k + d)
    decreases d
  {
    if d > 0 { Shifted(st, n, j, k, d - 1); }
  }

  ghost predicate ComesBack(st: Store, n: nat)
    requires |st.bins| == CLASSES
  {
    exists j, k :: j < k && Position(st, n, j) == Position(st, n, k) && !Stops(st, n, Position(st, n, j))
  }

  /** Exactly when the search never ends: it has not ended after five turns for each block and
      five more; equivalently, it comes back to a place before it ends. */
  lemma {:induction false} HangsIff(s: Layout, st: Store, n: nat)
    requires LinksOk(s, st)
    ensures Hangs(st, n) <==> !Stops(st, n, Position(st, n, SearchBound(s)))
    ensures Hangs(st, n) <==> ComesBack(st, n)
  {
    if !Stops(st, n, Position(st, n, SearchBound(s))) {
      var j, k := SomewhereTwice(s, st, n);
      assert ComesBack(st, n);
    }
    if ComesBack(st, n) {
      var j, k :| j < k && Position(st, n, j) == Position(st, n, k) && !Stops(st, n, Position(st, n, j));
      forall m ensures !Stops(st, n, Position(st, n, m)) { RoundAndRound(st, n, j, k, m); }
    }
  }

  // ---------------------------------------------------------------- bin by bin

  // The t-th pointer along bin i.
  function Chase(st: Store, i: nat, t: nat): Ptr
    requires |st.bins| == CLASSES && i < CLASSES
  {
    if t == 0 then st.bins[i] else NextOf(st, Chase(st, i, t - 1))
  }

  /** A free block of at least n bytes can be reached along bin i. */
  ghost predicate Offers(st: Store, n: nat, i: nat)
    requires |st.bins| == CLASSES && i < CLASSES
  {
    exists t :: Serves(st, n, Chase(st, i, t))
  }

  ghost predicate Endless(st: Store, i: nat)
    requires |st.bins| == CLASSES && i < CLASSES
  {
    forall t :: Chase(st, i, t) != Null
  }

  // The first bin from i on that decides the search, or CLASSES.
  ghost function Decisive(st: Store, n: nat, i: nat): (d: nat)
    requires |st.bins| == CLASSES && i <= CLASSES
    ensures i <= d <= CLASSES
    ensures d < CLASSES ==> Offers(st, n, d) || Endless(st, d)
    ensures forall l :: i <= l < d ==> !Offers(st, n, l) && !Endless(st, l)
    decreases CLASSES - i
  {
    if i == CLASSES || Offers(st, n, i) || Endless(st, i) then i else Decisive(st, n, i + 1)
  }

  // As long as nothing along the bin serves, the search follows it.
  lemma {:induction false} FollowsBin(st: Store, n: nat, i: nat, k: nat, t: nat)
    requires |st.bins| == CLASSES && i < CLASSES && Position(st, n, k) == In(i, st.bins[i])
    requires forall u :: 0 <= u < t ==> Chase(st, i, u) != Null && !Serves(st, n, Chase(st, i, u))
    ensures Position(st, n, k + t) == In(i, Chase(st, i, t))
    decreases t
  {
    if t > 0 {
      FollowsBin(st, n, i, k, t - 1);
      assert Chase(st, i, t - 1) != Null && !Serves(st, n, Chase(st, i, t - 1));
    }
  }

  lemma {:induction false} PastTheEnd(st: Store, i: nat, t: nat, u: nat)
    requires |st.bins| == CLASSES && i < CLASSES && t <= u && Chase(st, i, t) == Null
    ensures Chase(st, i, u) == Null
    decreases u
  {
    if t < u { PastTheEnd(st, i, t, u - 1); }
  }

  lemma {:induction false} ChaseInBounds(s: Layout, st: Store, i: nat, t: nat)
    requires LinksOk(s, st) && i < CLASSES
    ensures LinkOk(s, Chase(st, i, t))
  {
    if t > 0 { ChaseInBounds(s, st, i, t - 1); }
  }

  /** A bin never ends exactly when as many steps along it as there are blocks do not reach
      its end. */
  lemma {:induction false} EndlessIff(s: Layout, st: Store, i: nat)
    requires LinksOk(s, st) && i < CLASSES
    ensures Endless(st, i) <==> Chase(st, i, |s|) != Null
  {
    if Chase(st, i, |s|) != Null {
      var places := seq(|s| + 1, t requires 0 <= t <= |s| => PlaceOf(s, In(0, Chase(st, i, t))));
      forall t | 0 <= t <= |s| ensures places[t] < |s| && LinkOk(s, Chase(st, i, t)) {
        if Chase(st, i, t) == Null { PastTheEnd(st, i, t, |s|); }
        ChaseInBounds(s, st, i, t);
        StartIndexed(s, Chase(st, i, t).addr);
      }
      var j, k := Pigeonhole(places, |s|);
      PlaceInjective(s, In(0, Chase(st, i, j)), In(0, Chase(st, i, k)));
      forall t ensures Chase(st, i, t) != Null { RoundTheBin(st, i, j, k, t); }
    }
  }

  lemma {:induction false} RoundTheBin(st: Store, i: nat, j: nat, k: nat, t: nat)
    requires |st.bins| == CLASSES && i < CLASSES && j < k && Chase(st, i, j) == Chase(st, i, k) != Null
    ensures Chase(st, i, t) != Null
    decreases t
  {
    if t <= k {
      if Chase(st, i, t) == Null { PastTheEnd(st, i, t, k); }
    } else {
      ChaseShifted(st, i, j, k, t - k);
      RoundTheBin(st, i, j, k, t - (k - j));
    }
  }

  lemma {:induction false} ChaseShifted(st: Store, i: nat, j: nat, k: nat, d: nat)
    requires |st.bins| == CLASSES && i < CLASSES && Chase(st, i, j) == Chase(st, i, k)
    ensures Chase(st, i, j + d) == Chase(st, i, k + d)
    decreases d
  {
    if d > 0 { ChaseShifted(st, i, j, k, d - 1); }
  }

  lemma {:induction false} BinFound(st: Store, n: nat, i: nat, k: nat) returns (e: nat)
    requires |st.bins| == CLASSES && i < CLASSES && Position(st, n, k) == In(i, st.bins[i]) && Offers(st, n, i)
    ensures IsHit(st, n, Position(st, n, e))
  {
    var t :| Serves(st, n, Chase(st, i, t));
    var u := FirstServing(st, n, i, t);
    forall x | 0 <= x < u ensures Chase(st, i, x) != Null && !Serves(st, n, Chase(st, i, x)) {
      if Chase(st, i, x) == Null { PastTheEnd(st, i, x, u); }
    }
    FollowsBin(st, n, i, k, u);
    e := k + u;
  }

  lemma {:induction false} FirstServing(st: Store, n: nat, i: nat, t: nat) returns (u: nat)
    requires |st.bins| == CLASSES && i < CLASSES && Serves(st, n, Chase(st, i, t))
    ensures Serves(st, n, Chase(st, i, u)) && forall x :: 0 <= x < u ==> !Serves(st, n, Chase(st, i, x))
    decreases t
  {
    if x :| 0 <= x < t && Serves(st, n, Chase(st, i, x)) {
      u := FirstServing(st, n, i, x);
    } else {
      u := t;
    }
  }

  lemma {:induction false} BinPassed(st: Store, n: nat, i: nat, k: nat) returns (e: nat)
    requires |st.bins| == CLASSES && i < CLASSES && Position(st, n, k) == In(i, st.bins[i])
    requires !Offers(st, n, i) && !Endless(st, i)
    ensures Position(st, n, e) == Enter(st, i + 1)
  {
    var t :| Chase(st, i, t) == Null;
    var u := FirstNull(st, i, t);
    FollowsBin(st, n, i, k, u);
    e := k + u + 1;
  }

  lemma {:induction false} FirstNull(st: Store, i: nat, t: nat) returns (u: nat)
    requires |st.bins| == CLASSES && i < CLASSES && Chase(st, i, t) == Null
    ensures Chase(st, i, u) == Null && forall x :: 0 <= x < u ==> Chase(st, i, x) != Null
    decreases t
  {
    if x :| 0 <= x < t && Chase(st, i, x) == Null {
      u := FirstNull(st, i, x);
    } else {
      u := t;
    }
  }

  lemma {:induction false} BinHangs(st: Store, n: nat, i: nat, k: nat)
    requires |st.bins| == CLASSES && i < CLASSES && Position(st, n, k) == In(i, st.bins[i])
    requires !Offers(st, n, i) && Endless(st, i)
    ensures Hangs(st, n)
  {
    forall m ensures !Stops(st, n, Position(st, n, m)) {
      FollowsBin(st, n, i, k, m);
      assert !Stops(st, n, Position(st, n, k + m));
      if Stops(st, n, Position(st, n, m)) { StaysStopped(st, n, m, k + m); }
    }
  }

  // The search comes to the decisive bin.
  lemma {:induction false} ReachesBin(st: Store, n: nat, i: nat, k: nat) returns (e: nat)
    requires |st.bins| == CLASSES && i <= CLASSES && Position(st, n, k) == Enter(st, i)
    ensures Position(st, n, e) == Enter(st, Decisive(st, n, i))
    decreases CLASSES - i
  {
    if Decisive(st, n, i) == i {
      e := k;
    } else {
      e := BinPassed(st, n, i, k);
      e := ReachesBin(st, n, i + 1, e);
    }
  }

  /** The outcome of every search, for bins in any state, by the decisive bin: found if that
      bin offers a block, endless if it does not, given up if there is none. */
  lemma {:induction false} SearchOutcome(st: Store, n: nat)
    requires |st.bins| == CLASSES
    ensures var d := Decisive(st, n, Class(n));
      && ((exists a :: Finds(st, n, a)) <==> d < CLASSES && Offers(st, n, d))
      && (Hangs(st, n) <==> d < CLASSES && !Offers(st, n, d))
      && (GivesUp(st, n) <==> d == CLASSES)
  {
    var d := Decisive(st, n, Class(n));
    var k := ReachesBin(st, n, Class(n), 0);
    if d == CLASSES {
      assert Position(st, n, k).i >= CLASSES;
      OneOutcome(st, n, k);
    } else if Offers(st, n, d) {
      var e := BinFound(st, n, d, k);
      assert Finds(st, n, Position(st, n, e).p.addr);
      OneOutcome(st, n, e);
    } else {
      BinHangs(st, n, d, k);
    }
  }

  // A search that stops does so in one way only.
  lemma {:induction false} OneOutcome(st: Store, n: nat, e: nat)
    requires |st.bins| == CLASSES && Stops(st, n, Position(st, n, e))
    ensures !Hangs(st, n)
    ensures GivesUp(st, n) <==> Position(st, n, e).i >= CLASSES
    ensures (exists a :: Finds(st, n, a)) <==> IsHit(st, n, Position(st, n, e))
  {
    forall k: nat | Stops(st, n, Position(st, n, k)) ensures Position(st, n, k) == Position(st, n, e) {
      StaysStopped(st, n, k, if k < e then e else k);
      StaysStopped(st, n, e, if k < e then e else k);
    }
    if IsHit(st, n, Position(st, n, e)) { assert Finds(st, n, Position(st, n, e).p.addr); }
  }

  lemma {:induction false} HitMeans(st: Store, n: nat, k: nat)
    requires |st.bins| == CLASSES && IsHit(st, n, Position(st, n, k))
    ensures Finds(st, n, Position(st, n, k).p.addr) && !GivesUp(st, n)
  {
    OneOutcome(st, n, k);
  }

  /** Completeness without discipline: a search that ends finds a block if and only if a
      fitting free block can be reached along a bin of the request's class or above. */
  lemma {:induction false} EndingSearchComplete(st: Store, n: nat)
    requires |st.bins| == CLASSES && !Hangs(st, n)
    ensures (exists a :: Finds(st, n, a)) <==> exists i :: Class(n) <= i < CLASSES && Offers(st, n, i)
  {
    SearchOutcome(st, n);
  }

  /** Bin i never ends, and neither it nor any bin searched before it offers a block. */
  ghost predicate HangsIn(s: Layout, st: Store, n: nat, i: nat)
    requires |st.bins| == CLASSES && i < CLASSES
  {
    Chase(st, i, |s|) != Null && forall l :: Class(n) <= l <= i ==> !Offers(st, n, l)
  }

  /** The same condition by the bins: some bin of the request's class or above, along which as
      many steps as there are blocks do not reach the end, and nothing fits up to it. */
  lemma {:induction false} HangsByBins(s: Layout, st: Store, n: nat)
    requires LinksOk(s, st)
    ensures Hangs(st, n) <==> exists i :: Class(n) <= i < CLASSES && HangsIn(s, st, n, i)
  {
    SearchOutcome(st, n);
    var d := Decisive(st, n, Class(n));
    if Hangs(st, n) {
      EndlessIff(s, st, d);
      assert HangsIn(s, st, n, d);
    }
    if i :| Class(n) <= i < CLASSES && HangsIn(s, st, n, i) {
      EndlessIff(s, st, i);
      assert d <= i;
    }
  }
}
