/**
 The pool's bytes as the allocators use them: a table of headers indexed by the offset
 a header is stored at. Entries of merged blocks stay in the table, as their bytes stay
 in the pool. The lemmas tie the stores of malloc and of the coalescing sweep to the
 block layout, for any header size `h` and pool size `hi`.
 */
module HeapMemory {
  import opened HeapLayout

  datatype Header = Header(size: nat, free: bool)

  type Headers = map<nat, Header>

  ghost predicate Holds(m: Headers, s: Layout) {
    forall b :: b in s ==> b.addr in m && m[b.addr] == Header(b.size, b.free)
  }

  // ---------------------------------------------------------------- frame of live payloads

  ghost predicate SameEntry<T>(m: map<nat, T>, m': map<nat, T>, a: nat) {
    (a in m <==> a in m') && (a in m ==> m[a] == m'[a])
  }

  /** No header that shares a byte with a live payload of `s` differs between m and m'. */
  ghost predicate PayloadsUntouched<T>(s: Layout, h: nat, m: map<nat, T>, m': map<nat, T>) {
    forall a: nat, b :: b in Live(s) && !Disjoint(a, a + h, b.addr + h, End(b, h)) ==> SameEntry(m, m', a)
  }

  ghost predicate StartsAt(s: Layout, a: nat) {
    exists b :: b in s && b.addr == a
  }

  // The entries that differ all lie at the start of a block of `s`.
  ghost predicate ChangedOnlyAtBlocks<T>(s: Layout, m: map<nat, T>, m': map<nat, T>) {
    forall a: nat :: SameEntry(m, m', a) || StartsAt(s, a)
  }

  lemma {:induction false} ChangesMissPayloads<T>(s: Layout, h: nat, hi: nat, m: map<nat, T>, m': map<nat, T>)
    requires h > 0 && Tiles(s, h, 0, hi) && ChangedOnlyAtBlocks(s, m, m')
    ensures PayloadsUntouched(s, h, m, m')
  {
    forall a: nat, b | b in Live(s) && !Disjoint(a, a + h, b.addr + h, End(b, h))
      ensures SameEntry(m, m', a)
    {
      if !SameEntry(m, m', a) {
        var c :| c in s && c.addr == a;
        if c != b { PayloadsIsolated(s, h, hi, c, b); }
        assert false;
      }
    }
  }

  // ---------------------------------------------------------------- malloc's stores

  lemma {:induction false} CarvedHeaders(s: Layout, k: nat, n: nat, h: nat, hi: nat, m: Headers, m': Headers)
    requires h > 0 && h % 4 == 0 && Tiles(s, h, 0, hi) && Holds(m, s) && k < |s| && Fits(s[k], n)
    requires var p := Pieces(s[k], n, h);
             && (forall b :: b in p ==> b.addr in m' && m'[b.addr] == Header(b.size, b.free))
             && (forall x :: x in m && x != p[0].addr && x != p[|p|-1].addr ==> x in m' && m'[x] == m[x])
    ensures Holds(m', Carve(s, k, n, h))
  {
    var p := Pieces(s[k], n, h);
    var t := Carve(s, k, n, h);
    CarveTiles(s, k, n, h, hi);
    assert t[k] == p[0] && t[k + |p| - 1] == p[|p|-1];
    assert p[0] in p && p[|p|-1] in p;
    forall b | b in t ensures b.addr in m' && m'[b.addr] == Header(b.size, b.free) {
      var j :| 0 <= j < |t| && t[j] == b;
      TilesDistinct(t, h, 0, hi, j, k);
      TilesDistinct(t, h, 0, hi, j, k + |p| - 1);
      if j < k { assert b == s[j]; }
      if j >= k + |p| { assert b == s[j + 1 - |p|]; }
    }
  }

  /** Stores confined to block starts of the carved layout leave every payload that was
      live before the call alone. */
  lemma {:induction false} CarveMissesPayloads<T>(s: Layout, k: nat, n: nat, h: nat, hi: nat, m: map<nat, T>, m': map<nat, T>)
    requires h > 0 && h % 4 == 0 && Tiles(s, h, 0, hi) && k < |s| && Fits(s[k], n)
    requires ChangedOnlyAtBlocks(Carve(s, k, n, h), m, m')
    ensures PayloadsUntouched(s, h, m, m')
  {
    CarveTiles(s, k, n, h, hi);
    CarveLive(s, k, n, h, hi);
    ChangesMissPayloads(Carve(s, k, n, h), h, hi, m, m');
    assert Live(s) <= Live(Carve(s, k, n, h));
  }

  lemma {:induction false} CarveStarts(s: Layout, k: nat, n: nat, h: nat)
    requires k < |s| && Fits(s[k], n)
    ensures forall a :: StartsAt(s, a) ==> StartsAt(Carve(s, k, n, h), a)
    ensures forall b :: b in Pieces(s[k], n, h) ==> StartsAt(Carve(s, k, n, h), b.addr)
  {
    var p := Pieces(s[k], n, h);
    var t := Carve(s, k, n, h);
    forall b | b in p ensures StartsAt(t, b.addr) {
      var i :| 0 <= i < |p| && p[i] == b;
      assert t[k + i] == b && b in t;
    }
    forall a | StartsAt(s, a) ensures StartsAt(t, a) {
      var b :| b in s && b.addr == a;
      var j :| 0 <= j < |s| && s[j] == b;
      if j < k { assert t[j] == b; } else if j > k { assert t[j - 1 + |p|] == b; } else { assert p[0] in p; }
    }
  }

  // ---------------------------------------------------------------- the coalescing sweep

  /** The state of the sweep: `done` needs no more merging, `rest` starts at the current
      block, and finishing the rest would give `goal`. */
  ghost predicate Sweeping(h: nat, hi: nat, goal: Layout, done: Layout, rest: Layout, m: Headers) {
    && h > 0 && rest != [] && Tiles(done + rest, h, 0, hi)
    && Holds(m, done + rest) && rest[0].addr in m && m[rest[0].addr] == Header(rest[0].size, rest[0].free)
    && done + Coalesce(rest, h) == goal
  }

  // What the loop body reads: the current header and, unless it is the last, the next one.
  lemma {:induction false} SweepReads(h: nat, hi: nat, goal: Layout, done: Layout, rest: Layout, m: Headers)
    requires Sweeping(h, hi, goal, done, rest, m)
    ensures rest[0].addr < hi && End(rest[0], h) <= hi
    ensures End(rest[0], h) == hi ==> |rest| == 1
    ensures End(rest[0], h) < hi ==> |rest| > 1 && rest[1].addr == End(rest[0], h)
    ensures |rest| > 1 ==> rest[1].addr in m && m[rest[1].addr] == Header(rest[1].size, rest[1].free)
    ensures |rest| > 1 ==> End(rest[1], h) <= hi
  {
    var now := done + rest;
    assert now[|done|] == rest[0];
    TilesNext(now, |done|, h, 0, hi);
    TilesSpan(now, h, 0, hi);
    if |rest| > 1 { assert now[|done|+1] == rest[1] && rest[1] in now; }
  }

  lemma {:induction false} SweepStart(s: Layout, k: nat, h: nat, hi: nat, m: Headers)
    requires h > 0 && h % 4 == 0 && Coalesced(s, h, hi) && Holds(m, s) && k < |s| && !s[k].free
    ensures Sweeping(h, hi, Coalesce(Release(s, k), h), [], Release(s, k), m[s[k].addr := Header(s[k].size, true)])
    ensures Release(s, k)[0].addr == 0
  {
    var t := Release(s, k);
    var m' := m[s[k].addr := Header(s[k].size, true)];
    FreeKeeps(s, k, h, hi);
    forall b | b in t ensures b.addr in m' && m'[b.addr] == Header(b.size, b.free) {
      var j :| 0 <= j < |t| && t[j] == b;
      assert s[j] in s;
      TilesDistinct(s, h, 0, hi, j, k);
    }
    assert [] + t == t && t[0] in t;
  }

  lemma {:induction false} SweepAdvance(h: nat, hi: nat, goal: Layout, done: Layout, rest: Layout, m: Headers)
    requires Sweeping(h, hi, goal, done, rest, m) && |rest| > 1 && !(rest[0].free && rest[1].free)
    ensures Sweeping(h, hi, goal, done + [rest[0]], rest[1..], m)
    ensures done + [rest[0]] + rest[1..] == done + rest
  {
    assert done + [rest[0]] + rest[1..] == done + rest;
    assert done + ([rest[0]] + Coalesce(rest[1..], h)) == done + [rest[0]] + Coalesce(rest[1..], h);
    SweepReads(h, hi, goal, done, rest, m);
  }

  // The layout after the current block has absorbed its successor.
  ghost function Merged(rest: Layout, h: nat): Layout
    requires |rest| > 1
  {
    [Join(rest[0], rest[1], h)] + rest[2..]
  }

  lemma {:induction false} SweepMerge(h: nat, hi: nat, goal: Layout, done: Layout, rest: Layout, m: Headers)
    requires Sweeping(h, hi, goal, done, rest, m) && |rest| > 1 && rest[0].free && rest[1].free
    ensures var j := Join(rest[0], rest[1], h);
            Sweeping(h, hi, goal, done, Merged(rest, h), m[j.addr := Header(j.size, true)])
  {
    MergeTiles(h, hi, done, rest);
    var j := Join(rest[0], rest[1], h);
    var now := done + rest;
    var t := done + Merged(rest, h);
    var m' := m[j.addr := Header(j.size, true)];
    assert now[|done|] == rest[0];
    forall b | b in t ensures b.addr in m' && m'[b.addr] == Header(b.size, b.free) {
      var i :| 0 <= i < |t| && t[i] == b;
      if i != |done| {
        var i' := if i < |done| then i else i + 1;
        assert now[i'] == b && b in now;
        TilesDistinct(now, h, 0, hi, i', |done|);
      }
    }
  }

  lemma {:induction false} MergeTiles(h: nat, hi: nat, done: Layout, rest: Layout)
    requires |rest| >= 2 && Tiles(done + rest, h, 0, hi)
    ensures Tiles(done + Merged(rest, h), h, 0, hi)
  {
    var s := done + rest;
    var mid := TilesCut(s, |done|, h, 0, hi);
    assert s[..|done|] == done && s[|done|..] == rest;
    var t := Merged(rest, h);
    assert rest[1..][1..] == rest[2..] == t[1..];
    TilesAppend(done, t, h, 0, mid, hi);
  }

  // Merging starts no block where none started before.
  lemma {:induction false} MergeStarts(h: nat, done: Layout, rest: Layout, s: Layout)
    requires |rest| >= 2 && forall b :: b in done + rest ==> StartsAt(s, b.addr)
    ensures forall b :: b in done + Merged(rest, h) ==> StartsAt(s, b.addr)
  {
    var now := done + rest;
    var t := done + Merged(rest, h);
    forall b | b in t ensures StartsAt(s, b.addr) {
      var i :| 0 <= i < |t| && t[i] == b;
      assert now[if i <= |done| then i else i + 1] in now;
    }
  }

  /** Every store of the sweep so far went to a header that was a block start of `s`. */
  ghost predicate Confined(s: Layout, done: Layout, rest: Layout, m0: Headers, m: Headers) {
    ChangedOnlyAtBlocks(s, m0, m) && forall b :: b in done + rest ==> StartsAt(s, b.addr)
  }

  lemma {:induction false} ConfinedMerge(h: nat, s: Layout, done: Layout, rest: Layout, m0: Headers, m: Headers, v: Header)
    requires |rest| > 1 && Confined(s, done, rest, m0, m)
    ensures Confined(s, done, Merged(rest, h), m0, m[rest[0].addr := v])
  {
    MergeStarts(h, done, rest, s);
    assert (done + rest)[|done|] == rest[0];
    var m' := m[rest[0].addr := v];
    forall a: nat ensures SameEntry(m0, m', a) || StartsAt(s, a) {
      assert a == rest[0].addr || SameEntry(m0, m', a) == SameEntry(m0, m, a);
    }
  }

  lemma {:induction false} ReleaseStarts(s: Layout, k: nat)
    requires k < |s|
    ensures forall b :: b in Release(s, k) ==> StartsAt(s, b.addr)
    ensures StartsAt(s, s[k].addr)
  {
    var t := Release(s, k);
    assert s[k] in s;
    forall b | b in t ensures StartsAt(s, b.addr) {
      var j :| 0 <= j < |t| && t[j] == b;
      assert s[j] in s;
    }
  }

  /** When the current block is the last one, the sweep has reached its goal, and stores
      confined to the old block starts have touched no payload that is still live. */
  lemma {:induction false} SweepEnd<T>(s: Layout, k: nat, h: nat, hi: nat, done: Layout, rest: Layout, m: Headers,
                    full0: map<nat, T>, full: map<nat, T>)
    requires h > 0 && h % 4 == 0 && Coalesced(s, h, hi) && k < |s| && !s[k].free && |rest| == 1
    requires Sweeping(h, hi, Coalesce(Release(s, k), h), done, rest, m)
    requires ChangedOnlyAtBlocks(s, full0, full)
    ensures done + rest == Coalesce(Release(s, k), h)
    ensures Coalesced(done + rest, h, hi) && Holds(m, done + rest)
    ensures PayloadsUntouched(done + rest, h, full0, full)
  {
    FreeKeeps(s, k, h, hi);
    ChangesMissPayloads(s, h, hi, full0, full);
    assert Live(done + rest) <= Live(s);
  }
}
