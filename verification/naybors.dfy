/** The projectile neighbour list: a bounded array of nearby objects kept
    in ascending order of squared distance, rebuilt from the spatial grid at
    most once per projectile per game tick. */
module Naybors {
  import opened ProjTypes

  /** One neighbour: the object as it was when the list was built, and its
      squared planar distance from the projectile. */
  datatype Naybor = Naybor(obj: GameObject, distSqr: nat)

  predicate Sorted(s: seq<Naybor>) {
    forall i, j :: 0 <= i < j < |s| ==> s[i].distSqr <= s[j].distSqr
  }

  /** Ordered insertion as the engine does it: walking back from the far end,
      the new entry goes after every entry that is no farther away, so
      entries at equal distance keep their arrival order. */
  function Insert(s: seq<Naybor>, n: Naybor): (r: seq<Naybor>)
    ensures |r| == |s| + 1
    decreases |s|
  {
    if s == [] || s[|s| - 1].distSqr <= n.distSqr then s + [n]
    else Insert(s[..|s| - 1], n) + [s[|s| - 1]]
  }

  /** Insertion adds the new entry and keeps every prior one. */
  lemma {:induction false} InsertMultiset(s: seq<Naybor>, n: Naybor)
    ensures multiset(Insert(s, n)) == multiset(s) + multiset{n}
    decreases |s|
  {
    if s != [] && s[|s| - 1].distSqr > n.distSqr {
      assert s == s[..|s| - 1] + [s[|s| - 1]];
      InsertMultiset(s[..|s| - 1], n);
    }
  }

  /** Where the insertion lands: after the first k entries, when exactly the
      entries from k on are farther away than the new one. */
  lemma {:induction false} InsertAt(s: seq<Naybor>, n: Naybor, k: nat)
    requires k <= |s|
    requires k == 0 || s[k - 1].distSqr <= n.distSqr
    requires forall j :: k <= j < |s| ==> s[j].distSqr > n.distSqr
    ensures Insert(s, n) == s[..k] + [n] + s[k..]
    decreases |s|
  {
    if s == [] {
    } else if s[|s| - 1].distSqr <= n.distSqr {
      assert k == |s|;
    } else {
      var init, last := s[..|s| - 1], s[|s| - 1];
      assert k < |s|;
      InsertAt(init, n, k);
      assert Insert(s, n) == Insert(init, n) + [last];
      assert init[..k] + [n] + init[k..] + [last] == s[..k] + [n] + s[k..] by {
        assert init[..k] == s[..k];
        assert init[k..] + [last] == s[k..];
      }
    }
  }

  /** Insertion keeps the list sorted. */
  lemma {:induction false} InsertSorted(s: seq<Naybor>, n: Naybor)
    requires Sorted(s)
    ensures Sorted(Insert(s, n))
    decreases |s|
  {
    if s == [] || s[|s| - 1].distSqr <= n.distSqr {
    } else {
      var init, last := s[..|s| - 1], s[|s| - 1];
      InsertSorted(init, n);
      var r' := Insert(init, n);
      InsertMultiset(init, n);
      forall i | 0 <= i < |r'|
        ensures r'[i].distSqr <= last.distSqr
      {
        assert r'[i] in multiset(r');
        assert r'[i] in multiset(init) + multiset{n};
        if r'[i] != n {
          assert r'[i] in init;
        }
      }
    }
  }

  /** Sorted insertion of a whole sequence, one entry after another. */
  function InsertAll(xs: seq<Naybor>): (r: seq<Naybor>)
    ensures |r| == |xs|
  {
    if xs == [] then [] else Insert(InsertAll(xs[..|xs| - 1]), xs[|xs| - 1])
  }

  /** Inserting a whole sequence loses and invents nothing. */
  lemma {:induction false} InsertAllMultiset(xs: seq<Naybor>)
    ensures multiset(InsertAll(xs)) == multiset(xs)
  {
    if xs != [] {
      assert xs == xs[..|xs| - 1] + [xs[|xs| - 1]];
      InsertAllMultiset(xs[..|xs| - 1]);
      InsertMultiset(InsertAll(xs[..|xs| - 1]), xs[|xs| - 1]);
    }
  }

  lemma {:induction false} InsertAllSorted(xs: seq<Naybor>)
    ensures Sorted(InsertAll(xs))
  {
    if xs != [] {
      InsertAllSorted(xs[..|xs| - 1]);
      InsertSorted(InsertAll(xs[..|xs| - 1]), xs[|xs| - 1]);
    }
  }

  function DistSqr(px: int, py: int, o: GameObject): nat {
    var dx, dy := px - o.x, py - o.y;
    dx * dx + dy * dy
  }

  /** A grid object is a neighbour of the projectile `self` at (px, py) when
      it is another object, still alive, and within the neighbour range. */
  predicate Qualifies(o: GameObject, self: nat, px: int, py: int) {
    o.ref != self && o.died == 0 && DistSqr(px, py, o) <= PROJ_NAYBOR_RANGE * PROJ_NAYBOR_RANGE
  }

  /** The neighbours among the grid's answer, in the grid's order. */
  function Qualifying(cands: seq<GameObject>, self: nat, px: int, py: int): (q: seq<Naybor>)
    ensures |q| <= |cands|
    ensures forall e :: e in q ==>
              e.obj in cands && Qualifies(e.obj, self, px, py) && e.distSqr == DistSqr(px, py, e.obj)
  {
    if cands == [] then []
    else
      var o := cands[|cands| - 1];
      Qualifying(cands[..|cands| - 1], self, px, py)
        + (if Qualifies(o, self, px, py) then [Naybor(o, DistSqr(px, py, o))] else [])
  }

  lemma {:induction false} QualifyingComplete(cands: seq<GameObject>, self: nat, px: int, py: int, o: GameObject)
    requires o in cands && Qualifies(o, self, px, py)
    ensures Naybor(o, DistSqr(px, py, o)) in Qualifying(cands, self, px, py)
  {
    if cands[|cands| - 1] != o {
      QualifyingComplete(cands[..|cands| - 1], self, px, py, o);
    }
  }

  lemma {:induction false} QualifyingPrefix(cands: seq<GameObject>, i: nat, self: nat, px: int, py: int)
    requires i <= |cands|
    ensures var pre := Qualifying(cands[..i], self, px, py);
            var all := Qualifying(cands, self, px, py);
            |pre| <= |all| && all[..|pre|] == pre
    decreases |cands| - i
  {
    if i < |cands| {
      var init := cands[..|cands| - 1];
      assert init[..i] == cands[..i];
      QualifyingPrefix(init, i, self, px, py);
    } else {
      assert cands[..i] == cands;
    }
  }

  lemma QualifyingStep(cands: seq<GameObject>, i: nat, self: nat, px: int, py: int)
    requires i < |cands|
    ensures Qualifying(cands[..i + 1], self, px, py)
         == Qualifying(cands[..i], self, px, py)
            + (if Qualifies(cands[i], self, px, py) then [Naybor(cands[i], DistSqr(px, py, cands[i]))] else [])
  {
    assert cands[..i + 1][..i] == cands[..i];
  }

  lemma InsertAllSnoc(xs: seq<Naybor>, x: Naybor)
    ensures InsertAll(xs + [x]) == Insert(InsertAll(xs), x)
  {
    assert (xs + [x])[..|xs|] == xs;
  }

  /** A sequence that agrees with s before pos, holds n at pos and agrees
      with s shifted up by one after it is s with n spliced in at pos. */
  lemma Splice(a: seq<Naybor>, s: seq<Naybor>, n: Naybor, pos: nat)
    requires pos <= |s| && |a| == |s| + 1
    requires forall j :: 0 <= j < pos ==> a[j] == s[j]
    requires a[pos] == n
    requires forall j :: pos < j < |a| ==> a[j] == s[j - 1]
    ensures a == s[..pos] + [n] + s[pos..]
  {
  }

  function Take(s: seq<Naybor>, n: nat): (r: seq<Naybor>)
  {
    if |s| <= n then s else s[..n]
  }

  /** The list a rebuild produces: the first MAX_NAYBORS neighbours the grid
      yields, in ascending order of distance. */
  function Rebuild(cands: seq<GameObject>, self: nat, px: int, py: int): seq<Naybor> {
    InsertAll(Take(Qualifying(cands, self, px, py), MAX_NAYBORS))
  }

  /** Once the first i candidates have yielded MAX_NAYBORS neighbours, the
      rest of the grid's answer no longer matters. */
  lemma RebuildStopsWhenFull(cands: seq<GameObject>, i: nat, self: nat, px: int, py: int)
    requires i <= |cands|
    requires |Qualifying(cands[..i], self, px, py)| == MAX_NAYBORS
    ensures Rebuild(cands, self, px, py) == InsertAll(Qualifying(cands[..i], self, px, py))
  {
    QualifyingPrefix(cands, i, self, px, py);
    var all := Qualifying(cands, self, px, py);
    if |all| == MAX_NAYBORS {
      assert all == all[..MAX_NAYBORS];
    }
  }

  /** When the grid yields fewer neighbours than fit, the rebuild keeps them all. */
  lemma RebuildWithRoom(cands: seq<GameObject>, self: nat, px: int, py: int)
    requires |Qualifying(cands, self, px, py)| < MAX_NAYBORS
    ensures Rebuild(cands, self, px, py) == InsertAll(Qualifying(cands, self, px, py))
  {
  }

  /** What a rebuilt list holds: at most MAX_NAYBORS entries, sorted by
      distance, each a live object other than the projectile, within range,
      with its true squared distance; and, when the grid yields no more
      neighbours than fit, every one of them. */
  lemma RebuildProperties(cands: seq<GameObject>, self: nat, px: int, py: int)
    ensures var r := Rebuild(cands, self, px, py);
            && |r| <= MAX_NAYBORS
            && Sorted(r)
            && (forall e :: e in r ==>
                  e.obj in cands && Qualifies(e.obj, self, px, py) && e.distSqr == DistSqr(px, py, e.obj))
            && (|Qualifying(cands, self, px, py)| <= MAX_NAYBORS ==>
                  forall o :: o in cands && Qualifies(o, self, px, py) ==> Naybor(o, DistSqr(px, py, o)) in r)
  {
    var q := Qualifying(cands, self, px, py);
    var t := Take(q, MAX_NAYBORS);
    var r := InsertAll(t);
    InsertAllSorted(t);
    InsertAllMultiset(t);
    forall e | e in r
      ensures e.obj in cands && Qualifies(e.obj, self, px, py) && e.distSqr == DistSqr(px, py, e.obj)
    {
      assert e in multiset(r);
      assert e in t;
      assert e in q;
    }
    if |q| <= MAX_NAYBORS {
      forall o | o in cands && Qualifies(o, self, px, py)
        ensures Naybor(o, DistSqr(px, py, o)) in r
      {
        QualifyingComplete(cands, self, px, py, o);
        assert Naybor(o, DistSqr(px, py, o)) in multiset(t);
        assert Naybor(o, DistSqr(px, py, o)) in multiset(r);
      }
    }
  }

  /** The engine's neighbour list: a fixed array, how many of its entries are
      in use, and the key of the last rebuild (which projectile, which tick). */
  class NayborList {
    const entries: array<Naybor>
    var count: nat
    var cacheObj: Option<nat>
    var cacheTime: nat

    ghost predicate Valid()
      reads this
    {
      entries.Length == MAX_NAYBORS && count <= entries.Length
    }

    function Contents(): seq<Naybor>
      reads this, entries
      requires Valid()
    {
      entries[..count]
    }

    /** The empty list, with no rebuild recorded yet. */
    constructor ()
      ensures Valid() && fresh(entries)
      ensures Contents() == [] && cacheObj == None && cacheTime == 0
    {
      entries := new Naybor[MAX_NAYBORS];
      count := 0;
      cacheObj := None;
      cacheTime := 0;
    }

    /** Moves every entry farther away than distSqr up by one place, from
        the far end down, and returns the gap this opens. */
    method ShiftFarther(distSqr: nat) returns (pos: nat)
      requires Valid() && count < entries.Length
      modifies entries
      ensures pos <= count
      ensures forall j :: 0 <= j < pos ==> entries[j] == old(entries[j])
      ensures forall j :: pos < j <= count ==> entries[j] == old(entries[j - 1])
      ensures pos == 0 || old(entries[pos - 1]).distSqr <= distSqr
      ensures forall j :: pos <= j < count ==> old(entries[j]).distSqr > distSqr
    {
      pos := count;
      while pos > 0 && entries[pos - 1].distSqr > distSqr
        invariant pos <= count
        invariant forall j :: 0 <= j < pos ==> entries[j] == old(entries[j])
        invariant forall j :: pos < j <= count ==> entries[j] == old(entries[j - 1])
        invariant forall j :: pos <= j < count ==> old(entries[j]).distSqr > distSqr
      {
        entries[pos] := entries[pos - 1];
        pos := pos - 1;
      }
    }

    /** Adds one neighbour, shifting farther entries up by one place. The
        caller never adds to a full list. */
    method AddProjNaybor(obj: GameObject, distSqr: nat)
      requires Valid() && count < entries.Length
      modifies this, entries
      ensures Valid()
      ensures count == old(count) + 1
      ensures Contents() == Insert(old(Contents()), Naybor(obj, distSqr))
      ensures cacheObj == old(cacheObj) && cacheTime == old(cacheTime)
    {
      ghost var s := Contents();
      var n := Naybor(obj, distSqr);
      if count == 0 {
        entries[0] := n;
        count := count + 1;
        InsertAt(s, n, 0);
        assert Contents() == [n];
      } else if distSqr >= entries[count - 1].distSqr {
        entries[count] := n;
        count := count + 1;
        InsertAt(s, n, |s|);
        assert Contents() == s + [n];
      } else {
        var pos := ShiftFarther(distSqr);
        entries[pos] := n;
        count := count + 1;
        InsertAt(s, n, pos);
        Splice(entries[..count], s, n, pos);
      }
    }

    /** One step of the rebuild: adds the grid object o when it is another
        live object within range of the projectile. */
    method ConsiderCandidate(self: nat, px: int, py: int, o: GameObject, ghost q: seq<Naybor>)
      requires Valid() && count == |q| && count < MAX_NAYBORS && Contents() == InsertAll(q)
      modifies this, entries
      ensures Valid() && cacheObj == old(cacheObj) && cacheTime == old(cacheTime)
      ensures var q' := q + (if Qualifies(o, self, px, py) then [Naybor(o, DistSqr(px, py, o))] else []);
              count == |q'| && Contents() == InsertAll(q')
    {
      if o.ref != self && o.died == 0 {
        var xdiff, ydiff := px - o.x, py - o.y;
        var distSqr := xdiff * xdiff + ydiff * ydiff;
        assert distSqr == DistSqr(px, py, o);
        if distSqr <= PROJ_NAYBOR_RANGE * PROJ_NAYBOR_RANGE {
          InsertAllSnoc(q, Naybor(o, distSqr));
          AddProjNaybor(o, distSqr);
          return;
        }
      }
      assert q + [] == q;
    }

    /** Rebuilds the list for the projectile `self` at (px, py) from the
        objects the spatial grid yields, unless it was already built for the
        same projectile in the same tick. */
    method GetNaybors(self: nat, px: int, py: int, gameTime: nat, cands: seq<GameObject>)
      requires Valid()
      modifies this, entries
      ensures Valid()
      ensures cacheObj == Some(self) && cacheTime == gameTime
      ensures old(cacheObj) == Some(self) && old(cacheTime) == gameTime ==>
                count == old(count) && entries[..] == old(entries[..])
      ensures !(old(cacheObj) == Some(self) && old(cacheTime) == gameTime) ==>
                Contents() == Rebuild(cands, self, px, py)
    {
      if cacheObj == Some(self) && cacheTime == gameTime {
        return;
      }
      cacheObj := Some(self);
      cacheTime := gameTime;
      count := 0;
      var i := 0;
      ghost var q: seq<Naybor> := [];
      while i < |cands|
        invariant Valid() && i <= |cands|
        invariant cacheObj == Some(self) && cacheTime == gameTime
        invariant q == Qualifying(cands[..i], self, px, py)
        invariant count == |q| && count < MAX_NAYBORS
        invariant Contents() == InsertAll(q)
      {
        QualifyingStep(cands, i, self, px, py);
        ConsiderCandidate(self, px, py, cands[i], q);
        i := i + 1;
        q := Qualifying(cands[..i], self, px, py);
        if count >= MAX_NAYBORS {
          RebuildStopsWhenFull(cands, i, self, px, py);
          return;
        }
      }
      assert cands[..i] == cands;
      RebuildWithRoom(cands, self, px, py);
    }
  }
}
