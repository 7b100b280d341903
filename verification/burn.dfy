/** Burn accrual: an object standing in a projectile's fire is billed, tick
    by tick, the part of its owed burn damage it has not been billed yet.
    The engine keeps the times and the running total in unsigned 32-bit
    fields; the arithmetic below wraps as they do. */
module Burn {
  import opened ProjTypes

  const U32: nat := 0x1_0000_0000
  const S32_LIMIT: nat := 0x8000_0000

  /** The signed 32-bit reading of a word. */
  function ToSigned(u: int): (s: int)
    ensures -(S32_LIMIT as int) <= s < S32_LIMIT
    ensures 0 <= u < S32_LIMIT ==> s == u
  {
    var m := u % U32;
    if m < S32_LIMIT then m else m - U32
  }

  /** The per-object state the fire reads and writes: position, whether it
      is a flying VTOL (immune), its IN_FIRE and BURNING flags, when its
      current burn began and how much burn damage it has been billed. */
  datatype BurnTarget = BurnTarget(
    x: int, y: int,
    isDroid: bool, vtol: bool, moving: bool,
    inFire: bool, burning: bool,
    burnStart: nat, burnDamage: nat)

  /** Burn damage owed since burnStart at `rate` per second, computed in
      unsigned 32-bit words. */
  function Owed(gameTime: nat, burnStart: nat, rate: nat): (owed: nat)
    ensures owed < U32
    ensures burnStart <= gameTime && (gameTime - burnStart) * rate < U32 ==>
              owed == (gameTime - burnStart) * rate / GAME_TICKS_PER_SEC
  {
    var elapsed := (gameTime - burnStart) % U32;
    var product := elapsed * rate % U32;
    assert burnStart <= gameTime && (gameTime - burnStart) * rate < U32 ==>
             product == (gameTime - burnStart) * rate by {
      if burnStart <= gameTime && (gameTime - burnStart) * rate < U32 {
        ProductFits(gameTime - burnStart, rate);
      }
    }
    product / GAME_TICKS_PER_SEC
  }

  /** A product that fits a word is computed exactly in words. */
  lemma ProductFits(e: nat, rate: nat)
    requires e * rate < U32
    ensures (e % U32) * rate % U32 == e * rate
  {
    if rate > 0 {
      MulMonotone(1, rate, e);
      assert e % U32 == e;
    }
  }

  /** Whether the fire centred at (px, py) with radius `radius` reaches t. */
  predicate InReach(t: BurnTarget, px: int, py: int, radius: nat) {
    var dx, dy := t.x - px, t.y - py;
    dx * dx + dy * dy <= radius * radius
  }

  predicate FlyingVtol(t: BurnTarget) {
    t.isDroid && t.vtol && t.moving
  }

  /** One object's visit by the fire: the new state of the object and the
      damage billed to it (0 when nothing is billed). */
  function BurnStep(t: BurnTarget, px: int, py: int, radius: nat, gameTime: nat, rate: nat): (r: (BurnTarget, nat))
    ensures FlyingVtol(t) || !InReach(t, px, py, radius) ==> r == (t, 0)
    ensures !FlyingVtol(t) && InReach(t, px, py, radius) ==>
              r.0.inFire && r.0.x == t.x && r.0.y == t.y && r.0.burning == t.burning
    ensures !FlyingVtol(t) && InReach(t, px, py, radius) ==>
              r.0 == t.(inFire := true, burnStart := r.0.burnStart, burnDamage := r.0.burnDamage)
    ensures !FlyingVtol(t) && InReach(t, px, py, radius) && (t.burnStart == 0 || t.burning) ==>
              r.1 == 0 && r.0.burnStart == gameTime && r.0.burnDamage == 0
    ensures r.1 > 0 ==>
              r.1 == ToSigned(Owed(gameTime, t.burnStart, rate)) - ToSigned(t.burnDamage)
              && r.0.burnDamage == (t.burnDamage + r.1) % U32 && r.0.burnStart == t.burnStart
    ensures !FlyingVtol(t) && InReach(t, px, py, radius) && t.burnStart != 0 && !t.burning ==>
              var todo := ToSigned(Owed(gameTime, t.burnStart, rate)) - ToSigned(t.burnDamage);
              r.1 == (if todo > 0 then todo else 0)
              && r.0.burnStart == t.burnStart
              && (r.1 == 0 ==> r.0.burnDamage == t.burnDamage)
  {
    if FlyingVtol(t) || !InReach(t, px, py, radius) then (t, 0)
    else
      var lit := t.(inFire := true);
      if t.burnStart == 0 || t.burning then
        (lit.(burnStart := gameTime, burnDamage := 0), 0)
      else
        var todo := ToSigned(Owed(gameTime, t.burnStart, rate)) - ToSigned(t.burnDamage);
        if todo > 0 then (lit.(burnDamage := (t.burnDamage + todo) % U32), todo)
        else (lit, 0)
  }

  /** The fire's visit to a whole list, object by object. */
  function BurnAll(ts: seq<BurnTarget>, px: int, py: int, radius: nat, gameTime: nat, rate: nat): (r: seq<BurnTarget>)
    ensures |r| == |ts|
    ensures forall i :: 0 <= i < |ts| ==> r[i] == BurnStep(ts[i], px, py, radius, gameTime, rate).0
  {
    if ts == [] then []
    else BurnAll(ts[..|ts| - 1], px, py, radius, gameTime, rate)
         + [BurnStep(ts[|ts| - 1], px, py, radius, gameTime, rate).0]
  }

  /** Visits every object of one list, updating it in place, and returns what
      was billed to each. */
  method CheckBurnDamage(objs: array<BurnTarget>, px: int, py: int, radius: nat, gameTime: nat, rate: nat)
    returns (bills: seq<nat>)
    modifies objs
    ensures objs[..] == BurnAll(old(objs[..]), px, py, radius, gameTime, rate)
    ensures |bills| == objs.Length
    ensures forall i :: 0 <= i < |bills| ==> bills[i] == BurnStep(old(objs[i]), px, py, radius, gameTime, rate).1
  {
    bills := [];
    var i := 0;
    while i < objs.Length
      invariant i <= objs.Length && |bills| == i
      invariant forall j :: 0 <= j < i ==> objs[j] == BurnStep(old(objs[j]), px, py, radius, gameTime, rate).0
      invariant forall j :: 0 <= j < i ==> bills[j] == BurnStep(old(objs[j]), px, py, radius, gameTime, rate).1
      invariant forall j :: i <= j < objs.Length ==> objs[j] == old(objs[j])
    {
      var step := BurnStep(objs[i], px, py, radius, gameTime, rate);
      objs[i] := step.0;
      bills := bills + [step.1];
      i := i + 1;
    }
  }

  /** The range in which none of the 32-bit words wraps: the burn began no
      later than now, the owed product fits a word, and the running total
      reads the same signed and unsigned. */
  predicate NoWrap(t: BurnTarget, gameTime: nat, rate: nat) {
    t.burnStart <= gameTime && (gameTime - t.burnStart) * rate < U32 && t.burnDamage < S32_LIMIT
  }

  function OwedExact(t: BurnTarget, gameTime: nat, rate: nat): nat
    requires t.burnStart <= gameTime
  {
    (gameTime - t.burnStart) * rate / GAME_TICKS_PER_SEC
  }

  /** Away from wrap-around, an object already burning ends the visit having
      been billed exactly up to what it owes: its total becomes the larger of
      its old total and the amount owed, and the bill is the difference. */
  lemma BurnBillsUpToOwed(t: BurnTarget, px: int, py: int, radius: nat, gameTime: nat, rate: nat)
    requires NoWrap(t, gameTime, rate)
    requires !FlyingVtol(t) && InReach(t, px, py, radius) && t.burnStart != 0 && !t.burning
    ensures var r := BurnStep(t, px, py, radius, gameTime, rate);
            var owed := OwedExact(t, gameTime, rate);
            r.0.burnDamage == Max(t.burnDamage, owed)
            && r.1 == r.0.burnDamage - t.burnDamage
  {
    var owed := OwedExact(t, gameTime, rate);
    assert owed < S32_LIMIT by {
      DivBound((gameTime - t.burnStart) * rate);
    }
  }

  lemma DivBound(a: nat)
    requires a < U32
    ensures a / GAME_TICKS_PER_SEC < S32_LIMIT
  {
    assert a / GAME_TICKS_PER_SEC * GAME_TICKS_PER_SEC <= a;
  }

  /** The billed total never decreases while a burn goes on, and never
      exceeds what has been owed since the burn began: both hold after every
      visit to an object that already satisfied the bound. */
  lemma BurnTotalBounded(t: BurnTarget, px: int, py: int, radius: nat, gameTime: nat, rate: nat)
    requires NoWrap(t, gameTime, rate)
    requires t.burnDamage <= OwedExact(t, gameTime, rate)
    ensures var t' := BurnStep(t, px, py, radius, gameTime, rate).0;
            t'.burnStart <= gameTime && t'.burnDamage <= OwedExact(t', gameTime, rate)
    ensures var t' := BurnStep(t, px, py, radius, gameTime, rate).0;
            t'.burnStart == t.burnStart ==> t'.burnDamage >= t.burnDamage
  {
    if !FlyingVtol(t) && InReach(t, px, py, radius) && t.burnStart != 0 && !t.burning {
      BurnBillsUpToOwed(t, px, py, radius, gameTime, rate);
    }
  }

  /** Time only raises what is owed: the bound survives into later ticks. */
  lemma OwedMonotone(t: BurnTarget, t1: nat, t2: nat, rate: nat)
    requires t.burnStart <= t1 <= t2
    ensures OwedExact(t, t1, rate) <= OwedExact(t, t2, rate)
  {
    assert (t1 - t.burnStart) * rate <= (t2 - t.burnStart) * rate by {
      MulMonotone(t1 - t.burnStart, t2 - t.burnStart, rate);
    }
    DivMonotone((t1 - t.burnStart) * rate, (t2 - t.burnStart) * rate, GAME_TICKS_PER_SEC);
  }

  /** No double billing: a second visit by the same fire in the same tick
      finds nothing more to bill and changes nothing. */
  lemma BurnIdempotentInTick(t: BurnTarget, px: int, py: int, radius: nat, gameTime: nat, rate: nat)
    requires NoWrap(t, gameTime, rate)
    ensures var r := BurnStep(t, px, py, radius, gameTime, rate);
            BurnStep(r.0, px, py, radius, gameTime, rate) == (r.0, 0)
  {
    var r := BurnStep(t, px, py, radius, gameTime, rate);
    if !FlyingVtol(t) && InReach(t, px, py, radius) {
      if t.burnStart == 0 || t.burning {
        assert Owed(gameTime, gameTime, rate) == 0;
      } else {
        BurnBillsUpToOwed(t, px, py, radius, gameTime, rate);
        assert ToSigned(r.0.burnDamage) == r.0.burnDamage by {
          DivBound((gameTime - t.burnStart) * rate);
        }
      }
    }
  }

  /** Once a fire has reached an object, no fire with the same rate bills it
      again in the same tick, wherever that fire burns. */
  lemma BurnOnceAcrossFires(t: BurnTarget, px: int, py: int, r1: nat,
                            qx: int, qy: int, r2: nat, gameTime: nat, rate: nat)
    requires NoWrap(t, gameTime, rate) && !FlyingVtol(t) && InReach(t, px, py, r1)
    ensures BurnStep(BurnStep(t, px, py, r1, gameTime, rate).0, qx, qy, r2, gameTime, rate).1 == 0
  {
    var a := BurnStep(t, px, py, r1, gameTime, rate);
    BurnIdempotentInTick(t, px, py, r1, gameTime, rate);
    if InReach(a.0, qx, qy, r2) {
      assert InReach(a.0, px, py, r1);
    }
  }
}
