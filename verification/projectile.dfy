/** The projectile objects and the global projectile list: creation at the
    head of the list, the per-tick state machine (in flight, impact,
    post-impact, dead), and the deferred sweep that unlinks dead projectiles. */
module Projectiles {
  import opened ProjTypes
  import opened Geometry
  import opened Damage
  import opened Naybors
  import opened Collision
  import opened Burn

  /** Seconds a Las-Sat strike waits in multiplayer before it lands. */
  const LAS_SAT_DELAY: nat := 4
  /** Number of player slots whose droid and structure lists a fire visits. */
  const MAX_PLAYERS: nat := 8

  /** One projectile. Fields the engine never changes after creation are
      constants; `ref` is the projectile's own handle among world objects. */
  class Projectile {
    const ref: nat
    const stats: WeaponStats
    const player: nat
    const startX: int
    const startY: int
    const srcHeight: int
    const altChange: int
    const bVisible: bool
    /** Whether the direct-fire flight routine drives it. */
    const direct: bool
    var state: ProjState
    var born: nat
    var died: nat
    var source: Option<nat>
    var dest: Option<nat>
    var damaged: Option<nat>
    var x: int
    var y: int
    var z: int
    var tarX: int
    var tarY: int

    constructor (ref: nat, stats: WeaponStats, player: nat, born: nat,
                 source: Option<nat>, dest: Option<nat>, damaged: Option<nat>,
                 muzzleX: int, muzzleY: int, muzzleZ: int,
                 tarX: int, tarY: int, altChange: int, bVisible: bool, direct: bool)
      ensures this.ref == ref && this.stats == stats && this.player == player && this.born == born
      ensures this.source == source && this.dest == dest && this.damaged == damaged
      ensures x == muzzleX && y == muzzleY && z == muzzleZ
      ensures startX == muzzleX && startY == muzzleY && srcHeight == muzzleZ
      ensures this.tarX == tarX && this.tarY == tarY && this.altChange == altChange
      ensures this.bVisible == bVisible && this.direct == direct
      ensures state == InFlight && died == 0
    {
      this.ref := ref;
      this.stats := stats;
      this.player := player;
      this.born := born;
      this.source := source;
      this.dest := dest;
      this.damaged := damaged;
      x, y, z := muzzleX, muzzleY, muzzleZ;
      startX, startY, srcHeight := muzzleX, muzzleY, muzzleZ;
      this.tarX := tarX;
      this.tarY := tarY;
      this.altChange := altChange;
      this.bVisible := bVisible;
      this.direct := direct;
      state := InFlight;
      died := 0;
    }
  }

  /** Who fires a new projectile: a script (no attacker: the shot starts at
      its target), an object whose muzzle position is given, or a projectile
      that penetrated its target (the follow-up inherits its age, its source
      and what it has damaged, and starts where it is). */
  datatype Origin =
    | Script
    | Fired(attacker: nat, muzzleX: int, muzzleY: int, muzzleZ: int)
    | Spawned(parentBorn: nat, parentSource: Option<nat>, parentDamaged: Option<nat>,
              parentX: int, parentY: int, parentZ: int)

  /** The flight routine chosen at launch: direct for direct-fire weapons,
      and for indirect ones whose target lies within their minimum range. */
  function LaunchDirect(stats: WeaponStats, dx: int, dy: int, dz: int): (direct: bool)
    ensures ProjDirect(stats.movement) ==> direct
    ensures !ProjDirect(stats.movement) ==>
              (direct <==> dx * dx + dy * dy + dz * dz <= stats.minRange * stats.minRange)
  {
    ProjDirect(stats.movement) || dx * dx + dy * dy + dz * dz <= stats.minRange * stats.minRange
  }

  /** What the engine works out for a projectile in flight this tick with
      floating-point trajectory code: whether the next position is on the
      map, that position, the flight vector, how far along the flight is
      (1.0 at the aim point) and whether it is still above the terrain. */
  datatype FlightStep = FlightStep(
    onMap: bool,
    nextX: int, nextY: int, nextZ: int,
    moveX: int, moveY: int, moveZ: int,
    distanceRatio: real,
    aboveGround: bool)

  /** The outside answers an impact needs: the armour modifier for the
      target, the wrapped impact angle, and the relative damage the damage
      routine reports (negative when the target was destroyed). */
  datatype ImpactInput = ImpactInput(modifier: nat, rawAngle: int, relativeDamage: real)

  /** Everything one projectile's update reads from the rest of the game. */
  datatype TickInput = TickInput(
    world: map<nat, GameObject>,
    onMap: bool,
    cands: seq<GameObject>,
    step: FlightStep,
    impact: ImpactInput)

  /** Game-wide settings for a tick: the clock, whether this is a
      multiplayer game, the alliance relation, the map size in tiles and
      the player at this screen. */
  datatype Env = Env(
    gameTime: nat,
    multiPlayer: bool,
    allied: set<(nat, nat)>,
    mapWidth: nat,
    mapHeight: nat,
    observer: nat)

  /** The damage an impact hands to the outside damage routines. */
  datatype Bill =
    | NoBill
    | ElectronicBill(target: nat, damage: nat)
    | DamageBill(target: nat, damage: nat, side: HitSide)

  /** The fields of a projectile, and the projectile list, as a flight
      step finds them. */
  datatype Before = Before(x: int, y: int, z: int, tarX: int, tarY: int,
                           state: ProjState, list: seq<Projectile>)

  /** The follow-up c that a penetrating projectile p fires at `aim`. */
  ghost predicate SpawnedBy(c: Projectile, p: Projectile, aim: (int, int, int))
    reads c, p
  {
    && c.stats == p.stats && c.player == p.player
    && c.born == p.born && c.source == p.source && c.damaged == p.damaged
    && c.dest == None && c.state == InFlight && c.died == 0 && c.bVisible
    && c.startX == p.x && c.startY == p.y && c.srcHeight == p.z
    && c.tarX == aim.0 && c.tarY == aim.1 && c.altChange == aim.2 - p.z
    && c.direct == LaunchDirect(p.stats, aim.0 - p.x, aim.1 - p.y, aim.2 - p.z)
  }

  /** The projectiles of s that are not in `dead`, in their order in s. */
  function Keep(s: seq<Projectile>, dead: set<Projectile>): (r: seq<Projectile>)
    ensures |r| <= |s|
  {
    if s == [] then []
    else if s[0] in dead then Keep(s[1..], dead)
    else [s[0]] + Keep(s[1..], dead)
  }

  /** Keep loses nothing it should keep and keeps nothing it should drop. */
  lemma {:induction false} KeepMembers(s: seq<Projectile>, dead: set<Projectile>, p: Projectile)
    ensures p in Keep(s, dead) <==> p in s && p !in dead
  {
    if s != [] {
      KeepMembers(s[1..], dead, p);
    }
  }

  /** Keep works piecewise, so it preserves relative order. */
  lemma {:induction false} KeepAppend(s: seq<Projectile>, t: seq<Projectile>, dead: set<Projectile>)
    ensures Keep(s + t, dead) == Keep(s, dead) + Keep(t, dead)
  {
    if s == [] {
      assert s + t == t;
    } else {
      assert (s + t)[1..] == s[1..] + t;
      KeepAppend(s[1..], t, dead);
    }
  }

  /** Sweeping twice removes nothing more. */
  lemma {:induction false} KeepIdempotent(s: seq<Projectile>, dead: set<Projectile>)
    ensures Keep(Keep(s, dead), dead) == Keep(s, dead)
  {
    if s != [] {
      KeepIdempotent(s[1..], dead);
    }
  }

  /** Extending the scanned prefix by one projectile adds it to the kept
      part exactly when it is not dead. */
  lemma KeepStep(all: seq<Projectile>, j: nat, dead: set<Projectile>)
    requires j < |all|
    ensures Keep(all[..j + 1], dead) == Keep(all[..j], dead) + (if all[j] in dead then [] else [all[j]])
  {
    assert all[..j + 1] == all[..j] + [all[j]];
    KeepAppend(all[..j], [all[j]], dead);
    assert [all[j]][1..] == [];
  }

  /** One step of the unlinking walk over l, which has kept the survivors
      of all[..j] before position i and still holds all[j..] from there. */
  lemma UnlinkStep(l: seq<Projectile>, i: nat, all: seq<Projectile>, j: nat, dead: set<Projectile>)
    requires i < |l| && j < |all| && l[..i] == Keep(all[..j], dead) && l[i..] == all[j..]
    ensures l[i] == all[j]
    ensures l[i] in dead ==>
              var l' := l[..i] + l[i + 1..];
              i <= |l'| && l'[..i] == Keep(all[..j + 1], dead) && l'[i..] == all[j + 1..]
    ensures l[i] !in dead ==>
              i + 1 <= |l| && l[..i + 1] == Keep(all[..j + 1], dead) && l[i + 1..] == all[j + 1..]
  {
    assert l[i] == l[i..][0] == all[j..][0];
    KeepStep(all, j, dead);
    var l' := l[..i] + l[i + 1..];
    assert l'[..i] == l[..i];
    assert l'[i..] == l[i + 1..] == l[i..][1..];
    assert l[..i + 1] == l[..i] + [l[i]];
    assert l[i + 1..] == l[i..][1..];
    assert all[j + 1..] == all[j..][1..];
  }

  /** Sweeping a list that ends with `before`: a projectile of `before`
      survives exactly when it is not dead, and every other survivor comes
      from the part in front of it. */
  lemma SweptKeeps(swept: seq<Projectile>, before: seq<Projectile>, dead: set<Projectile>)
    requires |swept| >= |before| && swept[|swept| - |before|..] == before
    ensures forall q :: q in before ==> (q in Keep(swept, dead) <==> q !in dead)
    ensures forall q :: q in Keep(swept, dead) && q !in before ==> q in swept[..|swept| - |before|]
  {
    forall q | q in before
      ensures q in Keep(swept, dead) <==> q !in dead
    {
      KeepMembers(swept, dead, q);
    }
    forall q | q in Keep(swept, dead) && q !in before
      ensures q in swept[..|swept| - |before|]
    {
      KeepMembers(swept, dead, q);
      assert swept == swept[..|swept| - |before|] + before;
    }
  }

  /** What a tick leaves behind in every projectile it updates: references
      to dead objects forgotten, the state never moved backwards, and a
      projectile off the map marked dead. */
  predicate Ticked(q: Projectile, t: TickInput, source0: Option<nat>, rank0: nat)
    reads q
  {
    && q.source == Cleared(t.world, source0)
    && StateRank(q.state) >= rank0
    && (!t.onMap ==> q.died == 1)
  }

  /** The first i projectiles of s have been ticked, each with its own
      input, from the references and states recorded before the loop; the
      rest still hold those. */
  ghost predicate TickedUpTo(s: seq<Projectile>, ticks: seq<TickInput>,
                             source0: seq<Option<nat>>, rank0: seq<nat>, i: nat)
    reads s
  {
    && i <= |s| && |ticks| == |source0| == |rank0| == |s|
    && (forall k :: 0 <= k < i ==> Ticked(s[k], ticks[k], source0[k], rank0[k]))
    && (forall k :: i <= k < |s| ==> s[k].source == source0[k] && StateRank(s[k].state) == rank0[k])
  }

  /** No projectile occurs twice: each node of a linked list is linked once. */
  predicate Distinct(s: seq<Projectile>) {
    s == [] || (s[0] !in s[1..] && Distinct(s[1..]))
  }

  /** Two positions of a distinct list hold two different projectiles. */
  lemma {:induction false} DistinctAt(s: seq<Projectile>, i: nat, j: nat)
    requires Distinct(s) && i < |s| && j < |s| && i != j
    ensures s[i] != s[j]
  {
    if i == 0 {
      assert s[j] == s[1..][j - 1];
    } else if j == 0 {
      assert s[i] == s[1..][i - 1];
    } else {
      DistinctAt(s[1..], i - 1, j - 1);
    }
  }

  /** Unlinking nodes never links one twice. */
  lemma {:induction false} KeepDistinct(s: seq<Projectile>, dead: set<Projectile>)
    requires Distinct(s)
    ensures Distinct(Keep(s, dead))
  {
    if s != [] {
      KeepDistinct(s[1..], dead);
      KeepMembers(s[1..], dead, s[0]);
      if s[0] !in dead {
        assert Keep(s, dead) == [s[0]] + Keep(s[1..], dead);
        assert ([s[0]] + Keep(s[1..], dead))[1..] == Keep(s[1..], dead);
      }
    }
  }

  ghost function Dead(s: seq<Projectile>): set<Projectile>
    reads set p | p in s
  {
    set p | p in s && p.died != 0
  }

  /** A multiplayer Las-Sat strike still inside its countdown. The elapsed
      time is the 32-bit tick difference, compared as an unsigned word
      because the delay it is compared with is unsigned. */
  predicate LasSatWaiting(stats: WeaponStats, born: nat, env: Env) {
    env.multiPlayer && stats.subClass == LasSat
    && (env.gameTime - born) % U32 < LAS_SAT_DELAY * GAME_TICKS_PER_SEC
  }

  /** A reference is cleared once its referent has died (or is gone). */
  predicate Stale(world: map<nat, GameObject>, h: Option<nat>) {
    h.Some? && (h.value !in world || world[h.value].died != 0)
  }

  /** A reference as the per-tick check leaves it: cleared when stale. */
  function Cleared(world: map<nat, GameObject>, h: Option<nat>): (r: Option<nat>)
    ensures r.None? <==> h.None? || Stale(world, h)
    ensures r.Some? ==> r == h && Resolve(world, r) == Lookup(world, r)
  {
    if Stale(world, h) then None else h
  }

  /** How far along the life cycle a state is: in flight, impact, post-impact. */
  function StateRank(s: ProjState): nat {
    match s
    case InFlight => 0
    case Impact => 1
    case PostImpact => 2
  }

  /** Whether an impact ends the projectile at once: its target is a feature
      that cannot be damaged, or the weapon has neither splash nor fire. */
  predicate ImpactEnds(stats: WeaponStats, d: Option<GameObject>) {
    (d.Some? && d.value.kind.Feature? && !d.value.kind.damageable)
    || (stats.radius == 0 && stats.incenTime == 0)
  }

  /** What an impact on d hands the outside damage routines: nothing on a
      miss or on an undamageable feature; an electronic attack when a direct
      electronic weapon still has its source; plain damage otherwise, on the
      side worked out from the approach for a droid hit by a direct shot,
      on top for a droid hit from above by an indirect one, and on the front
      for anything else. */
  function ImpactBill(stats: WeaponStats, source: Option<nat>, d: Option<GameObject>,
                      altChange: int, projZ: int, hit: ImpactInput): (b: Bill)
    ensures b.NoBill? <==> d.None? || (d.value.kind.Feature? && !d.value.kind.damageable)
    ensures !b.NoBill? ==> b.target == d.value.ref
    ensures !b.NoBill? ==> (b.damage == 0 <==> stats.damage == 0)
    ensures !b.NoBill? ==> b.damage == CalcDamage(stats.damage, d.value.kind, hit.modifier)
    ensures b.ElectronicBill? <==>
              !b.NoBill? && ProjDirect(stats.movement) && stats.subClass == Electronic && source.Some?
    ensures b.DamageBill? && !d.value.kind.Droid? ==> b.side == Front
    ensures b.DamageBill? && d.value.kind.Droid? && !ProjDirect(stats.movement) ==> b.side == Top
    ensures b.DamageBill? && d.value.kind.Droid? && ProjDirect(stats.movement) ==>
              b.side == GetHitSide(altChange, projZ, d.value.z, hit.rawAngle)
  {
    if d.None? || (d.value.kind.Feature? && !d.value.kind.damageable) then NoBill
    else
      var o := d.value;
      var damage := CalcDamage(stats.damage, o.kind, hit.modifier);
      if ProjDirect(stats.movement) && stats.subClass == Electronic && source.Some? then
        ElectronicBill(o.ref, damage)
      else
        var side := if !o.kind.Droid? then Front
                    else if ProjDirect(stats.movement) then GetHitSide(altChange, projZ, o.z, hit.rawAngle)
                    else Top;
        DamageBill(o.ref, damage, side)
  }

  /** Whether a post-impact projectile of this age (in milliseconds since
      its impact) has outlived both its explosion and its fire. */
  predicate PostImpactOver(stats: WeaponStats, age: int) {
    age > stats.radiusLife && age > stats.incenTime
  }

  /** A post-impact projectile lives through the whole of the longer of its
      explosion and its fire, and once it is over it stays over: the first
      tick whose age passes that length is the one that ends it. */
  lemma PostImpactLifetime(stats: WeaponStats, age: int, later: int)
    requires age <= later
    ensures !PostImpactOver(stats, Max(stats.radiusLife, stats.incenTime))
    ensures PostImpactOver(stats, age) ==> PostImpactOver(stats, later)
    ensures PostImpactOver(stats, age) <==> age > Max(stats.radiusLife, stats.incenTime)
  {
  }

  /** The droid list and the structure list of every player, each its own
      array. */
  predicate BurnLists(droidLists: seq<array<BurnTarget>>, structLists: seq<array<BurnTarget>>) {
    && |droidLists| == MAX_PLAYERS && |structLists| == MAX_PLAYERS
    && (forall i, j :: 0 <= i < MAX_PLAYERS && 0 <= j < MAX_PLAYERS && i != j ==>
          droidLists[i] != droidLists[j] && structLists[i] != structLists[j])
    && (forall i, j :: 0 <= i < MAX_PLAYERS && 0 <= j < MAX_PLAYERS ==> droidLists[i] != structLists[j])
  }

  /** A player's list after a fire at (px, py) has passed over it, or not. */
  function Burnt(ts: seq<BurnTarget>, lit: bool, px: int, py: int, radius: nat, gameTime: nat, rate: nat)
    : seq<BurnTarget>
  {
    if lit then BurnAll(ts, px, py, radius, gameTime, rate) else ts
  }

  /** The impact of a projectile on its destination (or on the ground):
      bills the target, remembers it as damaged unless the hit destroyed it,
      and either ends the projectile or moves it to post-impact, restarting
      its clock for the explosion and the fire. The splash damage to nearby
      objects is not modelled. */
  method ImpactFunc(p: Projectile, gameTime: nat, world: map<nat, GameObject>, hit: ImpactInput)
    returns (bill: Bill)
    modifies p
    ensures bill == ImpactBill(p.stats, p.source, Lookup(world, p.dest), p.altChange, p.z, hit)
    ensures ImpactEnds(p.stats, Lookup(world, p.dest)) ==>
              p.died == gameTime && p.state == old(p.state) && p.born == old(p.born)
    ensures !ImpactEnds(p.stats, Lookup(world, p.dest)) ==>
              p.state == PostImpact && p.born == gameTime && p.died == old(p.died)
    ensures p.damaged == (if bill.DamageBill? && hit.relativeDamage >= 0.0 then Some(bill.target)
                          else old(p.damaged))
    ensures p.source == old(p.source) && p.dest == old(p.dest)
    ensures p.x == old(p.x) && p.y == old(p.y) && p.z == old(p.z)
  {
    var d := Lookup(world, p.dest);
    if d.Some? && d.value.kind.Feature? && !d.value.kind.damageable {
      bill := NoBill;
      p.died := gameTime;
      return;
    }
    bill := ImpactBill(p.stats, p.source, d, p.altChange, p.z, hit);
    if bill.DamageBill? && hit.relativeDamage >= 0.0 {
      p.damaged := Some(bill.target);
    }
    if p.stats.radius == 0 && p.stats.incenTime == 0 {
      p.died := gameTime;
      return;
    }
    if p.stats.radius != 0 {
      p.state := PostImpact;
      p.born := gameTime;
    }
    if p.stats.incenTime != 0 {
      p.state := PostImpact;
      p.born := gameTime;
    }
  }

  /** The fire visits one player's droids, then that player's structures. */
  method BurnPlayer(droids: array<BurnTarget>, structs: array<BurnTarget>,
                    px: int, py: int, radius: nat, gameTime: nat, rate: nat)
    requires droids != structs
    modifies droids, structs
    ensures droids[..] == BurnAll(old(droids[..]), px, py, radius, gameTime, rate)
    ensures structs[..] == BurnAll(old(structs[..]), px, py, radius, gameTime, rate)
  {
    var _ := CheckBurnDamage(droids, px, py, radius, gameTime, rate);
    var _ := CheckBurnDamage(structs, px, py, radius, gameTime, rate);
  }

  /** The fire at (px, py) visits the droids and the structures of every
      player but `owner`, player by player. */
  method BurnOthers(owner: nat, px: int, py: int, radius: nat, gameTime: nat, rate: nat,
                    droidLists: seq<array<BurnTarget>>, structLists: seq<array<BurnTarget>>)
    requires BurnLists(droidLists, structLists)
    modifies set a | a in droidLists, set a | a in structLists
    ensures forall k :: 0 <= k < MAX_PLAYERS ==>
              droidLists[k][..] == Burnt(old(droidLists[k][..]), k != owner, px, py, radius, gameTime, rate)
              && structLists[k][..] == Burnt(old(structLists[k][..]), k != owner, px, py, radius, gameTime, rate)
  {
    var i := 0;
    while i < MAX_PLAYERS
      invariant i <= MAX_PLAYERS
      invariant forall k :: 0 <= k < i ==>
                  droidLists[k][..] == Burnt(old(droidLists[k][..]), k != owner, px, py, radius, gameTime, rate)
                  && structLists[k][..] == Burnt(old(structLists[k][..]), k != owner, px, py, radius, gameTime, rate)
      invariant forall k :: i <= k < MAX_PLAYERS ==>
                  droidLists[k][..] == old(droidLists[k][..]) && structLists[k][..] == old(structLists[k][..])
    {
      if i != owner {
        BurnPlayer(droidLists[i], structLists[i], px, py, radius, gameTime, rate);
      }
      i := i + 1;
    }
  }

  /** After an impact: the projectile dies once both its explosion and its
      fire are over; until then a fire burns every other player's droids and
      structures within its radius. Ages are signed differences. */
  method PostImpactFunc(p: Projectile, gameTime: nat,
                        droidLists: seq<array<BurnTarget>>, structLists: seq<array<BurnTarget>>)
    requires BurnLists(droidLists, structLists)
    modifies p, set a | a in droidLists, set a | a in structLists
    ensures p.died == (if PostImpactOver(p.stats, gameTime - p.born) then gameTime else old(p.died))
    ensures p.state == old(p.state) && p.born == old(p.born)
    ensures p.source == old(p.source) && p.dest == old(p.dest) && p.damaged == old(p.damaged)
    ensures p.x == old(p.x) && p.y == old(p.y) && p.z == old(p.z)
    ensures forall k :: 0 <= k < MAX_PLAYERS ==>
              var lit := !PostImpactOver(p.stats, gameTime - p.born) && p.stats.incenTime > 0 && k != p.player;
              droidLists[k][..] == Burnt(old(droidLists[k][..]), lit, p.x, p.y, p.stats.incenRadius,
                                         gameTime, p.stats.incenDamage)
              && structLists[k][..] == Burnt(old(structLists[k][..]), lit, p.x, p.y, p.stats.incenRadius,
                                             gameTime, p.stats.incenDamage)
  {
    var age := gameTime - p.born;
    if PostImpactOver(p.stats, age) {
      p.died := gameTime;
      return;
    }
    if p.stats.incenTime > 0 {
      BurnOthers(p.player, p.x, p.y, p.stats.incenRadius, gameTime, p.stats.incenDamage,
                 droidLists, structLists);
    }
  }

  /** A projectile that holds no references to other objects. */
  predicate Released(p: Projectile)
    reads p
  {
    p.source == None && p.dest == None && p.damaged == None
  }

  /** Releases a projectile's references to other objects. */
  method Free(p: Projectile)
    modifies p
    ensures Released(p)
    ensures p.died == old(p.died) && p.state == old(p.state) && p.born == old(p.born)
  {
    p.source, p.dest, p.damaged := None, None, None;
  }

  /** The projectile list, the neighbour list the collision code reads, and
      the counter that hands out projectile handles. */
  class ProjectileSystem {
    var list: seq<Projectile>
    const nayb: NayborList
    var nextRef: nat

    /** The neighbour list is well formed and no projectile is linked twice. */
    ghost predicate Valid()
      reads this, nayb
    {
      nayb.Valid() && Distinct(list)
    }

    /** An empty projectile list, and an empty neighbour list with no
        rebuild recorded. */
    constructor ()
      ensures Valid() && list == [] && fresh(nayb)
      ensures nayb.Contents() == [] && nayb.cacheObj == None
    {
      list := [];
      nayb := new NayborList();
      nextRef := 0;
    }

    /** Creates a projectile and puts it at the head of the list. The
        trajectory set-up (pitch and velocities) is not modelled. */
    method SendProjectile(stats: WeaponStats, origin: Origin, player: nat,
                          targetX: int, targetY: int, targetZ: int,
                          target: Option<GameObject>, heightVariance: nat,
                          visible: bool, env: Env, world: map<nat, GameObject>)
      returns (p: Projectile)
      requires Valid()
      modifies this
      ensures Valid() && fresh(p)
      ensures list == [p] + old(list)
      ensures nextRef == old(nextRef) + 1 && p.ref == old(nextRef)
      ensures p.state == InFlight && p.died == 0 && p.stats == stats && p.player == player
      ensures p.tarX == targetX && p.tarY == targetY
      ensures p.dest == (if target.Some? then Some(target.value.ref) else None)
      ensures origin.Spawned? ==>
                p.born == origin.parentBorn && p.source == origin.parentSource
                && p.damaged == origin.parentDamaged
                && p.x == origin.parentX && p.y == origin.parentY && p.z == origin.parentZ
      ensures origin.Fired? ==>
                p.source == Some(origin.attacker) && p.damaged == None
                && p.x == origin.muzzleX && p.y == origin.muzzleY && p.z == origin.muzzleZ
      ensures origin.Script? ==>
                p.source == None && p.damaged == None
                && p.x == targetX && p.y == targetY && p.z == targetZ
      ensures !origin.Spawned? ==> p.born == env.gameTime
      ensures var tarHeight := if target.Some? then target.value.z + heightVariance else targetZ;
              p.altChange == tarHeight - p.z
              && p.direct == LaunchDirect(stats, targetX - p.x, targetY - p.y, tarHeight - p.z)
      ensures p.bVisible == (visible || GfxVisible(false, player, env.observer,
                                                   Lookup(world, p.source), Lookup(world, p.dest)))
      ensures p.startX == p.x && p.startY == p.y && p.srcHeight == p.z
    {
      var mx, my, mz := targetX, targetY, targetZ;
      var born, source, damaged := env.gameTime, None, None;
      match origin {
        case Script =>
        case Fired(a, x, y, z) =>
          mx, my, mz := x, y, z;
          source := Some(a);
        case Spawned(b, s, d, x, y, z) =>
          mx, my, mz := x, y, z;
          born, source, damaged := b, s, d;
      }
      var dest := if target.Some? then Some(target.value.ref) else None;
      var tarHeight := if target.Some? then target.value.z + heightVariance else targetZ;
      var direct := LaunchDirect(stats, targetX - mx, targetY - my, tarHeight - mz);
      var seen := visible || GfxVisible(false, player, env.observer, Lookup(world, source), Lookup(world, dest));
      p := new Projectile(nextRef, stats, player, born, source, dest, damaged,
                          mx, my, mz, targetX, targetY, tarHeight - mz, seen, direct);
      nextRef := nextRef + 1;
      list := [p] + list;
    }

    /** What a flight step reads of p and of the list before it runs. */
    function Snapshot(p: Projectile): Before
      reads this, p
    {
      Before(p.x, p.y, p.z, p.tarX, p.tarY, p.state, list)
    }

    /** The outcome of one flight step for p, given the state before it:
        off the map it stops where it was; otherwise it moves, and the
        first neighbour it strikes (under the filters of `shot`) becomes its
        destination; a penetrating hit on a droid prepends one follow-up to
        the list; with no hit, flying past its range or into the ground ends
        the flight with no destination. */
    ghost predicate Flew(p: Projectile, before: Before, step: FlightStep, shot: Shot, factor: real, env: Env)
      reads this, nayb, nayb.entries, p, list
      requires Valid() && env.mapWidth >= 1 && env.mapHeight >= 1
    {
      if step.onMap then Moved(p, before, step, shot, factor, env)
      else StoppedAtEdge(p, before, shot)
    }

    /** A projectile about to leave the map stops where it was and impacts
        there, with no destination. */
    ghost predicate StoppedAtEdge(p: Projectile, before: Before, shot: Shot)
      reads this, p
    {
      && p.state == Impact && p.dest == None && p.damaged == shot.damaged
      && p.tarX == before.x && p.tarY == before.y
      && p.x == before.x && p.y == before.y && p.z == before.z && list == before.list
    }

    /** A projectile that stays on the map moves to its next position and
        resolves collisions there. */
    ghost predicate Moved(p: Projectile, before: Before, step: FlightStep, shot: Shot, factor: real, env: Env)
      reads this, nayb, nayb.entries, p, list
      requires Valid() && env.mapWidth >= 1 && env.mapHeight >= 1
    {
      var ns := nayb.Contents();
      var h := FirstHit(ns, shot, env.allied, step.nextX, step.nextY, step.nextZ);
      var spawns := h.Some? && ns[h.value].obj.kind.Droid? && p.stats.penetrate;
      && p.x == step.nextX && p.y == step.nextY && p.z == step.nextZ
      && p.tarX == before.tarX && p.tarY == before.tarY
      && (h.Some? ==> p.state == Impact && p.dest == Some(ns[h.value].obj.ref))
      && (spawns ==>
            p.damaged == Some(ns[h.value].obj.ref)
            && |list| == |before.list| + 1 && list[1..] == before.list
            && SpawnedBy(list[0], p, ChildAim(p.startX, p.startY, p.srcHeight,
                                              step.moveX, step.moveY, step.moveZ, factor,
                                              env.mapWidth, env.mapHeight)))
      && (!spawns ==> p.damaged == shot.damaged && list == before.list)
      && (h.None? && (step.distanceRatio > factor || !step.aboveGround) ==>
            p.state == Impact && p.dest == None)
      && (h.None? && !(step.distanceRatio > factor || !step.aboveGround) ==>
            p.state == before.state && p.dest == shot.dest)
    }

    /** The part of both flight routines after the extension factor is
        known: move (or stop at the map edge), test the neighbours in list
        order, spawn the follow-up of a penetrating hit on a droid, and give
        up when out of range or underground. `directRoutine` selects the
        direct routine's filters. */
    method Fly(p: Projectile, step: FlightStep, directRoutine: bool, factor: real, env: Env,
               world: map<nat, GameObject>)
      requires Valid() && env.mapWidth >= 1 && env.mapHeight >= 1
      modifies this, p
      ensures Valid() && nayb.Contents() == old(nayb.Contents())
      ensures p.born == old(p.born) && p.died == old(p.died) && p.source == old(p.source)
      ensures |list| >= |old(list)| && list[|list| - |old(list)|..] == old(list)
      ensures forall k :: 0 <= k < |list| - |old(list)| ==> fresh(list[k])
      ensures Flew(p, old(Snapshot(p)), step, Shot(p.player, old(p.dest), old(p.damaged), directRoutine,
                                 p.stats.subClass, p.stats.surfaceToAir), factor, env)
    {
      if !step.onMap {
        p.state := Impact;
        p.tarX, p.tarY := p.x, p.y;
        p.dest := None;
        return;
      }
      var shot := Shot(p.player, p.dest, p.damaged, directRoutine, p.stats.subClass, p.stats.surfaceToAir);
      MoveAndCollide(p, step, shot, factor, env, world, Snapshot(p));
    }

    /** The on-map part of a flight step: move, then resolve collisions. */
    method MoveAndCollide(p: Projectile, step: FlightStep, shot: Shot, factor: real, env: Env,
                          world: map<nat, GameObject>, ghost before: Before)
      requires Valid() && env.mapWidth >= 1 && env.mapHeight >= 1
      requires step.onMap && before == Snapshot(p)
      requires shot.player == p.player && shot.dest == p.dest && shot.damaged == p.damaged
      modifies this, p
      ensures Valid() && nayb.Contents() == old(nayb.Contents())
      ensures p.born == old(p.born) && p.died == old(p.died) && p.source == old(p.source)
      ensures |list| >= |old(list)| && list[|list| - |old(list)|..] == old(list)
      ensures forall k :: 0 <= k < |list| - |old(list)| ==> fresh(list[k])
      ensures Moved(p, before, step, shot, factor, env)
    {
      ghost var ns := nayb.Contents();
      p.x, p.y, p.z := step.nextX, step.nextY, step.nextZ;
      var hit := FindHit(nayb.entries, nayb.count, shot, env.allied, p.x, p.y, p.z);
      assert hit == FirstHit(ns, shot, env.allied, step.nextX, step.nextY, step.nextZ);
      if hit.Some? {
        Strike(p, hit.value, step, shot, factor, env, world, before);
      } else {
        Miss(p, step, shot, factor, env, before);
      }
    }

    /** No neighbour was struck: a projectile past its range allowance or
        below the terrain gives up and impacts where it is, with no
        destination; otherwise it flies on. */
    method Miss(p: Projectile, step: FlightStep, shot: Shot, factor: real, env: Env, ghost before: Before)
      requires Valid() && env.mapWidth >= 1 && env.mapHeight >= 1
      requires FirstHit(nayb.Contents(), shot, env.allied, step.nextX, step.nextY, step.nextZ).None?
      requires step.onMap && p.x == step.nextX && p.y == step.nextY && p.z == step.nextZ
      requires before.tarX == p.tarX && before.tarY == p.tarY && before.list == list
      requires before.state == p.state && shot.dest == p.dest && shot.damaged == p.damaged
      modifies p
      ensures p.born == old(p.born) && p.died == old(p.died) && p.source == old(p.source)
      ensures Moved(p, before, step, shot, factor, env)
    {
      if step.distanceRatio > factor || !step.aboveGround {
        p.state := Impact;
        p.dest := None;
      }
    }

    /** A collision with the neighbour at index `idx`, the first one struck:
        it becomes the destination and the projectile moves to impact; a
        penetrating weapon that struck a droid marks it as damaged and fires
        a follow-up along its line of flight. */
    method Strike(p: Projectile, idx: nat, step: FlightStep, shot: Shot, factor: real, env: Env,
                  world: map<nat, GameObject>, ghost before: Before)
      requires Valid() && env.mapWidth >= 1 && env.mapHeight >= 1
      requires FirstHit(nayb.Contents(), shot, env.allied, step.nextX, step.nextY, step.nextZ) == Some(idx)
      requires step.onMap && p.x == step.nextX && p.y == step.nextY && p.z == step.nextZ
      requires before.tarX == p.tarX && before.tarY == p.tarY && before.list == list
      requires shot.damaged == p.damaged
      modifies this, p
      ensures Valid() && nayb.Contents() == old(nayb.Contents())
      ensures p.born == old(p.born) && p.died == old(p.died) && p.source == old(p.source)
      ensures |list| >= |old(list)| && list[|list| - |old(list)|..] == old(list)
      ensures forall k :: 0 <= k < |list| - |old(list)| ==> fresh(list[k])
      ensures Moved(p, before, step, shot, factor, env)
    {
      var o := nayb.entries[idx].obj;
      assert nayb.Contents()[idx].obj == o;
      p.dest := Some(o.ref);
      if o.kind.Droid? && p.stats.penetrate {
        var aim := ChildAim(p.startX, p.startY, p.srcHeight, step.moveX, step.moveY, step.moveZ,
                            factor, env.mapWidth, env.mapHeight);
        p.damaged := Some(o.ref);
        var child := SendProjectile(p.stats, Spawned(p.born, p.source, p.damaged, p.x, p.y, p.z),
                                    p.player, aim.0, aim.1, aim.2, None, 0, true, env, world);
      }
      p.state := Impact;
    }

    /** The direct-fire flight routine: a multiplayer Las-Sat strike holds
        still for its countdown; otherwise the weapon's sub-class sets how far
        past its aim point it may fly. */
    method InFlightDirect(p: Projectile, step: FlightStep, env: Env, world: map<nat, GameObject>)
      requires Valid() && env.mapWidth >= 1 && env.mapHeight >= 1
      modifies this, p
      ensures Valid() && nayb.Contents() == old(nayb.Contents())
      ensures LasSatWaiting(p.stats, old(p.born), env) ==>
                list == old(list) && p.state == old(p.state) && p.dest == old(p.dest)
                && p.damaged == old(p.damaged) && p.x == old(p.x) && p.y == old(p.y) && p.z == old(p.z)
                && p.tarX == old(p.tarX) && p.tarY == old(p.tarY)
      ensures p.born == old(p.born) && p.died == old(p.died) && p.source == old(p.source)
      ensures |list| >= |old(list)| && list[|list| - |old(list)|..] == old(list)
      ensures forall k :: 0 <= k < |list| - |old(list)| ==> fresh(list[k])
      ensures !LasSatWaiting(p.stats, old(p.born), env) ==>
                Flew(p, old(Snapshot(p)), step, Shot(p.player, old(p.dest), old(p.damaged), true,
                                   p.stats.subClass, p.stats.surfaceToAir),
                     DirectExtensionFactor(p.stats.subClass), env)
    {
      if LasSatWaiting(p.stats, p.born, env) {
        return;
      }
      Fly(p, step, true, DirectExtensionFactor(p.stats.subClass), env, world);
    }

    /** The indirect flight routine: a fixed extension factor, no air-only
        filter, and no collisions with other projectiles. */
    method InFlightIndirect(p: Projectile, step: FlightStep, env: Env, world: map<nat, GameObject>)
      requires Valid() && env.mapWidth >= 1 && env.mapHeight >= 1
      modifies this, p
      ensures Valid() && nayb.Contents() == old(nayb.Contents())
      ensures p.born == old(p.born) && p.died == old(p.died) && p.source == old(p.source)
      ensures |list| >= |old(list)| && list[|list| - |old(list)|..] == old(list)
      ensures forall k :: 0 <= k < |list| - |old(list)| ==> fresh(list[k])
      ensures Flew(p, old(Snapshot(p)), step, Shot(p.player, old(p.dest), old(p.damaged), false,
                                 p.stats.subClass, p.stats.surfaceToAir),
                   INDIRECT_EXTENSION_FACTOR, env)
    {
      Fly(p, step, false, INDIRECT_EXTENSION_FACTOR, env, world);
    }

    /** Forgets the references of p to objects that have died. */
    static method ClearStale(p: Projectile, world: map<nat, GameObject>)
      modifies p
      ensures p.source == Cleared(world, old(p.source))
      ensures p.dest == Cleared(world, old(p.dest))
      ensures p.damaged == Cleared(world, old(p.damaged))
      ensures p.state == old(p.state) && p.born == old(p.born) && p.died == old(p.died)
      ensures p.x == old(p.x) && p.y == old(p.y) && p.z == old(p.z)
      ensures p.tarX == old(p.tarX) && p.tarY == old(p.tarY)
    {
      if Stale(world, p.source) {
        p.source := None;
      }
      if Stale(world, p.dest) {
        p.dest := None;
      }
      if Stale(world, p.damaged) {
        p.damaged := None;
      }
    }

    /** One projectile's tick: forget references to objects that have died,
        kill a projectile that has left the map, rebuild the neighbour list,
        then run the routine of its state. Returns what an impact bills. */
    method Update(p: Projectile, env: Env, tick: TickInput,
                  droidLists: seq<array<BurnTarget>>, structLists: seq<array<BurnTarget>>)
      returns (bill: Bill)
      requires Valid() && env.mapWidth >= 1 && env.mapHeight >= 1
      requires BurnLists(droidLists, structLists)
      modifies this, p, nayb, nayb.entries, set a | a in droidLists, set a | a in structLists
      ensures Valid()
      ensures p.source == Cleared(tick.world, old(p.source))
      ensures StateRank(p.state) >= StateRank(old(p.state))
      ensures |list| >= |old(list)| && list[|list| - |old(list)|..] == old(list)
      ensures forall k :: 0 <= k < |list| - |old(list)| ==> fresh(list[k])
      ensures !(tick.onMap && old(p.state) == Impact) ==> bill == NoBill
      ensures !tick.onMap ==>
                p.died == 1 && p.state == old(p.state) && p.born == old(p.born) && list == old(list)
                && p.dest == Cleared(tick.world, old(p.dest))
                && p.damaged == Cleared(tick.world, old(p.damaged))
      ensures tick.onMap ==> nayb.cacheObj == Some(p.ref) && nayb.cacheTime == env.gameTime
      ensures tick.onMap && (old(nayb.cacheObj) != Some(p.ref) || old(nayb.cacheTime) != env.gameTime) ==>
                nayb.Contents() == Rebuild(tick.cands, p.ref, old(p.x), old(p.y))
      ensures tick.onMap && old(p.state) == InFlight && p.direct && !LasSatWaiting(p.stats, old(p.born), env) ==>
                Flew(p, old(Snapshot(p)), tick.step, Shot(p.player, Cleared(tick.world, old(p.dest)),
                                        Cleared(tick.world, old(p.damaged)), true,
                                        p.stats.subClass, p.stats.surfaceToAir),
                     DirectExtensionFactor(p.stats.subClass), env)
      ensures tick.onMap && old(p.state) == InFlight && p.direct && LasSatWaiting(p.stats, old(p.born), env) ==>
                list == old(list) && p.state == InFlight && p.died == old(p.died)
                && p.dest == Cleared(tick.world, old(p.dest)) && p.damaged == Cleared(tick.world, old(p.damaged))
                && p.x == old(p.x) && p.y == old(p.y) && p.z == old(p.z)
                && p.tarX == old(p.tarX) && p.tarY == old(p.tarY)
      ensures tick.onMap && old(p.state) == InFlight && !p.direct ==>
                Flew(p, old(Snapshot(p)), tick.step, Shot(p.player, Cleared(tick.world, old(p.dest)),
                                        Cleared(tick.world, old(p.damaged)), false,
                                        p.stats.subClass, p.stats.surfaceToAir),
                     INDIRECT_EXTENSION_FACTOR, env)
      ensures tick.onMap && old(p.state) == Impact ==>
                var d := Resolve(tick.world, old(p.dest));
                && bill == ImpactBill(p.stats, Cleared(tick.world, old(p.source)), d,
                                      p.altChange, old(p.z), tick.impact)
                && (ImpactEnds(p.stats, d) ==> p.died == env.gameTime && p.state == Impact)
                && (!ImpactEnds(p.stats, d) ==> p.state == PostImpact && p.born == env.gameTime)
                && list == old(list)
      ensures tick.onMap && old(p.state) == PostImpact ==>
                p.state == PostImpact && p.born == old(p.born) && list == old(list)
                && p.died == (if PostImpactOver(p.stats, env.gameTime - p.born) then env.gameTime
                              else old(p.died))
      ensures forall k :: 0 <= k < MAX_PLAYERS ==>
                var lit := tick.onMap && old(p.state) == PostImpact && !PostImpactOver(p.stats, env.gameTime - p.born)
                           && p.stats.incenTime > 0 && k != p.player;
                droidLists[k][..] == Burnt(old(droidLists[k][..]), lit, p.x, p.y, p.stats.incenRadius,
                                           env.gameTime, p.stats.incenDamage)
                && structLists[k][..] == Burnt(old(structLists[k][..]), lit, p.x, p.y, p.stats.incenRadius,
                                               env.gameTime, p.stats.incenDamage)
      ensures !tick.onMap ==> unchanged(nayb) && unchanged(nayb.entries)
    {
      bill := NoBill;
      ClearStale(p, tick.world);
      if !tick.onMap {
        p.died := 1;
        return;
      }
      nayb.GetNaybors(p.ref, p.x, p.y, env.gameTime, tick.cands);
      bill := RunState(p, env, tick, droidLists, structLists, old(Snapshot(p)),
                       Cleared(tick.world, old(p.dest)), Cleared(tick.world, old(p.damaged)));
    }

    /** The routine of p's current state. */
    method RunState(p: Projectile, env: Env, tick: TickInput,
                    droidLists: seq<array<BurnTarget>>, structLists: seq<array<BurnTarget>>,
                    ghost before: Before, ghost dest: Option<nat>, ghost damaged: Option<nat>)
      returns (bill: Bill)
      requires Valid() && env.mapWidth >= 1 && env.mapHeight >= 1
      requires before == Snapshot(p) && dest == p.dest && damaged == p.damaged
      requires BurnLists(droidLists, structLists)
      modifies this, p, set a | a in droidLists, set a | a in structLists
      ensures Valid() && nayb.Contents() == old(nayb.Contents())
      ensures p.source == old(p.source)
      ensures StateRank(p.state) >= StateRank(old(p.state))
      ensures |list| >= |old(list)| && list[|list| - |old(list)|..] == old(list)
      ensures forall k :: 0 <= k < |list| - |old(list)| ==> fresh(list[k])
      ensures old(p.state) != Impact ==> bill == NoBill
      ensures old(p.state) == InFlight && p.direct && !LasSatWaiting(p.stats, old(p.born), env) ==>
                Flew(p, before, tick.step, Shot(p.player, dest, damaged, true,
                                        p.stats.subClass, p.stats.surfaceToAir),
                     DirectExtensionFactor(p.stats.subClass), env)
      ensures old(p.state) == InFlight && p.direct && LasSatWaiting(p.stats, old(p.born), env) ==>
                list == old(list) && p.state == InFlight && p.died == old(p.died)
                && p.dest == dest && p.damaged == damaged
                && p.x == before.x && p.y == before.y && p.z == before.z
                && p.tarX == before.tarX && p.tarY == before.tarY
      ensures old(p.state) == InFlight && !p.direct ==>
                Flew(p, before, tick.step, Shot(p.player, dest, damaged, false,
                                        p.stats.subClass, p.stats.surfaceToAir),
                     INDIRECT_EXTENSION_FACTOR, env)
      ensures old(p.state) == Impact ==>
                var d := Lookup(tick.world, old(p.dest));
                && bill == ImpactBill(p.stats, old(p.source), d, p.altChange, old(p.z), tick.impact)
                && (ImpactEnds(p.stats, d) ==> p.died == env.gameTime && p.state == Impact)
                && (!ImpactEnds(p.stats, d) ==> p.state == PostImpact && p.born == env.gameTime)
                && list == old(list)
      ensures old(p.state) == PostImpact ==>
                p.state == PostImpact && p.born == old(p.born) && list == old(list)
                && p.died == (if PostImpactOver(p.stats, env.gameTime - p.born) then env.gameTime
                              else old(p.died))
      ensures forall k :: 0 <= k < MAX_PLAYERS ==>
                var lit := old(p.state) == PostImpact && !PostImpactOver(p.stats, env.gameTime - p.born)
                           && p.stats.incenTime > 0 && k != p.player;
                droidLists[k][..] == Burnt(old(droidLists[k][..]), lit, p.x, p.y, p.stats.incenRadius,
                                           env.gameTime, p.stats.incenDamage)
                && structLists[k][..] == Burnt(old(structLists[k][..]), lit, p.x, p.y, p.stats.incenRadius,
                                               env.gameTime, p.stats.incenDamage)
    {
      bill := NoBill;
      match p.state {
        case InFlight =>
          if p.direct {
            InFlightDirect(p, tick.step, env, tick.world);
          } else {
            InFlightIndirect(p, tick.step, env, tick.world);
          }
        case Impact =>
          bill := ImpactFunc(p, env.gameTime, tick.world, tick.impact);
        case PostImpact =>
          PostImpactFunc(p, env.gameTime, droidLists, structLists);
      }
    }

    /** One tick of the whole system: every projectile that was in the list
        when the tick began is updated, in list order (follow-ups spawned
        during the tick go to the head and wait for the next one), with the
        inputs the engine supplies for it; then the dead are swept out.
        `swept` is the list as the sweep found it. */
    method UpdateAll(env: Env, ticks: seq<TickInput>,
                     droidLists: seq<array<BurnTarget>>, structLists: seq<array<BurnTarget>>)
      returns (ghost swept: seq<Projectile>)
      requires Valid() && env.mapWidth >= 1 && env.mapHeight >= 1
      requires BurnLists(droidLists, structLists)
      requires |ticks| == |list|
      modifies this, nayb, nayb.entries, set q | q in list, set a | a in droidLists, set a | a in structLists
      ensures Valid()
      ensures |swept| >= |old(list)| && swept[|swept| - |old(list)|..] == old(list)
      ensures forall k :: 0 <= k < |swept| - |old(list)| ==> fresh(swept[k])
      ensures list == Keep(swept, Dead(swept))
      ensures forall k :: 0 <= k < |old(list)| ==>
                var q := old(list)[k];
                && q.source == (if q.died == 0 then Cleared(ticks[k].world, old(q.source)) else None)
                && StateRank(q.state) >= StateRank(old(q.state))
                && (!ticks[k].onMap ==> q.died == 1)
      ensures forall q :: q in swept && q.died != 0 ==> Released(q)
      ensures forall q :: q in list ==> q.died == 0
      ensures forall q :: q in swept ==> (q in list <==> q.died == 0)
      ensures forall q :: q in old(list) ==> (q in list <==> q.died == 0)
      ensures forall q :: q in list && q !in old(list) ==> fresh(q)
    {
      UpdateEach(env, ticks, droidLists, structLists);
      swept := list;
      ghost var dead := Dead(list);
      label ticked:
      SweepDead();
      assert Dead(swept) == dead;
      SweptKeeps(swept, old(list), dead);
      forall q | q in swept
        ensures q in list <==> q.died == 0
      {
        KeepMembers(swept, dead, q);
      }
      forall k | 0 <= k < |old(list)|
        ensures var q := old(list)[k];
                && q.source == (if q.died == 0 then Cleared(ticks[k].world, old(q.source)) else None)
                && StateRank(q.state) >= StateRank(old(q.state))
                && (!ticks[k].onMap ==> q.died == 1)
      {
        var q := old(list)[k];
        assert q == swept[|swept| - |old(list)| + k];
        ghost var source0, rank0 := old(q.source), old(StateRank(q.state));
        assert old@ticked(Ticked(q, ticks[k], source0, rank0));
      }
    }

    /** The first half of a tick: each projectile of the list as it stands
        is updated in turn, with its own inputs; follow-ups spawned meanwhile
        are prepended. */
    method UpdateEach(env: Env, ticks: seq<TickInput>,
                      droidLists: seq<array<BurnTarget>>, structLists: seq<array<BurnTarget>>)
      requires Valid() && env.mapWidth >= 1 && env.mapHeight >= 1
      requires BurnLists(droidLists, structLists)
      requires |ticks| == |list|
      modifies this, nayb, nayb.entries, set q | q in list, set a | a in droidLists, set a | a in structLists
      ensures Valid()
      ensures |list| >= |old(list)| && list[|list| - |old(list)|..] == old(list)
      ensures forall k :: 0 <= k < |list| - |old(list)| ==> fresh(list[k])
      ensures forall k :: 0 <= k < |old(list)| ==>
                Ticked(old(list)[k], ticks[k], old(list[k].source), old(StateRank(list[k].state)))
    {
      var snapshot := list;
      ghost var source0 := seq(|snapshot|, k requires 0 <= k < |snapshot| reads snapshot => snapshot[k].source);
      ghost var rank0 := seq(|snapshot|, k requires 0 <= k < |snapshot| reads snapshot => StateRank(snapshot[k].state));
      var i := 0;
      while i < |snapshot|
        invariant i <= |snapshot| && Valid() && Distinct(snapshot)
        invariant |list| >= |snapshot| && list[|list| - |snapshot|..] == snapshot
        invariant forall k :: 0 <= k < |list| - |snapshot| ==> fresh(list[k])
        invariant TickedUpTo(snapshot, ticks, source0, rank0, i)
      {
        TickAt(snapshot, i, env, ticks, droidLists, structLists, source0, rank0);
        i := i + 1;
      }
    }

    /** Update of the i-th projectile of a distinct list, seen from the loop
        over that list: it joins the projectiles already ticked, and no other
        projectile of the list is touched. */
    method TickAt(snapshot: seq<Projectile>, i: nat, env: Env, ticks: seq<TickInput>,
                  droidLists: seq<array<BurnTarget>>, structLists: seq<array<BurnTarget>>,
                  ghost source0: seq<Option<nat>>, ghost rank0: seq<nat>)
      requires i < |snapshot| && Distinct(snapshot)
      requires TickedUpTo(snapshot, ticks, source0, rank0, i)
      requires Valid() && env.mapWidth >= 1 && env.mapHeight >= 1
      requires BurnLists(droidLists, structLists)
      modifies this, snapshot[i], nayb, nayb.entries, set a | a in droidLists, set a | a in structLists
      ensures Valid()
      ensures TickedUpTo(snapshot, ticks, source0, rank0, i + 1)
      ensures |list| >= |old(list)| && list[|list| - |old(list)|..] == old(list)
      ensures forall k :: 0 <= k < |list| - |old(list)| ==> fresh(list[k])
    {
      label pre:
      TickOne(snapshot[i], env, ticks[i], droidLists, structLists);
      forall k | 0 <= k < |snapshot| && k != i
        ensures unchanged@pre(snapshot[k])
      {
        DistinctAt(snapshot, k, i);
      }
    }

    /** Update, reduced to what it leaves in the projectile it ticks. */
    method TickOne(p: Projectile, env: Env, tick: TickInput,
                   droidLists: seq<array<BurnTarget>>, structLists: seq<array<BurnTarget>>)
      requires Valid() && env.mapWidth >= 1 && env.mapHeight >= 1
      requires BurnLists(droidLists, structLists)
      modifies this, p, nayb, nayb.entries, set a | a in droidLists, set a | a in structLists
      ensures Valid()
      ensures Ticked(p, tick, old(p.source), old(StateRank(p.state)))
      ensures |list| >= |old(list)| && list[|list| - |old(list)|..] == old(list)
      ensures forall k :: 0 <= k < |list| - |old(list)| ==> fresh(list[k])
    {
      var bill := Update(p, env, tick, droidLists, structLists);
    }

    /** Unlinks every dead projectile: first from the head of the list, then
        from the rest, releasing each one's references and touching no live
        projectile. */
    method SweepDead()
      requires Valid()
      modifies this, set q | q in list
      ensures Valid()
      ensures list == Keep(old(list), old(Dead(list)))
      ensures forall q :: q in list ==> q.died == 0
      ensures forall q :: q in old(list) ==> q.died == old(q.died) && q.state == old(q.state)
      ensures forall q :: q in old(list) && old(q.died) != 0 ==> Released(q)
      ensures forall q :: q in old(list) && old(q.died) == 0 ==> unchanged(q)
    {
      ghost var all := list;
      ghost var dead := Dead(list);
      ghost var j := DropDeadHeads(all, dead);
      UnlinkDead(all, dead, j);
      forall q | q in list
        ensures q.died == 0
      {
        KeepMembers(all, dead, q);
      }
      KeepDistinct(all, dead);
      forall q | q in all && old(q.died) == 0
        ensures unchanged(q)
      {
        var k :| 0 <= k < |all| && all[k] == q;
      }
    }

    /** The first loop of the sweep: while the head is dead, unlink and
        release it. Returns how many were dropped. */
    method DropDeadHeads(ghost all: seq<Projectile>, ghost dead: set<Projectile>) returns (ghost j: nat)
      requires list == all
      requires forall k :: 0 <= k < |all| ==> (all[k] in dead <==> all[k].died != 0)
      modifies this, set q | q in list
      ensures j <= |all| && list == all[j..] && Keep(all[..j], dead) == []
      ensures |list| > 0 ==> list[0].died == 0
      ensures forall k :: 0 <= k < j ==> all[k].died != 0
      ensures forall k :: 0 <= k < |all| ==> all[k].died == old(all[k].died) && all[k].state == old(all[k].state)
      ensures forall k :: 0 <= k < j ==> Released(all[k])
      ensures forall k :: 0 <= k < |all| && old(all[k].died) == 0 ==> unchanged(all[k])
    {
      j := 0;
      while |list| > 0 && list[0].died != 0
        invariant j <= |all| && list == all[j..]
        invariant Keep(all[..j], dead) == []
        invariant forall k :: 0 <= k < j ==> all[k].died != 0
        invariant forall k :: 0 <= k < |all| ==> all[k].died == old(all[k].died) && all[k].state == old(all[k].state)
        invariant forall k :: 0 <= k < j ==> Released(all[k])
        invariant forall k :: 0 <= k < |all| && old(all[k].died) == 0 ==> unchanged(all[k])
        decreases |list|
      {
        var head := list[0];
        list := list[1..];
        Free(head);
        KeepStep(all, j, dead);
        j := j + 1;
      }
    }

    /** The second loop of the sweep: walk the list, unlinking and releasing
        each dead projectile. */
    method UnlinkDead(ghost all: seq<Projectile>, ghost dead: set<Projectile>, ghost j0: nat)
      requires j0 <= |all| && list == all[j0..] && Keep(all[..j0], dead) == []
      requires forall k :: j0 <= k < |all| ==> (all[k] in dead <==> all[k].died != 0)
      modifies this, set q | q in list
      ensures list == Keep(all, dead)
      ensures forall k :: j0 <= k < |all| ==> all[k].died == old(all[k].died) && all[k].state == old(all[k].state)
      ensures forall k :: j0 <= k < |all| && all[k].died != 0 ==> Released(all[k])
      ensures forall k :: j0 <= k < |all| && old(all[k].died) == 0 ==> unchanged(all[k])
    {
      var i := 0;
      ghost var j := j0;
      while i < |list|
        invariant j0 <= j <= |all| && i <= |list|
        invariant list[..i] == Keep(all[..j], dead)
        invariant list[i..] == all[j..]
        invariant forall k :: j0 <= k < |all| ==>
                    if old(all[k].died) == 0 then unchanged(all[k])
                    else all[k].died == old(all[k].died) && all[k].state == old(all[k].state)
                         && (k < j ==> Released(all[k]))
        decreases |list| - i
      {
        UnlinkStep(list, i, all, j, dead);
        if list[i].died != 0 {
          UnlinkAt(i);
        } else {
          i := i + 1;
        }
        j := j + 1;
      }
      assert all[..j] == all;
    }

    /** Unlinks the i-th projectile and releases it. */
    method UnlinkAt(i: nat)
      requires i < |list|
      modifies this, list[i]
      ensures list == old(list[..i] + list[i + 1..])
      ensures var gone := old(list[i]);
              Released(gone) && gone.died == old(gone.died) && gone.state == old(gone.state)
    {
      var gone := list[i];
      list := list[..i] + list[i + 1..];
      Free(gone);
    }

    /** Releases every projectile and empties the list. */
    method FreeAllProjectiles()
      requires Valid()
      modifies this, set q | q in list
      ensures Valid() && list == [] && nextRef == old(nextRef)
      ensures forall q :: q in old(list) ==> q.source == None && q.dest == None && q.damaged == None
      ensures forall q :: q in old(list) ==> q.died == old(q.died) && q.state == old(q.state)
    {
      var all := list;
      var i := 0;
      while i < |all|
        invariant i <= |all|
        invariant list == all && nextRef == old(nextRef)
        invariant forall k :: 0 <= k < i ==> all[k].source == None && all[k].dest == None && all[k].damaged == None
        invariant forall q :: q in all ==> q.died == old(q.died) && q.state == old(q.state)
      {
        Free(all[i]);
        i := i + 1;
      }
      list := [];
    }
  }
}
