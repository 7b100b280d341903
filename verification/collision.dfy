/** Collision resolution for a projectile in flight: which neighbours are
    not even considered, the cylinder test on the rest, the first hit in
    list order, and where a penetrating shot sends its follow-up. */
module Collision {
  import opened ProjTypes
  import opened Geometry
  import opened Naybors

  /** Rockets and missiles, the weapons that may strike other projectiles. */
  predicate IsMissile(sc: WeaponSubClass) {
    sc == Rocket || sc == Missile || sc == SlowRocket || sc == SlowMissile
  }

  /** The single-precision float nearest to 1.2, the engine's `1.2f`. The
      flight's distance ratio is compared against it as a float. */
  const FLOAT_1_2: real := 1.2000000476837158203125

  /** How far past its aim point a direct shot may travel, as a multiple of
      the aim distance; 0 marks a sub-class the table does not know. */
  function DirectExtensionFactor(sc: WeaponSubClass): (f: real)
    ensures IsMissile(sc) ==> f == 1.5
    ensures sc == MachineGun || sc == Command ==> f == FLOAT_1_2
    ensures f == 0.0 <==> sc == NumWeaponSubClasses
    ensures f <= 1.5
  {
    match sc
    case MachineGun => FLOAT_1_2
    case Command => FLOAT_1_2
    case Cannon => 1.5
    case Bomb => 1.5
    case Electronic => 1.5
    case Emp => 1.5
    case Flame => 1.5
    case Energy => 1.5
    case Gauss => 1.5
    case AaGun => 1.0
    case Rocket => 1.5
    case Missile => 1.5
    case SlowRocket => 1.5
    case SlowMissile => 1.5
    case Counter => 1.5
    case Mortars => 1.5
    case Howitzers => 1.5
    case LasSat => 1.5
    case NumWeaponSubClasses => 0.0
  }

  /** Indirect shots always get the same allowance. */
  const INDIRECT_EXTENSION_FACTOR: real := FLOAT_1_2

  function ExtensionFactor(direct: bool, sc: WeaponSubClass): real {
    if direct then DirectExtensionFactor(sc) else INDIRECT_EXTENSION_FACTOR
  }

  /** What the collision filters need to know about the projectile: its
      owner, its intended and already-damaged targets (as handles), whether
      it flies the direct or the indirect routine, and its weapon. */
  datatype Shot = Shot(
    player: nat,
    dest: Option<nat>,
    damaged: Option<nat>,
    direct: bool,
    subClass: WeaponSubClass,
    surfaceToAir: SurfaceToAir)

  /** A target an air-only weapon must not strike: anything on the ground. */
  predicate GroundTarget(o: GameObject) {
    o.kind.Structure? || o.kind.Feature? || (o.kind.Droid? && !o.kind.vtol)
  }

  /** The filters applied before the hit test. `allied` is the alliance
      relation between players, as the AI layer reports it. */
  predicate Skipped(o: GameObject, s: Shot, allied: set<(nat, nat)>) {
    || s.damaged == Some(o.ref)
    || o.died != 0
    || (o.kind.Bullet? &&
        (!s.direct || !(IsMissile(s.subClass) || o.kind.bulletSubClass == Counter)))
    || (o.kind.Feature? && !o.kind.damageable)
    || ((o.player, s.player) in allied && s.dest != Some(o.ref))
    || (s.direct && s.surfaceToAir == ShootInAir && GroundTarget(o))
  }

  /** A neighbour the projectile at (px, py, pz) collides with. */
  predicate Strikes(o: GameObject, s: Shot, allied: set<(nat, nat)>, px: int, py: int, pz: int) {
    !Skipped(o, s, allied) && HitTest(px, py, pz, o)
  }

  /** The index of the first neighbour, in list order, that the projectile
      strikes, if any. */
  function FirstHit(ns: seq<Naybor>, s: Shot, allied: set<(nat, nat)>, px: int, py: int, pz: int): (r: Option<nat>)
    ensures r.Some? ==> r.value < |ns| && Strikes(ns[r.value].obj, s, allied, px, py, pz)
    ensures r.Some? ==> forall j :: 0 <= j < r.value ==> !Strikes(ns[j].obj, s, allied, px, py, pz)
    ensures r.None? ==> forall j :: 0 <= j < |ns| ==> !Strikes(ns[j].obj, s, allied, px, py, pz)
  {
    if ns == [] then None
    else if Strikes(ns[0].obj, s, allied, px, py, pz) then Some(0)
    else
      match FirstHit(ns[1..], s, allied, px, py, pz)
      case None => None
      case Some(k) => Some(k + 1)
  }

  /** Walks the neighbour array in order and stops at the first neighbour
      the projectile strikes. */
  method FindHit(entries: array<Naybor>, count: nat, s: Shot, allied: set<(nat, nat)>,
                 px: int, py: int, pz: int) returns (hit: Option<nat>)
    requires count <= entries.Length
    ensures hit == FirstHit(entries[..count], s, allied, px, py, pz)
  {
    var i := 0;
    while i < count
      invariant i <= count
      invariant forall j :: 0 <= j < i ==> !Strikes(entries[j].obj, s, allied, px, py, pz)
    {
      if Strikes(entries[i].obj, s, allied, px, py, pz) {
        hit := Some(i);
        assert entries[..count][i] == entries[i];
        return;
      }
      i := i + 1;
    }
    hit := None;
  }

  /** The projectile never strikes the object it has already damaged, nor a
      dead one. */
  lemma FirstHitSparesDamagedAndDead(ns: seq<Naybor>, s: Shot, allied: set<(nat, nat)>, px: int, py: int, pz: int)
    requires FirstHit(ns, s, allied, px, py, pz).Some?
    ensures var o := ns[FirstHit(ns, s, allied, px, py, pz).value].obj;
            s.damaged != Some(o.ref) && o.died == 0
  {
  }

  /** Friendly fire only ever strikes the intended target. */
  lemma FirstHitAlliedIsDest(ns: seq<Naybor>, s: Shot, allied: set<(nat, nat)>, px: int, py: int, pz: int)
    requires FirstHit(ns, s, allied, px, py, pz).Some?
    requires (ns[FirstHit(ns, s, allied, px, py, pz).value].obj.player, s.player) in allied
    ensures s.dest == Some(ns[FirstHit(ns, s, allied, px, py, pz).value].obj.ref)
  {
  }

  /** An indirect shot never strikes another projectile, and a direct shot
      strikes one only when it is a missile or the other is a counter-missile. */
  lemma FirstHitProjectiles(ns: seq<Naybor>, s: Shot, allied: set<(nat, nat)>, px: int, py: int, pz: int)
    requires FirstHit(ns, s, allied, px, py, pz).Some?
    requires ns[FirstHit(ns, s, allied, px, py, pz).value].obj.kind.Bullet?
    ensures s.direct
    ensures IsMissile(s.subClass) || ns[FirstHit(ns, s, allied, px, py, pz).value].obj.kind.bulletSubClass == Counter
  {
  }

  /** On a list sorted by distance, the first hit is the nearest object the
      projectile strikes. */
  lemma FirstHitIsNearest(ns: seq<Naybor>, s: Shot, allied: set<(nat, nat)>, px: int, py: int, pz: int, j: nat)
    requires Sorted(ns)
    requires j < |ns| && Strikes(ns[j].obj, s, allied, px, py, pz)
    ensures FirstHit(ns, s, allied, px, py, pz).Some?
    ensures ns[FirstHit(ns, s, allied, px, py, pz).value].distSqr <= ns[j].distSqr
  {
  }

  /** Float-to-integer conversion: truncation toward zero. */
  function Trunc(r: real): int {
    if r >= 0.0 then r.Floor else -((-r).Floor)
  }

  function ClipInt(x: int, lo: int, hi: int): int
    requires lo <= hi
  {
    if x < lo then lo else if x > hi then hi else x
  }

  /** The aim point of the follow-up shot a penetrating weapon fires: the
      original line of flight stretched by the extension factor, truncated,
      with its planar coordinates kept on the map. */
  function ChildAim(startX: int, startY: int, srcHeight: int,
                    moveX: int, moveY: int, moveZ: int, factor: real,
                    mapWidth: nat, mapHeight: nat): (aim: (int, int, int))
    requires mapWidth >= 1 && mapHeight >= 1
    ensures 0 <= aim.0 <= (mapWidth - 1) * TILE_UNITS
    ensures 0 <= aim.1 <= (mapHeight - 1) * TILE_UNITS
    ensures var x := Trunc(startX as real + moveX as real * factor);
            0 <= x <= (mapWidth - 1) * TILE_UNITS ==> aim.0 == x
    ensures var y := Trunc(startY as real + moveY as real * factor);
            0 <= y <= (mapHeight - 1) * TILE_UNITS ==> aim.1 == y
    ensures aim.2 == Trunc(srcHeight as real + moveZ as real * factor)
  {
    (ClipInt(Trunc(startX as real + moveX as real * factor), 0, (mapWidth - 1) * TILE_UNITS),
     ClipInt(Trunc(startY as real + moveY as real * factor), 0, (mapHeight - 1) * TILE_UNITS),
     Trunc(srcHeight as real + moveZ as real * factor))
  }
}
