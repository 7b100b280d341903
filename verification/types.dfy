/** Shared vocabulary of the projectile subsystem: engine constants, the world
    objects a projectile can meet, and the weapon statistics it carries. */
module ProjTypes {

  datatype Option<T> = None | Some(value: T)

  /** World units per map tile. */
  const TILE_UNITS: nat := 128
  /** Game clock ticks per second. */
  const GAME_TICKS_PER_SEC: nat := 1000
  /** Capacity of the neighbour list. */
  const MAX_NAYBORS: nat := 15
  /** Radius around a projectile within which neighbours are collected. */
  const PROJ_NAYBOR_RANGE: nat := TILE_UNITS * 4

  datatype DroidType =
    | DroidWeapon | DroidSensor | DroidEcm | DroidConstruct | DroidPerson
    | DroidCyborg | DroidTransporter | DroidCommand | DroidRepair | DroidDefault
    | DroidCyborgConstruct | DroidCyborgRepair | DroidCyborgSuper | DroidAny

  datatype WeaponSubClass =
    | MachineGun | Cannon | Mortars | Missile | Rocket | Energy | Gauss | Flame
    | Howitzers | Electronic | AaGun | SlowMissile | SlowRocket | LasSat | Bomb
    | Command | Emp | Counter | NumWeaponSubClasses

  datatype MovementModel =
    | MmDirect | MmIndirect | MmHomingDirect | MmHomingIndirect | MmErraticDirect | MmSweep
    | NumMovementModel

  /** Which targets a weapon may engage: ground only, air only, or both. */
  datatype SurfaceToAir = ShootOnGround | ShootInAir | ShootBoth

  /** Category of a world object, with the per-category data the core reads. */
  datatype ObjKind =
    | Droid(droidType: DroidType, imdRadius: int, vtol: bool, moving: bool)
    | Structure(baseWidth: nat, baseBreadth: nat)
    | Feature(featWidth: nat, featBreadth: nat, damageable: bool)
    | Bullet(bulletSubClass: WeaponSubClass)
    | AimPoint

  /** A world object as the projectile core sees it. `ref` is its identity
      (what the engine compares object addresses on); `died` is 0 while it lives;
      `height` is the bounding height derived from its model extents;
      `seenBy` holds the players that can currently see it. */
  datatype GameObject = GameObject(
    ref: nat,
    kind: ObjKind,
    player: nat,
    x: int, y: int, z: int,
    died: nat,
    height: nat,
    seenBy: set<nat>)

  /** Read-only weapon statistics, with the upgrade-dependent values already
      resolved for the firing player. */
  datatype WeaponStats = WeaponStats(
    movement: MovementModel,
    subClass: WeaponSubClass,
    surfaceToAir: SurfaceToAir,
    penetrate: bool,
    minRange: nat,
    radius: nat,
    radiusLife: nat,
    incenRadius: nat,
    incenTime: nat,
    damage: nat,
    incenDamage: nat)

  datatype ProjState = InFlight | Impact | PostImpact

  datatype HitSide = Front | Rear | Left | Right | Top | Bottom

  function Abs(x: int): nat { if x < 0 then -x else x }

  function Max(a: nat, b: nat): nat { if a < b then b else a }

  /** The referent behind a handle, if it still lives. */
  function Resolve(world: map<nat, GameObject>, h: Option<nat>): Option<GameObject> {
    if h.Some? && h.value in world && world[h.value].died == 0 then Some(world[h.value]) else None
  }

  /** The object behind a handle, dead or alive (the engine keeps dead objects
      around until its own deferred sweep). */
  function Lookup(world: map<nat, GameObject>, h: Option<nat>): Option<GameObject> {
    if h.Some? && h.value in world then Some(world[h.value]) else None
  }

  lemma MulMonotone(a: nat, b: nat, m: nat)
    requires a <= b
    ensures a * m <= b * m
  {
  }

  lemma DivMonotone(a: nat, b: nat, d: nat)
    requires a <= b && d > 0
    ensures a / d <= b / d
  {
    var qa, qb := a / d, b / d;
    assert qa * d <= a;
    assert b < (qb + 1) * d;
    MulCancel(qa, qb + 1, d);
  }

  lemma MulCancel(x: nat, y: nat, d: nat)
    requires d > 0 && x * d < y * d
    ensures x < y
  {
  }
}
