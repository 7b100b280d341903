/** Visibility and geometry helpers: which side of a target a shot strikes,
    the bounding radius of each kind of target, the cylinder hit test, the
    direct/indirect split of movement models and the observer visibility rule. */
module Geometry {
  import opened ProjTypes

  /** The integer impact angle reduced to one turn: the engine takes the
      absolute value of the truncated angle and wraps it into [0, 360). */
  function ImpactAngle(raw: int): (a: nat)
    ensures a < 360
    ensures raw >= 0 && raw < 360 ==> a == raw
    ensures a % 360 == Abs(raw) % 360
  {
    Abs(raw) % 360
  }

  /** Bins a wrapped impact angle into one of the four sides. */
  function SideFromAngle(a: nat): (side: HitSide)
    requires a < 360
    ensures side == Right <==> 45 < a < 135
    ensures side == Rear <==> 135 <= a <= 225
    ensures side == Left <==> 225 < a < 315
    ensures side == Front <==> a <= 45 || 315 <= a
  {
    if 45 < a < 135 then Right
    else if 135 <= a <= 225 then Rear
    else if 225 < a < 315 then Left
    else Front
  }

  /** Which side of a target a projectile struck: the top for a steep descent,
      the bottom when the projectile is well below the target, otherwise the
      side the impact angle points at. */
  function GetHitSide(altChange: int, projZ: int, targetZ: int, rawAngle: int): (side: HitSide)
    ensures side == Top <==> altChange > 300
    ensures side == Bottom <==> altChange <= 300 && projZ < targetZ - 50
    ensures side != Top && side != Bottom ==> side == SideFromAngle(ImpactAngle(rawAngle))
  {
    if altChange > 300 then Top
    else if projZ < targetZ - 50 then Bottom
    else SideFromAngle(ImpactAngle(rawAngle))
  }

  /** Droid types whose hit box is taken from their body model. */
  predicate ModelSizedDroid(t: DroidType) {
    t in {DroidWeapon, DroidSensor, DroidEcm, DroidConstruct, DroidCommand, DroidRepair,
          DroidPerson, DroidCyborg, DroidCyborgConstruct, DroidCyborgRepair, DroidCyborgSuper}
  }

  /** Planar bounding radius of a target, by category. */
  function EstablishTargetRadius(kind: ObjKind): (r: nat)
    ensures kind.Droid? && ModelSizedDroid(kind.droidType) ==> r == 2 * Abs(kind.imdRadius)
    ensures kind.Droid? && !ModelSizedDroid(kind.droidType) ==> r == TILE_UNITS / 4
    ensures kind.Structure? ==> r == Max(kind.baseBreadth, kind.baseWidth) * TILE_UNITS / 2
    ensures kind.Feature? ==> r == Max(kind.featBreadth, kind.featWidth) * TILE_UNITS / 2
    ensures kind.Bullet? ==> r == TILE_UNITS / 8
    ensures kind.AimPoint? ==> r == 0
  {
    match kind
    case Droid(t, imdRadius, _, _) =>
      if ModelSizedDroid(t) then Abs(imdRadius) * 2 else TILE_UNITS / 4
    case Structure(w, b) => (Max(b, w) * TILE_UNITS) / 2
    case Feature(w, b, _) => (Max(b, w) * TILE_UNITS) / 2
    case Bullet(_) => TILE_UNITS / 8
    case AimPoint => 0
  }

  /** The cylinder test: the projectile at (px, py, pz) is inside the target's
      bounding height and strictly inside its bounding radius. */
  function HitTest(px: int, py: int, pz: int, o: GameObject): (hit: bool)
    ensures hit ==> o.height > 0 && EstablishTargetRadius(o.kind) > 0
  {
    var dx, dy := px - o.x, py - o.y;
    var r := EstablishTargetRadius(o.kind);
    Abs(pz - o.z) < o.height && dx * dx + dy * dy < r * r
  }

  /** A projectile at a target's own position hits it exactly when the target
      has a non-zero bounding height and radius. */
  lemma HitAtCentre(o: GameObject)
    ensures HitTest(o.x, o.y, o.z, o) <==> o.height > 0 && EstablishTargetRadius(o.kind) > 0
  {
    var r := EstablishTargetRadius(o.kind);
    assert r > 0 ==> r * r > 0;
  }

  /** The cylinder test is monotone in the planar offset: a target hit at
      some offset is also hit at any offset that is no farther away. */
  lemma HitTestCloser(px: int, py: int, qx: int, qy: int, z: int, o: GameObject)
    requires HitTest(px, py, z, o)
    requires (qx - o.x) * (qx - o.x) + (qy - o.y) * (qy - o.y) <= (px - o.x) * (px - o.x) + (py - o.y) * (py - o.y)
    ensures HitTest(qx, qy, z, o)
  {
  }

  /** A bare aim point has no extent and is never hit. */
  lemma AimPointNeverHit(px: int, py: int, pz: int, o: GameObject)
    requires o.kind.AimPoint?
    ensures !HitTest(px, py, pz, o)
  {
    var dx, dy := px - o.x, py - o.y;
    assert dx * dx >= 0 && dy * dy >= 0;
  }

  /** Direct-fire movement models; anything outside the known models is
      treated as direct. */
  function ProjDirect(m: MovementModel): (direct: bool)
    ensures !direct <==> m == MmIndirect || m == MmHomingIndirect
  {
    match m
    case MmDirect => true
    case MmHomingDirect => true
    case MmErraticDirect => true
    case MmSweep => true
    case MmIndirect => false
    case MmHomingIndirect => false
    case NumMovementModel => true
  }

  predicate LiveAndSeen(o: Option<GameObject>, observer: nat) {
    o.Some? && o.value.died == 0 && observer in o.value.seenBy
  }

  /** First hiding rule: another player's live structure firing at something
      the observer cannot see (no target, a dead one, or an unseen one). */
  predicate StructureFiresUnseen(observer: nat, source: Option<GameObject>, dest: Option<GameObject>) {
    source.Some? && source.value.died == 0 && source.value.kind.Structure?
    && source.value.player != observer
    && (dest.None? || dest.value.died != 0 || observer !in dest.value.seenBy)
  }

  /** Second hiding rule: something the observer cannot see (or nothing)
      firing at another player's live structure. */
  predicate UnseenFiresAtStructure(observer: nat, source: Option<GameObject>, dest: Option<GameObject>) {
    dest.Some? && dest.value.died == 0 && dest.value.kind.Structure?
    && dest.value.player != observer
    && (source.None? || observer !in source.value.seenBy)
  }

  /** Whether the observing player gets to see a projectile's effects. */
  function GfxVisible(bVisible: bool, player: nat, observer: nat,
                      source: Option<GameObject>, dest: Option<GameObject>): (r: bool)
    ensures bVisible || player == observer ==> r
    ensures r ==> bVisible || player == observer || LiveAndSeen(source, observer) || LiveAndSeen(dest, observer)
    ensures (&& !bVisible && player != observer
             && (StructureFiresUnseen(observer, source, dest) || UnseenFiresAtStructure(observer, source, dest)))
            ==> !r
    ensures (&& !StructureFiresUnseen(observer, source, dest) && !UnseenFiresAtStructure(observer, source, dest)
             && (LiveAndSeen(source, observer) || LiveAndSeen(dest, observer)))
            ==> r
  {
    if bVisible then true
    else if player == observer then true
    else if StructureFiresUnseen(observer, source, dest) then false
    else if UnseenFiresAtStructure(observer, source, dest) then false
    else if LiveAndSeen(source, observer) then true
    else if LiveAndSeen(dest, observer) then true
    else false
  }

  /** Another player's structure shooting at something the observer cannot
      see stays hidden, even when the observer can see the structure. */
  lemma GfxHidesUnseenStructureFire(player: nat, observer: nat,
                                    source: GameObject, dest: Option<GameObject>)
    requires player != observer
    requires source.died == 0 && source.kind.Structure? && source.player != observer
    requires !LiveAndSeen(dest, observer)
    ensures !GfxVisible(false, player, observer, Some(source), dest)
  {
  }

  /** Fire at another player's live structure from a source the observer
      cannot see (or from no source) stays hidden, even when the observer
      can see the structure. */
  lemma GfxHidesFireAtUnseenSource(player: nat, observer: nat,
                                   source: Option<GameObject>, dest: GameObject)
    requires player != observer
    requires dest.died == 0 && dest.kind.Structure? && dest.player != observer
    requires source.None? || observer !in source.value.seenBy
    ensures !GfxVisible(false, player, observer, source, Some(dest))
  {
  }

  /** Another player's shot from a live droid the observer sees is visible,
      whatever it is aimed at. */
  lemma GfxShowsSeenDroidFire(player: nat, observer: nat,
                              source: GameObject, dest: Option<GameObject>)
    requires source.died == 0 && source.kind.Droid? && observer in source.seenBy
    ensures GfxVisible(false, player, observer, Some(source), dest)
  {
  }
}
