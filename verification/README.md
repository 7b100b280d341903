# Warzone 2100 projectiles: a verified model of the bookkeeping

This project models the integer bookkeeping of Warzone 2100's projectile
subsystem, `src/projectile.c`, and proves what that code promises. It does not
model the floating-point flight paths. The model has six parts.

- **Neighbour list** (`naybors.dfy`, module `Naybors`). The class `NayborList`
  has a fixed array of `MAX_NAYBORS` entries, a count, and a cache key: the last
  projectile and the last game tick. `AddProjNaybor` inserts an entry by shifting
  farther entries up in place. `GetNaybors` rebuilds the list from the objects
  the spatial grid yields, at most once per projectile per tick. It is proved
  against `Rebuild`, a pure specification: the first `MAX_NAYBORS` qualifying
  objects, inserted in ascending order of squared distance.
- **Collision resolution** (`collision.dfy`, module `Collision`), in two layers:
  - the candidate filters (`Skipped`), the cylinder hit test (`HitTest`, in
    `geometry.dfy`) and the first hit in list order (`FirstHit`, implemented by
    the loop `FindHit`);
  - the range allowance per weapon sub-class, and the clipped aim point of the
    follow-up that a penetrating shot fires.
- **Damage arithmetic and classification** (`damage.dfy` and `geometry.dfy`):
  - `calcDamage`, with its floor of 1, and `QualityFactor`;
  - the side of a target a shot strikes, and `proj_Direct`;
  - the bounding radius of each kind of target, and the visibility rule.
- **Burn accrual** (`burn.dfy`, module `Burn`). One visit of a fire to an object
  (`BurnStep`) updates its `IN_FIRE` flag, its burn start and its billed total.
  The arithmetic uses unsigned and signed 32-bit words, as the engine does.
  `CheckBurnDamage` walks a list in place.
- **State machine** (`projectile.dfy`, module `Projectiles`):
  - the class `Projectile` holds a projectile's mutable state;
  - `ImpactFunc`, `PostImpactFunc`, the two flight routines and `Update` move it
    from in flight, to impact, to post-impact, to dead (`died != 0`).
- **Lifecycle list** (`ProjectileSystem`):
  - `SendProjectile` prepends a new projectile to the list;
  - `UpdateAll` updates every projectile, then unlinks the dead ones in a
    deferred sweep;
  - `FreeAllProjectiles` empties the list.

References between game objects are modelled as handles (`nat`). The world
the projectile sees is a `map<nat, GameObject>`. An object stays in that map
after it dies, with `died != 0`, as it does in the engine until its own sweep.
`Lookup` reads an object dead or alive, and `Resolve` reads only a live one.

The engine reads many inputs from outside this file. The model takes them as
parameters:

- the `FlightStep` for this tick: the next position, the flight vector and
  the distance ratio, all computed with floats, plus `worldOnMap` and
  `mapObjIsAboveGround` for that position;
- the candidates the spatial grid yields;
- the armour modifier, the wrapped impact angle and the relative damage that
  the damage routines report;
- the alliance relation;
- the height variance drawn at random for an aimed shot;
- the muzzle position of the firing object.

`PROJ_NAYBOR_RANGE` (four tiles) is defined at src/projectile.c:69, and
`LAS_SAT_DELAY` (4 seconds) is a local constant of `proj_InFlightDirectFunc`.
The constants `TILE_UNITS` (128), `GAME_TICKS_PER_SEC` (1000), `MAX_NAYBORS`
(15) and `MAX_PLAYERS` (8) come from engine headers that are not part of this
model. The values used are the engine's values at this version.

## Model

| member | source | states |
|---|---|---|
| Geometry.ImpactAngle | src/projectile.c:1866-1868 | the impact angle is the absolute value of the truncated angle wrapped into [0, 360) |
| Geometry.SideFromAngle | src/projectile.c:1870-1883 | angle bins partition [0, 360): right on (45,135), rear on [135,225], left on (225,315), front otherwise — each side if and only if its range |
| Geometry.GetHitSide | src/projectile.c:1841-1884 | top exactly when altChange > 300; bottom exactly when not top and the projectile is more than 50 below the target; otherwise the side of the wrapped angle |
| Geometry.HitTest | src/projectile.c:774-783 | the cylinder test: within the target's height vertically and strictly inside its radius in the plane; a hit implies a positive height and radius |
| Geometry.EstablishTargetRadius | src/projectile.c:1704-1755 | radius per category: twice the model radius for model-sized droids, a quarter tile for other droids, half the larger footprint side for structures and features, an eighth tile for projectiles, 0 for anything else |
| Geometry.HitAtCentre | src/projectile.c:774-783 | a projectile at a target's position hits it iff the target has non-zero height and radius |
| Geometry.HitTestCloser | src/projectile.c:774-783 | the cylinder test is monotone in planar distance |
| Geometry.AimPointNeverHit | src/projectile.c:1747-1754 | an object of no listed category (radius 0) is never hit |
| Geometry.ProjDirect | src/projectile.c:1666-1692 | a movement model is indirect iff it is indirect or homing-indirect; out-of-range models count as direct |
| Geometry.StructureFiresUnseen | src/projectile.c:122-132 | the first hiding rule: another player's live structure fires at nothing, at a dead object, or at one the observer cannot see |
| Geometry.UnseenFiresAtStructure | src/projectile.c:134-143 | the second hiding rule: something the observer cannot see (or nothing) fires at another player's live structure |
| Geometry.GfxVisible | src/projectile.c:108-162 | a visible flag or one's own shot is always visible; otherwise either hiding rule hides it; when neither applies it is visible iff the observer sees a live source or a live destination |
| Geometry.GfxHidesUnseenStructureFire | src/projectile.c:122-132 | another player's live structure firing at something the observer cannot see stays hidden |
| Geometry.GfxHidesFireAtUnseenSource | src/projectile.c:134-143 | fire from an unseen or absent source at another player's live structure stays hidden |
| Geometry.GfxShowsSeenDroidFire | src/projectile.c:145-151 | fire from a live droid the observer sees is shown, whatever its target |
| Damage.CalcDamage | src/projectile.c:1760-1788 | result is 0 iff the base damage is 0; base damage for non-droid, non-structure targets; base × modifier / 100 for droids and structures, raised to 1 when that rounds to 0 |
| Damage.CalcDamageMonotone | src/projectile.c:1760-1788 | more base damage never yields less damage |
| Damage.CalcDamageNeutralModifier | src/projectile.c:1764-1774 | a 100 percent modifier passes the base damage through |
| Damage.QualityFactor | src/projectile.c:242-255 | the averaged clipped ratios lie in [0.5, 2.0] (corrected: exact ratios) |
| Damage.QualityFactorAsWritten | src/projectile.c:246-255 | the factor as the integer division computes it, also in [0.5, 2.0] |
| Damage.QualityFactorExample | src/projectile.c:242-255 | a power ratio of 4 and a points ratio of 1 give 1.5 |
| Damage.QualityFactorEven | src/projectile.c:242-255 | equal droids give exactly 1.0 |
| Damage.QualityFactorMonotone | src/projectile.c:246-255 | a costlier victim never lowers the factor |
| Damage.QualityFactorTruncates | src/projectile.c:248-249 | as written, (100, 150, 100, 100) gives 1.0 where the exact ratios give 1.25 |
| Naybors.Insert | src/projectile.c:1960-1993 | ordered insertion, walking back from the far end, adds exactly one entry |
| Naybors.InsertMultiset | src/projectile.c:1960-1993 | an insertion adds the new entry and keeps every prior one |
| Naybors.InsertAt | src/projectile.c:1978-1992 | the new entry lands after exactly the entries no farther away |
| Naybors.InsertSorted | src/projectile.c:1960-1993 | insertion keeps the list sorted by squared distance |
| Naybors.InsertAllMultiset | src/projectile.c:2017-2039 | inserting a sequence loses and invents nothing |
| Naybors.InsertAllSorted | src/projectile.c:2017-2039 | a list built by insertions is sorted |
| Naybors.Qualifies | src/projectile.c:2019-2027 | a grid object qualifies when it is another object, alive, and within PROJ_NAYBOR_RANGE |
| Naybors.Rebuild | src/projectile.c:1997-2040 | the rebuilt list is the ordered insertion of the first MAX_NAYBORS qualifying objects |
| Naybors.QualifyingComplete | src/projectile.c:2019-2030 | every live, other, in-range candidate is among the qualifying ones |
| Naybors.RebuildStopsWhenFull | src/projectile.c:2032-2036 | once the list is full the remaining candidates do not matter |
| Naybors.RebuildProperties | src/projectile.c:1997-2040 | a rebuilt list has at most MAX_NAYBORS entries, is sorted, holds only live other objects in range with their true squared distance, and holds all of them when they fit |
| Naybors.NayborList.constructor | src/projectile.c:74-77 | the list starts empty with no cache key |
| Naybors.NayborList.ShiftFarther | src/projectile.c:1981-1986 | the loop moves exactly the entries farther than the new one up by one place and returns the gap |
| Naybors.NayborList.AddProjNaybor | src/projectile.c:1960-1993 | the count rises by exactly one and the contents become the sorted insertion of the new entry into the old contents |
| Naybors.NayborList.ConsiderCandidate | src/projectile.c:2019-2030 | a grid object is added iff it qualifies |
| Naybors.NayborList.GetNaybors | src/projectile.c:1997-2040 | a second call for the same projectile in the same tick changes nothing; otherwise the contents equal Rebuild of the candidates; the cache key is updated |
| Collision.DirectExtensionFactor | src/projectile.c:615-651 | missiles and rockets get 1.5; machine guns and command turrets get the float value of 1.2f; only the unknown sub-class gets 0; no sub-class exceeds 1.5 |
| Collision.GroundTarget | src/projectile.c:755-759 | structures, features and droids other than VTOLs are ground targets |
| Collision.Skipped | src/projectile.c:722-763 | a neighbour is passed over when it is the damaged target, dead, a projectile a non-missile direct shot meets (unless a counter-missile), an undamageable feature, an ally other than the destination, or a ground target of an air-only direct shot |
| Collision.Strikes | src/projectile.c:716-783 | a neighbour is struck exactly when no filter skips it and the cylinder test holds |
| Collision.FirstHit | src/projectile.c:716-815 | the result is the least index of a neighbour that passes the filters and the cylinder test, or none when no neighbour does |
| Collision.FindHit | src/projectile.c:716-815 | the loop over the neighbour array returns FirstHit of its contents |
| Collision.FirstHitSparesDamagedAndDead | src/projectile.c:722-732 | the struck object is neither the already-damaged one nor dead |
| Collision.FirstHitAlliedIsDest | src/projectile.c:748-753 | an allied object is struck only when it is the destination |
| Collision.FirstHitProjectiles | src/projectile.c:734-739 | another projectile is struck only by a direct missile, or when it is a counter-missile |
| Collision.FirstHitIsNearest | src/projectile.c:716-783 | on the sorted list the first hit is the nearest object struck |
| Collision.ChildAim | src/projectile.c:789-802 | the follow-up aim is the extended flight line, truncated, with x and y clipped to the map |
| Burn.ToSigned | src/projectile.c:1641-1642 | the signed reading of a word lies in the 32-bit signed range and agrees with small words |
| Burn.Owed | src/projectile.c:1637-1640 | the owed damage fits a word and equals elapsed × rate / ticks-per-second when nothing wraps |
| Burn.FlyingVtol | src/projectile.c:1609-1616 | a moving VTOL droid is never set on fire |
| Burn.InReach | src/projectile.c:1618-1621 | an object is in the fire when its squared planar distance is at most the squared incendiary radius |
| Burn.BurnStep | src/projectile.c:1610-1659 | flying VTOLs and objects out of reach are untouched; a first tick in the fire restarts the burn with nothing billed; afterwards the bill is exactly the positive part of owed minus billed (signed), the burn start is kept, and a zero bill leaves the total unchanged; a visited object keeps everything but its fire flag, burn start and total |
| Burn.BurnAll | src/projectile.c:1606-1659 | visiting a list keeps its length and leaves each object as BurnStep leaves it |
| Burn.CheckBurnDamage | src/projectile.c:1587-1660 | the loop leaves each object as BurnStep leaves it and returns each object's bill |
| Burn.BurnBillsUpToOwed | src/projectile.c:1634-1657 | away from wrap-around, a burning object's total becomes the larger of its old total and what it owes, and the bill is the difference |
| Burn.BurnTotalBounded | src/projectile.c:1626-1657 | the billed total never decreases during a burn and never exceeds what is owed since the burn began |
| Burn.OwedMonotone | src/projectile.c:1637-1640 | what is owed only grows with time |
| Burn.BurnIdempotentInTick | src/projectile.c:1626-1657 | a second visit in the same tick bills nothing and changes nothing |
| Burn.BurnOnceAcrossFires | src/projectile.c:1626-1657 | once a fire has reached an object, no fire with the same rate bills it again in that tick, wherever it burns |
| Projectiles.Projectile.constructor | src/projectile.c:357-395 | a new projectile is in flight, alive, and holds the given stats, owner, age, references and muzzle position |
| Projectiles.LaunchDirect | src/projectile.c:433-447 | the direct routine is chosen for direct weapons and for indirect ones whose target lies within minimum range |
| Projectiles.LasSatWaiting | src/projectile.c:602-613 | in multiplayer a Las-Sat waits LAS_SAT_DELAY seconds after launch, the elapsed ticks being the 32-bit difference compared as an unsigned word, as the unsigned delay forces |
| Projectiles.ImpactEnds | src/projectile.c:1196-1294 | an impact ends the projectile at once for an undamageable feature target or a weapon with neither splash nor fire |
| Projectiles.PostImpactOver | src/projectile.c:1472-1479 | the post-impact phase is over when the age exceeds both the splash and the fire duration |
| Projectiles.KeepMembers | src/projectile.c:1557-1583 | the sweep keeps a projectile iff it was listed and is not dead |
| Projectiles.KeepAppend | src/projectile.c:1557-1583 | the sweep works piecewise, so relative order is kept |
| Projectiles.KeepIdempotent | src/projectile.c:1557-1583 | sweeping twice removes nothing more |
| Projectiles.KeepDistinct | src/projectile.c:1557-1583 | unlinking nodes never makes one appear twice |
| Projectiles.SweptKeeps | src/projectile.c:1547-1583 | sweeping a list that ends with the old list keeps an old projectile iff it is not dead, and every other survivor is a follow-up from the head |
| Projectiles.KeepStep | src/projectile.c:1570-1582 | one step of the unlinking loop keeps the node exactly when it is live |
| Projectiles.Cleared | src/projectile.c:1503-1517 | a reference is cleared iff it is set and its referent has died; a kept reference resolves to a live object |
| Projectiles.ImpactBill | src/projectile.c:1193-1284 | no bill on a miss or an undamageable feature; an electronic bill iff a direct electronic weapon still has its source; otherwise CalcDamage on the side given by GetHitSide for direct hits on droids, top for indirect hits on droids, front for anything else |
| Projectiles.PostImpactLifetime | src/projectile.c:1472-1479 | the phase is not over at the longer of the two durations, once over it stays over as the age grows, and it is over iff the age exceeds that longer duration |
| Projectiles.ImpactFunc | src/projectile.c:1087-1455 | the bill is ImpactBill; an undamageable feature or a weapon without splash and fire sets died to the tick; otherwise state becomes post-impact and born the tick; the target is recorded as damaged unless the hit destroyed it |
| Projectiles.BurnPlayer | src/projectile.c:1490-1491 | one player's droids, then structures, are each burnt as BurnAll says |
| Projectiles.BurnOthers | src/projectile.c:1482-1495 | every player's lists but the owner's are burnt; the owner's are untouched |
| Projectiles.PostImpactFunc | src/projectile.c:1461-1496 | died is set to the tick exactly when PostImpactOver holds; otherwise a fire burns every other player's lists |
| Projectiles.Free | src/projectile.c:210-218 | a freed projectile holds no references |
| Projectiles.ProjectileSystem.constructor | src/projectile.c:167-173 | the system starts with an empty projectile list and an empty neighbour list with no cache key |
| Projectiles.ProjectileSystem.SendProjectile | src/projectile.c:320-548 | the new projectile is prepended to the list; it is in flight with the given target; its age, source and damaged come from the parent projectile when spawned, else the tick and the attacker; its height change and routine follow from the target height; it is visible when asked or when GfxVisible says so |
| Projectiles.ProjectileSystem.Fly | src/projectile.c:700-826 | the flight step obeys Flew: stop at the map edge, or move and strike the first neighbour, spawning one follow-up on a penetrating droid hit, or give up past range or underground; the list only grows at its head |
| Projectiles.ProjectileSystem.MoveAndCollide | src/projectile.c:716-826 | on the map, the step obeys Moved |
| Projectiles.ProjectileSystem.Miss | src/projectile.c:819-826 | with no hit, a projectile past its range or below ground impacts with no destination, else flies on |
| Projectiles.ProjectileSystem.Strike | src/projectile.c:780-812 | the first struck neighbour becomes the destination and the state becomes impact; a penetrating hit on a droid records it as damaged and prepends one follow-up aimed by ChildAim |
| Projectiles.ProjectileSystem.InFlightDirect | src/projectile.c:585-868 | a waiting multiplayer Las-Sat changes nothing (position, target, state, list); otherwise Flew with the direct filters and the sub-class extension factor |
| Projectiles.ProjectileSystem.InFlightIndirect | src/projectile.c:870-1085 | Flew with the indirect filters and the fixed factor 1.2f, as its float value |
| Projectiles.ProjectileSystem.ClearStale | src/projectile.c:1503-1517 | source, destination and damaged each become Cleared; nothing else changes |
| Projectiles.ProjectileSystem.Update | src/projectile.c:1499-1544 | dead references are cleared; off the map the projectile dies and the neighbour list is untouched; on it the neighbour list is rebuilt unless cached, then the state's routine runs with the contracts above, a waiting Las-Sat keeping its position, target, state and references; every burn list is burnt as PostImpactFunc says for a live post-impact fire of another player and left as it was otherwise; the state never moves backwards |
| Projectiles.ProjectileSystem.RunState | src/projectile.c:1527-1543 | dispatch on the state: flight routine, impact or post-impact, each with its contract; the burn lists change only through a post-impact fire, as Burnt says |
| Projectiles.ProjectileSystem.UpdateEach | src/projectile.c:1551-1554 | each projectile listed at the start is updated with its own tick input: its source reference is cleared as Cleared says, its state never moves backwards, and it is dead if it left the map; follow-ups go to the head and the old list stays as the suffix |
| Projectiles.ProjectileSystem.UpdateAll | src/projectile.c:1547-1583 | the swept list is the fresh follow-ups followed by the old list in order, and the new list is Keep of it without its dead, so order is kept; each old projectile was updated as UpdateEach says; every projectile of the swept list, follow-ups included, remains iff it is still alive; the dead are released |
| Projectiles.ProjectileSystem.SweepDead | src/projectile.c:1557-1583 | the list becomes Keep of itself without its dead nodes, so live ones keep their relative order; dead ones are released; live ones are not touched; no node appears twice |
| Projectiles.ProjectileSystem.DropDeadHeads | src/projectile.c:1557-1565 | dead nodes at the head are unlinked and released until the head is live; live nodes are not touched |
| Projectiles.ProjectileSystem.UnlinkDead | src/projectile.c:1567-1582 | every remaining dead node is unlinked and released; the result is Keep of the whole list; live nodes are not touched |
| Projectiles.ProjectileSystem.UnlinkAt | src/projectile.c:1574-1576 | one dead node is spliced out of the list and released |
| Projectiles.ProjectileSystem.FreeAllProjectiles | src/projectile.c:180-193 | every projectile is released, leaving their states and deaths as they were; the list is empty, the next reference is kept and the system stays valid, ready for new projectiles as after initialisation |

## Left out

- Trajectory arithmetic (`atan2`, square roots, trig, pitch and velocity
  set-up, lines 424-535) and the per-tick position and pitch updates (lines
  654-713, 896-948): float numerics. The tick's outcome comes in as a
  `FlightStep`. The homing adjustment of the movement vector goes with it.
- The `atan2f` computation of the impact angle in `getHitSide`. The wrapped
  integer angle is an input.
- Audio, visual effects, screen shake, `objectShimmy` and `justBeenHitByEW`:
  presentation only. `gfxVisible` is modelled, because `proj_SendProjectile`
  sets `bVisible` from it (lines 544-547).
- The external damage routines (`objectDamage`, `droidDamage`,
  `structureDamage`, `featureDamage`, `electronicDamage`). The impact returns
  a `Bill` and takes the relative damage as an input. Upgrades by
  `weaponDamage` and `weaponIncenDamage` are folded into the weapon's
  statistics.
- The splash-damage loop of `proj_ImpactFunc` (lines 1304-1446). It depends on
  a dice roll and on the damage callbacks.
- `proj_UpdateKills`, multiplayer statistics, `counterBatteryFire`, orders
  and actions.
- The spatial grid. Its answer is an input sequence of candidates.
- `establishTargetHeight` and the stat-table lookups (`asWeaponModifier`,
  `asStructStrengthModifier`). The height is a field of `GameObject`; the
  modifier is an input.
- Reference counting in `setProjectileSource`, `setProjectileDestination` and
  `setProjectileDamaged`. Only the references themselves are modelled.
- `proj_GetFirst` and `proj_GetNext`, an iteration cursor for callers;
  `proj_GetLongRange`; `proj_Shutdown`; `checkProjectile`.
- Projectiles.ProjectileSystem.SendProjectile: does not model the unique id
  or the muzzle calculation. The muzzle position is given as `Origin.Fired`.
  The random height variance is a parameter.
- Projectiles.PostImpactFunc: the age is the plain difference
  `gameTime - born`, not the engine's signed 32-bit difference. The two differ
  only after about 24 days of game time.
- Projectiles.ProjectileSystem.UpdateEach: states per projectile only part
  of what its update did (cleared source, state order, death off the map).
  The per-state outcome, the burn lists and the neighbour list are stated
  by `Update` for one projectile and are not composed over the loop, where
  later fires burn lists that earlier ones already burnt.
- Projectiles.ProjectileSystem.UpdateAll: passes on what `UpdateEach`
  states, and no more, about the updates.
- Collision.ChildAim: computes the extended aim in exact reals. The engine
  adds and multiplies in single-precision floats before truncating, so the
  aim can differ from the model's by one unit. The map-edge clipping is
  exact.
- Collision.DirectExtensionFactor: the factors are the float values of the
  engine's literals (`1.2f` is 5033165 / 4194304). The ratio they are compared
  with is a float input, so the comparison itself is exact.
- Projectiles.LaunchDirect: the muzzle position is taken as integers. The
  engine subtracts the float muzzle position from the target and truncates
  the difference (lines 417-419), so dx and dy can differ by one at the
  minimum-range boundary. The squared distance `dx*dx + dy*dy + dz*dz` is
  held in a 32-bit signed int there (lines 327, 433) and wraps for offsets
  of about 26,000 units or more. The model compares exact integers.
- Damage.QualityFactor: requires a positive power and point count for the
  attacker. The engine divides by them unguarded; a zero attacker is not
  modelled.
- Collision.ChildAim: requires the map to be at least one tile wide and high.
  The engine's `mapWidth - 1` would wrap on an empty map.
- Damage.CalcDamage: does not model 32-bit overflow of
  base damage × modifier.
- Naybors.NayborList.GetNaybors: does not model 32-bit overflow of the
  squared distances. Candidates are at most a few tiles away.
- Burn.CheckBurnDamage: does not model objects destroyed by burn damage while
  the list is walked. The list is treated as fixed for the visit.

## Findings

| source | as written | input that shows it | evidently intended | confidence | as-written member | corrected member |
|---|---|---|---|---|---|---|
| src/projectile.c:248-249 | `calcDroidPower(victim) / calcDroidPower(attacker)` divides two unsigned integers, so each ratio is an integer quotient before it becomes a float | attacker power 100, victim power 150, equal points: the factor is 1.0 | the exact ratio 1.5, giving a factor of 1.25, as the comment's "relates the quality" and the [0.5, 2.0] clipping suggest | medium, not executed | Damage.QualityFactorAsWritten (with Damage.QualityFactorTruncates) | Damage.QualityFactor |
