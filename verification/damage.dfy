/** Damage arithmetic: the armour-modified damage of a hit and the quality
    factor that scales experience in droid-on-droid fights. */
module Damage {
  import opened ProjTypes

  /** Damage a hit does to a target: structures and droids scale the base
      damage by a percentage modifier (looked up by weapon effect and the
      target's strength or propulsion), anything else takes the base damage;
      a non-zero base damage never rounds down to nothing. */
  function CalcDamage(baseDamage: nat, kind: ObjKind, modifier: nat): (damage: nat)
    ensures damage == 0 <==> baseDamage == 0
    ensures !(kind.Structure? || kind.Droid?) ==> damage == baseDamage
    ensures (kind.Structure? || kind.Droid?) && baseDamage * modifier >= 100 ==> damage == baseDamage * modifier / 100
    ensures (kind.Structure? || kind.Droid?) && baseDamage != 0 && baseDamage * modifier < 100 ==> damage == 1
  {
    var scaled := if kind.Structure? || kind.Droid? then baseDamage * modifier / 100 else baseDamage;
    if scaled == 0 && baseDamage != 0 then 1 else scaled
  }

  /** More base damage never yields less damage. */
  lemma {:induction false} CalcDamageMonotone(b1: nat, b2: nat, kind: ObjKind, modifier: nat)
    requires b1 <= b2
    ensures CalcDamage(b1, kind, modifier) <= CalcDamage(b2, kind, modifier)
  {
    MulMonotone(b1, b2, modifier);
    DivMonotone(b1 * modifier, b2 * modifier, 100);
  }

  /** A modifier of 100 percent passes the base damage through unchanged,
      whatever the kind of target. */
  lemma CalcDamageNeutralModifier(baseDamage: nat, kind: ObjKind)
    ensures CalcDamage(baseDamage, kind, 100) == baseDamage
  {
    assert baseDamage * 100 / 100 == baseDamage;
  }

  function Clip(x: real, lo: real, hi: real): (r: real)
    requires lo <= hi
    ensures lo <= r <= hi
    ensures lo <= x <= hi ==> r == x
  {
    if x < lo then lo else if x > hi then hi else x
  }

  /** Relates the strength of a victim droid to that of its attacker: the
      power ratio and the points ratio, each kept within [0.5, 2.0], averaged.
      Ratios are exact. */
  function QualityFactor(attackerPower: nat, victimPower: nat,
                         attackerPoints: nat, victimPoints: nat): (q: real)
    requires attackerPower > 0 && attackerPoints > 0
    ensures 0.5 <= q <= 2.0
  {
    var powerRatio := Clip(victimPower as real / attackerPower as real, 0.5, 2.0);
    var pointsRatio := Clip(victimPoints as real / attackerPoints as real, 0.5, 2.0);
    (powerRatio + pointsRatio) / 2.0
  }

  /** The factor exactly as the division is written: both operands are
      unsigned integers, so each ratio is an integer quotient before it is
      converted and clipped. */
  function QualityFactorAsWritten(attackerPower: nat, victimPower: nat,
                                  attackerPoints: nat, victimPoints: nat): (q: real)
    requires attackerPower > 0 && attackerPoints > 0
    ensures 0.5 <= q <= 2.0
  {
    var powerRatio := Clip((victimPower / attackerPower) as real, 0.5, 2.0);
    var pointsRatio := Clip((victimPoints / attackerPoints) as real, 0.5, 2.0);
    (powerRatio + pointsRatio) / 2.0
  }

  /** A victim four times as costly and equally scored: the power ratio is
      clipped to 2.0 and the factor is 1.5. */
  lemma QualityFactorExample()
    ensures QualityFactor(100, 400, 100, 100) == 1.5
  {
    assert 400.0 / 100.0 == 4.0;
    assert 100.0 / 100.0 == 1.0;
  }

  /** Equal droids give a neutral factor. */
  lemma QualityFactorEven(power: nat, points: nat)
    requires power > 0 && points > 0
    ensures QualityFactor(power, power, points, points) == 1.0
  {
    assert power as real / power as real == 1.0;
    assert points as real / points as real == 1.0;
  }

  lemma DivRealMonotone(a: real, b: real, d: real)
    requires a <= b && d > 0.0
    ensures a / d <= b / d
  {
  }

  /** A stronger victim never earns the attacker a smaller factor. */
  lemma {:induction false} QualityFactorMonotone(attackerPower: nat, v1: nat, v2: nat,
                                                 attackerPoints: nat, victimPoints: nat)
    requires attackerPower > 0 && attackerPoints > 0
    requires v1 <= v2
    ensures QualityFactor(attackerPower, v1, attackerPoints, victimPoints)
         <= QualityFactor(attackerPower, v2, attackerPoints, victimPoints)
  {
    DivRealMonotone(v1 as real, v2 as real, attackerPower as real);
  }

  /** The integer quotient loses the fraction: a victim half again as costly
      as its attacker is treated as an even match. */
  lemma QualityFactorTruncates()
    ensures QualityFactorAsWritten(100, 150, 100, 100) == 1.0
    ensures QualityFactor(100, 150, 100, 100) == 1.25
  {
    assert 150 / 100 == 1;
    assert 100 / 100 == 1;
    assert 150.0 / 100.0 == 1.5;
    assert 100.0 / 100.0 == 1.0;
  }
}
