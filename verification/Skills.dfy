/** Levelling: the experience curve and the loop that turns an award into levels. */
module Skills {
  import opened Wrappers

  datatype SkillValue = SkillValue(value: U16, currentTicks: U64)

  function SaturatingAdd64(a: U64, b: U64): U64 { Min(a + b, U64_MAX) }

  function SaturatingSub(a: int, b: int): int { Max(a - b, 0) }

  function NextLevel(level: U16): U16 { Min(level + 1, U16_MAX) }

  type Curve = U16 -> U64

  // ---------------------------------------------------------------- advance

  // The guard of the levelling loop: a curve that has stopped rising is a ceiling.
  predicate Ceiling(required: Curve, level: U16) {
    required(NextLevel(level)) <= required(level)
  }

  predicate Climbs(required: Curve, skill: SkillValue) {
    !Ceiling(required, skill.value) && skill.currentTicks >= required(NextLevel(skill.value))
  }

  // The climb without its loop: the value it reaches and how many levels that took.
  function Climb(skill: SkillValue, required: Curve): (r: (SkillValue, nat))
    ensures r.0.value == skill.value + r.1
    ensures !Climbs(required, r.0)
    decreases U16_MAX - skill.value
  {
    if !Climbs(required, skill) then (skill, 0)
    else
      var up := SkillValue(NextLevel(skill.value), skill.currentTicks - required(NextLevel(skill.value)));
      var (top, gained) := Climb(up, required);
      (top, gained + 1)
  }

  function Advanced(skill: SkillValue, ticks: U64, required: Curve): (SkillValue, nat) {
    Climb(skill.(currentTicks := SaturatingAdd64(skill.currentTicks, ticks)), required)
  }

  method Advance(start: SkillValue, ticks: U64, required: Curve) returns (skill: SkillValue, gained: U16)
    ensures (skill, gained as nat) == Advanced(start, ticks, required)
  {
    skill := start.(currentTicks := SaturatingAdd64(start.currentTicks, ticks));
    gained := 0;
    while true
      invariant gained as int == skill.value - start.value
      invariant var (top, rest) := Climb(skill, required);
                (top, gained + rest) == Advanced(start, ticks, required)
      decreases U16_MAX - skill.value
    {
      var currentCost, nextCost := required(skill.value), required(NextLevel(skill.value));
      if nextCost <= currentCost || skill.currentTicks < nextCost {
        break;
      }
      skill := SkillValue(NextLevel(skill.value), skill.currentTicks - nextCost);
      gained := Min(gained + 1, U16_MAX);
    }
  }

  // More ticks in hand first climb everything fewer ticks would have climbed.
  lemma {:induction false} ClimbInTwoStages(skill: SkillValue, extra: U64, required: Curve)
    requires skill.currentTicks + extra <= U64_MAX
    ensures var (mid, first) := Climb(skill, required);
            && mid.currentTicks <= skill.currentTicks
            && var (top, second) := Climb(mid.(currentTicks := mid.currentTicks + extra), required);
               Climb(skill.(currentTicks := skill.currentTicks + extra), required) == (top, first + second)
    decreases U16_MAX - skill.value
  {
    if Climbs(required, skill) {
      var cost := required(NextLevel(skill.value));
      ClimbInTwoStages(SkillValue(NextLevel(skill.value), skill.currentTicks - cost), extra, required);
      assert Climbs(required, skill.(currentTicks := skill.currentTicks + extra));
    }
  }

  // Awards compose: a then b is a + b, on every curve.
  lemma AwardsCompose(skill: SkillValue, a: U64, b: U64, required: Curve)
    requires skill.currentTicks + a + b <= U64_MAX
    ensures var (mid, first) := Advanced(skill, a, required);
            var (top, second) := Advanced(mid, b, required);
            Advanced(skill, a + b, required) == (top, first + second)
  {
    ClimbInTwoStages(skill.(currentTicks := skill.currentTicks + a), b, required);
  }

  // ---------------------------------------------------------------- the experience curve

  // Signed division truncates toward zero.
  function TruncatingDiv(a: int, b: int): int
    requires b > 0
  {
    if a >= 0 then a / b else -((-a) / b)
  }

  function Cubic(level: int): int { ((level - 6) * level + 17) * level - 12 }

  function Quadratic(level: int): int { level * level - 5 * level + 8 }

  function ExpForLevel(level: U16): nat {
    Max(TruncatingDiv(Cubic(level), 6) * 100, 0)
  }

  function LevelCost(level: U16): nat {
    SaturatingSub(ExpForLevel(level), ExpForLevel(SaturatingSub(level, 1)))
  }

  lemma CubicStep(level: int)
    ensures Cubic(level) == Cubic(level - 1) + 3 * Quadratic(level)
  {
    var b := level - 1;
    assert Quadratic(level) == b * b - 3 * b + 4;
    assert Cubic(b) == b * b * b - 6 * (b * b) + 17 * b - 12;
    assert Cubic(level) == (b * b - 4 * b - 5 + 17) * (b + 1) - 12;
    assert (b * b - 4 * b + 12) * (b + 1) == b * b * b - 3 * (b * b) + 8 * b + 12;
  }

  lemma QuadraticStep(level: int)
    ensures Quadratic(level) == Quadratic(level - 1) + 2 * (level - 3)
  {
  }

  lemma {:induction false} QuadraticIsEven(level: nat)
    requires level >= 1
    ensures Quadratic(level) % 2 == 0 && Quadratic(level) >= 2
  {
    if level > 3 {
      QuadraticIsEven(level - 1);
      QuadraticStep(level);
    }
  }

  // Six divides the cubic, so the truncation in the formula never bites.
  lemma {:induction false} CubicIsExact(level: nat)
    requires level >= 1
    ensures Cubic(level) % 6 == 0 && Cubic(level) >= 0
  {
    if level > 1 {
      CubicIsExact(level - 1);
      CubicStep(level);
      QuadraticIsEven(level);
      SixDividesTheSum(Cubic(level), Cubic(level - 1), Quadratic(level));
    }
  }

  lemma SixDividesTheSum(sum: int, a: int, b: int)
    requires sum == a + 3 * b && a % 6 == 0 && b % 2 == 0
    ensures sum % 6 == 0
  {
  }

  // The step into a level is the quadratic 50(L² - 5L + 8).
  lemma LevelCostIsQuadratic(level: U16)
    requires level >= 2
    ensures LevelCost(level) == 50 * Quadratic(level)
    ensures ExpForLevel(level - 1) + LevelCost(level) == ExpForLevel(level)
  {
    CubicIsExact(level);
    CubicIsExact(level - 1);
    CubicStep(level);
    QuadraticIsEven(level);
  }

  lemma LevelCostIsBounded(level: U16)
    ensures ExpForLevel(level) <= U64_MAX && LevelCost(level) <= U64_MAX
  {
    var inner := (level - 6) * level + 17;
    assert inner <= 0x1_0000 * 0x1_0000;
    assert inner * level <= 0x1_0000_0000 * 0x1_0000 by {
      if inner >= 0 { assert inner * level <= inner * 0x1_0000; }
    }
  }

  function StepCost(level: U16): (cost: U64)
    ensures cost == LevelCost(level)
  {
    LevelCostIsBounded(level);
    LevelCost(level)
  }

  function LevelCurve(): (curve: Curve)
    ensures forall level: U16 :: curve(level) == LevelCost(level)
  {
    StepCost
  }

  lemma CostsFlatThenRise(level: U16)
    requires level < U16_MAX
    ensures LevelCost(level + 1) <= LevelCost(level) <==> level in {0, 2}
  {
    if level == 1 || level == 2 {
      LevelCostIsQuadratic(2);
      LevelCostIsQuadratic(3);
    } else if 3 <= level {
      LevelCostIsQuadratic(level);
      LevelCostIsQuadratic(level + 1);
      QuadraticStep(level + 1);
    }
  }

  // Where the code believes the curve has stopped rising. Level 2 is on the list because
  // the steps into 2 and into 3 cost the same, so a level-2 character never levels again.
  lemma CeilingsOfTheLevelCurve(level: U16)
    ensures Ceiling(LevelCurve(), level) <==> level in {0, 2, U16_MAX}
  {
    if level < U16_MAX {
      CostsFlatThenRise(level);
    }
  }

  function TotalExperience(skill: SkillValue): U64 {
    Min(ExpForLevel(skill.value) + skill.currentTicks, U64_MAX)
  }

  // Levelling up moves experience between the two summands and loses none.
  lemma {:induction false} ClimbKeepsExperience(skill: SkillValue)
    ensures var top := Climb(skill, LevelCurve()).0;
            ExpForLevel(top.value) + top.currentTicks == ExpForLevel(skill.value) + skill.currentTicks
    decreases U16_MAX - skill.value
  {
    if Climbs(LevelCurve(), skill) {
      CeilingsOfTheLevelCurve(skill.value);
      LevelCostIsQuadratic(skill.value + 1);
      ClimbKeepsExperience(SkillValue(skill.value + 1, skill.currentTicks - LevelCost(skill.value + 1)));
    }
  }

  // An award raises total experience by exactly itself.
  lemma AwardIsTotalExperience(skill: SkillValue, ticks: U64)
    requires ExpForLevel(skill.value) + skill.currentTicks + ticks <= U64_MAX
    ensures TotalExperience(Advanced(skill, ticks, LevelCurve()).0) == TotalExperience(skill) + ticks
  {
    ClimbKeepsExperience(skill.(currentTicks := skill.currentTicks + ticks));
  }

  lemma {:induction false} CeilingsStopTheClimb(skill: SkillValue, required: Curve, ceiling: U16)
    requires Ceiling(required, ceiling) && skill.value <= ceiling
    ensures Climb(skill, required).0.value <= ceiling
    decreases U16_MAX - skill.value
  {
    if Climbs(required, skill) {
      CeilingsStopTheClimb(SkillValue(skill.value + 1, skill.currentTicks - required(skill.value + 1)),
                           required, ceiling);
    }
  }

  // No award, however large, takes a character past level 2.
  lemma LevelTwoIsACeiling(skill: SkillValue, ticks: U64)
    requires skill.value <= 2
    ensures Advanced(skill, ticks, LevelCurve()).0.value <= 2
  {
    CeilingsOfTheLevelCurve(2);
    CeilingsStopTheClimb(skill.(currentTicks := SaturatingAdd64(skill.currentTicks, ticks)), LevelCurve(), 2);
  }

  // From level 3 on the loop stops only when the next level cannot be paid for, or there is none.
  lemma AboveLevelTwoTheAwardIsSpent(skill: SkillValue, ticks: U64)
    requires skill.value >= 3
    ensures var top := Advanced(skill, ticks, LevelCurve()).0;
            top.value == U16_MAX || top.currentTicks < LevelCost(top.value + 1)
  {
    CeilingsOfTheLevelCurve(Advanced(skill, ticks, LevelCurve()).0.value);
  }

  // ---------------------------------------------------------------- the progress bar

  function BpFrom(currentTicks: U64, currentCost: U64, nextCost: U64): nat {
    if nextCost <= currentCost then 10_000
    else Min((currentTicks * 10_000) / nextCost, 10_000)
  }

  // The bar is full exactly when the loop would stop at a ceiling or climb, so after an
  // award it is full only at a ceiling.
  lemma FullBarIff(skill: SkillValue, required: Curve)
    ensures 0 <= BpFrom(skill.currentTicks, required(skill.value), required(NextLevel(skill.value))) <= 10_000
    ensures BpFrom(skill.currentTicks, required(skill.value), required(NextLevel(skill.value))) == 10_000
            <==> Ceiling(required, skill.value) || Climbs(required, skill)
  {
    var t: int, n: int := skill.currentTicks, required(NextLevel(skill.value));
    if !Ceiling(required, skill.value) {
      DivAtLeastIff(t * 10_000, n, 10_000);
    }
  }

  lemma DivAtLeastIff(a: nat, b: nat, k: nat)
    requires b > 0
    ensures a / b >= k <==> a >= b * k
  {
    var q := a / b;
    assert a == b * q + a % b;
    assert q >= k ==> b * q >= b * k;
    assert q < k ==> b * q + b <= b * k by { if q < k { assert b * (q + 1) <= b * k; } }
  }
}
