/** The status and combat-gating state of the playable roguelike character,
    modelled on values: a snapshot of the status fields, one pure function per
    operation the character performs on them, and lemmas about whole sequences
    of operations. Health and mana are reals, so float rounding is not modelled. */
module CharacterStatus {

  /** The status fields of the character, as they stand between two calls. */
  datatype Status = Status(
    currentHealth: real,
    maxHealth: real,
    currentMana: real,
    maxMana: real,
    isStunned: bool,
    isAttacking: bool,
    attackType: int)

  /** Tags the attack operations write into `attackType`. */
  const LightAttack: int := 0
  const HeavyAttack: int := 1
  const ComboAttack: int := 2

  /** The pools the character is given when its input is set up. */
  const DefaultMaxHealth: real := 100.0
  const DefaultMaxMana: real := 100.0

  function Max(x: real, y: real): (m: real) { if x < y then y else x }
  function Min(x: real, y: real): (m: real) { if x < y then x else y }

  /** Health lies between zero and the maximum. */
  predicate HealthInRange(s: Status) {
    0.0 <= s.currentHealth <= s.maxHealth
  }

  /** Movement input is accepted only while neither attacking nor stunned. */
  predicate CanMove(s: Status) {
    !s.isAttacking && !s.isStunned
  }

  /** An attack in flight is a light or a heavy one: a combo never is. */
  predicate AttackWellFormed(s: Status) {
    s.isAttacking ==> s.attackType == LightAttack || s.attackType == HeavyAttack
  }

  /** The status part of setting up the player's input: both pools full, both
      flags cleared; the attack tag keeps whatever value it had. */
  function Setup(s: Status): (r: Status)
    ensures r.maxHealth == DefaultMaxHealth && r.currentHealth == r.maxHealth
    ensures r.maxMana == DefaultMaxMana && r.currentMana == r.maxMana
    ensures HealthInRange(r) && CanMove(r) && AttackWellFormed(r)
    ensures r.attackType == s.attackType
  {
    s.(maxHealth := DefaultMaxHealth, currentHealth := DefaultMaxHealth,
       maxMana := DefaultMaxMana, currentMana := DefaultMaxMana,
       isAttacking := false, isStunned := false)
  }

  /** Subtract the amount from health and floor the result at zero. */
  function TakeDamage(s: Status, damageAmount: real): (r: Status)
    ensures r.currentHealth == Max(s.currentHealth - damageAmount, 0.0)
    ensures r.currentHealth >= 0.0
    ensures damageAmount >= 0.0 ==> r.currentHealth <= Max(s.currentHealth, 0.0)
    ensures r == s.(currentHealth := r.currentHealth)
  {
    var h := s.currentHealth - damageAmount;
    s.(currentHealth := if h < 0.0 then 0.0 else h)
  }

  /** Subtract the given fraction of the maximum from health, floored at zero. */
  function TakeDamagePercent(s: Status, damagePercent: real): (r: Status)
    ensures r.currentHealth == Max(s.currentHealth - damagePercent * s.maxHealth, 0.0)
    ensures r.currentHealth >= 0.0
    ensures r == s.(currentHealth := r.currentHealth)
  {
    var h := s.currentHealth - damagePercent * s.maxHealth;
    s.(currentHealth := if h < 0.0 then 0.0 else h)
  }

  /** Add the amount to health and cap the result at the maximum. */
  function HealAmount(s: Status, healAmount: real): (r: Status)
    ensures r.currentHealth == Min(s.currentHealth + healAmount, s.maxHealth)
    ensures r.currentHealth <= s.maxHealth
    ensures healAmount >= 0.0 ==> r.currentHealth >= Min(s.currentHealth, s.maxHealth)
    ensures r == s.(currentHealth := r.currentHealth)
  {
    var h := s.currentHealth + healAmount;
    s.(currentHealth := if h > s.maxHealth then s.maxHealth else h)
  }

  /** Add the given fraction of the maximum to health, capped at the maximum. */
  function HealPercent(s: Status, healPercent: real): (r: Status)
    ensures r.currentHealth == Min(s.currentHealth + healPercent * s.maxHealth, s.maxHealth)
    ensures r.currentHealth <= s.maxHealth
    ensures r == s.(currentHealth := r.currentHealth)
  {
    var h := s.currentHealth + healPercent * s.maxHealth;
    s.(currentHealth := if h > s.maxHealth then s.maxHealth else h)
  }

  /** Start a light attack unless one is already in flight. */
  function AttackLight(s: Status): (r: Status)
    ensures r.isAttacking && !CanMove(r)
    ensures !s.isAttacking ==> r.attackType == LightAttack
    ensures s.isAttacking ==> r == s
    ensures r == s.(isAttacking := r.isAttacking, attackType := r.attackType)
  {
    if !s.isAttacking then s.(attackType := LightAttack, isAttacking := true) else s
  }

  /** Start a heavy attack unless one is already in flight. */
  function AttackHeavy(s: Status): (r: Status)
    ensures r.isAttacking && !CanMove(r)
    ensures !s.isAttacking ==> r.attackType == HeavyAttack
    ensures s.isAttacking ==> r == s
    ensures r == s.(isAttacking := r.isAttacking, attackType := r.attackType)
  {
    if !s.isAttacking then s.(attackType := HeavyAttack, isAttacking := true) else s
  }

  /** Tag a combo unless an attack is in flight; the combo itself never marks
      the character as attacking. */
  function AttackCombo(s: Status): (r: Status)
    ensures r.isAttacking == s.isAttacking && CanMove(r) == CanMove(s)
    ensures !s.isAttacking ==> r.attackType == ComboAttack
    ensures s.isAttacking ==> r == s
    ensures r == s.(attackType := r.attackType)
  {
    if !s.isAttacking then s.(attackType := ComboAttack) else s
  }

  /** End the attack in flight, if any; nothing is checked. */
  function EndAttack(s: Status): (r: Status)
    ensures !r.isAttacking
    ensures CanMove(r) <==> !s.isStunned
    ensures r == s.(isAttacking := r.isAttacking)
  {
    s.(isAttacking := false)
  }

  // ---------------------------------------------------------------------------
  // Single-step properties

  /** Damage by percent is damage by that fraction of the maximum. */
  lemma TakeDamagePercentIsTakeDamage(s: Status, p: real)
    ensures TakeDamagePercent(s, p) == TakeDamage(s, p * s.maxHealth)
  {
  }

  /** Healing by percent is healing by that fraction of the maximum. */
  lemma HealPercentIsHealAmount(s: Status, p: real)
    ensures HealPercent(s, p) == HealAmount(s, p * s.maxHealth)
  {
  }

  /** A full-percent hit from any health up to the maximum leaves exactly zero. */
  lemma FullDamagePercentEmptiesHealth(s: Status)
    requires s.currentHealth <= s.maxHealth
    ensures TakeDamagePercent(s, 1.0).currentHealth == 0.0
  {
  }

  /** A full-percent heal from any non-negative health leaves exactly the maximum. */
  lemma FullHealPercentFillsHealth(s: Status)
    requires s.currentHealth >= 0.0
    ensures HealPercent(s, 1.0).currentHealth == s.maxHealth
  {
  }

  /** Healing has no floor: a negative amount can take health below zero. */
  lemma NegativeHealGoesBelowZero()
    ensures HealAmount(Setup(Status(0.0, 0.0, 0.0, 0.0, false, false, 0)), -150.0).currentHealth == -50.0
  {
  }

  /** Damage has no ceiling: a negative amount can take health above the maximum. */
  lemma NegativeDamageExceedsMax()
    ensures TakeDamage(Setup(Status(0.0, 0.0, 0.0, 0.0, false, false, 0)), -50.0).currentHealth == 150.0
  {
  }

  /** Over all states: healing leaves health below zero exactly when the
      unclamped sum is below zero or the maximum itself is. */
  lemma HealBelowZeroExactly(s: Status, healAmount: real)
    ensures HealAmount(s, healAmount).currentHealth < 0.0
        <==> s.currentHealth + healAmount < 0.0 || s.maxHealth < 0.0
  {
  }

  /** Over all states: damage leaves health above the maximum exactly when the
      unclamped difference is above it or the maximum is below zero. */
  lemma DamageAboveMaxExactly(s: Status, damageAmount: real)
    ensures TakeDamage(s, damageAmount).currentHealth > s.maxHealth
        <==> s.currentHealth - damageAmount > s.maxHealth || s.maxHealth < 0.0
  {
  }

  /** In every state, once a light or heavy attack has been started any further
      attack, of any kind, changes nothing until the attack ends. */
  lemma SecondAttackChangesNothing(s: Status)
    ensures var l := AttackLight(s);
      AttackLight(l) == l && AttackHeavy(l) == l && AttackCombo(l) == l
    ensures var h := AttackHeavy(s);
      AttackLight(h) == h && AttackHeavy(h) == h && AttackCombo(h) == h
  {
  }

  /** From no attack in flight, a light attack followed by a heavy one leaves
      the light tag in place. */
  lemma LightThenHeavyKeepsLight(s: Status)
    requires !s.isAttacking
    ensures AttackHeavy(AttackLight(s)) == AttackLight(s)
    ensures AttackHeavy(AttackLight(s)).attackType == LightAttack
    ensures AttackHeavy(AttackLight(s)).isAttacking
  {
  }

  /** Because a combo does not mark the character as attacking, another
      attack can start straight after it and overwrite its tag. */
  lemma ComboDoesNotBlockNextAttack(s: Status)
    requires !s.isAttacking
    ensures AttackLight(AttackCombo(s)).attackType == LightAttack
    ensures AttackHeavy(AttackCombo(s)).attackType == HeavyAttack
  {
  }

  // ---------------------------------------------------------------------------
  // Sequences of operations

  /** One call of a status operation, with its argument. */
  datatype Op =
    | Damage(amount: real)
    | DamageByPercent(percent: real)
    | Heal(amount: real)
    | HealByPercent(percent: real)
    | Light
    | Heavy
    | Combo
    | End

  /** The health operations' arguments are non-negative; attacks take none. */
  predicate NonNegative(op: Op) {
    match op
    case Damage(a) => a >= 0.0
    case DamageByPercent(p) => p >= 0.0
    case Heal(a) => a >= 0.0
    case HealByPercent(p) => p >= 0.0
    case _ => true
  }

  predicate AllNonNegative(ops: seq<Op>) {
    forall i :: 0 <= i < |ops| ==> NonNegative(ops[i])
  }

  /** Perform one operation. */
  function Apply(s: Status, op: Op): (r: Status) {
    match op
    case Damage(a) => TakeDamage(s, a)
    case DamageByPercent(p) => TakeDamagePercent(s, p)
    case Heal(a) => HealAmount(s, a)
    case HealByPercent(p) => HealPercent(s, p)
    case Light => AttackLight(s)
    case Heavy => AttackHeavy(s)
    case Combo => AttackCombo(s)
    case End => EndAttack(s)
  }

  /** Perform the operations in order. */
  function Run(s: Status, ops: seq<Op>): (r: Status)
    decreases |ops|
  {
    if ops == [] then s else Run(Apply(s, ops[0]), ops[1..])
  }

  /** The maximum health, both mana fields and the stun flag are never changed
      by any operation. */
  lemma {:induction false} RunPreservesFixedFields(s: Status, ops: seq<Op>)
    ensures Run(s, ops).maxHealth == s.maxHealth
    ensures Run(s, ops).currentMana == s.currentMana && Run(s, ops).maxMana == s.maxMana
    ensures Run(s, ops).isStunned == s.isStunned
    decreases |ops|
  {
    if ops != [] {
      RunPreservesFixedFields(Apply(s, ops[0]), ops[1..]);
    }
  }

  /** One operation with a non-negative argument keeps health in range. */
  lemma ApplyKeepsHealthInRange(s: Status, op: Op)
    requires HealthInRange(s) && NonNegative(op)
    ensures HealthInRange(Apply(s, op))
  {
    match op
    case DamageByPercent(p) =>
      assert p >= 0.0 && s.maxHealth >= 0.0;
      assert p * s.maxHealth >= 0.0;
    case HealByPercent(p) =>
      assert p >= 0.0 && s.maxHealth >= 0.0;
      assert p * s.maxHealth >= 0.0;
    case _ =>
  }

  /** Any sequence of operations with non-negative arguments keeps health in
      range. */
  lemma {:induction false} RunKeepsHealthInRange(s: Status, ops: seq<Op>)
    requires HealthInRange(s) && AllNonNegative(ops)
    ensures HealthInRange(Run(s, ops))
    decreases |ops|
  {
    if ops != [] {
      assert NonNegative(ops[0]);
      ApplyKeepsHealthInRange(s, ops[0]);
      RunKeepsHealthInRange(Apply(s, ops[0]), ops[1..]);
    }
  }

  /** Any sequence of operations keeps an attack in flight light or heavy. */
  lemma {:induction false} RunKeepsAttackWellFormed(s: Status, ops: seq<Op>)
    requires AttackWellFormed(s)
    ensures AttackWellFormed(Run(s, ops))
    decreases |ops|
  {
    if ops != [] {
      RunKeepsAttackWellFormed(Apply(s, ops[0]), ops[1..]);
    }
  }

  /** From the state set up for play, with health at its maximum of 100, any
      sequence of operations with non-negative arguments keeps health within
      [0, 100], leaves mana full and the stun flag clear, and keeps an attack
      in flight light or heavy. */
  lemma SetupThenRun(s: Status, ops: seq<Op>)
    requires AllNonNegative(ops)
    ensures var r := Run(Setup(s), ops);
      0.0 <= r.currentHealth <= r.maxHealth == DefaultMaxHealth &&
      r.currentMana == r.maxMana == DefaultMaxMana &&
      !r.isStunned && AttackWellFormed(r)
  {
    RunKeepsHealthInRange(Setup(s), ops);
    RunPreservesFixedFields(Setup(s), ops);
    RunKeepsAttackWellFormed(Setup(s), ops);
  }
}
