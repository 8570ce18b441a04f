/** The character object itself: the status fields it updates in place, one
    method per operation, and the movement gate of its two movement handlers.
    Each method is specified by the matching function of CharacterStatus
    applied to the state before the call. */
module RoguelikeCharacter {
  import CharacterStatus

  class Character {
    var currentHealth: real
    var maxHealth: real
    var maxMana: real
    var currentMana: real
    var isStunned: bool
    var isAttacking: bool
    var attackType: int

    /** The status fields as one value. */
    function State(): CharacterStatus.Status
      reads this
    {
      CharacterStatus.Status(currentHealth, maxHealth, currentMana, maxMana,
                             isStunned, isAttacking, attackType)
    }

    /** Whether movement input is accepted now. */
    function CanMove(): (r: bool)
      reads this
      ensures r <==> !isAttacking && !isStunned
    {
      CharacterStatus.CanMove(State())
    }

    /** The status initialisation performed when player input is set up. */
    method SetupPlayerInputComponent()
      modifies this`maxHealth, this`currentHealth, this`maxMana, this`currentMana,
               this`isAttacking, this`isStunned
      ensures State() == CharacterStatus.Setup(old(State()))
      ensures currentHealth == maxHealth == CharacterStatus.DefaultMaxHealth
      ensures CanMove()
    {
      maxHealth := 100.0;
      currentHealth := maxHealth;
      maxMana := 100.0;
      currentMana := maxMana;
      isAttacking := false;
      isStunned := false;
    }

    method TakeDamage(damageAmount: real)
      modifies this`currentHealth
      ensures State() == CharacterStatus.TakeDamage(old(State()), damageAmount)
      ensures currentHealth >= 0.0
    {
      currentHealth := currentHealth - damageAmount;
      if currentHealth < 0.0 {
        currentHealth := 0.0;
      }
    }

    method TakeDamagePercent(damagePercent: real)
      modifies this`currentHealth
      ensures State() == CharacterStatus.TakeDamagePercent(old(State()), damagePercent)
      ensures currentHealth >= 0.0
    {
      currentHealth := currentHealth - damagePercent * maxHealth;
      if currentHealth < 0.0 {
        currentHealth := 0.0;
      }
    }

    method HealAmount(healAmount: real)
      modifies this`currentHealth
      ensures State() == CharacterStatus.HealAmount(old(State()), healAmount)
      ensures currentHealth <= maxHealth
    {
      currentHealth := currentHealth + healAmount;
      if currentHealth > maxHealth {
        currentHealth := maxHealth;
      }
    }

    method HealPercent(healPercent: real)
      modifies this`currentHealth
      ensures State() == CharacterStatus.HealPercent(old(State()), healPercent)
      ensures currentHealth <= maxHealth
    {
      currentHealth := currentHealth + healPercent * maxHealth;
      if currentHealth > maxHealth {
        currentHealth := maxHealth;
      }
    }

    method AttackLight()
      modifies this`attackType, this`isAttacking
      ensures State() == CharacterStatus.AttackLight(old(State()))
      ensures isAttacking && !CanMove()
    {
      if !isAttacking {
        attackType := 0;
        isAttacking := true;
      }
    }

    method AttackHeavy()
      modifies this`attackType, this`isAttacking
      ensures State() == CharacterStatus.AttackHeavy(old(State()))
      ensures isAttacking && !CanMove()
    {
      if !isAttacking {
        attackType := 1;
        isAttacking := true;
      }
    }

    method AttackCombo()
      modifies this`attackType
      ensures State() == CharacterStatus.AttackCombo(old(State()))
    {
      if !isAttacking {
        attackType := 2;
      }
    }

    method EndAttack()
      modifies this`isAttacking
      ensures State() == CharacterStatus.EndAttack(old(State()))
      ensures CanMove() == !isStunned
    {
      isAttacking := false;
    }

    /** The gate of the forward movement handler: input is passed on to the
        movement component exactly when there is a controller, the axis value
        is non-zero and the character can move. The direction computed from
        the controller's rotation is not modelled. */
    method MoveForward(hasController: bool, value: real) returns (applied: bool)
      ensures applied <==> hasController && value != 0.0 && CanMove()
      ensures applied ==> !isAttacking && !isStunned
    {
      applied := hasController && value != 0.0 && CanMove();
    }

    /** The gate of the sideways movement handler, the same as MoveForward's. */
    method MoveRight(hasController: bool, value: real) returns (applied: bool)
      ensures applied <==> hasController && value != 0.0 && CanMove()
      ensures applied ==> !isAttacking && !isStunned
    {
      applied := hasController && value != 0.0 && CanMove();
    }
  }

  /** A client of the class: set up, take 30, take 90, heal 15, heal 100%;
      then a light attack and a heavy one (a no-op), a blocked forward move,
      the end of the attack, an accepted sideways move, and a combo after
      which a sideways move is still accepted. */
  method DamageHealAndAttackScenario() {
    var c := new Character;
    c.SetupPlayerInputComponent();
    assert c.currentHealth == 100.0;
    c.TakeDamage(30.0);
    assert c.currentHealth == 70.0;
    c.TakeDamage(90.0);
    assert c.currentHealth == 0.0;
    c.HealAmount(15.0);
    assert c.currentHealth == 15.0;
    c.HealPercent(1.0);
    assert c.currentHealth == 100.0;

    c.AttackLight();
    c.AttackHeavy();
    assert c.attackType == CharacterStatus.LightAttack && c.isAttacking;
    var moved := c.MoveForward(true, 1.0);
    assert !moved;
    c.EndAttack();
    moved := c.MoveRight(true, 1.0);
    assert moved;
    c.AttackCombo();
    moved := c.MoveRight(true, 1.0);
    assert moved && c.attackType == CharacterStatus.ComboAttack;
  }
}
