# Character status and combat gating of the RPG_Roguelike character

The playable character `ARPG_RoguelikeCharacter` keeps a handful of status
fields beside its engine components: current and maximum health, current and
maximum mana, the flags `isAttacking` and `isStunned`, and an `attackType` tag
(0 light, 1 heavy, 2 combo). Four health mutators change health and clamp it
(damage floors it at 0, healing caps it at the maximum), three attack entry
points and `EndAttack` form a small attack state machine, and `CanMove`
(not attacking and not stunned) gates the two movement handlers.

The model has two modules:

- `CharacterStatus` (status.dfy) describes the state as a value: the datatype
  `Status`, one pure function per operation, the operations as data (`Op`) with
  `Run` performing a sequence of them, and lemmas about single calls and about
  whole sequences (health stays in `[0, maxHealth]` under non-negative
  arguments; maximum health, mana and the stun flag never change; an attack in
  flight is never a combo).
- `RoguelikeCharacter` (character.dfy) is the character as an object: the class
  `Character` with the source's fields, one method per operation updating those
  fields in place (each framed to the fields it writes and specified by the
  matching `CharacterStatus` function of the old state), and the movement gate
  of `MoveForward`/`MoveRight`. `DamageHealAndAttackScenario` is a client that
  walks the set-up, damage, heal and attack sequence through the class's
  contracts alone.

Behaviours kept as the code has them:

- `AttackCombo` writes tag 2 but never sets `isAttacking`, so a light or heavy
  attack can start straight after it (`ComboDoesNotBlockNextAttack`).
- Nothing after set-up sets `isStunned` (set-up clears it); no operation reads or writes mana after set-up.
- Health is initialised in `SetupPlayerInputComponent`, not in the constructor,
  and `attackType` is never initialised: the class has no model constructor,
  so a fresh `Character` has arbitrary status values, and set-up leaves
  `attackType` as it was.
- Damage has no ceiling and healing no floor: negative arguments can leave the
  range (`NegativeDamageExceedsMax`, `NegativeHealGoesBelowZero`), which is why
  the range invariant needs non-negative arguments.

Health and mana are `real`; the source's 32-bit floats and their rounding are
not modelled. `attackType` is an unbounded `int`; the source only ever writes
0, 1 or 2 to it, so its 32-bit width never matters.

## Model

| member | source | states |
|---|---|---|
| CharacterStatus.Setup | Source/RPG_Roguelike/RPG_RoguelikeCharacter.cpp:91-97 | after set-up health and mana are full at 100, health is in range, the character can move, no attack is in flight, and the attack tag is the one it had before |
| CharacterStatus.TakeDamage | Source/RPG_Roguelike/RPG_RoguelikeCharacter.cpp:174-182 | new health is max(old - amount, 0), never negative whatever the amount, no higher than max(old, 0) for a non-negative amount; nothing but health changes |
| CharacterStatus.TakeDamagePercent | Source/RPG_Roguelike/RPG_RoguelikeCharacter.cpp:184-193 | new health is max(old - percent * maxHealth, 0), never negative; nothing but health changes |
| CharacterStatus.HealAmount | Source/RPG_Roguelike/RPG_RoguelikeCharacter.cpp:195-203 | new health is min(old + amount, maxHealth), never above the maximum, not lower than min(old, maxHealth) for a non-negative amount; nothing but health changes |
| CharacterStatus.HealPercent | Source/RPG_Roguelike/RPG_RoguelikeCharacter.cpp:205-213 | new health is min(old + percent * maxHealth, maxHealth), never above the maximum; nothing but health changes |
| CharacterStatus.AttackLight | Source/RPG_Roguelike/RPG_RoguelikeCharacter.cpp:215-223 | afterwards an attack is in flight and movement is blocked; when none was, the tag is 0; when one was, nothing changes; only the tag and the flag can change |
| CharacterStatus.AttackHeavy | Source/RPG_Roguelike/RPG_RoguelikeCharacter.cpp:225-232 | afterwards an attack is in flight and movement is blocked; when none was, the tag is 1; when one was, nothing changes; only the tag and the flag can change |
| CharacterStatus.AttackCombo | Source/RPG_Roguelike/RPG_RoguelikeCharacter.cpp:234-240 | the attacking flag and movement permission stay as they were; when no attack was in flight the tag is 2, otherwise nothing changes; only the tag can change |
| CharacterStatus.EndAttack | Source/RPG_Roguelike/RPG_RoguelikeCharacter.cpp:242-245 | afterwards no attack is in flight and the character can move exactly when it is not stunned; nothing but the flag changes |
| CharacterStatus.TakeDamagePercentIsTakeDamage | Source/RPG_Roguelike/RPG_RoguelikeCharacter.cpp:174-193 | percent damage equals flat damage of percent * maxHealth |
| CharacterStatus.HealPercentIsHealAmount | Source/RPG_Roguelike/RPG_RoguelikeCharacter.cpp:195-213 | percent healing equals flat healing of percent * maxHealth |
| CharacterStatus.FullDamagePercentEmptiesHealth | Source/RPG_Roguelike/RPG_RoguelikeCharacter.cpp:184-193 | a 100% hit from any health up to the maximum leaves exactly 0 |
| CharacterStatus.FullHealPercentFillsHealth | Source/RPG_Roguelike/RPG_RoguelikeCharacter.cpp:205-213 | a 100% heal from any non-negative health leaves exactly the maximum |
| CharacterStatus.NegativeHealGoesBelowZero | Source/RPG_Roguelike/RPG_RoguelikeCharacter.cpp:195-203 | healing has no floor: healing -150 at full health 100 leaves -50 |
| CharacterStatus.NegativeDamageExceedsMax | Source/RPG_Roguelike/RPG_RoguelikeCharacter.cpp:174-182 | damage has no ceiling: damage of -50 at full health 100 leaves 150 |
| CharacterStatus.HealBelowZeroExactly | Source/RPG_Roguelike/RPG_RoguelikeCharacter.cpp:195-203 | in every state, healing leaves health below zero exactly when old + amount is below zero or the maximum is |
| CharacterStatus.DamageAboveMaxExactly | Source/RPG_Roguelike/RPG_RoguelikeCharacter.cpp:174-182 | in every state, damage leaves health above the maximum exactly when old - amount is above it or the maximum is below zero |
| CharacterStatus.SecondAttackChangesNothing | Source/RPG_Roguelike/RPG_RoguelikeCharacter.cpp:215-240 | in every state, after a light or heavy attack has started, a further light, heavy or combo attack changes nothing |
| CharacterStatus.LightThenHeavyKeepsLight | Source/RPG_Roguelike/RPG_RoguelikeCharacter.cpp:215-232 | from no attack in flight, a light attack followed by a heavy one equals the light attack alone: tag 0, attacking |
| CharacterStatus.ComboDoesNotBlockNextAttack | Source/RPG_Roguelike/RPG_RoguelikeCharacter.cpp:215-240 | from no attack in flight, a light or heavy attack straight after a combo starts and overwrites the combo tag |
| CharacterStatus.RunPreservesFixedFields | Source/RPG_Roguelike/RPG_RoguelikeCharacter.cpp:174-245 | no sequence of operations changes maximum health, current or maximum mana, or the stun flag |
| CharacterStatus.ApplyKeepsHealthInRange | Source/RPG_Roguelike/RPG_RoguelikeCharacter.cpp:174-213 | one operation with a non-negative argument keeps health within [0, maxHealth] |
| CharacterStatus.RunKeepsHealthInRange | Source/RPG_Roguelike/RPG_RoguelikeCharacter.cpp:174-213 | every sequence of operations with non-negative arguments keeps health within [0, maxHealth] |
| CharacterStatus.RunKeepsAttackWellFormed | Source/RPG_Roguelike/RPG_RoguelikeCharacter.cpp:215-245 | every sequence of operations keeps an attack in flight tagged light or heavy, never combo |
| CharacterStatus.SetupThenRun | Source/RPG_Roguelike/RPG_RoguelikeCharacter.cpp:91-97 | from set-up, every sequence of operations with non-negative arguments keeps health within [0, 100], mana full, the stun flag clear and any attack in flight light or heavy |
| RoguelikeCharacter.Character.SetupPlayerInputComponent | Source/RPG_Roguelike/RPG_RoguelikeCharacter.cpp:91-97 | writes the status fields as `Setup` of the old state: health at its maximum of 100, movement allowed; the attack tag is not written |
| RoguelikeCharacter.Character.TakeDamage | Source/RPG_Roguelike/RPG_RoguelikeCharacter.cpp:174-182 | writes only health, to `TakeDamage` of the old state; health is non-negative afterwards |
| RoguelikeCharacter.Character.TakeDamagePercent | Source/RPG_Roguelike/RPG_RoguelikeCharacter.cpp:184-193 | writes only health, to `TakeDamagePercent` of the old state; health is non-negative afterwards |
| RoguelikeCharacter.Character.HealAmount | Source/RPG_Roguelike/RPG_RoguelikeCharacter.cpp:195-203 | writes only health, to `HealAmount` of the old state; health is at most the maximum afterwards |
| RoguelikeCharacter.Character.HealPercent | Source/RPG_Roguelike/RPG_RoguelikeCharacter.cpp:205-213 | writes only health, to `HealPercent` of the old state; health is at most the maximum afterwards |
| RoguelikeCharacter.Character.AttackLight | Source/RPG_Roguelike/RPG_RoguelikeCharacter.cpp:215-223 | writes only the tag and the attacking flag, to `AttackLight` of the old state; afterwards movement is blocked |
| RoguelikeCharacter.Character.AttackHeavy | Source/RPG_Roguelike/RPG_RoguelikeCharacter.cpp:225-232 | writes only the tag and the attacking flag, to `AttackHeavy` of the old state; afterwards movement is blocked |
| RoguelikeCharacter.Character.AttackCombo | Source/RPG_Roguelike/RPG_RoguelikeCharacter.cpp:234-240 | writes only the tag, to `AttackCombo` of the old state; the attacking flag is never written |
| RoguelikeCharacter.Character.EndAttack | Source/RPG_Roguelike/RPG_RoguelikeCharacter.cpp:242-245 | writes only the attacking flag, to `EndAttack` of the old state; afterwards movement is allowed exactly when not stunned |
| RoguelikeCharacter.Character.CanMove | Source/RPG_Roguelike/RPG_RoguelikeCharacter.cpp:247-250 | holds exactly when the character is neither attacking nor stunned |
| RoguelikeCharacter.Character.MoveForward | Source/RPG_Roguelike/RPG_RoguelikeCharacter.cpp:134-146 | movement input is applied exactly when there is a controller, the value is non-zero and `CanMove` holds (247-250); so never while attacking or stunned |
| RoguelikeCharacter.Character.MoveRight | Source/RPG_Roguelike/RPG_RoguelikeCharacter.cpp:148-161 | movement input is applied exactly when there is a controller, the value is non-zero and `CanMove` holds (247-250); so never while attacking or stunned |

## Left out

- Floating point: health and mana are `real`, so 32-bit float rounding in the health arithmetic (for example in `percent * maxHealth`) is not captured, and NaN and infinite values are not modelled (in the source an infinite percent times a zero maximum gives NaN health, so the range invariant does not carry over to such arguments).
- The constructor's engine configuration (capsule, movement component, camera boom and camera, turn rates): engine objects with no status logic. The model class has no constructor, which also matches the source leaving the status fields uninitialised there.
- The input bindings in `SetupPlayerInputComponent`, including its halt on a null input component (its only error path), and the touch, VR-reset and sprint handlers: engine dispatch and engine-owned fields. Only the status initialisation at the end of `SetupPlayerInputComponent` is modelled.
- `TurnAtRate`, `LookUpAtRate` and the direction computed in `MoveForward`/`MoveRight`: float rotation and vector math over engine frame time. `MoveForward` and `MoveRight` model only the gate; the controller's presence is a parameter and the call into the movement component is the returned flag.
- The game mode and the build and target rules: asset lookup and build configuration with no logic.
