# EscapingAI in Dafny

A Dafny model of the game logic of EscapingAI, a Unity game in which AI
agents patrol between waypoints and flee from threats the player drops,
while the player shoots at spawned enemies. The model covers:

- **AIControl** (`ai_control.dfy`, with the waypoint query in
  `patrol.dfy`): the patrol choice of the nearest waypoint that is not one
  of the three most recent goals; the arrival check (`HasWayToMove`); the
  threat response, a cascade of a direct flee path, a NavMesh sample around
  the flee direction, retries at half the distance and finally a random
  search; and the per-frame `Update` with its deferred re-check of the
  threat.
- **GameManager** (`game_manager.dfy`): the static game state machine, in
  which the `Damage`, `Health`, `Lives`, `GameState`, `Score` and
  `HighScore` setters call each other, with lazy defaults, clamping and a
  high score that never decreases.
- **Spawner** (`spawner.dfy`): the wave timer, the clamping of
  `objectsPerSpawn`, the distinct spawn-point draw and `GetNextIndex`.
- **Weapon** (`weapon.dfy`): the attack cooldown.
- **Shootable** (`shootable.dfy`): projectile hits, hit and kill scoring
  and loot drops.
- **NavAgentController** (`nav_agent.dfy`): the re-path throttle.
- **AbstractPlayerController** (`player_controller.dfy`): the
  change-detecting `AimAt` and `Attacking` setters and `SwitchWeapon`.
- **Projectile** (`projectile.dfy`): the range counter and wall hits.
- **ApplicationTypes** (`application_types.dfy`): `UsesRigidbody`.

Each component whose fields change in place is a class. The class's fields
are gathered into a snapshot datatype (`AIControl.State()`,
`GameManager.Snapshot()`, ...). Each operation is specified by a step
function on that snapshot, and each method is proved to perform its step.
The lemmas beside the step functions state what the code promises.
Points are triples of reals, and distances are compared through the
squared Euclidean distance.

The engine is not part of the model. NavMesh path planning and sampling,
`Vector3.normalized`, `Random.insideUnitSphere` and the random walking
speed factor are fields of an `Oracle` value passed to the agent. Other
random numbers, `Time.time` and the positions of transforms are
parameters. A C# exception is an `Outcome` of `Faulted(...)`.

The code behaves as follows:

- the random search is reached on the fifth nested call of
  `FleeFromThreat`;
- the random search draws at least 30 probes and stops only on a hit, so it
  is not bounded by 30 attempts;
- when every waypoint is among the three recent goals there is no fallback:
  the pick dereferences null;
- after arriving at a flee destination the agent picks a patrol waypoint
  in the same frame;
- a threat outside the detection radius is still recorded as the threat
  position.

## Model

| member | source | states |
|---|---|---|
| Patrol.NameBeforeIrreflexive | Assets/Scripts/Controllers/AIControl.cs:30 | no waypoint name sorts before itself |
| Patrol.NameBeforeTransitive | Assets/Scripts/Controllers/AIControl.cs:30 | the name order is transitive |
| Patrol.NameBeforeTotal | Assets/Scripts/Controllers/AIControl.cs:30 | of two different names, one sorts before the other |
| Patrol.NameOrderIsStrictWeak | Assets/Scripts/Controllers/AIControl.cs:30 | ordering by name is a strict weak order, as `OrderBy` needs |
| Patrol.CloserToIsStrictWeak | Assets/Scripts/Controllers/AIControl.cs:169 | ordering by distance to the agent is a strict weak order |
| Patrol.Insert | Assets/Scripts/Controllers/AIControl.cs:29-32 | one insertion step of the stable sort adds exactly the inserted waypoint: one element longer, the same multiset plus it |
| Patrol.OrderBy | Assets/Scripts/Controllers/AIControl.cs:29-32 | `OrderBy` returns a permutation of its input, of the same length |
| Patrol.InsertSorted | Assets/Scripts/Controllers/AIControl.cs:29-32 | inserting into a sorted list keeps it sorted |
| Patrol.OrderBySorted | Assets/Scripts/Controllers/AIControl.cs:29-32 | `OrderBy` returns a list sorted by the key |
| Patrol.FirstLeastIndex | Assets/Scripts/Controllers/AIControl.cs:169-172 | reference definition: the index of the first element with the least key |
| Patrol.FirstLeastIndexIsFirstLeast | Assets/Scripts/Controllers/AIControl.cs:169-172 | that index holds a least element, and every element before it is strictly greater |
| Patrol.OrderByHead | Assets/Scripts/Controllers/AIControl.cs:169-172 | the stable sort puts first the earliest element with the least key |
| Patrol.Where | Assets/Scripts/Controllers/AIControl.cs:167-168 | the filter keeps exactly the waypoints that are not the current goal, `prevWP` or `beforePrevWP` |
| Patrol.WhereKeepsSorted | Assets/Scripts/Controllers/AIControl.cs:167-168 | filtering a name-sorted list keeps it name-sorted |
| Patrol.NearestEligibleSpec | Assets/Scripts/Controllers/AIControl.cs:167-172 | the query yields null exactly when every waypoint is excluded; otherwise an eligible registered waypoint at minimum distance, strictly nearer than every eligible waypoint before it |
| Patrol.TieGoesToEarlierName | Assets/Scripts/Controllers/AIControl.cs:29-32 | on the name-sorted list, among waypoints at the minimum distance the earliest name wins |
| Patrol.FourWaypointsNeverExhausted | Assets/Scripts/Controllers/AIControl.cs:167-172 | with four or more distinct waypoints the query never yields null |
| AI.PickNeverRepeatsRecentGoals | Assets/Scripts/Controllers/AIControl.cs:167-174 | the new goal is none of the three recent goals, and the history rotates: `prevWP` takes the old goal, `beforePrevWP` the old `prevWP` |
| AI.PickFaultsWhenAllExcluded | Assets/Scripts/Controllers/AIControl.cs:172-176 | when every waypoint is excluded the goal becomes null and the call faults with a null reference |
| AI.PickIsNearestThenEarliestName | Assets/Scripts/Controllers/AIControl.cs:29-32 | the agent's pick is at minimum distance among eligible waypoints, with ties going to the earlier name |
| AI.PickNeverFaultsWithFourWaypoints | Assets/Scripts/Controllers/AIControl.cs:167-176 | with four or more distinct waypoints the pick completes |
| AI.PickSucceedsWith | Assets/Scripts/Controllers/AIControl.cs:167-176 | a pick with an eligible waypoint completes with a registered goal |
| AI.ThreeGoalsExcludeAll | Assets/Scripts/Controllers/AIControl.cs:168 | when the three recent goals are the three waypoints, none is eligible |
| AI.ThreeWaypointsFourthPickFaults | Assets/Scripts/Controllers/AIControl.cs:163-177 | with exactly three waypoints, the first three picks complete and the fourth faults |
| AI.PickKeepsConsistent | Assets/Scripts/Controllers/AIControl.cs:167-174 | a pick keeps the recent goals distinct and registered |
| AI.ArrivalEndsFlight | Assets/Scripts/Controllers/AIControl.cs:76-85 | on arrival the agent stops fleeing and any pending re-check is cancelled |
| AI.HasWayToMoveSetKeepsConsistent | Assets/Scripts/Controllers/AIControl.cs:64-85 | the `HasWayToMove` setter keeps the agent's invariant |
| AI.FleeDistance | Assets/Scripts/Controllers/AIControl.cs:101-141 | the search distance at every nesting depth is positive |
| AI.FleeDistanceClosedForm | Assets/Scripts/Controllers/AIControl.cs:101-141 | the search distance at nesting depth `n` is the flee radius divided by 2 to the power `n` |
| AI.FleeDistanceSmall | Assets/Scripts/Controllers/AIControl.cs:141-143 | from the fifth call on the distance is at most 0.625 |
| AI.FleeDistanceLarge | Assets/Scripts/Controllers/AIControl.cs:141-143 | in the first four calls the distance is at least 1.25 |
| AI.RandomBranchFromFifthCall | Assets/Scripts/Controllers/AIControl.cs:124-143 | the random search runs exactly from the fifth call on |
| AI.FirstHitFrom | Assets/Scripts/Controllers/AIControl.cs:128-134 | a hit at probe 29 or later means the loop exits at or before it |
| AI.RandomExitExists | Assets/Scripts/Controllers/AIControl.cs:128-134 | when some late probe hits, the loop has an exit point |
| AI.RandomExitUnique | Assets/Scripts/Controllers/AIControl.cs:128-134 | the loop's exit point is unique |
| AI.RandomSearchWithoutHitNeverEnds | Assets/Scripts/Controllers/AIControl.cs:134 | without a hit at probe 29 or later the loop condition holds after every probe, so the loop never ends |
| AI.RandomEscapeSearch | Assets/Scripts/Controllers/AIControl.cs:126-137 | the loop makes at least 30 probes, stops at the first hit from the 30th on, and ends with a NavMesh hit |
| AI.EscapeFrom | Assets/Scripts/Controllers/AIControl.cs:105-147 | the cascade ends at depth at most 4, and only the fifth call runs the random search |
| AI.EscapeFromRandom | Assets/Scripts/Controllers/AIControl.cs:124-137 | when the path and the sample fail at a small distance, the escape ends with the random search's hit |
| AI.EscapeFromRetry | Assets/Scripts/Controllers/AIControl.cs:139-141 | when the path and the sample fail at a large distance, the escape is the one at half the distance |
| AI.EscapeDepthBounded | Assets/Scripts/Controllers/AIControl.cs:139-146 | starting from the flee radius, the escape is settled within five calls |
| AI.DirectPathNeedsNoRecheck | Assets/Scripts/Controllers/AIControl.cs:113-155 | a direct path makes the agent flee to the path's end, with no re-check scheduled |
| AI.SampleFallbackNeedsNoRecheck | Assets/Scripts/Controllers/AIControl.cs:118-155 | a successful sample makes the agent flee to the sampled point, with no re-check scheduled |
| AI.FailedFirstAttemptSchedulesRecheck | Assets/Scripts/Controllers/AIControl.cs:139-146 | when the first call recurses, a re-check is scheduled at the current time |
| AI.FleeStepKeepsConsistent | Assets/Scripts/Controllers/AIControl.cs:105-156 | fleeing keeps the agent's invariant |
| AI.DistantThreatOnlyRecorded | Assets/Scripts/Controllers/AIControl.cs:94-96 | a threat at planar distance 10 or more only overwrites the threat position |
| AI.NearThreatFlees | Assets/Scripts/Controllers/AIControl.cs:94-102 | a threat within the detection radius leaves the agent fleeing at speed 10 |
| AI.ThreatStepKeepsConsistent | Assets/Scripts/Controllers/AIControl.cs:92-103 | threat handling keeps the agent's invariant |
| AI.RecheckRunsOnceAndClears | Assets/Scripts/Controllers/AIControl.cs:47-51 | a due re-check completes, clears `randomFleeTime` to -1 and leaves the patrol goals alone |
| AI.UpdatePatrolsWhenStopped | Assets/Scripts/Controllers/AIControl.cs:45-55 | with no re-check due and no way to move, the frame picks a patrol destination |
| AI.ArrivalWhileFleeingResumesPatrol | Assets/Scripts/Controllers/AIControl.cs:45-85 | arriving at a flee destination ends the flight and picks a patrol waypoint in the same frame |
| AI.UpdateKeepsConsistent | Assets/Scripts/Controllers/AIControl.cs:43-56 | a frame keeps the agent's invariant |
| AI.AIControl.constructor | Assets/Scripts/Controllers/AIControl.cs:27-35 | the waypoints are the tagged ones ordered by name; the start speed is recorded |
| AI.AIControl.SetWalking | Assets/Scripts/Controllers/AIControl.cs:190-194 | walking speed is the start speed times the speed factor, angular speed 120 |
| AI.AIControl.SetHasWayToMove | Assets/Scripts/Controllers/AIControl.cs:59-88 | the setter performs `HasWayToMoveSet` |
| AI.AIControl.PickDestination | Assets/Scripts/Controllers/AIControl.cs:163-177 | the method performs `PickStep` |
| AI.AIControl.FleeFromThreat | Assets/Scripts/Controllers/AIControl.cs:105-156 | the method performs `FleeStep` |
| AI.AIControl.DetectThreatAndFlee | Assets/Scripts/Controllers/AIControl.cs:92-103 | the method performs `ThreatStep` |
| AI.AIControl.Update | Assets/Scripts/Controllers/AIControl.cs:43-56 | the method performs `UpdateStep` |
| Game.StateSetEffect | Assets/Scripts/Controllers/GameManager.cs:40-66 | setting the current state does nothing; Running sets time scale 1, Paused and Over set 0 |
| Game.LivesLazyDefault | Assets/Scripts/Controllers/GameManager.cs:136-141 | reading unset lives stores and returns 1 |
| Game.NoLivesEndsGame | Assets/Scripts/Controllers/GameManager.cs:144-153 | setting lives to 0 or fewer ends the game |
| Game.LivesDecrementEffect | Assets/Scripts/Controllers/GameManager.cs:134-155 | losing a life counts down from the lives, or from 1 when unset |
| Game.HealthLazyDefault | Assets/Scripts/Controllers/GameManager.cs:104-109 | reading unset health stores and returns 100 |
| Game.HealthSetWithoutValueFaults | Assets/Scripts/Controllers/GameManager.cs:112 | setting health while it is unset faults reading `.Value` and changes nothing |
| Game.DamageClampedAtZero | Assets/Scripts/Controllers/GameManager.cs:79-81 | negative damage is stored as 0 |
| Game.DamageBelowMaxStored | Assets/Scripts/Controllers/GameManager.cs:79-83 | damage below 100 is stored and nothing else changes |
| Game.DamageAtMaxCostsALife | Assets/Scripts/Controllers/GameManager.cs:83-91 | damage of 100 or more costs a life; unless the game is over, damage returns to 0 and health to 100 |
| Game.HealthCappedAtMax | Assets/Scripts/Controllers/GameManager.cs:112-114 | positive health is stored capped at 100 |
| Game.HealthDepletedCostsALife | Assets/Scripts/Controllers/GameManager.cs:114-124 | health at 0 or below costs a life; unless the game is over, health returns to 100 and damage to 0 |
| Game.DamageSetKeepsValid | Assets/Scripts/Controllers/GameManager.cs:74-97 | setting damage keeps damage non-negative and health at most 100, and leaves score and high score alone |
| Game.HealthSetKeepsValid | Assets/Scripts/Controllers/GameManager.cs:102-130 | setting health keeps the same invariant |
| Game.HighScoreSetIsMaximum | Assets/Scripts/Controllers/GameManager.cs:188-198 | the high score becomes the maximum of its old value (0 when unset) and the offer |
| Game.ScoreSetRaisesHighScore | Assets/Scripts/Controllers/GameManager.cs:163-168 | a score change is stored and pushed to the high score, which never decreases |
| Game.ResetEffect | Assets/Scripts/Controllers/GameManager.cs:304-311 | a reset zeroes damage and score, unsets health and lives, sets NotStarted and keeps the high score |
| Game.ResetThenLethalDamageEndsGame | Assets/Scripts/Controllers/GameManager.cs:304-311 | after a reset, one lethal damage ends the game |
| Game.HighScoreNeverDecreases | Assets/Scripts/Controllers/GameManager.cs:35-199 | no accessor and no reset lowers the cached high score |
| Game.GameManager.constructor | Assets/Scripts/Controllers/GameManager.cs:70-200 | the static fields start at their defaults |
| Game.GameManager.SetGameState | Assets/Scripts/Controllers/GameManager.cs:35-69 | the setter performs `StateSet` |
| Game.GameManager.GetLives | Assets/Scripts/Controllers/GameManager.cs:136-141 | the getter performs `LivesRead` |
| Game.GameManager.SetLives | Assets/Scripts/Controllers/GameManager.cs:142-154 | the setter performs `LivesSet` |
| Game.GameManager.DecrementLives | Assets/Scripts/Controllers/GameManager.cs:85 | `Lives--` performs `LivesDecrement` |
| Game.GameManager.SetDamage | Assets/Scripts/Controllers/GameManager.cs:77-96 | the setter performs `DamageSet` and keeps the invariant |
| Game.GameManager.GetHealth | Assets/Scripts/Controllers/GameManager.cs:104-109 | the getter performs `HealthRead` |
| Game.GameManager.SetHealth | Assets/Scripts/Controllers/GameManager.cs:110-129 | the setter performs `HealthSet` and keeps the invariant |
| Game.GameManager.SetScore | Assets/Scripts/Controllers/GameManager.cs:163-172 | the setter performs `ScoreSet` |
| Game.GameManager.GetHighScore | Assets/Scripts/Controllers/GameManager.cs:180-187 | the getter performs `HighScoreRead` |
| Game.GameManager.SetHighScore | Assets/Scripts/Controllers/GameManager.cs:188-198 | the setter performs `HighScoreSet` |
| Game.GameManager.ResetMetrics | Assets/Scripts/Controllers/GameManager.cs:304-311 | the method performs `Reset` |
| Spawning.RandomRange | Assets/Scripts/Controllers/Spawner.cs:73 | an integer draw lies in [min, max), or is min when max ≤ min |
| Spawning.RandomRangeInDrawRange | Assets/Scripts/Controllers/Spawner.cs:73 | a spawn-point draw never yields the last spawn point |
| Spawning.DrawRangeSize | Assets/Scripts/Controllers/Spawner.cs:73 | a spawn-point draw can take at least one value |
| Spawning.ClampPerSpawnEffect | Assets/Scripts/Controllers/Spawner.cs:55-60 | the clamp never raises the count; one above the spawn points ends below them (the spawn points less one, less the total when that still exceeds the total); one within the spawn points but above the total has the total subtracted; one within both is kept |
| Spawning.ClampAdmitsOneTooMany | Assets/Scripts/Controllers/Spawner.cs:55-73 | a count equal to the number of spawn points is kept, one more than the distinct draws available |
| Spawning.Below | Assets/Scripts/Controllers/Spawner.cs:73 | the set of indices below m has exactly m elements |
| Spawning.DistinctDrawsBound | Assets/Scripts/Controllers/Spawner.cs:68-80 | pairwise distinct spawn-point draws number at most the size of the draw range |
| Spawning.NextIndexWithoutReferences | Assets/Scripts/Controllers/Spawner.cs:105-108 | with no references the next index is 0 and the stored index is unchanged |
| Spawning.RandomIndexInRange | Assets/Scripts/Controllers/Spawner.cs:109-112 | in random mode the index is a valid reference other than the last |
| Spawning.SequentialIndexCounts | Assets/Scripts/Controllers/Spawner.cs:115-116 | from the unset index, the sequential calls yield 0, 1, ..., `reference.Length` |
| Spawning.SequentialIndexRepeats | Assets/Scripts/Controllers/Spawner.cs:115-116 | the sequence repeats with period `reference.Length` + 1 |
| Spawning.SequentialIndexOverruns | Assets/Scripts/Controllers/Spawner.cs:83-116 | one call in every cycle returns `reference.Length`, outside the reference array |
| Spawning.WaveSize | Assets/Scripts/Controllers/Spawner.cs:62-66 | a wave never takes the on-screen count above its maximum, and spawns at most the per-spawn count |
| Spawning.DrawSpawnPoint | Assets/Scripts/Controllers/Spawner.cs:68-80 | the inner loop returns a drawn spawn point not used before in the wave, or reports the draws exhausted |
| Spawning.FullWaveNeverCompletes | Assets/Scripts/Controllers/Spawner.cs:55-80 | with as many objects per spawn as spawn points, the distinct draws cannot fill the wave |
| Spawning.Spawner.constructor | Assets/Scripts/Controllers/Spawner.cs:31-33 | counters and timers start at 0, the index unset |
| Spawning.Spawner.GetNextIndex | Assets/Scripts/Controllers/Spawner.cs:103-118 | the method performs `NextIndex` |
| Spawning.Spawner.SpawnOne | Assets/Scripts/Controllers/Spawner.cs:66-95 | one object gets the first draw from `k` not yet used in the wave as its spawn point and a valid reference (in random mode from the next draw), or faults; random mode leaves the stored index alone, sequential mode advances it once per reference taken, and an index equal to `reference.Length` is the out-of-range fault; facing a missing target faults with a null reference after the object is out |
| Spawning.Spawner.SpawnStep | Assets/Scripts/Controllers/Spawner.cs:64-96 | one loop iteration adds one object when there is room on screen and none otherwise, keeps the wave valid and the stored index in step with the references; a fault leaves the wave as it was with the faulting object counted |
| Spawning.Spawner.SpawnWave | Assets/Scripts/Controllers/Spawner.cs:62-97 | the wave's spawn points are pairwise distinct and drawn from the range; the on-screen count grows by the wave; a completed wave has `WaveSize` objects; in sequential mode object `j` gets the stored index after `j + 1` calls of GetNextIndex, the final index is the one after every call made, a fault leaves the index at `reference.Length`, and a completed wave never reached that index; random mode and an empty reference array leave the index unchanged; with `spawnHeadedToTarget` set and no target no object of the wave completes, and only then can a wave end with a null-reference fault |
| Spawning.Spawner.Update | Assets/Scripts/Controllers/Spawner.cs:45-100 | a wave runs only when the timer passes the next spawn time, then the timer resets; no wave once the total is reached; the spawned count never decreases; the stored index and the references follow successive GetNextIndex calls as in `SpawnWave` |
| Weapons.AttackInterval | Assets/Scripts/Weapon/Weapon.cs:39-45 | with a speed the interval is its reciprocal; without one it is 0 |
| Weapons.CanAttackIffIntervalPassed | Assets/Scripts/Weapon/Weapon.cs:50-69 | a weapon with a speed can attack exactly when an interval has passed since the last attack; without one it always can |
| Weapons.SuccessfulAttacks | Assets/Scripts/Weapon/Weapon.cs:20-27 | the successful attacks are some of the calls |
| Weapons.AttacksAreSpaced | Assets/Scripts/Weapon/Weapon.cs:20-63 | successful attacks of an automatic weapon are at least one interval apart |
| Weapons.ManualWeaponAlwaysAttacks | Assets/Scripts/Weapon/Weapon.cs:20-63 | a weapon without a speed attacks on every call |
| Weapons.Weapon.constructor | Assets/Scripts/Weapon/Weapon.cs:7-11 | a weapon starts with its name and speed and a last attack time of 0 |
| Weapons.Weapon.Awake | Assets/Scripts/Weapon/Weapon.cs:13-17 | an empty name becomes the game object's name |
| Weapons.Weapon.Attack | Assets/Scripts/Weapon/Weapon.cs:20-27 | an allowed attack calls `OnAttacking` with the previous time and records now; otherwise nothing changes |
| Shooting.DropsOnlyWithLoot | Assets/Scripts/GameObjectTools/Shootable.cs:102-109 | loot drops only with a lootable item, a non-zero possibility and a roll below it, and always then |
| Shooting.HitScoreEffect | Assets/Scripts/GameObjectTools/Shootable.cs:116-139 | a surviving object scores its hit points when positive and never less than 0; a dying one scores its kill points |
| Shooting.Shootable.constructor | Assets/Scripts/GameObjectTools/Shootable.cs:11-86 | an object starts with no damage |
| Shooting.Shootable.SetDamage | Assets/Scripts/GameObjectTools/Shootable.cs:73-85 | the new damage is stored and `DamageChanged` is raised on every set |
| Shooting.Shootable.DropItem | Assets/Scripts/GameObjectTools/Shootable.cs:102-109 | the drop decision is `Drops` |
| Shooting.Shootable.Die | Assets/Scripts/GameObjectTools/Shootable.cs:89-100 | the kill points are added to the score and the object is released |
| Shooting.Shootable.CheckIsHitByProjectile | Assets/Scripts/GameObjectTools/Shootable.cs:111-140 | a non-projectile changes nothing; a projectile adds its damage factor and is released, and the game metrics become exactly those of the score setter given the old score plus the hit or kill points, so the high score never drops |
| Navigation.CheckEffect | Assets/Scripts/Controllers/NavAgentController.cs:55-83 | a check does nothing without a target, before the interval, or for a target that moved less than `updateDistance`; otherwise the agent heads for the target |
| Navigation.TargetSetEffect | Assets/Scripts/Controllers/NavAgentController.cs:43-83 | setting a target re-paths at once; clearing it keeps the agent in place for good |
| Navigation.RepathTimes | Assets/Scripts/Controllers/NavAgentController.cs:55-67 | there are no more re-paths than checks |
| Navigation.RepathsAreSpaced | Assets/Scripts/Controllers/NavAgentController.cs:60-82 | however the target moves, re-paths by successive checks are at least `updateInterval` apart |
| Navigation.StillTargetNotRepathed | Assets/Scripts/Controllers/NavAgentController.cs:63-64 | a target that does not move is never re-pathed again |
| Navigation.NavAgentController.constructor | Assets/Scripts/Controllers/NavAgentController.cs:14-22 | no target, last update at 0, target position at zero |
| Navigation.NavAgentController.UpdateDestination | Assets/Scripts/Controllers/NavAgentController.cs:69-83 | the method performs `Updated` |
| Navigation.NavAgentController.SetTarget | Assets/Scripts/Controllers/NavAgentController.cs:43-51 | the setter performs `TargetSet` |
| Navigation.NavAgentController.CheckAndUpdateDestination | Assets/Scripts/Controllers/NavAgentController.cs:55-67 | the method performs `Checked` |
| Player.FindByName | Assets/Scripts/Controllers/Player/AbstractPlayerController.cs:95 | the lookup finds a weapon with the name, or null exactly when none has it |
| Player.AimAtSetEffect | Assets/Scripts/Controllers/Player/AbstractPlayerController.cs:39-53 | an equal value does nothing; a new one is stored and calls `OnAimedAt` or `OnAimToIdle` once |
| Player.AttackingSetEffect | Assets/Scripts/Controllers/Player/AbstractPlayerController.cs:58-73 | an equal value does nothing; a change calls `OnAttacking` or `OnAttackStopped` once |
| Player.SwitchToCurrentWeaponIsNoOp | Assets/Scripts/Controllers/Player/AbstractPlayerController.cs:92-93 | switching to the weapon already held changes nothing |
| Player.SwitchWeaponEffect | Assets/Scripts/Controllers/Player/AbstractPlayerController.cs:90-119 | after a switch the weapon has the requested name and `Attacking` is unchanged; an attacking player stops and restarts around the swap |
| Player.SwitchInstantiatesFromEmptyList | Assets/Scripts/Controllers/Player/AbstractPlayerController.cs:95-115 | with the list empty, a switch instantiates a fresh weapon |
| Player.SwitchesKeepListEmpty | Assets/Scripts/Controllers/Player/AbstractPlayerController.cs:30-117 | over any switches the weapon list stays empty, and the weapon held is the last one asked for |
| Player.PlayerController.constructor | Assets/Scripts/Controllers/Player/AbstractPlayerController.cs:25-74 | nothing aimed at, not attacking, an empty weapon list |
| Player.PlayerController.SetAimAt | Assets/Scripts/Controllers/Player/AbstractPlayerController.cs:39-53 | the setter performs `AimAtSet` |
| Player.PlayerController.SetAttacking | Assets/Scripts/Controllers/Player/AbstractPlayerController.cs:58-73 | the setter performs `AttackingSet` |
| Player.PlayerController.SwitchWeapon | Assets/Scripts/Controllers/Player/AbstractPlayerController.cs:90-119 | the method performs `SwitchWeaponStep` |
| Projectiles.DistanceNeverShrinks | Assets/Scripts/Weapon/Projectile.cs:49-56 | with a non-negative speed the distance flown never shrinks |
| Projectiles.ReleasesOver | Assets/Scripts/Weapon/Projectile.cs:49-56 | one release decision per physics step |
| Projectiles.ReleaseIsPermanent | Assets/Scripts/Weapon/Projectile.cs:52-55 | once a step releases the projectile, every later step would too |
| Projectiles.ReleasedStaysReleased | Assets/Scripts/Weapon/Projectile.cs:52-55 | a distance beyond the range stays beyond it |
| Projectiles.Projectile.constructor | Assets/Scripts/Weapon/Projectile.cs:7-14 | a projectile starts with no distance flown |
| Projectiles.Projectile.OnEnable | Assets/Scripts/Weapon/Projectile.cs:42-47 | the distance restarts at 0 |
| Projectiles.Projectile.FixedUpdate | Assets/Scripts/Weapon/Projectile.cs:49-56 | the step adds speed times the step time and releases exactly when the distance exceeds the range |
| Projectiles.Projectile.OnCollisionEnter | Assets/Scripts/Weapon/Projectile.cs:58-72 | only a wall releases the projectile |
| ApplicationTypes.Value | Assets/Scripts/Controllers/Player/AbstractPlayerController.cs:6-12 | the underlying values are multiples of 10 from 0 to 30 |
| ApplicationTypes.UsesRigidbodyByValue | Assets/Scripts/Extensions/ApplicationTypes.cs:7-11 | `UsesRigidbody` holds exactly for the members valued 20 or more (SetVelocity, AddForce), and the values are distinct |
| ApplicationTypes.ExactlyTwoUseRigidbody | Assets/Scripts/Extensions/ApplicationTypes.cs:7-11 | exactly two of the four members use the rigidbody: SetVelocity and AddForce |

## Left out

- NavMesh path planning, sampling, `SetDestination` and `ResetPath` are engine calls; they are oracle fields or recorded destinations.
- `Quaternion.Slerp`/`LookRotation` turning, `transform.Translate`, `LookAt`, animator triggers and the random walk offset are visual only and are not modelled. The one effect of the spawner's `LookAt` call that is modelled is its null dereference: with `spawnHeadedToTarget` set and no `aITarget`, each spawned object ends its wave with `Faulted(NullReference)` (`Spawning.Spawner.headedWithoutTarget`).
- Spawning.Spawner.SpawnOne: handing `aITarget` to the spawned object's NavAgentController is not modelled; the spawned objects are values.
- VFX, audio, `Instantiate` placement, `weaponPosition` and object-pool bookkeeping are engine plumbing; a release to the pool is a returned flag or a `released` field.
- Events and their subscribers are not modelled, except `DamageChanged` of a shootable object, whose raises are logged.
- Scene loading, level restarts and coroutines of the game manager are engine plumbing.
- `PlayerPrefs` is storage outside the game: the stored high score is the `persisted` parameter of `Game.HighScoreRead`, and the write on a new high score is not modelled.
- The `DistanceTo` and `With` extension methods are not part of this model; they are taken as the Euclidean distance and a replacement of the y coordinate.
- Floats are reals, so rounding is not modelled, and `Mathf.Approximately` is exact equality.
- Player.AimAtSet: Unity's `Vector3` `==` and `!=` treat vectors closer than 1e-5 as equal; the model compares aim points exactly, so an aim point that moves by less than that calls `OnAimedAt` in the model but nothing in the game.
- Patrol.NameBefore: names are compared by character code, whereas `OrderBy` on strings uses the current culture's comparison.
- AI.AIControl.FleeFromThreat: requires that the escape cascade ends (`EscapeEnds`), because the random search loops for ever when no late probe hits (`AI.RandomSearchWithoutHitNeverEnds` states that case).
- AI.AIControl.DetectThreatAndFlee and AI.AIControl.Update: require `ThreatHandlingEnds` and `UpdateEnds` for the same reason.
- AI.AIControl.constructor: the random start delay `stopTime` is not modelled, because no code path reads it.
- Spawning.Spawner.SpawnWave: random draws are a finite sequence, and a wave whose draws run out ends with `Faulted(DrawsExhausted)`, where the game would keep drawing and, for a full wave, hang.
- Spawning.Spawner: a missing `reference` array is treated like an empty one, and the spawn delay drawn between `minSpawnTime` and `maxSpawnTime` is a parameter.
- Spawning.RandomRange: when `max < min` the engine's result is not documented; the model returns `min`.
- Shooting.Shootable.CheckIsHitByProjectile: the contact point and the log warning for a projectile without a Projectile component are not modelled.
- Player.PlayerController.SwitchWeapon: a weapon is identified by its instance id and its `name` field; the clone's game object name and an empty `name` field filled in by the clone's own Awake are not modelled.
- The movement, shielding and reset members of AbstractPlayerController are abstract in the source and have no behaviour to model.
- Projectiles.Projectile: `range` is set by the shooting weapon, which is not part of this model; it is a constructor parameter.
