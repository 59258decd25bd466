/**
 * The game-wide metrics (GameManager): the game state and time scale,
 * damage, health, lives, score and high score. In the source these are
 * static properties whose setters call one another: `Damage` and `Health`
 * cost a life when they reach their limit, and `Lives` ends the game when it
 * runs out.
 *
 * The fields live in the class `GameManager`; `Snapshot()` gathers them in a
 * `Metrics` value. Every accessor is specified by a function on `Metrics`,
 * the lemmas state what the source promises about those functions, and each
 * method is proved to perform its function. Floats are reals and
 * `Mathf.Approximately` is equality.
 */
module Game {
  import opened Wrappers

  const StartingLives: int := 1
  const MaxDamage: real := 100.0
  const MaxHealth: real := 100.0

  datatype GameState = NotStarted | Running | Paused | Over

  /** The static fields, with `None` for a nullable field that holds null. */
  datatype Metrics = Metrics(
    state: GameState,
    timeScale: real,          // Time.timeScale
    damage: real,
    health: Option<real>,
    lives: Option<int>,
    score: int,
    highScore: Option<int>)

  /** The values the fields hold before any accessor runs. */
  const Initial: Metrics := Metrics(NotStarted, 1.0, 0.0, None, None, 0, None)

  /** Damage is never negative and health never above its maximum. */
  predicate MetricsValid(m: Metrics) {
    m.damage >= 0.0 && (m.health.Some? ==> m.health.value <= MaxHealth)
  }

  // ---------------------------------------------------------------------
  // GameState
  // ---------------------------------------------------------------------

  /** The GameState setter: only a change has an effect; Running resumes
      time, Paused and Over stop it, NotStarted leaves it. */
  function StateSet(m: Metrics, value: GameState): Metrics {
    if m.state == value then m
    else m.(state := value,
            timeScale := match value
              case Running => 1.0
              case Paused => 0.0
              case Over => 0.0
              case NotStarted => m.timeScale)
  }

  lemma StateSetEffect(m: Metrics, value: GameState)
    ensures var r := StateSet(m, value);
            && r.state == value
            && (m.state == value ==> r == m)
            && (m.state != value ==>
                  && (value == Running ==> r.timeScale == 1.0)
                  && (value == Paused || value == Over ==> r.timeScale == 0.0)
                  && (value == NotStarted ==> r.timeScale == m.timeScale))
            && r.(state := m.state, timeScale := m.timeScale) == m
  {
  }

  // ---------------------------------------------------------------------
  // Lives
  // ---------------------------------------------------------------------

  /** The Lives getter: an unset value becomes the starting lives. */
  function LivesRead(m: Metrics): (Metrics, int) {
    if m.lives.None? then (m.(lives := Some(StartingLives)), StartingLives)
    else (m, m.lives.value)
  }

  /** The Lives setter: a change is stored, and no lives left ends the game. */
  function LivesSet(m: Metrics, value: int): Metrics {
    if m.lives == Some(value) then m
    else
      var m1 := m.(lives := Some(value));
      if value <= 0 then StateSet(m1, Over) else m1
  }

  /** `Lives--`: read (with the lazy default), then set one less. */
  function LivesDecrement(m: Metrics): Metrics {
    var (m1, lives) := LivesRead(m);
    LivesSet(m1, lives - 1)
  }

  lemma LivesLazyDefault(m: Metrics)
    ensures var (r, v) := LivesRead(m);
            && (m.lives.None? ==> v == StartingLives && r == m.(lives := Some(StartingLives)))
            && (m.lives.Some? ==> v == m.lives.value && r == m)
  {
  }

  /** Setting lives to zero or fewer ends the game and stops time. */
  lemma NoLivesEndsGame(m: Metrics, value: int)
    requires value <= 0 && m.lives != Some(value)
    ensures var r := LivesSet(m, value);
            r.lives == Some(value) && r.state == Over && r.timeScale == (if m.state == Over then m.timeScale else 0.0)
  {
  }

  /** Losing a life counts down from what the lives were, or from the
      starting lives when they were never read; only the lives and, when
      they run out, the state and time scale change. */
  lemma LivesDecrementEffect(m: Metrics)
    ensures var r := LivesDecrement(m);
            && r.lives == Some(m.lives.GetOr(StartingLives) - 1)
            && (m.lives.GetOr(StartingLives) - 1 <= 0 ==> r.state == Over)
            && (m.lives.GetOr(StartingLives) - 1 > 0 ==> r.state == m.state && r.timeScale == m.timeScale)
            && r.(lives := m.lives, state := m.state, timeScale := m.timeScale) == m
  {
  }

  // ---------------------------------------------------------------------
  // Damage and Health
  // ---------------------------------------------------------------------

  /** The Damage setter. A new value is stored clamped at 0; reaching the
      maximum costs a life and, unless that ends the game, resets damage to 0
      and restores health through its setter (which faults when health was
      never read). */
  function DamageSet(m: Metrics, value: real): (Metrics, Outcome)
    decreases if value > 0.0 then 2 else 0
  {
    if m.damage == value then (m, Completed)
    else
      var m1 := m.(damage := if value > 0.0 then value else 0.0);
      if MaxDamage <= m1.damage then
        var m2 := LivesDecrement(m1);
        if m2.state != Over then HealthSet(m2.(damage := 0.0), MaxHealth)
        else (m2, Completed)
      else (m1, Completed)
  }

  /** The Health setter. Reading the old value faults when health was never
      read. A new value is stored capped at the maximum; reaching 0 costs a
      life and, unless that ends the game, restores health and resets damage
      through its setter. */
  function HealthSet(m: Metrics, value: real): (Metrics, Outcome)
    decreases if value > 0.0 then 1 else 3
  {
    if m.health.None? then (m, Faulted(NullableWithoutValue))
    else if m.health.value == value then (m, Completed)
    else
      var h := if value < MaxHealth then value else MaxHealth;
      var m1 := m.(health := Some(h));
      if h <= 0.0 then
        var m2 := LivesDecrement(m1);
        if m2.state != Over then DamageSet(m2.(health := Some(MaxHealth)), 0.0)
        else (m2, Completed)
      else (m1, Completed)
  }

  /** The Health getter: an unset value becomes the maximum. */
  function HealthRead(m: Metrics): (Metrics, real) {
    if m.health.None? then (m.(health := Some(MaxHealth)), MaxHealth)
    else (m, m.health.value)
  }

  lemma HealthLazyDefault(m: Metrics)
    ensures var (r, v) := HealthRead(m);
            && (m.health.None? ==> v == MaxHealth && r == m.(health := Some(MaxHealth)))
            && (m.health.Some? ==> v == m.health.value && r == m)
  {
  }

  /** Setting health before it was ever read faults and changes nothing. */
  lemma HealthSetWithoutValueFaults(m: Metrics, value: real)
    requires m.health.None?
    ensures HealthSet(m, value) == (m, Faulted(NullableWithoutValue))
  {
  }

  /** Negative damage is stored as 0. */
  lemma DamageClampedAtZero(m: Metrics, value: real)
    requires value <= 0.0 && m.damage != value
    ensures DamageSet(m, value) == (m.(damage := 0.0), Completed)
  {
  }

  /** Damage below the maximum is stored as given (clamped at 0); nothing else changes. */
  lemma DamageBelowMaxStored(m: Metrics, value: real)
    requires value < MaxDamage && m.damage != value
    ensures DamageSet(m, value) == (m.(damage := if value > 0.0 then value else 0.0), Completed)
  {
  }

  /** Damage reaching the maximum costs a life. If the game goes on, damage
      is back at 0 and health at its maximum (or the health setter faults
      when health was never read); if the game is over, damage stays. */
  lemma DamageAtMaxCostsALife(m: Metrics, value: real)
    requires value >= MaxDamage && m.damage != value
    ensures var (r, outcome) := DamageSet(m, value);
            var lost := LivesDecrement(m.(damage := value));
            && r.lives == Some(m.lives.GetOr(StartingLives) - 1)
            && r.score == m.score && r.highScore == m.highScore
            && (lost.state == Over ==> r == lost && r.damage == value && outcome == Completed)
            && (lost.state != Over && m.health.None? ==> outcome == Faulted(NullableWithoutValue) && r.damage == 0.0)
            && (lost.state != Over && m.health.Some? ==>
                  r.damage == 0.0 && r.health == Some(MaxHealth) && outcome == Completed && r.state == m.state)
  {
    LivesDecrementEffect(m.(damage := value));
  }

  /** Health above the maximum is stored as the maximum; nothing else changes. */
  lemma HealthCappedAtMax(m: Metrics, value: real)
    requires m.health.Some? && m.health.value != value && value > 0.0
    ensures HealthSet(m, value) == (m.(health := Some(if value < MaxHealth then value else MaxHealth)), Completed)
  {
  }

  /** Health at 0 or below costs a life. If the game goes on, health is back
      at its maximum and damage at 0; if the game is over, health stays. */
  lemma HealthDepletedCostsALife(m: Metrics, value: real)
    requires m.health.Some? && m.health.value != value && value <= 0.0
    ensures var (r, outcome) := HealthSet(m, value);
            var lost := LivesDecrement(m.(health := Some(value)));
            && outcome == Completed
            && r.lives == Some(m.lives.GetOr(StartingLives) - 1)
            && r.score == m.score && r.highScore == m.highScore
            && (lost.state == Over ==> r == lost && r.health == Some(value))
            && (lost.state != Over ==> r.health == Some(MaxHealth) && r.damage == 0.0 && r.state == m.state)
  {
    LivesDecrementEffect(m.(health := Some(value)));
  }

  /** Damage and health changes keep the invariant, and never touch score
      or high score. */
  lemma {:induction false} DamageSetKeepsValid(m: Metrics, value: real)
    requires MetricsValid(m)
    ensures var r := DamageSet(m, value).0;
            MetricsValid(r) && r.score == m.score && r.highScore == m.highScore
    decreases if value > 0.0 then 2 else 0
  {
    if m.damage != value {
      var m1 := m.(damage := if value > 0.0 then value else 0.0);
      if MaxDamage <= m1.damage {
        var m2 := LivesDecrement(m1);
        LivesDecrementEffect(m1);
        if m2.state != Over {
          HealthSetKeepsValid(m2.(damage := 0.0), MaxHealth);
        }
      }
    }
  }

  lemma {:induction false} HealthSetKeepsValid(m: Metrics, value: real)
    requires MetricsValid(m)
    ensures var r := HealthSet(m, value).0;
            MetricsValid(r) && r.score == m.score && r.highScore == m.highScore
    decreases if value > 0.0 then 1 else 3
  {
    if m.health.Some? && m.health.value != value {
      var h := if value < MaxHealth then value else MaxHealth;
      var m1 := m.(health := Some(h));
      if h <= 0.0 {
        var m2 := LivesDecrement(m1);
        LivesDecrementEffect(m1);
        if m2.state != Over {
          DamageSetKeepsValid(m2.(health := Some(MaxHealth)), 0.0);
        }
      }
    }
  }

  // ---------------------------------------------------------------------
  // Score and HighScore
  // ---------------------------------------------------------------------

  /** The HighScore setter: only a value above the current high score (0
      when unset) is kept. */
  function HighScoreSet(m: Metrics, value: int): Metrics {
    if value > m.highScore.GetOr(0) then m.(highScore := Some(value)) else m
  }

  /** The HighScore getter: an unset value is loaded from the stored high
      score `persisted`. */
  function HighScoreRead(m: Metrics, persisted: int): (Metrics, int) {
    if m.highScore.None? then (m.(highScore := Some(persisted)), persisted)
    else (m, m.highScore.value)
  }

  /** The Score setter: a change is stored and offered as a high score. */
  function ScoreSet(m: Metrics, value: int): Metrics {
    if m.score == value then m else HighScoreSet(m.(score := value), value)
  }

  /** The high score is the maximum of its old value and every offer. */
  lemma HighScoreSetIsMaximum(m: Metrics, value: int)
    ensures var r := HighScoreSet(m, value);
            && r.highScore.GetOr(0) >= m.highScore.GetOr(0)
            && r.highScore.GetOr(0) >= value
            && (r.highScore.GetOr(0) == m.highScore.GetOr(0) || r.highScore == Some(value))
            && r.(highScore := m.highScore) == m
  {
  }

  /** Every score change is pushed to the high score, which never decreases. */
  lemma ScoreSetRaisesHighScore(m: Metrics, value: int)
    ensures var r := ScoreSet(m, value);
            && r.score == value
            && r.highScore.GetOr(0) >= m.highScore.GetOr(0)
            && (m.score != value ==> r.highScore.GetOr(0) >= value)
            && r.(score := m.score, highScore := m.highScore) == m
  {
  }

  // ---------------------------------------------------------------------
  // ResetMetrics
  // ---------------------------------------------------------------------

  /** ResetMetrics: damage and score to 0, health and lives back to their
      lazy defaults, state to NotStarted; high score and time scale stay. */
  function Reset(m: Metrics): Metrics {
    m.(damage := 0.0, health := None, lives := None, score := 0, state := NotStarted)
  }

  lemma ResetEffect(m: Metrics)
    ensures var r := Reset(m);
            && MetricsValid(r)
            && r.highScore == m.highScore && r.timeScale == m.timeScale
            && LivesRead(r).1 == StartingLives && HealthRead(r).1 == MaxHealth
            && r.damage == 0.0 && r.score == 0 && r.state == NotStarted
  {
  }

  /** After a reset, the first damage at the maximum ends the game: the lazy
      single life is lost, time stops, and the damage stays. */
  lemma ResetThenLethalDamageEndsGame(m: Metrics, value: real)
    requires value >= MaxDamage
    ensures var (r, outcome) := DamageSet(Reset(m), value);
            r.lives == Some(0) && r.state == Over && r.timeScale == 0.0 && r.damage == value && outcome == Completed
  {
  }

  /** No accessor lowers the high score. */
  lemma HighScoreNeverDecreases(m: Metrics, state: GameState, lives: int, damage: real, health: real, score: int, offer: int, persisted: int)
    requires MetricsValid(m)
    ensures StateSet(m, state).highScore == m.highScore
    ensures LivesSet(m, lives).highScore == m.highScore
    ensures DamageSet(m, damage).0.highScore == m.highScore
    ensures HealthSet(m, health).0.highScore == m.highScore
    ensures ScoreSet(m, score).highScore.GetOr(0) >= m.highScore.GetOr(0)
    ensures HighScoreSet(m, offer).highScore.GetOr(0) >= m.highScore.GetOr(0)
    ensures m.highScore.Some? ==> HighScoreRead(m, persisted).0 == m
    ensures Reset(m).highScore == m.highScore
  {
    DamageSetKeepsValid(m, damage);
    HealthSetKeepsValid(m, health);
  }

  // ---------------------------------------------------------------------
  // The static class
  // ---------------------------------------------------------------------

  class GameManager {
    var state: GameState
    var timeScale: real
    var damage: real
    var health: Option<real>
    var lives: Option<int>
    var score: int
    var highScore: Option<int>

    function Snapshot(): Metrics
      reads this
    {
      Metrics(state, timeScale, damage, health, lives, score, highScore)
    }

    ghost predicate Valid()
      reads this
    {
      MetricsValid(Snapshot())
    }

    /** The static fields at their defaults. */
    constructor ()
      ensures Valid() && Snapshot() == Initial
    {
      state := NotStarted;
      timeScale := 1.0;
      damage := 0.0;
      health := None;
      lives := None;
      score := 0;
      highScore := None;
    }

    method SetGameState(value: GameState)
      modifies this
      ensures Snapshot() == StateSet(old(Snapshot()), value)
    {
      if state != value {
        state := value;
        match state {
          case NotStarted =>
          case Running => timeScale := 1.0;
          case Paused => timeScale := 0.0;
          case Over => timeScale := 0.0;
        }
      }
    }

    method GetLives() returns (v: int)
      modifies this
      ensures Snapshot() == LivesRead(old(Snapshot())).0 && v == LivesRead(old(Snapshot())).1
    {
      if lives.None? {
        lives := Some(StartingLives);
      }
      v := lives.value;
    }

    method SetLives(value: int)
      modifies this
      ensures Snapshot() == LivesSet(old(Snapshot()), value)
    {
      if lives != Some(value) {
        lives := Some(value);
        if value <= 0 {
          SetGameState(Over);
        }
      }
    }

    /** `Lives--`. */
    method DecrementLives()
      modifies this
      ensures Snapshot() == LivesDecrement(old(Snapshot()))
    {
      var v := GetLives();
      SetLives(v - 1);
    }

    method SetDamage(value: real) returns (outcome: Outcome)
      requires Valid()
      modifies this
      ensures Valid()
      ensures Snapshot() == DamageSet(old(Snapshot()), value).0 && outcome == DamageSet(old(Snapshot()), value).1
      decreases if value > 0.0 then 2 else 0
    {
      DamageSetKeepsValid(Snapshot(), value);
      outcome := Completed;
      if damage != value {
        damage := if value > 0.0 then value else 0.0;
        if MaxDamage <= damage {
          DecrementLives();
          if state != Over {
            damage := 0.0;
            outcome := SetHealth(MaxHealth);
          }
        }
      }
    }

    method GetHealth() returns (v: real)
      modifies this
      ensures Snapshot() == HealthRead(old(Snapshot())).0 && v == HealthRead(old(Snapshot())).1
    {
      if health.None? {
        health := Some(MaxHealth);
      }
      v := health.value;
    }

    method SetHealth(value: real) returns (outcome: Outcome)
      requires Valid()
      modifies this
      ensures Valid()
      ensures Snapshot() == HealthSet(old(Snapshot()), value).0 && outcome == HealthSet(old(Snapshot()), value).1
      decreases if value > 0.0 then 1 else 3
    {
      HealthSetKeepsValid(Snapshot(), value);
      if health.None? {
        return Faulted(NullableWithoutValue);
      }
      outcome := Completed;
      if health.value != value {
        health := Some(if value < MaxHealth then value else MaxHealth);
        if health.value <= 0.0 {
          DecrementLives();
          if state != Over {
            health := Some(MaxHealth);
            outcome := SetDamage(0.0);
          }
        }
      }
    }

    method SetScore(value: int)
      modifies this
      ensures Snapshot() == ScoreSet(old(Snapshot()), value)
    {
      if score != value {
        score := value;
        SetHighScore(score);
      }
    }

    method GetHighScore(persisted: int) returns (v: int)
      modifies this
      ensures Snapshot() == HighScoreRead(old(Snapshot()), persisted).0 && v == HighScoreRead(old(Snapshot()), persisted).1
    {
      if highScore.None? {
        highScore := Some(persisted);
      }
      v := highScore.value;
    }

    method SetHighScore(value: int)
      modifies this
      ensures Snapshot() == HighScoreSet(old(Snapshot()), value)
    {
      if value > highScore.GetOr(0) {
        highScore := Some(value);
      }
    }

    method ResetMetrics()
      modifies this
      ensures Valid()
      ensures Snapshot() == Reset(old(Snapshot()))
    {
      damage := 0.0;
      health := None;
      lives := None;
      score := 0;
      state := NotStarted;
    }
  }
}
