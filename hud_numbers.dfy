/**
 * The integer rules of the HUD: the digit-count index used to size number
 * boxes, the jump indicator counts, the health, armour and ammo icon counts,
 * and the game and warmup timers.
 */
module HudNumbers {
  import opened Wrappers

  // ---------------------------------------------------------------------------
  // C integer division
  // ---------------------------------------------------------------------------

  /** C's `/` on `int`, which truncates toward zero, for a positive divisor. */
  function CDiv(a: int, b: int): (q: int)
    requires b > 0
    ensures a >= 0 ==> q * b <= a < (q + 1) * b
    ensures a < 0 ==> (q - 1) * b < a <= q * b
  {
    if a >= 0 then a / b else -((-a) / b)
  }

  lemma {:induction false} MulGrows(x: nat, b: int)
    requires b >= 0
    ensures x * b >= 0 && (x >= 1 ==> x * b >= b)
  {
    if x > 0 {
      MulGrows(x - 1, b);
    }
  }

  lemma MulZero(x: int, b: int)
    requires b > 0 && -b < x * b < b
    ensures x == 0
  {
    var y: nat := if x >= 0 then x else -x;
    MulGrows(y, b);
    assert x < 0 ==> x * b == -(y * b);
  }

  /** Euclidean quotient and remainder are unique. */
  lemma DivUnique(a: int, b: int, q: int, r: int)
    requires b > 0 && 0 <= r < b && a == q * b + r
    ensures a / b == q && a % b == r
  {
    var q0, r0 := a / b, a % b;
    assert a == q0 * b + r0;
    assert (q - q0) * b == r0 - r;
    MulZero(q - q0, b);
  }

  lemma DivMonotone(a: int, c: int, b: int)
    requires b > 0 && a <= c
    ensures a / b <= c / b
  {
    var qa, qc := a / b, c / b;
    assert a == qa * b + a % b && c == qc * b + c % b;
    if qa > qc {
      MulGrows(qa - qc, b);
      assert false;
    }
  }

  lemma CDivMonotone(a: int, c: int, b: int)
    requires b > 0 && a <= c
    ensures CDiv(a, b) <= CDiv(c, b)
  {
    if a >= 0 {
      DivMonotone(a, c, b);
    } else if c < 0 {
      DivMonotone(-c, -a, b);
    } else {
      DivUnique(0, b, 0, 0);
      DivMonotone(0, -a, b);
      DivMonotone(0, c, b);
    }
  }

  // ---------------------------------------------------------------------------
  // GetDigitsIndex
  // ---------------------------------------------------------------------------

  function Pow10(k: nat): (r: nat)
    ensures r >= 1
  {
    if k == 0 then 1 else 10 * Pow10(k - 1)
  }

  /** `(int)std::log10(n)` for a positive integer `n`. */
  function Log10Floor(n: nat): nat
    requires n >= 1
  {
    if n < 10 then 0 else 1 + Log10Floor(n / 10)
  }

  lemma {:induction false} Log10FloorBounds(n: nat)
    requires n >= 1
    ensures Pow10(Log10Floor(n)) <= n < Pow10(Log10Floor(n) + 1)
  {
    if n >= 10 {
      Log10FloorBounds(n / 10);
    }
  }

  /** The magnitude whose digits are counted: |value|, with 0 counted like 1. */
  function Magnitude(value: int): (m: nat)
    ensures m >= 1
  {
    if value < 0 then -value else if value == 0 then 1 else value
  }

  /**
   * The number of decimal digits of |value| minus one (0 has one digit),
   * capped at `max` and never below 0.
   */
  function GetDigitsIndex(value: int, max: int): (r: int)
    ensures 0 <= r
    ensures max >= 0 ==> r <= max
    ensures max < 0 ==> r == 0
    ensures 0 <= r < max ==> Pow10(r) <= Magnitude(value) < Pow10(r + 1)
    ensures r == max ==> Pow10(r) <= Magnitude(value)
  {
    Log10FloorBounds(Magnitude(value));
    var index := Log10Floor(Magnitude(value));
    if index > max then (if max < 0 then 0 else PowBelowMagnitude(max, index, Magnitude(value)); max)
    else index
  }

  lemma {:induction false} PowBelowMagnitude(j: nat, k: nat, m: nat)
    requires j <= k && Pow10(k) <= m
    ensures Pow10(j) <= m
  {
    if j < k {
      PowBelowMagnitude(j, k - 1, m);
    }
  }

  /** The index grows by one exactly at each power of ten, below the cap. */
  lemma DigitsIndexAtPowers(k: nat, max: int)
    requires k <= max
    ensures GetDigitsIndex(Pow10(k), max) == k
    ensures k >= 1 ==> GetDigitsIndex(Pow10(k) - 1, max) == k - 1
  {
    Log10OfPow10(k);
    assert Magnitude(Pow10(k)) == Pow10(k);
    if k >= 1 {
      Log10BelowPow10(k);
      assert Magnitude(Pow10(k) - 1) == Pow10(k) - 1;
    }
  }

  lemma {:induction false} Log10BelowPow10(k: nat)
    requires k >= 1
    ensures Pow10(k) >= 10
    ensures Log10Floor(Pow10(k) - 1) == k - 1
  {
    if k > 1 {
      Log10BelowPow10(k - 1);
      var p := Pow10(k - 1);
      DivUnique(10 * p - 1, 10, p - 1, 9);
    }
  }

  lemma {:induction false} PowAboveMagnitude(j: nat, k: nat)
    requires j <= k
    ensures Pow10(j) <= Pow10(k)
  {
    if j < k {
      PowAboveMagnitude(j, k - 1);
    }
  }

  lemma {:induction false} Log10OfPow10(k: nat)
    ensures Log10Floor(Pow10(k)) == k
  {
    if k > 0 {
      assert Pow10(k) / 10 == Pow10(k - 1);
      Log10OfPow10(k - 1);
    }
  }

  /** The sign does not matter. */
  lemma DigitsIndexIgnoresSign(value: int, max: int)
    ensures GetDigitsIndex(-value, max) == GetDigitsIndex(value, max)
  {
  }

  // ---------------------------------------------------------------------------
  // Jump indicator
  // ---------------------------------------------------------------------------

  function Abs(x: int): nat
  {
    if x < 0 then -x else x
  }

  /** `m_Jumped & 2`: the bit set while the last air jump is used up (two's complement). */
  predicate AirJumpBit(jumped: int)
  {
    (jumped / 2) % 2 == 1
  }

  /** What the predicted character core and render state tell the indicator. */
  datatype JumpState = JumpState(jumps: int, jumpedTotal: int, jumped: int, grounded: bool, endlessJump: bool)

  /** Jumps counted as used before the endless-jump cap. */
  function RawUsedJumps(s: JumpState): int
  {
    if s.jumps > 1 then s.jumpedTotal + (if s.grounded then 0 else 1)
    else if s.jumps == 1 then (if AirJumpBit(s.jumped) then 2 else 0)
    else if s.jumps == -1 then (if s.grounded then 0 else 1)
    else s.jumpedTotal
  }

  /** Used jumps; with endless jump they never reach |jumps|. */
  function UsedJumps(s: JumpState): (r: int)
    ensures s.endlessJump ==> r < Abs(s.jumps)
    ensures r != RawUsedJumps(s) ==> s.endlessJump && r == Abs(s.jumps) - 1
    ensures !(s.endlessJump && RawUsedJumps(s) >= Abs(s.jumps)) ==> r == RawUsedJumps(s)
  {
    var used := RawUsedJumps(s);
    if s.endlessJump && used >= Abs(s.jumps) then Abs(s.jumps) - 1 else used
  }

  /**
   * Unused jumps: the jumps not used, except that one is shown while the
   * air-jump bit is clear and none would be left.
   */
  function UnusedJumps(s: JumpState): (r: int)
    ensures !AirJumpBit(s.jumped) ==> r >= 1
    ensures s.endlessJump ==> r >= 1
    ensures AirJumpBit(s.jumped) || UsedJumps(s) < Abs(s.jumps) ==> r + UsedJumps(s) == Abs(s.jumps)
    ensures !AirJumpBit(s.jumped) && UsedJumps(s) >= Abs(s.jumps) ==> r == 1
  {
    var unused := Abs(s.jumps) - UsedJumps(s);
    if !AirJumpBit(s.jumped) && unused <= 0 then 1 else unused
  }

  datatype JumpDisplay = JumpDisplay(total: int, available: int)

  /**
   * How many jump icons are drawn in total and how many of them as
   * available; the rest (`total - available`) are drawn empty. Without
   * extended display info both are |jumps| of the snapshot.
   */
  function JumpsToDisplay(hasExtendedInfo: bool, s: JumpState, snapJumps: int): (r: JumpDisplay)
    ensures 0 <= r.available <= r.total
    ensures hasExtendedInfo ==> r.total <= 10 && r.total == (if Abs(s.jumps) < 10 then Abs(s.jumps) else 10)
    ensures !hasExtendedInfo ==> r.total == r.available == Abs(snapJumps)
    ensures hasExtendedInfo && s.jumps != 0 && (!AirJumpBit(s.jumped) || s.endlessJump) ==> r.available >= 1
  {
    if hasExtendedInfo then
      var total := Max(Min(Abs(s.jumps), 10), 0);
      JumpDisplay(total, Max(Min(UnusedJumps(s), total), 0))
    else
      JumpDisplay(Abs(snapJumps), Abs(snapJumps))
  }

  function Min(a: int, b: int): int
  {
    if a < b then a else b
  }

  /**
   * With a single jump, one icon is drawn, and it is empty exactly while the
   * air-jump bit is set and endless jump is off.
   */
  lemma SingleJumpIcon(s: JumpState, snapJumps: int)
    requires s.jumps == 1
    ensures JumpsToDisplay(true, s, snapJumps) == JumpDisplay(1, if AirJumpBit(s.jumped) && !s.endlessJump then 0 else 1)
  {
  }

  function Max(a: int, b: int): int
  {
    if a > b then a else b
  }

  /** A character with more jumps than the ten drawn shows all ten, none empty, while it has at least ten left. */
  lemma ManyJumpsShowFull(s: JumpState)
    requires s.jumps > 10 && s.jumpedTotal <= s.jumps - 11 && s.jumpedTotal >= 0
    ensures JumpsToDisplay(true, s, 0) == JumpDisplay(10, 10)
  {
  }

  // ---------------------------------------------------------------------------
  // Health, armour and ammo icons
  // ---------------------------------------------------------------------------

  datatype IconCounts = IconCounts(full: int, empty: int)

  /** Health and armour: up to ten full icons, then empty ones up to ten. */
  function HealthIcons(value: int): (r: IconCounts)
    ensures r.full + r.empty == 10
    ensures r.full <= 10
    ensures value >= 0 ==> 0 <= r.full && 0 <= r.empty
    ensures value <= 10 ==> r.full == value
    ensures value >= 10 ==> r.full == 10 && r.empty == 0
  {
    IconCounts(Min(value, 10), 10 - Min(value, 10))
  }

  /** Ammo: up to ten icons, no empty ones. */
  function AmmoIcons(ammo: int): (r: int)
    ensures r <= 10 && (ammo >= 0 ==> r >= 0)
    ensures ammo <= 10 ==> r == ammo
    ensures ammo >= 10 ==> r == 10
  {
    Min(ammo, 10)
  }

  // ---------------------------------------------------------------------------
  // Game and warmup timers
  // ---------------------------------------------------------------------------

  datatype GameInfo = GameInfo(
    timeLimit: int, warmupTimer: int, roundStartTick: int,
    suddenDeath: bool, gameOver: bool, raceTime: bool)

  /** Whole seconds since the round started. */
  function ElapsedSeconds(info: GameInfo, gameTick: int, tickSpeed: int): int
    requires tickSpeed > 0
  {
    CDiv(gameTick - info.roundStartTick, tickSpeed)
  }

  /**
   * The seconds the game timer shows, or `None` during sudden death: a
   * countdown from the time limit (0 once the game is over), the race time
   * when the server sends it through the warmup field, or the elapsed time.
   */
  function GameTimer(info: GameInfo, gameTick: int, tickSpeed: int): (r: Option<int>)
    requires tickSpeed > 0
    ensures r.None? <==> info.suddenDeath
    ensures r.Some? && info.timeLimit != 0 && info.warmupTimer <= 0 && !info.gameOver
      ==> r.value + ElapsedSeconds(info, gameTick, tickSpeed) == info.timeLimit * 60
    ensures r.Some? && info.timeLimit != 0 && info.warmupTimer <= 0 && info.gameOver ==> r.value == 0
    ensures r.Some? && !(info.timeLimit != 0 && info.warmupTimer <= 0) && info.raceTime
      ==> r.value == CDiv(gameTick + info.warmupTimer, tickSpeed)
    ensures r.Some? && !(info.timeLimit != 0 && info.warmupTimer <= 0) && !info.raceTime
      ==> r.value == ElapsedSeconds(info, gameTick, tickSpeed)
  {
    if info.suddenDeath then None
    else if info.timeLimit != 0 && info.warmupTimer <= 0 then
      if info.gameOver then Some(0) else Some(info.timeLimit * 60 - ElapsedSeconds(info, gameTick, tickSpeed))
    else if info.raceTime then Some(CDiv(gameTick + info.warmupTimer, tickSpeed))
    else Some(ElapsedSeconds(info, gameTick, tickSpeed))
  }

  /** The countdown never goes up as ticks pass, and the elapsed clock never goes down. */
  lemma GameTimerMonotone(info: GameInfo, tick1: int, tick2: int, tickSpeed: int)
    requires tickSpeed > 0 && tick1 <= tick2 && !info.suddenDeath
    ensures info.timeLimit != 0 && info.warmupTimer <= 0
      ==> GameTimer(info, tick2, tickSpeed).value <= GameTimer(info, tick1, tickSpeed).value
    ensures !(info.timeLimit != 0 && info.warmupTimer <= 0)
      ==> GameTimer(info, tick1, tickSpeed).value <= GameTimer(info, tick2, tickSpeed).value
  {
    CDivMonotone(tick1 - info.roundStartTick, tick2 - info.roundStartTick, tickSpeed);
    CDivMonotone(tick1 + info.warmupTimer, tick2 + info.warmupTimer, tickSpeed);
  }

  /**
   * In race-time mode the server sends the negated race start tick through
   * the warmup field, and the timer shows the whole seconds since that start.
   */
  lemma RaceTimeSinceStart(info: GameInfo, startTick: int, gameTick: int, tickSpeed: int)
    requires tickSpeed > 0 && info.raceTime && info.timeLimit == 0 && !info.suddenDeath
    requires info.warmupTimer == -startTick && startTick <= gameTick
    ensures var t := GameTimer(info, gameTick, tickSpeed).value;
      t >= 0 && t * tickSpeed <= gameTick - startTick < (t + 1) * tickSpeed
  {
    var t := GameTimer(info, gameTick, tickSpeed).value;
    assert t == CDiv(gameTick - startTick, tickSpeed);
  }

  /** The countdown shows 0 exactly when the whole time limit has elapsed. */
  lemma CountdownEndsAtLimit(info: GameInfo, tickSpeed: int)
    requires tickSpeed > 0 && info.timeLimit > 0 && info.warmupTimer <= 0 && !info.suddenDeath && !info.gameOver
    ensures GameTimer(info, info.roundStartTick + info.timeLimit * 60 * tickSpeed, tickSpeed) == Some(0)
  {
    DivUnique(info.timeLimit * 60 * tickSpeed, tickSpeed, info.timeLimit * 60, 0);
  }

  /** The warmup display: whole seconds, and tenths while under five seconds. */
  datatype WarmupDisplay = WarmupDisplay(seconds: int, tenths: Option<int>)

  function WarmupTimer(info: GameInfo, tickSpeed: int): (r: Option<WarmupDisplay>)
    requires tickSpeed > 0
    ensures r.Some? <==> info.warmupTimer > 0 && !info.raceTime
    ensures r.Some? ==> r.value.seconds * tickSpeed <= info.warmupTimer < (r.value.seconds + 1) * tickSpeed
    ensures r.Some? ==> (r.value.tenths.Some? <==> r.value.seconds < 5)
    ensures r.Some? && r.value.tenths.Some? ==> (0 <= r.value.tenths.value < 10
      && r.value.seconds * 10 + r.value.tenths.value == info.warmupTimer * 10 / tickSpeed)
  {
    if info.warmupTimer > 0 && !info.raceTime then
      var seconds := info.warmupTimer / tickSpeed;
      TenthsSplit(info.warmupTimer, tickSpeed);
      Some(WarmupDisplay(seconds, if seconds < 5 then Some((info.warmupTimer * 10 / tickSpeed) % 10) else None))
    else None
  }

  /** Tenths of `a / b` agree with its whole part. */
  lemma TenthsSplit(a: int, b: int)
    requires a >= 0 && b > 0
    ensures (a / b) * b <= a < (a / b + 1) * b
    ensures (a * 10 / b) / 10 == a / b
  {
    var q, r := a / b, a % b;
    assert a == q * b + r;
    var t := (r * 10) / b;
    assert r * 10 == t * b + (r * 10) % b;
    DivMonotone(0, r * 10, b);
    DivMonotone(r * 10, 10 * b - 1, b);
    DivUnique(10 * b - 1, b, 9, b - 1);
    assert 0 <= t < 10;
    assert a * 10 == (q * 10 + t) * b + (r * 10) % b;
    DivUnique(a * 10, b, q * 10 + t, (r * 10) % b);
    DivUnique(q * 10 + t, 10, q, t);
  }
}
