/**
 * The small configuration rules of the settings menu: the FSAA sample
 * stepper, the controller aim-axis picker, the window-mode drop-down, the
 * dynamic-camera and power-saving check boxes, "Set all to Rifle" and the
 * unfreeze-lag delay clamp. Each rule is a function on the values involved,
 * and `Config` holds the configuration fields the menu assigns in place.
 */
module SettingsConfig {
  import opened Wrappers

  // ---------------------------------------------------------------------------
  // FSAA samples
  // ---------------------------------------------------------------------------

  function Pow2(k: nat): (r: nat)
    ensures r >= 1
  {
    if k == 0 then 1 else 2 * Pow2(k - 1)
  }

  /** `(int)std::log2(n)` for a positive integer `n`. */
  function Log2Floor(n: nat): nat
    requires n >= 1
  {
    if n == 1 then 0 else 1 + Log2Floor(n / 2)
  }

  lemma {:induction false} Log2FloorBounds(n: nat)
    requires n >= 1
    ensures Pow2(Log2Floor(n)) <= n < Pow2(Log2Floor(n) + 1)
  {
    if n > 1 {
      Log2FloorBounds(n / 2);
    }
  }

  lemma {:induction false} Log2OfPow2(k: nat)
    ensures Log2Floor(Pow2(k)) == k
  {
    if k > 0 {
      assert Pow2(k) / 2 == Pow2(k - 1);
      Log2OfPow2(k - 1);
    }
  }

  /** The values the stepper cycles through. */
  predicate IsFsaaStep(v: int)
  {
    v == 0 || v == 2 || v == 4 || v == 8 || v == 16 || v == 32 || v == 64
  }

  /** `CurFSAA`: a stored 0 counts as one sample. */
  function CurFsaa(v: nat): (r: nat)
    ensures r >= 1
  {
    if v == 0 then 1 else v
  }

  /**
   * A left click: the next power of two above the current sample count, or 0
   * once that passes 64.
   */
  function FsaaStepUp(v: nat): (r: nat)
    ensures r == 0 <==> v >= 64
    ensures r != 0 ==> CurFsaa(v) < r <= 2 * CurFsaa(v) && r == Pow2(Log2Floor(r))
  {
    FsaaStepUpFacts(v);
    var up := Pow2(Log2Floor(CurFsaa(v)) + 1);
    if up > 64 then 0 else up
  }

  lemma FsaaStepUpFacts(v: nat)
    ensures var up := Pow2(Log2Floor(CurFsaa(v)) + 1);
      (up > 64 <==> v >= 64) && CurFsaa(v) < up <= 2 * CurFsaa(v) && up == Pow2(Log2Floor(up))
  {
    var k := Log2Floor(CurFsaa(v));
    Log2FloorBounds(CurFsaa(v));
    Log2OfPow2(k + 1);
    PowMonotone(k + 1);
    PowMonotone(k);
    assert Pow2(6) == 64;
  }

  lemma PowMonotone(k: nat)
    ensures k <= 6 <==> Pow2(k) <= 64
  {
    if k <= 6 {
      PowBelow(k, 6);
    } else {
      PowBelow(7, k);
    }
  }

  lemma {:induction false} PowBelow(j: nat, k: nat)
    requires j <= k
    ensures Pow2(j) <= Pow2(k)
  {
    if j < k {
      PowBelow(j, k - 1);
    }
  }

  /** A right click: 1 wraps to 64, 2 goes to 0, anything else drops a power of two. */
  function FsaaStepDown(v: nat): (r: nat)
  {
    var cur := CurFsaa(v);
    if cur == 1 then 64
    else if cur == 2 then 0
    else Pow2(Log2Floor(cur) - 1)
  }

  /** On the cycle, stepping down stays on the cycle. */
  lemma FsaaStepDownOnCycle(v: nat)
    requires IsFsaaStep(v)
    ensures IsFsaaStep(FsaaStepDown(v))
  {
    FsaaDownTable();
  }

  /** Any start value lands on the cycle after one step up. */
  lemma FsaaStepUpOnCycle(v: nat)
    ensures IsFsaaStep(FsaaStepUp(v))
  {
    var r := FsaaStepUp(v);
    if r != 0 {
      var k := Log2Floor(r);
      PowMonotone(k);
      assert Pow2(0) == 1;
      assert k == 1 || k == 2 || k == 3 || k == 4 || k == 5 || k == 6;
    }
  }

  /** The stepper on each value of the cycle, up and down. */
  lemma FsaaUpTable()
    ensures FsaaStepUp(0) == 2 && FsaaStepUp(2) == 4 && FsaaStepUp(4) == 8 && FsaaStepUp(8) == 16
    ensures FsaaStepUp(16) == 32 && FsaaStepUp(32) == 64 && FsaaStepUp(64) == 0
  {
    Log2OfPow2(1); Log2OfPow2(2); Log2OfPow2(3); Log2OfPow2(4); Log2OfPow2(5); Log2OfPow2(6);
  }

  lemma FsaaDownTable()
    ensures FsaaStepDown(0) == 64 && FsaaStepDown(2) == 0 && FsaaStepDown(4) == 2 && FsaaStepDown(8) == 4
    ensures FsaaStepDown(16) == 8 && FsaaStepDown(32) == 16 && FsaaStepDown(64) == 32
  {
    FsaaStepDownAt(2); FsaaStepDownAt(3); FsaaStepDownAt(4); FsaaStepDownAt(5); FsaaStepDownAt(6);
  }

  lemma FsaaStepDownAt(k: nat)
    requires k >= 2
    ensures FsaaStepDown(Pow2(k)) == Pow2(k - 1)
  {
    Log2OfPow2(k);
  }

  /** On the cycle, the two buttons undo each other. */
  lemma FsaaStepsInverse(v: nat)
    requires IsFsaaStep(v)
    ensures FsaaStepUp(FsaaStepDown(v)) == v
    ensures FsaaStepDown(FsaaStepUp(v)) == v
  {
    FsaaUpTable();
    FsaaDownTable();
  }

  /** A value off the cycle, such as 3 typed on the console, steps down off it. */
  lemma FsaaStepDownLeavesCycleFromThree()
    ensures FsaaStepDown(3) == 1 && !IsFsaaStep(FsaaStepDown(3))
  {
  }

  /**
   * What the graphics backend answers to `SetMultiSampling`: whether the
   * first request succeeded, the sample count it then reports, and the
   * count it reports after a retry with 0.
   */
  datatype MultiSampling = MultiSampling(accepted: bool, count: nat, retryCount: nat)

  /** The stored sample count, the counts requested from the backend in order, and whether the settings need checking. */
  datatype FsaaOutcome = FsaaOutcome(samples: nat, requests: seq<nat>, checkSettings: bool)

  /**
   * Applying a stepped value: it is requested from the backend; if that
   * fails the stepped value stays and the settings are flagged for checking;
   * if it succeeds the backend's count is stored, after a retry with 0 when
   * an increase asked for more than the backend granted.
   */
  function FsaaApplied(stepped: nat, increase: bool, backend: MultiSampling): (r: FsaaOutcome)
    ensures 1 <= |r.requests| <= 2 && r.requests[0] == stepped
    ensures r.checkSettings <==> !backend.accepted
    ensures !backend.accepted ==> r.samples == stepped && |r.requests| == 1
    ensures |r.requests| == 2 <==> backend.accepted && increase && stepped > backend.count
    ensures |r.requests| == 2 ==> r.requests[1] == 0 && r.samples == backend.retryCount
    ensures backend.accepted && |r.requests| == 1 ==> r.samples == backend.count
  {
    if !backend.accepted then FsaaOutcome(stepped, [stepped], true)
    else if stepped > backend.count && increase then FsaaOutcome(backend.retryCount, [stepped, 0], false)
    else FsaaOutcome(backend.count, [stepped], false)
  }

  /** A backend that grants what was asked leaves the stepped value in the setting, asked for once. */
  lemma FsaaGrantedKeepsStep(stepped: nat, increase: bool, backend: MultiSampling)
    requires backend.accepted && backend.count == stepped
    ensures FsaaApplied(stepped, increase, backend) == FsaaOutcome(stepped, [stepped], false)
  {
  }

  /** A decrease is never retried: the setting is the backend's answer, or the stepped value when it failed. */
  lemma FsaaDecreaseNotRetried(v: nat, backend: MultiSampling)
    ensures var o := FsaaApplied(FsaaStepDown(v), false, backend);
      |o.requests| == 1 && o.samples == (if backend.accepted then backend.count else FsaaStepDown(v))
  {
  }

  // ---------------------------------------------------------------------------
  // Controller aim axes
  // ---------------------------------------------------------------------------

  datatype AimAxes = AimAxes(x: int, y: int)

  /**
   * Ticking axis `i` for X: X takes `i`, and Y, if it held `i`, takes the old
   * X, so the two roles are swapped rather than doubled up.
   */
  function PickAimX(a: AimAxes, i: int): (r: AimAxes)
    ensures r.x == i
    ensures a.x != a.y ==> r.x != r.y
    ensures multiset{r.x, r.y} == multiset{a.x, a.y} || (a.y != i && r.y == a.y)
  {
    AimAxes(i, if a.y == i then a.x else a.y)
  }

  /** Ticking axis `i` for Y, the mirror image of `PickAimX`. */
  function PickAimY(a: AimAxes, i: int): (r: AimAxes)
    ensures r.y == i
    ensures a.x != a.y ==> r.x != r.y
    ensures multiset{r.x, r.y} == multiset{a.x, a.y} || (a.x != i && r.x == a.x)
  {
    AimAxes(if a.x == i then a.y else a.x, i)
  }

  /** The two pickers are mirror images of each other. */
  lemma PickAimMirror(a: AimAxes, i: int)
    ensures PickAimY(a, i) == Swap(PickAimX(Swap(a), i))
  {
  }

  function Swap(a: AimAxes): AimAxes
  {
    AimAxes(a.y, a.x)
  }

  // ---------------------------------------------------------------------------
  // Window mode
  // ---------------------------------------------------------------------------

  /** What `SetWindowParams(FullscreenMode, IsBorderless)` is called with. */
  datatype WindowParams = WindowParams(fullscreen: int, borderless: bool)

  /**
   * The drop-down index shown for `gfx_fullscreen` and `gfx_borderless`:
   * 0 windowed, 1 windowed borderless, 2 windowed fullscreen, 3 desktop
   * fullscreen, 4 fullscreen.
   */
  function WindowModeIndex(fullscreen: int, borderless: bool): (r: int)
    ensures 0 <= r <= 4
  {
    if fullscreen != 0 then (if fullscreen == 1 then 4 else if fullscreen == 2 then 3 else 2)
    else if borderless then 1 else 0
  }

  /** The parameters a newly chosen index is applied with; `None` for an index outside 0..4. */
  function ParamsForWindowMode(index: int): (r: Option<WindowParams>)
    ensures r.Some? <==> 0 <= index <= 4
  {
    if index == 0 then Some(WindowParams(0, false))
    else if index == 1 then Some(WindowParams(0, true))
    else if index == 2 then Some(WindowParams(3, false))
    else if index == 3 then Some(WindowParams(2, false))
    else if index == 4 then Some(WindowParams(1, false))
    else None
  }

  /** Every index the drop-down offers is shown again once it is applied. */
  lemma WindowModeRoundTrip(index: int)
    requires 0 <= index <= 4
    ensures var p := ParamsForWindowMode(index).value;
      WindowModeIndex(p.fullscreen, p.borderless) == index
  {
  }

  /**
   * Showing a configuration and applying the index shown gives the same
   * configuration back exactly for the five canonical ones.
   */
  lemma WindowParamsRoundTrip(fullscreen: int, borderless: bool)
    ensures ParamsForWindowMode(WindowModeIndex(fullscreen, borderless)) == Some(WindowParams(fullscreen, borderless))
        <==> fullscreen == 0 || (1 <= fullscreen <= 3 && !borderless)
  {
  }

  // ---------------------------------------------------------------------------
  // Check boxes and buttons
  // ---------------------------------------------------------------------------

  /** The "Dynamic Camera" box is ticked when dyncam is on or the mouse follow factor is positive. */
  predicate IsDyncam(dyncam: int, followFactor: int)
  {
    dyncam != 0 || followFactor > 0
  }

  datatype Camera = Camera(dyncam: int, followFactor: int)

  /** Clicking "Dynamic Camera": turn both settings off, or turn dyncam on. */
  function ToggleDyncam(c: Camera): (r: Camera)
    ensures IsDyncam(r.dyncam, r.followFactor) <==> !IsDyncam(c.dyncam, c.followFactor)
    ensures IsDyncam(c.dyncam, c.followFactor) ==> r == Camera(0, 0)
    ensures !IsDyncam(c.dyncam, c.followFactor) ==> r.followFactor == c.followFactor
  {
    if IsDyncam(c.dyncam, c.followFactor) then Camera(0, 0) else Camera(1, c.followFactor)
  }

  /** The power-saving box is ticked for a refresh-rate cap of at most 480 Hz that is not unlimited (0). */
  predicate SavesPower(refreshRate: int)
  {
    refreshRate <= 480 && refreshRate != 0
  }

  /** Clicking the power-saving box: cap at 480 Hz, or lift the cap. */
  function TogglePowerSave(refreshRate: int): (r: int)
    ensures SavesPower(r) <==> !SavesPower(refreshRate)
    ensures r == 0 || r == 480
  {
    if refreshRate > 480 || refreshRate == 0 then 480 else 0
  }

  /** The laser colours of the four laser kinds, outline and inner each. */
  datatype LaserColors = LaserColors(
    rifleOutline: int, rifleInner: int,
    shotgunOutline: int, shotgunInner: int,
    doorOutline: int, doorInner: int,
    freezeOutline: int, freezeInner: int)

  predicate AllLikeRifle(c: LaserColors)
  {
    c.shotgunOutline == c.rifleOutline && c.doorOutline == c.rifleOutline && c.freezeOutline == c.rifleOutline
    && c.shotgunInner == c.rifleInner && c.doorInner == c.rifleInner && c.freezeInner == c.rifleInner
  }

  /** "Set all to Rifle": every other laser takes the rifle's outline and inner colours. */
  function SetAllToRifle(c: LaserColors): (r: LaserColors)
    ensures AllLikeRifle(r)
    ensures r.rifleOutline == c.rifleOutline && r.rifleInner == c.rifleInner
    ensures AllLikeRifle(c) ==> r == c
  {
    c.(shotgunOutline := c.rifleOutline, shotgunInner := c.rifleInner,
       doorOutline := c.rifleOutline, doorInner := c.rifleInner,
       freezeOutline := c.rifleOutline, freezeInner := c.rifleInner)
  }

  /**
   * After the delay slider is read back, the delay is raised to at least the
   * number of removed prediction ticks.
   */
  function ClampLagDelay(picked: int, lagTicks: int): (r: int)
    ensures r >= picked && r >= lagTicks
    ensures r == picked || r == lagTicks
  {
    if picked < lagTicks then lagTicks else picked
  }

  // ---------------------------------------------------------------------------
  // The configuration fields these rules assign
  // ---------------------------------------------------------------------------

  class Config {
    var gfxFsaaSamples: nat
    var inpControllerX: int
    var inpControllerY: int
    var gfxFullscreen: int
    var gfxBorderless: bool
    var clDyncam: int
    var clMouseFollowfactor: int
    var clRefreshRate: int
    var lasers: LaserColors
    var clUnfreezeLagTicks: int
    var clUnfreezeLagDelayTicks: int

    constructor ()
      ensures gfxFsaaSamples == 0 && gfxFullscreen == 0 && !gfxBorderless
    {
      gfxFsaaSamples := 0;
      inpControllerX := 0;
      inpControllerY := 1;
      gfxFullscreen := 0;
      gfxBorderless := false;
      clDyncam := 0;
      clMouseFollowfactor := 0;
      clRefreshRate := 0;
      lasers := LaserColors(0, 0, 0, 0, 0, 0, 0, 0);
      clUnfreezeLagTicks := 5;
      clUnfreezeLagDelayTicks := 100;
    }

    /**
     * The FSAA check box: mouse button 1 steps up and 2 steps down, and the
     * stepped value is then applied through the backend (`FsaaApplied`);
     * any other button does nothing. `requests` are the counts asked of
     * `SetMultiSampling`, in order.
     */
    method ClickFsaa(mouseButton: int, backend: MultiSampling) returns (changed: bool, requests: seq<nat>, checkSettings: bool)
      modifies `gfxFsaaSamples
      ensures changed <==> mouseButton == 1 || mouseButton == 2
      ensures !changed ==> gfxFsaaSamples == old(gfxFsaaSamples) && requests == [] && !checkSettings
      ensures changed ==>
        var stepped := if mouseButton == 1 then FsaaStepUp(old(gfxFsaaSamples)) else FsaaStepDown(old(gfxFsaaSamples));
        FsaaOutcome(gfxFsaaSamples, requests, checkSettings) == FsaaApplied(stepped, mouseButton == 1, backend)
    {
      changed, requests, checkSettings := false, [], false;
      if mouseButton == 1 {
        gfxFsaaSamples := FsaaStepUp(gfxFsaaSamples);
        changed := true;
      } else if mouseButton == 2 {
        gfxFsaaSamples := FsaaStepDown(gfxFsaaSamples);
        changed := true;
      }
      if changed {
        requests := [gfxFsaaSamples];
        if backend.accepted {
          var countBackend := backend.count;
          if gfxFsaaSamples > countBackend && mouseButton == 1 {
            requests := requests + [0];
            countBackend := backend.retryCount;
          }
          gfxFsaaSamples := countBackend;
        } else {
          checkSettings := true;
        }
      }
    }

    /** Ticking "X" in the row of axis `i`. */
    method ClickAimX(i: int)
      modifies `inpControllerX, `inpControllerY
      ensures AimAxes(inpControllerX, inpControllerY) == PickAimX(AimAxes(old(inpControllerX), old(inpControllerY)), i)
    {
      if inpControllerY == i {
        inpControllerY := inpControllerX;
      }
      inpControllerX := i;
    }

    /** Ticking "Y" in the row of axis `i`. */
    method ClickAimY(i: int)
      modifies `inpControllerX, `inpControllerY
      ensures AimAxes(inpControllerX, inpControllerY) == PickAimY(AimAxes(old(inpControllerX), old(inpControllerY)), i)
    {
      if inpControllerX == i {
        inpControllerX := inpControllerY;
      }
      inpControllerY := i;
    }

    /**
     * Choosing `newMode` in the drop-down. A different index applies its
     * parameters; `SetWindowParams` stores them in `gfx_fullscreen` and
     * `gfx_borderless`.
     */
    method SelectWindowMode(newMode: int)
      modifies `gfxFullscreen, `gfxBorderless
      ensures var p := ParamsForWindowMode(newMode);
        if newMode != WindowModeIndex(old(gfxFullscreen), old(gfxBorderless)) && p.Some?
        then gfxFullscreen == p.value.fullscreen && gfxBorderless == p.value.borderless
        else gfxFullscreen == old(gfxFullscreen) && gfxBorderless == old(gfxBorderless)
    {
      var oldMode := WindowModeIndex(gfxFullscreen, gfxBorderless);
      if oldMode != newMode {
        var p := ParamsForWindowMode(newMode);
        if p.Some? {
          gfxFullscreen := p.value.fullscreen;
          gfxBorderless := p.value.borderless;
        }
      }
    }

    method ClickDyncam()
      modifies `clDyncam, `clMouseFollowfactor
      ensures Camera(clDyncam, clMouseFollowfactor) == ToggleDyncam(Camera(old(clDyncam), old(clMouseFollowfactor)))
    {
      if IsDyncam(clDyncam, clMouseFollowfactor) {
        clDyncam := 0;
        clMouseFollowfactor := 0;
      } else {
        clDyncam := 1;
      }
    }

    method ClickPowerSave()
      modifies `clRefreshRate
      ensures clRefreshRate == TogglePowerSave(old(clRefreshRate))
    {
      clRefreshRate := if clRefreshRate > 480 || clRefreshRate == 0 then 480 else 0;
    }

    method ClickSetAllToRifle()
      modifies `lasers
      ensures lasers == SetAllToRifle(old(lasers))
    {
      lasers := lasers.(shotgunOutline := lasers.rifleOutline);
      lasers := lasers.(shotgunInner := lasers.rifleInner);
      lasers := lasers.(doorOutline := lasers.rifleOutline);
      lasers := lasers.(doorInner := lasers.rifleInner);
      lasers := lasers.(freezeOutline := lasers.rifleOutline);
      lasers := lasers.(freezeInner := lasers.rifleInner);
    }

    /** `picked` is what the delay slider returned this frame. */
    method SetLagDelay(picked: int)
      modifies `clUnfreezeLagDelayTicks
      ensures clUnfreezeLagDelayTicks == ClampLagDelay(picked, clUnfreezeLagTicks)
    {
      clUnfreezeLagDelayTicks := picked;
      if clUnfreezeLagDelayTicks < clUnfreezeLagTicks {
        clUnfreezeLagDelayTicks := clUnfreezeLagTicks;
      }
    }
  }
}
