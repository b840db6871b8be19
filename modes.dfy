/**
 * The mode engine of src/context/ModeContext.jsx: four fixed visual
 * configurations, a guarded switch that runs in three steps (the call
 * itself, a commit 100 ms later, and a finish when the target's transition
 * duration has elapsed), the configuration lookup and the advisory mode
 * suggestion.
 */
module Modes {
  import opened Wrappers
  import opened Intelligence
  import Helpers

  datatype ModeId = Explorer | Focus | Flow | Neural

  /** The identifier string the source uses for each mode. */
  function ModeName(m: ModeId): string
  {
    match m
    case Explorer => "explorer"
    case Focus => "focus"
    case Flow => "flow"
    case Neural => "neural"
  }

  /** The mode a key of `MODE_CONFIGS` names, if any. */
  function ParseModeName(s: string): (r: Option<ModeId>)
    ensures r.Some? ==> ModeName(r.value) == s
  {
    if s == "explorer" then Some(Explorer)
    else if s == "focus" then Some(Focus)
    else if s == "flow" then Some(Flow)
    else if s == "neural" then Some(Neural)
    else None
  }

  lemma ParseModeNameRoundTrip(m: ModeId)
    ensures ParseModeName(ModeName(m)) == Some(m)
  {
  }

  datatype Colors = Colors(primary: string, secondary: string, tertiary: string,
                           background: string, accent: string)
  /** Transition duration and stagger delay in seconds, and a CSS easing curve. */
  datatype Timing = Timing(transitionDuration: real, easing: string, staggerDelay: real)
  datatype Vector3 = Vector3(x: real, y: real, z: real)
  datatype Camera = Camera(fov: real, position: Vector3, rotation: Vector3)
  datatype Particles = Particles(count: nat, size: real, speed: real, spread: real)
  datatype ModeConfig = ModeConfig(colors: Colors, timing: Timing, visual: Params,
                                   camera: Camera, particles: Particles)

  function VisualBundle(brightness: real, contrast: real, saturation: real, bloom: real, vignette: real): Params
  {
    map["brightness" := brightness, "contrast" := contrast, "saturation" := saturation,
        "bloom" := bloom, "vignette" := vignette]
  }

  /** Every colour of the table is one `hexToRgb` accepts. */
  predicate ColorsParse(c: Colors)
  {
    && Helpers.IsHexColor(c.primary) && Helpers.IsHexColor(c.secondary) && Helpers.IsHexColor(c.tertiary)
    && Helpers.IsHexColor(c.background) && Helpers.IsHexColor(c.accent)
  }

  /**
   * The `MODE_CONFIGS` table. Every entry sets the same five visual
   * parameters, all of them keys of the initial visual state, its transition
   * outlasts the settle delay, and its camera looks straight ahead.
   */
  function Config(m: ModeId): (c: ModeConfig)
    ensures c.visual.Keys == {"brightness", "contrast", "saturation", "bloom", "vignette"}
    ensures c.visual.Keys <= InitialVisual.Keys
    ensures SettleDelayMs < c.timing.transitionDuration * 1000.0
    ensures c.camera.rotation == Vector3(0.0, 0.0, 0.0) && c.particles.count > 0
  {
    match m
    case Explorer =>
      ModeConfig(Colors("#00ffff", "#0088ff", "#00ccff", "#0a0a15", "#00ffaa"),
                 Timing(1.2, "cubic-bezier(0.4, 0.0, 0.2, 1)", 0.05),
                 VisualBundle(1.1, 1.0, 1.2, 0.4, 0.1),
                 Camera(75.0, Vector3(0.0, 0.0, 5.0), Vector3(0.0, 0.0, 0.0)),
                 Particles(1000, 1.5, 0.5, 10.0))
    case Focus =>
      ModeConfig(Colors("#ff00ff", "#cc00ff", "#ff00cc", "#0f0a15", "#ff0088"),
                 Timing(0.8, "cubic-bezier(0.6, 0.0, 0.4, 1)", 0.03),
                 VisualBundle(0.9, 1.3, 0.9, 0.2, 0.3),
                 Camera(60.0, Vector3(0.0, 0.0, 3.0), Vector3(0.0, 0.0, 0.0)),
                 Particles(500, 1.0, 0.2, 5.0))
    case Flow =>
      ModeConfig(Colors("#ffff00", "#ffcc00", "#ffaa00", "#15120a", "#ff8800"),
                 Timing(1.5, "cubic-bezier(0.3, 0.0, 0.3, 1)", 0.08),
                 VisualBundle(1.0, 1.1, 1.1, 0.5, 0.15),
                 Camera(80.0, Vector3(0.0, 0.0, 6.0), Vector3(0.0, 0.0, 0.0)),
                 Particles(1500, 2.0, 0.7, 15.0))
    case Neural =>
      ModeConfig(Colors("#00ff88", "#00ffaa", "#00ffcc", "#0a1510", "#00ff66"),
                 Timing(1.0, "cubic-bezier(0.5, 0.0, 0.5, 1)", 0.04),
                 VisualBundle(1.0, 1.2, 1.0, 0.35, 0.2),
                 Camera(70.0, Vector3(0.0, 0.0, 4.0), Vector3(0.0, 0.0, 0.0)),
                 Particles(800, 1.2, 0.3, 8.0))
  }

  /** Every colour of the table parses with `hexToRgb`. */
  lemma ConfigColorsParse(m: ModeId)
    ensures ColorsParse(Config(m).colors)
  {
    match m
    case Explorer => PaletteParses("#00ffff", "#0088ff", "#00ccff", "#0a0a15", "#00ffaa");
    case Focus => PaletteParses("#ff00ff", "#cc00ff", "#ff00cc", "#0f0a15", "#ff0088");
    case Flow => PaletteParses("#ffff00", "#ffcc00", "#ffaa00", "#15120a", "#ff8800");
    case Neural => PaletteParses("#00ff88", "#00ffaa", "#00ffcc", "#0a1510", "#00ff66");
  }

  lemma PaletteParses(p: string, s: string, t: string, b: string, a: string)
    requires HashHex(p) && HashHex(s) && HashHex(t) && HashHex(b) && HashHex(a)
    ensures ColorsParse(Colors(p, s, t, b, a))
  {
    HashHexParses(p);
    HashHexParses(s);
    HashHexParses(t);
    HashHexParses(b);
    HashHexParses(a);
  }

  /** `#` and six characters from 0-9 and a-f, spelled out: the palette's notation. */
  predicate HashHex(h: string)
  {
    && |h| == 7 && h[0] == '#'
    && Helpers.IsLowerHexDigit(h[1]) && Helpers.IsLowerHexDigit(h[2]) && Helpers.IsLowerHexDigit(h[3])
    && Helpers.IsLowerHexDigit(h[4]) && Helpers.IsLowerHexDigit(h[5]) && Helpers.IsLowerHexDigit(h[6])
  }

  lemma HashHexParses(h: string)
    requires HashHex(h)
    ensures Helpers.IsHexColor(h)
  {
  }

  /** Delay, in milliseconds, between accepting a switch and committing it. */
  const SettleDelayMs: real := 100.0

  /** `config.timing.transitionDuration * 1000`: when the flag is cleared. */
  function TransitionMs(m: ModeId): (ms: real)
    ensures ms == (match m case Explorer => 1200.0 case Focus => 800.0
                           case Flow => 1500.0 case Neural => 1000.0)
  {
    Config(m).timing.transitionDuration * 1000.0
  }

  /** Every mode's transition outlasts the settle delay, so the commit always fires first. */
  lemma CommitPrecedesFinish(m: ModeId)
    ensures SettleDelayMs < TransitionMs(m)
  {
  }

  /**
   * A mode's visual bundle only overrides keys the initial visual state
   * already has, so switching never adds a visual parameter and leaves
   * hue, noise and grain alone.
   */
  lemma VisualBundleWithinVisualState(m: ModeId, visual: Params)
    requires visual.Keys == InitialVisual.Keys
    ensures Merge(visual, Config(m).visual).Keys == InitialVisual.Keys
    ensures forall k :: k in ["hue", "noise", "grain"] ==> Merge(visual, Config(m).visual)[k] == visual[k]
  {
  }

  /**
   * `getModeConfig(mode)`: `MODE_CONFIGS[mode || currentMode]`. An absent or
   * empty argument selects the current mode; a key outside the table gives
   * `undefined` (None).
   */
  function GetModeConfig(mode: Option<string>, current: ModeId): (r: Option<ModeConfig>)
    ensures mode.None? || mode == Some("") ==> r == Some(Config(current))
    ensures forall m :: mode == Some(ModeName(m)) ==> r == Some(Config(m))
    ensures r.None? <==> mode.Some? && mode.value != "" && ParseModeName(mode.value).None?
  {
    var key := if mode.None? || mode.value == "" then ModeName(current) else mode.value;
    match ParseModeName(key)
    case Some(m) => Some(Config(m))
    case None => None
  }

  /**
   * `suggestMode()`: the four threshold regions are pairwise disjoint, so
   * each mode is characterised on its own, without the "otherwise" of the
   * if/else chain.
   */
  function SuggestMode(engagement: real, intentClarity: real): (r: ModeId)
    ensures r == Focus <==> engagement > 0.8 && intentClarity > 0.7
    ensures r == Flow <==> engagement > 0.6 && intentClarity < 0.5
    ensures r == Neural <==> engagement < 0.4
    ensures r == Explorer <==> (&& 0.4 <= engagement
                                && !(engagement > 0.8 && intentClarity > 0.7)
                                && !(engagement > 0.6 && intentClarity < 0.5))
  {
    if engagement > 0.8 && intentClarity > 0.7 then Focus
    else if engagement > 0.6 && intentClarity < 0.5 then Flow
    else if engagement < 0.4 then Neural
    else Explorer
  }

  lemma SuggestModeExamples()
    ensures SuggestMode(0.85, 0.75) == Focus
    ensures SuggestMode(0.65, 0.3) == Flow
    ensures SuggestMode(0.3, 0.9) == Neural
    ensures SuggestMode(0.7, 0.6) == Explorer
  {
  }

  /** The timer still to fire for a switch in progress. */
  datatype Pending = NoTimer | CommitDue(target: ModeId) | FinishDue(target: ModeId)

  /** The mode the engine is heading for: the pending target, else the current mode. */
  function Destination(current: ModeId, pending: Pending): ModeId
  {
    if pending.NoTimer? then current else pending.target
  }

  /** `ModeProvider`'s state: `currentMode`, `isTransitioning` and `modeHistory`. */
  class Engine {
    var currentMode: ModeId
    var isTransitioning: bool
    var modeHistory: seq<ModeId>
    var pending: Pending
    /** The store whose visual state a commit patches. */
    const store: Store

    /**
     * The flag is set exactly while a timer is pending, the history ends with
     * where the engine is heading, a pending commit leads to a different mode
     * and a pending finish follows a commit.
     */
    ghost predicate Valid()
      reads this
    {
      && |modeHistory| >= 1
      && isTransitioning == !pending.NoTimer?
      && modeHistory[|modeHistory| - 1] == Destination(currentMode, pending)
      && (pending.CommitDue? ==> pending.target != currentMode)
      && (pending.FinishDue? ==> pending.target == currentMode)
    }

    constructor (store: Store)
      ensures Valid() && this.store == store
      ensures currentMode == Explorer && !isTransitioning && modeHistory == [Explorer]
      ensures pending == NoTimer
    {
      this.store := store;
      currentMode := Explorer;
      isTransitioning := false;
      modeHistory := [Explorer];
      pending := NoTimer;
    }

    /**
     * `switchMode(newMode)`: ignored when it names the current mode or a
     * transition is in progress; otherwise raises the flag, appends the
     * target to the history and schedules the commit.
     */
    method SwitchMode(newMode: ModeId)
      requires Valid()
      modifies this
      ensures Valid()
      ensures old(isTransitioning) || newMode == old(currentMode) ==>
        currentMode == old(currentMode) && isTransitioning == old(isTransitioning)
        && modeHistory == old(modeHistory) && pending == old(pending)
      ensures !old(isTransitioning) && newMode != old(currentMode) ==>
        currentMode == old(currentMode) && isTransitioning
        && modeHistory == old(modeHistory) + [newMode] && pending == CommitDue(newMode)
    {
      if newMode == currentMode || isTransitioning {
        return;
      }
      isTransitioning := true;
      modeHistory := modeHistory + [newMode];
      pending := CommitDue(newMode);
    }

    /**
     * The callback fired 100 ms after an accepted switch: makes the target
     * current and merges its visual bundle into the store's visual state.
     */
    method Commit()
      requires Valid()
      modifies this, store
      ensures Valid()
      ensures modeHistory == old(modeHistory) && isTransitioning == old(isTransitioning)
      ensures old(pending).CommitDue? ==>
        currentMode == old(pending).target && pending == FinishDue(old(pending).target)
        && store.visualState == Merge(old(store.visualState), Config(old(pending).target).visual)
        && store.cognitiveState == old(store.cognitiveState)
        && store.systemMetrics == old(store.systemMetrics)
        && store.narrativePhase == old(store.narrativePhase)
      ensures !old(pending).CommitDue? ==> currentMode == old(currentMode) && pending == old(pending)
      ensures !old(pending).CommitDue? ==> unchanged(store)
    {
      if pending.CommitDue? {
        var target := pending.target;
        currentMode := target;
        store.UpdateVisualState(Config(target).visual);
        pending := FinishDue(target);
      }
    }

    /** The callback fired after the target's transition duration: clears the flag. */
    method Finish()
      requires Valid()
      modifies this
      ensures Valid()
      ensures modeHistory == old(modeHistory) && currentMode == old(currentMode)
      ensures old(pending).FinishDue? ==> !isTransitioning && pending == NoTimer
      ensures !old(pending).FinishDue? ==> isTransitioning == old(isTransitioning) && pending == old(pending)
    {
      if pending.FinishDue? {
        isTransitioning := false;
        pending := NoTimer;
      }
    }
  }

  /**
   * Two switches issued before the first one finishes: the second is
   * dropped, and once both timers have fired the engine rests in the first
   * target, with only that target appended to the history.
   */
  method RapidSwitches(e: Engine, a: ModeId, b: ModeId)
    requires e.Valid() && !e.isTransitioning && a != e.currentMode
    modifies e, e.store
    ensures e.Valid() && e.currentMode == a && !e.isTransitioning
    ensures e.modeHistory == old(e.modeHistory) + [a]
  {
    e.SwitchMode(a);
    e.SwitchMode(b);
    e.Commit();
    e.Finish();
  }
}
