# TraceMade core logic in Dafny

This project models the in-memory logic under the TraceMade front end.

- **Mode engine** (`Modes`). Four fixed mode configurations and a guarded mode switch. Its two deferred steps are explicit methods: `Commit` fires 100 ms after an accepted switch, and `Finish` fires after the target's transition duration. Also the configuration lookup and the advisory mode suggestion.
- **Behaviour signal aggregator** (`Behavior`). Four bounded first-in-first-out histories of pointer, scroll, click and hover events, and the scalar signals derived from them: gaze, rhythm, intent clarity, exploration, hesitation and engagement.
- **State store** (`Intelligence`). Three named-parameter maps that change only by shallow merge, and the narrative phase.
- **Utilities** (`Helpers`):
  - linear interpolation, clamping and range mapping;
  - duration formatting;
  - the hex colour parser and printer;
  - colour interpolation.
- **Cellular automaton step** (`Automata`). Conway's Game of Life, rule B3/S23, on a toroidal grid, exactly as the experiments page computes one generation.

`Wrappers` holds the `Option` type used for JavaScript's `null`, `undefined` and non-finite results.

State the source mutates is modelled as classes:

- `Modes.Engine` is the mode provider's state.
- `Behavior.Aggregator` holds the histories and signals.
- `Intelligence.Store` holds the three maps.
- `Automata.Automaton` holds the grid.

Each method's postcondition gives the whole new state in terms of specification functions. The lemmas prove what the source promises about those functions.

Integers and JavaScript numbers are modelled as mathematical integers and reals. Where JavaScript semantics matter, they are written out:

- 32-bit `<<` is `Helpers.ToInt32`.
- `%` truncates toward zero (`Helpers.JsRem`).
- `toString(16)` prints a '-' before negative values (`Helpers.JsToHex`).
- `Math.round` is floor(x + 0.5).
- `dt || 1` replaces a zero time delta by 1.
- `mode || currentMode` treats a missing or empty argument as the current mode.

## Model

| member | source | states |
|---|---|---|
| Helpers.LerpEndpoints | src/utils/helpers.js:1-3 | lerp(a, b, 0) = a and lerp(a, b, 1) = b |
| Helpers.LerpBetween | src/utils/helpers.js:1-3 | for t in [0, 1] the interpolant lies between min(a, b) and max(a, b) |
| Helpers.Lerp | src/utils/helpers.js:1-3 | t = 0 gives the start, t = 1 the end, and equal endpoints give that value for every t |
| Helpers.Clamp | src/utils/helpers.js:5-7 | if min <= max the result lies in [min, max]; it equals the value when the value is already in range, min below the range and max above it; if min > max it is max |
| Helpers.ClampIdempotent | src/utils/helpers.js:5-7 | clamping twice is clamping once |
| Helpers.MapRange | src/utils/helpers.js:9-11 | undefined (None) exactly when inMin = inMax; otherwise inMin maps to outMin and inMax to outMax |
| Helpers.Normalize | src/utils/helpers.js:13-15 | undefined exactly when min = max; otherwise min maps to 0 and max to 1 |
| Helpers.MapIsLerpOfNormalize | src/utils/helpers.js:1-15 | map(v, a, b, c, d) = lerp(c, d, normalize(v, a, b)) whenever a != b |
| Helpers.MapRoundTrip | src/utils/helpers.js:9-11 | mapping [a, b] to [c, d] and back returns the original value (both ranges non-degenerate) |
| Helpers.NatToString | src/utils/helpers.js:76-82 | the decimal rendering of a number in a template literal is a non-empty string of digits |
| Helpers.DecimalValueOfNatToString | src/utils/helpers.js:76-82 | the decimal rendering reads back as the same number |
| Helpers.IntToString | src/utils/helpers.js:76-82 | a number in a template literal renders as a non-empty string without spaces, the decimal digits for a non-negative number |
| Helpers.FormatTime | src/utils/helpers.js:71-83 | for every input the result is at least two characters; it ends in 'm' exactly when there is at least one hour, and holds a space exactly when there is at least one hour or one minute |
| Helpers.PartsOfNonNegative | src/utils/helpers.js:71-74 | for seconds >= 0, hours, minutes and secs are the base-60 digits of floor(seconds): minutes and secs in 0..59, and h*3600 + m*60 + s = floor(seconds) |
| Helpers.FormatTimeShape | src/utils/helpers.js:71-83 | for seconds >= 0 the output is "Hh Mm" from one hour on, "Mm Ss" from one minute on, and "Ss" below that, with the digit values spelled out |
| Helpers.ParseHexPair | src/utils/helpers.js:99-101 | parseInt of two hex digits lies in 0..255 |
| Helpers.HexToRgb | src/utils/helpers.js:95-104 | a colour is returned exactly when the input is an optional '#' followed by six hex digits in either case; every component lies in 0..255 |
| Helpers.HexToRgbPairs | src/utils/helpers.js:95-104 | an accepted colour yields the values of its three digit pairs, with or without '#' |
| Helpers.ToInt32 | src/utils/helpers.js:107 | the 32-bit conversion applied by `<<` lies in the signed 32-bit range and is congruent to its argument modulo 2^32 |
| Helpers.ShiftLeftSmall | src/utils/helpers.js:107 | a shift whose result stays in the non-negative 32-bit range is multiplication by the power of two |
| Helpers.HexString | src/utils/helpers.js:107 | toString(16) of a non-negative number is non-empty lower-case hex digits |
| Helpers.JsToHex | src/utils/helpers.js:107 | toString(16) starts with '-' exactly for a negative number; every other character is a lower-case hex digit |
| Helpers.PackedValue | src/utils/helpers.js:107 | for components in 0..255, (1 << 24) + (r << 16) + (g << 8) + b = 0x1rrggbb |
| Helpers.HexStringAppendByte | src/utils/helpers.js:107 | toString(16) of 256*q + x is toString(16) of q followed by the two digits of the byte x |
| Helpers.HexStringOfPacked | src/utils/helpers.js:107 | toString(16) of 0x1rrggbb is '1' followed by the digit pairs of r, g and b |
| Helpers.RgbToHex | src/utils/helpers.js:106-108 | for any integer components the result is '#' followed by lower-case hex digits |
| Helpers.RgbToHexDigits | src/utils/helpers.js:106-108 | for components in 0..255, rgbToHex is '#' followed by the two lower-case digits of each component |
| Helpers.RgbToHexWellFormed | src/utils/helpers.js:106-108 | for components in 0..255 the result is seven characters: '#' and six lower-case hex digits |
| Helpers.ParseByteDigits | src/utils/helpers.js:95-108 | parsing the two digits printed for a byte gives the byte back |
| Helpers.HexRoundTrip | src/utils/helpers.js:95-108 | hexToRgb(rgbToHex(r, g, b)) = {r, g, b} for components in 0..255 |
| Helpers.RgbOfHexRoundTrip | src/utils/helpers.js:95-108 | for every accepted colour, rgbToHex(hexToRgb(hex)) is hex in the canonical '#rrggbb' lower-case spelling |
| Helpers.InterpolateUnparsable | src/utils/helpers.js:114-118 | if either colour fails to parse, interpolateColor returns the first colour unchanged |
| Helpers.InterpolateColor | src/utils/helpers.js:114-125 | if either colour fails to parse the first is returned unchanged; otherwise the result is '#' followed by lower-case hex digits, for any factor |
| Helpers.RoundOfInt | src/utils/helpers.js:120-122 | Math.round leaves a whole number unchanged |
| Helpers.RoundBetween | src/utils/helpers.js:120-122 | Math.round of a value between two integers stays between them |
| Helpers.InterpolateAtZero | src/utils/helpers.js:114-125 | factor 0 yields the first colour in canonical lower-case '#rrggbb' spelling |
| Helpers.InterpolateAtOne | src/utils/helpers.js:114-125 | factor 1 yields the second colour in canonical lower-case '#rrggbb' spelling |
| Helpers.InterpolateIsColor | src/utils/helpers.js:114-125 | for factors in [0, 1] the blend of two colours is a valid lower-case '#rrggbb' colour |
| Intelligence.Merge | src/context/IntelligenceContext.jsx:46-48 | the merged map has the union of the keys; patch keys take the patch value and all other keys keep their old value |
| Intelligence.MergeEmpty | src/context/IntelligenceContext.jsx:43 | merging an empty patch is the identity |
| Intelligence.MergeIdempotent | src/context/IntelligenceContext.jsx:47 | applying the same patch twice equals applying it once |
| Intelligence.MergeCompose | src/context/IntelligenceContext.jsx:47 | two successive patches equal one patch in which the later keys win |
| Intelligence.MergeKeepsKeys | src/context/IntelligenceContext.jsx:46-48 | a patch over existing keys adds no key |
| Intelligence.Store.constructor | src/context/IntelligenceContext.jsx:14-40 | the initial cognitive, visual and metrics maps and the phase 'initialization' are the listed literals |
| Intelligence.Store.UpdateCognitiveState | src/context/IntelligenceContext.jsx:42-44 | the cognitive map becomes the merge of the patch; the other maps and the phase are unchanged |
| Intelligence.Store.UpdateVisualState | src/context/IntelligenceContext.jsx:46-48 | the visual map becomes the merge of the patch; the other maps and the phase are unchanged |
| Intelligence.Store.ProgressNarrative | src/context/IntelligenceContext.jsx:50-52 | only the narrative phase is replaced |
| Intelligence.Store.UpdateMetrics | src/context/IntelligenceContext.jsx:54-56 | the metrics map becomes the merge of the patch; the other maps and the phase are unchanged |
| Modes.ParseModeName | src/context/ModeContext.jsx:15-144 | a key found in the configuration table is the name of the mode it selects |
| Modes.ParseModeNameRoundTrip | src/context/ModeContext.jsx:15-144 | each mode's name looks up that mode |
| Modes.Config | src/context/ModeContext.jsx:15-144 | every entry sets exactly brightness, contrast, saturation, bloom and vignette, all keys of the initial visual state; its transition lasts longer than the 100 ms settle delay; its camera rotation is zero and its particle count positive |
| Modes.ConfigColorsParse | src/context/ModeContext.jsx:15-144 | every colour of the table is one hexToRgb accepts |
| Modes.TransitionMs | src/context/ModeContext.jsx:169 | the flag-clearing delay is 1200, 800, 1500 and 1000 ms for explorer, focus, flow and neural |
| Modes.CommitPrecedesFinish | src/context/ModeContext.jsx:162-169 | every transition duration exceeds the 100 ms settle delay, so the commit fires before the finish |
| Modes.VisualBundleWithinVisualState | src/context/ModeContext.jsx:164 | merging a mode's visual bundle into a visual state with the initial keys keeps the key set and leaves hue, noise and grain untouched |
| Modes.GetModeConfig | src/context/ModeContext.jsx:172-174 | a missing or empty argument gives the current mode's configuration, a mode's name gives that mode's configuration, and the result is undefined exactly for any other key |
| Modes.SuggestMode | src/context/ModeContext.jsx:176-186 | focus iff engagement > 0.8 and clarity > 0.7; flow iff engagement > 0.6 and clarity < 0.5; neural iff engagement < 0.4; explorer iff none of these holds |
| Modes.SuggestModeExamples | src/context/ModeContext.jsx:176-186 | sample inputs for each of the four regions |
| Modes.Engine.constructor | src/context/ModeContext.jsx:147-149 | the engine starts in explorer, not transitioning, with history [explorer] |
| Modes.Engine.SwitchMode | src/context/ModeContext.jsx:154-158 | a request for the current mode, or during a transition, changes nothing; otherwise the flag is raised, exactly the target is appended to the history and the commit is scheduled |
| Modes.Engine.Commit | src/context/ModeContext.jsx:162-165 | a due commit makes the target current and merges its visual bundle into the store's visual state, leaving the store's other fields alone; the history and the flag are unchanged |
| Modes.Engine.Finish | src/context/ModeContext.jsx:167-169 | a due finish clears the flag; nothing else changes |
| Modes.RapidSwitches | src/context/ModeContext.jsx:154-170 | a second switch issued before the first finishes is dropped: the engine ends in the first target, with only that target appended |
| Behavior.Recent | src/context/BehaviorContext.jsx:28-31 | the window is the last min(n, cap) arrivals in arrival order |
| Behavior.PushBoundedIsRecent | src/context/BehaviorContext.jsx:28-31 | a push followed by at most one shift keeps the history equal to the most recent cap arrivals |
| Behavior.PushBounded | src/context/BehaviorContext.jsx:28-31 | with a positive cap the newest entry is the pushed one; a history within the cap stays within it; below the cap the push is a plain append |
| Behavior.SumAbsDelta | src/context/BehaviorContext.jsx:56 | the sum of absolute scroll deltas is non-negative |
| Behavior.Rhythm | src/context/BehaviorContext.jsx:56-57 | rhythm lies in [0, 1] |
| Behavior.CountRecentClicks | src/context/BehaviorContext.jsx:67 | the count of recent clicks is at most the number stored |
| Behavior.IntentClarity | src/context/BehaviorContext.jsx:67-68 | intent clarity lies in [0, 1] |
| Behavior.NewClickCounts | src/context/BehaviorContext.jsx:62-67 | the click just recorded always counts as recent |
| Behavior.IntentClarityAfterClick | src/context/BehaviorContext.jsx:62-68 | after a click, intent clarity is one of 0.2, 0.4, 0.6, 0.8 and 1 |
| Behavior.IntentClarityAfterPush | src/context/BehaviorContext.jsx:60-68 | the same holds for the history after the push and the shift |
| Behavior.IntentClarityTwoClicks | src/context/BehaviorContext.jsx:67-68 | two clicks within the window give 0.4 |
| Behavior.IntentClarityExpiredClick | src/context/BehaviorContext.jsx:67-68 | a click exactly 5000 ms old no longer counts |
| Behavior.AllClicksRecent | src/context/BehaviorContext.jsx:67 | when every stored click is recent, all of them count |
| Behavior.IntentClaritySixClicks | src/context/BehaviorContext.jsx:67-68 | six recent clicks give 1 |
| Behavior.SumDurationNonNegative | src/context/BehaviorContext.jsx:78 | non-negative durations have a non-negative sum |
| Behavior.Exploration | src/context/BehaviorContext.jsx:78-79 | exploration is at most 1, and at least 0 when no stored duration is negative |
| Behavior.ExplorationCanBeNegative | src/context/BehaviorContext.jsx:78-79 | a hover of -500 ms gives -0.5: there is no lower clamp |
| Behavior.GazeFrom | src/context/BehaviorContext.jsx:33-45 | the gaze position is the newest sample's; intensity = min(velocity / 2, 1) <= 1 for the reported velocity, and >= 0 when time runs forward; the velocity itself, 1000 × distance / dt with a zero dt taken as 1, is stated by Behavior.GazeZeroDelta and Behavior.GazeNonZeroDelta |
| Behavior.GazeZeroDelta | src/context/BehaviorContext.jsx:37-40 | when the two samples share a timestamp (dt = 0), the delta is taken as 1 ms: velocity = 1000 × distance and intensity = min(500 × distance, 1) |
| Behavior.GazeNonZeroDelta | src/context/BehaviorContext.jsx:37-40 | with a non-zero delta, velocity = 1000 × distance / dt |
| Behavior.StepDistances | src/context/BehaviorContext.jsx:86-91 | n samples give n - 1 step distances |
| Behavior.ComputeStepDistances | src/context/BehaviorContext.jsx:86-91 | the loop builds exactly the distances between consecutive samples |
| Behavior.SumSquaredDeviation | src/context/BehaviorContext.jsx:94 | the sum of squared deviations is non-negative |
| Behavior.Variance | src/context/BehaviorContext.jsx:93-94 | the variance is non-negative |
| Behavior.HesitationScore | src/context/BehaviorContext.jsx:93-95 | the hesitation score lies in [0, 1] |
| Behavior.EvenStepsNoHesitation | src/context/BehaviorContext.jsx:93-95 | perfectly even steps give a score of 0 |
| Behavior.SumOfConstant | src/context/BehaviorContext.jsx:93 | the sum of n equal distances d is n*d |
| Behavior.DeviationOfConstant | src/context/BehaviorContext.jsx:94 | equal distances have no deviation from their own value |
| Behavior.Engagement | src/context/BehaviorContext.jsx:100-103 | engagement lies in [0, 1] whenever its four inputs do |
| Behavior.EngagementExample | src/context/BehaviorContext.jsx:101-102 | inputs 0.8, 0.6, 0.4 and 0.2 give 0.65 |
| Behavior.Aggregator.constructor | src/context/BehaviorContext.jsx:14-24 | the initial signals 0.5, 0.3, 0.6, 0.2 and 0.7, a zero gaze, and four empty histories |
| Behavior.Aggregator.TrackMouse | src/context/BehaviorContext.jsx:26-47 | the mouse history is pushed and capped at 100; the gaze is recomputed only from three samples on; nothing else changes |
| Behavior.Aggregator.TrackScroll | src/context/BehaviorContext.jsx:49-58 | the scroll history is pushed and capped at 50; rhythm is recomputed and lies in [0, 1]; nothing else changes |
| Behavior.Aggregator.TrackClick | src/context/BehaviorContext.jsx:60-69 | the click history is pushed and capped at 20; intent clarity is recomputed and is one of 0.2 to 1; nothing else changes |
| Behavior.Aggregator.TrackHover | src/context/BehaviorContext.jsx:71-80 | the hover history is pushed and capped at 30; exploration is recomputed, at most 1, and non-negative for non-negative durations; nothing else changes |
| Behavior.Aggregator.AnalyzeHesitation | src/context/BehaviorContext.jsx:82-98 | no effect with fewer than 10 samples; otherwise hesitation is the score of the 9 steps among the last 10 samples and stays in [0, 1] |
| Behavior.Aggregator.CalculateEngagement | src/context/BehaviorContext.jsx:100-104 | engagement becomes the mean of clarity, exploration, rhythm and 1 - hesitation; the signals stay in [0, 1] |
| Automata.Dimensions | src/components/ExperimentsZone.jsx:225-227 | the grid has floor(width / 10) columns and floor(height / 10) rows |
| Automata.CanvasDimensions | src/components/ExperimentsZone.jsx:225-227 | the 600 x 400 demo canvas holds a 60 x 40 grid |
| Automata.Wrap | src/components/ExperimentsZone.jsx:240-241 | the wrapped index lies in the grid |
| Automata.NeighborAt | src/components/ExperimentsZone.jsx:239-242 | each offset contributes at most 1, and the cell itself contributes nothing |
| Automata.CountColumn | src/components/ExperimentsZone.jsx:238-243 | one column of offsets contributes at most 3, or at most 2 for the cell's own column |
| Automata.CountBlock | src/components/ExperimentsZone.jsx:237-244 | the bound accumulated over the columns of offsets |
| Automata.LiveNeighbors | src/components/ExperimentsZone.jsx:236-244 | the neighbour count lies in 0..8 |
| Automata.CountNeighbors | src/components/ExperimentsZone.jsx:236-244 | the nested loops count exactly the live cells among the eight wrapped neighbours |
| Automata.NextGeneration | src/components/ExperimentsZone.jsx:234-250 | a step maps a cols x rows grid to a cols x rows grid |
| Automata.LifeRule | src/components/ExperimentsZone.jsx:246-248 | a live cell survives iff it has 2 or 3 neighbours; a dead cell is born iff it has exactly 3 |
| Automata.Rule | src/components/ExperimentsZone.jsx:246-248 | the next state is alive exactly when there are 3 neighbours, or 2 and the cell is alive |
| Automata.ComputeColumn | src/components/ExperimentsZone.jsx:235-249 | the inner map builds the column of the next generation |
| Automata.ComputeNextGeneration | src/components/ExperimentsZone.jsx:234-250 | the outer map builds the next generation, computed from the previous grid alone |
| Automata.DeadStaysDead | src/components/ExperimentsZone.jsx:246-248 | an all-dead grid stays all-dead |
| Automata.WrapLeavesCell | src/components/ExperimentsZone.jsx:240-241 | on a torus at least 2 wide, no non-zero offset wraps back to the cell |
| Automata.NeighborsExcludeSelf | src/components/ExperimentsZone.jsx:236-244 | on a grid of at least 2 x 2, changing a cell leaves its own neighbour count unchanged |
| Automata.SingleCellTorus | src/components/ExperimentsZone.jsx:236-248 | on a 1 x 1 torus every offset wraps onto the cell, so a live cell counts 8 neighbours and dies |
| Automata.OneWideColumn | src/components/ExperimentsZone.jsx:236-244 | on a grid one column wide, the offsets (-1, 0) and (1, 0) wrap onto the cell, so a lone live cell in a 1 x 3 grid counts 2 neighbours |
| Automata.Automaton.constructor | src/components/ExperimentsZone.jsx:225-231 | the grid dimensions and the seed grid |
| Automata.Automaton.Step | src/components/ExperimentsZone.jsx:233-252 | each frame replaces the grid by its next generation |

## Left out

- Rendering, animation, the other demos and all markup: they draw and hold no stated behaviour.
- Randomness: the automaton's random seeding is the constructor's `seed` parameter.
- `Math.sqrt`: the Euclidean distance in `trackMouse` and `analyzeHesitation` is the `norm` parameter. It is assumed non-negative only where a contract says so.
- `Date.now()`: the `now` parameter of each tracking method.
- Timers and intervals: the modes' `setTimeout` steps are the explicit `Commit` and `Finish` methods. The 500 ms and 1000 ms intervals of the aggregator are the `AnalyzeHesitation` and `CalculateEngagement` methods, called by whoever models the clock.
- React plumbing: providers, hooks and re-render timing. Each call sees the latest state. Two switches in one tick that read a stale closure are not modelled.
- Floating point: numbers are exact reals. There is no rounding, NaN or infinity. A division by zero in `map` and `normalize` is `None`.
- Modes.Engine.SwitchMode: takes one of the four mode ids; other strings are not modelled. The only caller passes the four ids. With any other string the source raises the flag and appends to the history. It schedules the 100 ms timer (src/context/ModeContext.jsx:162-165), then throws on `config.timing` at line 169. The timer still fires: the unknown string becomes `currentMode`, and the callback throws on `config.visual`. No timer ever clears `isTransitioning`, so every later switch is ignored.
- Modes.GetModeConfig: a key `MODE_CONFIGS` inherits from `Object.prototype` (such as "toString") gives `None`. Falsy arguments other than a missing one or "" (`null`, `0`, `false`) are not modelled; the argument is `Option<string>`.
- Modes.Engine.Finish: a finish arriving before its commit cannot happen, because `Modes.CommitPrecedesFinish` shows that every duration exceeds the settle delay. There `Finish` leaves the engine unchanged.
- Helpers.FormatTimeShape: stated for non-negative durations only. `FormatTime` itself follows the source on negative input too.
- Helpers.HexRoundTrip: stated for integer components in 0..255. `RgbToHex` models the 32-bit shifts for any integer, but no property is proved outside that range.
- Behavior.GazeFrom: the reported `velocity` field has no stated bound, since it depends on `norm` and on the time delta.
- Behavior.Exploration: not clamped from below, as in the source. It is at least 0 only when the durations are non-negative.
- The float-heavy or browser-bound helpers (`distance2D`, `angle2D`, `randomRange`, `randomInt`, the easing functions, `debounce`, `throttle`, `formatBytes`, `getRandomColor`), the browser hooks, the performance monitor and the inert constants table: they are outside the modelled core.
