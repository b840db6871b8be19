/**
 * The behaviour signal aggregator of src/context/BehaviorContext.jsx: four
 * bounded first-in-first-out histories of pointer, scroll, click and hover
 * events, and the scalar signals derived from them.
 *
 * `Date.now()` is the `now` parameter of each tracking call, and the
 * Euclidean norm `Math.sqrt(dx * dx + dy * dy)` is the `norm` parameter.
 */
module Behavior {
  import opened Helpers

  datatype MouseSample = MouseSample(x: real, y: real, timestamp: int)
  datatype ScrollSample = ScrollSample(scrollY: real, delta: real, timestamp: int)
  /** `target` identifies the clicked element. */
  datatype ClickSample = ClickSample(x: real, y: real, target: string, timestamp: int)
  datatype HoverSample = HoverSample(element: string, duration: real, timestamp: int)
  datatype Gaze = Gaze(x: real, y: real, velocity: real, intensity: real)

  const MouseCap: nat := 100
  const ScrollCap: nat := 50
  const ClickCap: nat := 20
  const HoverCap: nat := 30
  /** How far back, in milliseconds, a click still counts as recent. */
  const ClickWindowMs: int := 5000
  /** How many mouse samples the hesitation analysis looks at. */
  const HesitationWindow: nat := 10

  // ---------------------------------------------------------------------
  // Bounded histories
  // ---------------------------------------------------------------------

  /** The most recent min(|s|, cap) elements of s, in arrival order. */
  function Recent<T>(s: seq<T>, cap: nat): (r: seq<T>)
    ensures |r| == if |s| <= cap then |s| else cap
    ensures forall k :: 0 <= k < |r| ==> r[k] == s[|s| - |r| + k]
  {
    if |s| <= cap then s else s[|s| - cap..]
  }

  /** `push` followed by one `shift` when the cap is exceeded. */
  function PushBounded<T>(h: seq<T>, x: T, cap: nat): (r: seq<T>)
    ensures cap > 0 ==> |r| > 0 && r[|r| - 1] == x
    ensures |h| <= cap ==> |r| <= cap
    ensures |h| < cap ==> r == h + [x]
  {
    var pushed := h + [x];
    if |pushed| > cap then pushed[1..] else pushed
  }

  /** Recording a click leaves intent clarity at one of its five levels. */
  lemma IntentClarityAfterPush(h: seq<ClickSample>, c: ClickSample, now: int)
    requires c.timestamp == now
    ensures IntentClarity(PushBounded(h, c, ClickCap), now) in {0.2, 0.4, 0.6, 0.8, 1.0}
  {
    var r := PushBounded(h, c, ClickCap);
    assert r == r[..|r| - 1] + [c];
    IntentClarityAfterClick(r[..|r| - 1], c, now);
  }

  /**
   * One push-and-shift keeps a history equal to the most recent `cap`
   * arrivals: FIFO eviction of exactly the oldest entry.
   */
  lemma PushBoundedIsRecent<T>(arrivals: seq<T>, x: T, cap: nat)
    requires cap > 0
    ensures PushBounded(Recent(arrivals, cap), x, cap) == Recent(arrivals + [x], cap)
  {
    var a := arrivals + [x];
    if |arrivals| < cap {
      assert Recent(arrivals, cap) == arrivals;
    } else if |arrivals| == cap {
      assert Recent(arrivals, cap) == arrivals;
      assert a[1..] == a[|a| - cap..];
    } else {
      var tail := arrivals[|arrivals| - cap..];
      assert Recent(arrivals, cap) == tail;
      assert tail + [x] == a[|a| - cap - 1..];
      assert (a[|a| - cap - 1..])[1..] == a[|a| - cap..];
    }
  }

  // ---------------------------------------------------------------------
  // Signal formulas (the `reduce` and `filter` expressions)
  // ---------------------------------------------------------------------

  /** `reduce((sum, d) => sum + d, 0)`. */
  function Sum(s: seq<real>): real
  {
    if s == [] then 0.0 else Sum(s[..|s| - 1]) + s[|s| - 1]
  }

  function Abs(x: real): real { if x < 0.0 then -x else x }

  /** `reduce((sum, item) => sum + Math.abs(item.delta), 0)`. */
  function SumAbsDelta(h: seq<ScrollSample>): (r: real)
    ensures r >= 0.0
  {
    if h == [] then 0.0 else SumAbsDelta(h[..|h| - 1]) + Abs(h[|h| - 1].delta)
  }

  /** `Math.min(avgDelta / 100, 1)`: the rhythm signal lies in [0, 1]. */
  function Rhythm(h: seq<ScrollSample>): (r: real)
    requires |h| > 0
    ensures 0.0 <= r <= 1.0
  {
    var avg := SumAbsDelta(h) / (|h| as real);
    Min(avg / 100.0, 1.0)
  }

  /** The number of clicks less than 5000 ms older than `now` (the `filter`). */
  function CountRecentClicks(h: seq<ClickSample>, now: int): (k: nat)
    ensures k <= |h|
  {
    if h == [] then 0
    else CountRecentClicks(h[..|h| - 1], now) + (if now - h[|h| - 1].timestamp < ClickWindowMs then 1 else 0)
  }

  /** `Math.min(recentClicks.length / 5, 1)`. */
  function IntentClarity(h: seq<ClickSample>, now: int): (r: real)
    ensures 0.0 <= r <= 1.0
  {
    Min((CountRecentClicks(h, now) as real) / 5.0, 1.0)
  }

  /** The click just recorded carries timestamp `now`, so it always counts. */
  lemma {:induction false} NewClickCounts(h: seq<ClickSample>, c: ClickSample, now: int)
    requires c.timestamp == now
    ensures CountRecentClicks(h + [c], now) == CountRecentClicks(h, now) + 1
  {
    assert (h + [c])[..|h + [c]| - 1] == h;
  }

  /** After a click, intent clarity is one of 0.2, 0.4, 0.6, 0.8 and 1. */
  lemma IntentClarityAfterClick(h: seq<ClickSample>, c: ClickSample, now: int)
    requires c.timestamp == now
    ensures IntentClarity(h + [c], now) in {0.2, 0.4, 0.6, 0.8, 1.0}
  {
    NewClickCounts(h, c, now);
    var k := CountRecentClicks(h + [c], now);
    assert k >= 1;
    if k >= 5 {
      assert (k as real) / 5.0 >= 1.0;
    }
  }

  /** Two clicks within the window give 0.4. */
  lemma IntentClarityTwoClicks(now: int)
    ensures IntentClarity([ClickSample(0.0, 0.0, "a", now - 1000), ClickSample(0.0, 0.0, "b", now)], now) == 0.4
  {
    var c0, c1 := ClickSample(0.0, 0.0, "a", now - 1000), ClickSample(0.0, 0.0, "b", now);
    assert [c0, c1][..1] == [c0];
    assert [c0][..0] == [];
    assert CountRecentClicks([c0, c1], now) == 2;
  }

  /** A click exactly 5000 ms old no longer counts. */
  lemma IntentClarityExpiredClick(now: int)
    ensures IntentClarity([ClickSample(0.0, 0.0, "a", now - 5000), ClickSample(0.0, 0.0, "b", now)], now) == 0.2
  {
    var c0, c1 := ClickSample(0.0, 0.0, "a", now - 5000), ClickSample(0.0, 0.0, "b", now);
    assert [c0, c1][..1] == [c0];
    assert [c0][..0] == [];
    assert CountRecentClicks([c0, c1], now) == 1;
  }

  /** When every stored click is recent, all of them count. */
  lemma {:induction false} AllClicksRecent(h: seq<ClickSample>, now: int)
    requires forall k :: 0 <= k < |h| ==> now - h[k].timestamp < ClickWindowMs
    ensures CountRecentClicks(h, now) == |h|
  {
    if h != [] {
      AllClicksRecent(h[..|h| - 1], now);
    }
  }

  /** Six recent clicks saturate intent clarity at 1. */
  lemma IntentClaritySixClicks(now: int)
    ensures var c := ClickSample(0.0, 0.0, "a", now); IntentClarity([c, c, c, c, c, c], now) == 1.0
  {
    var c := ClickSample(0.0, 0.0, "a", now);
    AllClicksRecent([c, c, c, c, c, c], now);
  }

  /** `reduce((sum, item) => sum + item.duration, 0)`. */
  function SumDuration(h: seq<HoverSample>): real
  {
    if h == [] then 0.0 else SumDuration(h[..|h| - 1]) + h[|h| - 1].duration
  }

  predicate NonNegativeDurations(h: seq<HoverSample>)
  {
    forall k :: 0 <= k < |h| ==> h[k].duration >= 0.0
  }

  lemma {:induction false} SumDurationNonNegative(h: seq<HoverSample>)
    ensures NonNegativeDurations(h) ==> SumDuration(h) >= 0.0
  {
    if h != [] {
      SumDurationNonNegative(h[..|h| - 1]);
    }
  }

  /**
   * `Math.min(avgDuration / 1000, 1)`: at most 1, and at least 0 only when
   * no stored duration is negative (there is no lower clamp).
   */
  function Exploration(h: seq<HoverSample>): (r: real)
    requires |h| > 0
    ensures r <= 1.0
    ensures NonNegativeDurations(h) ==> r >= 0.0
  {
    SumDurationNonNegative(h);
    Min(SumDuration(h) / (|h| as real) / 1000.0, 1.0)
  }

  /** A single negative hover duration drives exploration below 0. */
  lemma ExplorationCanBeNegative()
    ensures Exploration([HoverSample("e", -500.0, 0)]) == -0.5
  {
    assert [HoverSample("e", -500.0, 0)][..0] == [];
  }

  /**
   * The gaze pattern from the newest sample and the third-newest:
   * `velocity = norm(dx, dy) / (dt || 1)`, reported scaled by 1000, and
   * `intensity = Math.min(velocity * 500, 1)`.
   */
  function GazeFrom(h: seq<MouseSample>, norm: (real, real) -> real): (g: Gaze)
    requires |h| >= 3
    ensures g.x == h[|h| - 1].x && g.y == h[|h| - 1].y
    ensures g.intensity <= 1.0
    ensures g.intensity == Min(g.velocity / 2.0, 1.0)
    ensures var dt := h[|h| - 1].timestamp - h[|h| - 3].timestamp;
      dt >= 0 && norm(h[|h| - 1].x - h[|h| - 3].x, h[|h| - 1].y - h[|h| - 3].y) >= 0.0
      ==> 0.0 <= g.intensity
  {
    var newest, oldest := h[|h| - 1], h[|h| - 3];
    var dt := newest.timestamp - oldest.timestamp;
    var divisor := if dt == 0 then 1 else dt;
    var d := norm(newest.x - oldest.x, newest.y - oldest.y);
    var v := d / (divisor as real);
    QuotientNonNegative(d, divisor as real);
    Gaze(newest.x, newest.y, v * 1000.0, Min(v * 500.0, 1.0))
  }

  lemma QuotientNonNegative(x: real, y: real)
    requires y != 0.0
    ensures x >= 0.0 && y > 0.0 ==> x / y >= 0.0
  {
  }

  /** A zero time delta counts as 1 ms (`dt || 1`): the velocity is 1000 times the distance. */
  lemma GazeZeroDelta(h: seq<MouseSample>, norm: (real, real) -> real)
    requires |h| >= 3 && h[|h| - 1].timestamp == h[|h| - 3].timestamp
    ensures var d := norm(h[|h| - 1].x - h[|h| - 3].x, h[|h| - 1].y - h[|h| - 3].y);
      GazeFrom(h, norm).velocity == 1000.0 * d && GazeFrom(h, norm).intensity == Min(500.0 * d, 1.0)
  {
  }

  /** Otherwise the velocity is 1000 times the distance per millisecond elapsed. */
  lemma GazeNonZeroDelta(h: seq<MouseSample>, norm: (real, real) -> real)
    requires |h| >= 3 && h[|h| - 1].timestamp != h[|h| - 3].timestamp
    ensures var d := norm(h[|h| - 1].x - h[|h| - 3].x, h[|h| - 1].y - h[|h| - 3].y);
      var dt := h[|h| - 1].timestamp - h[|h| - 3].timestamp;
      GazeFrom(h, norm).velocity == 1000.0 * (d / dt as real)
  {
  }

  /** The distances between consecutive samples of `recent`. */
  function StepDistances(recent: seq<MouseSample>, norm: (real, real) -> real): (ds: seq<real>)
    requires |recent| >= 1
    ensures |ds| == |recent| - 1
  {
    seq(|recent| - 1, k requires 0 <= k < |recent| - 1 =>
      norm(recent[k + 1].x - recent[k].x, recent[k + 1].y - recent[k].y))
  }

  /** The `for` loop of `analyzeHesitation` that builds `distances`. */
  method ComputeStepDistances(recent: seq<MouseSample>, norm: (real, real) -> real) returns (distances: seq<real>)
    requires |recent| >= 1
    ensures distances == StepDistances(recent, norm)
  {
    distances := [];
    for i := 1 to |recent|
      invariant |distances| == i - 1
      invariant forall k :: 0 <= k < i - 1 ==> distances[k] == StepDistances(recent, norm)[k]
    {
      var dx := recent[i].x - recent[i - 1].x;
      var dy := recent[i].y - recent[i - 1].y;
      distances := distances + [norm(dx, dy)];
    }
  }

  /** `reduce((sum, d) => sum + Math.pow(d - mean, 2), 0)`. */
  function SumSquaredDeviation(ds: seq<real>, mean: real): (r: real)
    ensures r >= 0.0
  {
    if ds == [] then 0.0
    else
      var e := ds[|ds| - 1] - mean;
      SquareNonNegative(e);
      SumSquaredDeviation(ds[..|ds| - 1], mean) + e * e
  }

  lemma SquareNonNegative(x: real)
    ensures x * x >= 0.0
  {
    if x >= 0.0 { MulNonNegative(x, x); } else { MulNonNegative(-x, -x); }
  }

  function Mean(ds: seq<real>): real
    requires |ds| > 0
  {
    Sum(ds) / (|ds| as real)
  }

  /** The population variance of the step distances. */
  function Variance(ds: seq<real>): (v: real)
    requires |ds| > 0
    ensures v >= 0.0
  {
    SumSquaredDeviation(ds, Mean(ds)) / (|ds| as real)
  }

  /** `Math.min(variance / 1000, 1)`: the hesitation score lies in [0, 1]. */
  function HesitationScore(ds: seq<real>): (r: real)
    requires |ds| > 0
    ensures 0.0 <= r <= 1.0
  {
    Min(Variance(ds) / 1000.0, 1.0)
  }

  /** Perfectly even steps show no hesitation at all. */
  lemma {:induction false} EvenStepsNoHesitation(ds: seq<real>, d: real)
    requires |ds| > 0 && forall k :: 0 <= k < |ds| ==> ds[k] == d
    ensures HesitationScore(ds) == 0.0
  {
    SumOfConstant(ds, d);
    assert Mean(ds) == d;
    DeviationOfConstant(ds, d);
  }

  lemma {:induction false} SumOfConstant(ds: seq<real>, d: real)
    requires forall k :: 0 <= k < |ds| ==> ds[k] == d
    ensures Sum(ds) == (|ds| as real) * d
  {
    if ds != [] {
      SumOfConstant(ds[..|ds| - 1], d);
    }
  }

  lemma {:induction false} DeviationOfConstant(ds: seq<real>, d: real)
    requires forall k :: 0 <= k < |ds| ==> ds[k] == d
    ensures SumSquaredDeviation(ds, d) == 0.0
  {
    if ds != [] {
      DeviationOfConstant(ds[..|ds| - 1], d);
    }
  }

  /** `(intentClarity + exploration + rhythm + (1 - hesitation)) / 4`. */
  function Engagement(intentClarity: real, exploration: real, rhythm: real, hesitation: real): (e: real)
    ensures (&& 0.0 <= intentClarity <= 1.0 && 0.0 <= exploration <= 1.0
             && 0.0 <= rhythm <= 1.0 && 0.0 <= hesitation <= 1.0) ==> 0.0 <= e <= 1.0
  {
    (intentClarity + exploration + rhythm + (1.0 - hesitation)) / 4.0
  }

  lemma EngagementExample()
    ensures Engagement(0.8, 0.6, 0.4, 0.2) == 0.65
  {
  }

  predicate InUnit(x: real) { 0.0 <= x <= 1.0 }

  // ---------------------------------------------------------------------
  // The aggregator
  // ---------------------------------------------------------------------

  class Aggregator {
    var gazePattern: Gaze
    var intentClarity: real
    var exploration: real
    var rhythm: real
    var hesitation: real
    var engagement: real

    var mouseHistory: seq<MouseSample>
    var scrollHistory: seq<ScrollSample>
    var clickHistory: seq<ClickSample>
    var hoverHistory: seq<HoverSample>

    /** Every event ever tracked, oldest first. */
    ghost var mouseArrivals: seq<MouseSample>
    ghost var scrollArrivals: seq<ScrollSample>
    ghost var clickArrivals: seq<ClickSample>
    ghost var hoverArrivals: seq<HoverSample>

    /** Each history holds exactly the most recent `cap` arrivals. */
    ghost predicate Valid()
      reads this
    {
      && mouseHistory == Recent(mouseArrivals, MouseCap)
      && scrollHistory == Recent(scrollArrivals, ScrollCap)
      && clickHistory == Recent(clickArrivals, ClickCap)
      && hoverHistory == Recent(hoverArrivals, HoverCap)
    }

    /** The five behavioural signals all lie in [0, 1]. */
    predicate SignalsInUnit()
      reads this
    {
      InUnit(intentClarity) && InUnit(exploration) && InUnit(rhythm)
      && InUnit(hesitation) && InUnit(engagement)
    }

    constructor ()
      ensures Valid() && SignalsInUnit()
      ensures gazePattern == Gaze(0.0, 0.0, 0.0, 0.0)
      ensures intentClarity == 0.5 && exploration == 0.3 && rhythm == 0.6
      ensures hesitation == 0.2 && engagement == 0.7
      ensures mouseHistory == [] && scrollHistory == [] && clickHistory == [] && hoverHistory == []
    {
      gazePattern := Gaze(0.0, 0.0, 0.0, 0.0);
      intentClarity, exploration, rhythm := 0.5, 0.3, 0.6;
      hesitation, engagement := 0.2, 0.7;
      mouseHistory, scrollHistory, clickHistory, hoverHistory := [], [], [], [];
      mouseArrivals, scrollArrivals, clickArrivals, hoverArrivals := [], [], [], [];
    }

    /** `trackMouse(x, y)` */
    method TrackMouse(x: real, y: real, now: int, norm: (real, real) -> real)
      requires Valid()
      modifies this
      ensures Valid()
      ensures mouseArrivals == old(mouseArrivals) + [MouseSample(x, y, now)]
      ensures mouseHistory == PushBounded(old(mouseHistory), MouseSample(x, y, now), MouseCap)
      ensures |mouseHistory| <= MouseCap
      ensures gazePattern == if |mouseHistory| > 2 then GazeFrom(mouseHistory, norm) else old(gazePattern)
      ensures intentClarity == old(intentClarity) && exploration == old(exploration)
      ensures rhythm == old(rhythm) && hesitation == old(hesitation) && engagement == old(engagement)
      ensures scrollHistory == old(scrollHistory) && clickHistory == old(clickHistory)
      ensures hoverHistory == old(hoverHistory)
      ensures scrollArrivals == old(scrollArrivals) && clickArrivals == old(clickArrivals)
      ensures hoverArrivals == old(hoverArrivals)
    {
      var sample := MouseSample(x, y, now);
      PushBoundedIsRecent(mouseArrivals, sample, MouseCap);
      mouseArrivals := mouseArrivals + [sample];
      mouseHistory := mouseHistory + [sample];
      if |mouseHistory| > MouseCap {
        mouseHistory := mouseHistory[1..];
      }
      assert mouseHistory == PushBounded(old(mouseHistory), sample, MouseCap);
      if |mouseHistory| > 2 {
        gazePattern := GazeFrom(mouseHistory, norm);
      }
    }

    /** `trackScroll(scrollY, delta)` */
    method TrackScroll(scrollY: real, delta: real, now: int)
      requires Valid()
      modifies this
      ensures Valid()
      ensures scrollArrivals == old(scrollArrivals) + [ScrollSample(scrollY, delta, now)]
      ensures scrollHistory == PushBounded(old(scrollHistory), ScrollSample(scrollY, delta, now), ScrollCap)
      ensures 0 < |scrollHistory| <= ScrollCap
      ensures rhythm == Rhythm(scrollHistory) && InUnit(rhythm)
      ensures gazePattern == old(gazePattern) && intentClarity == old(intentClarity)
      ensures exploration == old(exploration) && hesitation == old(hesitation)
      ensures engagement == old(engagement)
      ensures mouseHistory == old(mouseHistory) && clickHistory == old(clickHistory)
      ensures hoverHistory == old(hoverHistory)
      ensures mouseArrivals == old(mouseArrivals) && clickArrivals == old(clickArrivals)
      ensures hoverArrivals == old(hoverArrivals)
      ensures old(SignalsInUnit()) ==> SignalsInUnit()
    {
      var sample := ScrollSample(scrollY, delta, now);
      PushBoundedIsRecent(scrollArrivals, sample, ScrollCap);
      scrollArrivals := scrollArrivals + [sample];
      scrollHistory := scrollHistory + [sample];
      if |scrollHistory| > ScrollCap {
        scrollHistory := scrollHistory[1..];
      }
      assert scrollHistory == PushBounded(old(scrollHistory), sample, ScrollCap);
      rhythm := Rhythm(scrollHistory);
    }

    /** `trackClick(x, y, target)` */
    method TrackClick(x: real, y: real, target: string, now: int)
      requires Valid()
      modifies this
      ensures Valid()
      ensures clickArrivals == old(clickArrivals) + [ClickSample(x, y, target, now)]
      ensures clickHistory == PushBounded(old(clickHistory), ClickSample(x, y, target, now), ClickCap)
      ensures 0 < |clickHistory| <= ClickCap
      ensures intentClarity == IntentClarity(clickHistory, now)
      ensures intentClarity in {0.2, 0.4, 0.6, 0.8, 1.0}
      ensures gazePattern == old(gazePattern) && exploration == old(exploration)
      ensures rhythm == old(rhythm) && hesitation == old(hesitation)
      ensures engagement == old(engagement)
      ensures mouseHistory == old(mouseHistory) && scrollHistory == old(scrollHistory)
      ensures hoverHistory == old(hoverHistory)
      ensures mouseArrivals == old(mouseArrivals) && scrollArrivals == old(scrollArrivals)
      ensures hoverArrivals == old(hoverArrivals)
      ensures old(SignalsInUnit()) ==> SignalsInUnit()
    {
      var sample := ClickSample(x, y, target, now);
      PushBoundedIsRecent(clickArrivals, sample, ClickCap);
      clickArrivals := clickArrivals + [sample];
      clickHistory := clickHistory + [sample];
      if |clickHistory| > ClickCap {
        clickHistory := clickHistory[1..];
      }
      assert clickHistory == PushBounded(old(clickHistory), sample, ClickCap);
      IntentClarityAfterPush(old(clickHistory), sample, now);
      intentClarity := IntentClarity(clickHistory, now);
    }

    /** `trackHover(element, duration)` */
    method TrackHover(element: string, duration: real, now: int)
      requires Valid()
      modifies this
      ensures Valid()
      ensures hoverArrivals == old(hoverArrivals) + [HoverSample(element, duration, now)]
      ensures hoverHistory == PushBounded(old(hoverHistory), HoverSample(element, duration, now), HoverCap)
      ensures 0 < |hoverHistory| <= HoverCap
      ensures exploration == Exploration(hoverHistory) && exploration <= 1.0
      ensures NonNegativeDurations(hoverHistory) ==> exploration >= 0.0
      ensures gazePattern == old(gazePattern) && intentClarity == old(intentClarity)
      ensures rhythm == old(rhythm) && hesitation == old(hesitation)
      ensures engagement == old(engagement)
      ensures mouseHistory == old(mouseHistory) && scrollHistory == old(scrollHistory)
      ensures clickHistory == old(clickHistory)
      ensures mouseArrivals == old(mouseArrivals) && scrollArrivals == old(scrollArrivals)
      ensures clickArrivals == old(clickArrivals)
      ensures old(SignalsInUnit()) && NonNegativeDurations(hoverHistory) ==> SignalsInUnit()
    {
      var sample := HoverSample(element, duration, now);
      PushBoundedIsRecent(hoverArrivals, sample, HoverCap);
      hoverArrivals := hoverArrivals + [sample];
      hoverHistory := hoverHistory + [sample];
      if |hoverHistory| > HoverCap {
        hoverHistory := hoverHistory[1..];
      }
      assert hoverHistory == PushBounded(old(hoverHistory), sample, HoverCap);
      exploration := Exploration(hoverHistory);
    }

    /**
     * `analyzeHesitation()`, run every 500 ms: with at least ten mouse
     * samples, the variance of the nine steps between the last ten.
     */
    method AnalyzeHesitation(norm: (real, real) -> real)
      requires Valid()
      modifies this
      ensures Valid()
      ensures |mouseHistory| < HesitationWindow ==> hesitation == old(hesitation)
      ensures |mouseHistory| >= HesitationWindow ==>
        hesitation == HesitationScore(StepDistances(Recent(mouseHistory, HesitationWindow), norm))
      ensures InUnit(old(hesitation)) ==> InUnit(hesitation)
      ensures gazePattern == old(gazePattern) && intentClarity == old(intentClarity)
      ensures exploration == old(exploration) && rhythm == old(rhythm)
      ensures engagement == old(engagement)
      ensures mouseHistory == old(mouseHistory) && scrollHistory == old(scrollHistory)
      ensures clickHistory == old(clickHistory) && hoverHistory == old(hoverHistory)
      ensures mouseArrivals == old(mouseArrivals) && scrollArrivals == old(scrollArrivals)
      ensures clickArrivals == old(clickArrivals) && hoverArrivals == old(hoverArrivals)
      ensures old(SignalsInUnit()) ==> SignalsInUnit()
    {
      if |mouseHistory| < HesitationWindow {
        return;
      }
      var recent := mouseHistory[|mouseHistory| - HesitationWindow..];
      assert recent == Recent(mouseHistory, HesitationWindow);
      var distances := ComputeStepDistances(recent, norm);
      hesitation := HesitationScore(distances);
    }

    /** `calculateEngagement()`, run every 1000 ms. */
    method CalculateEngagement()
      requires Valid()
      modifies this
      ensures Valid()
      ensures engagement == Engagement(old(intentClarity), old(exploration), old(rhythm), old(hesitation))
      ensures gazePattern == old(gazePattern) && intentClarity == old(intentClarity)
      ensures exploration == old(exploration) && rhythm == old(rhythm)
      ensures hesitation == old(hesitation)
      ensures mouseHistory == old(mouseHistory) && scrollHistory == old(scrollHistory)
      ensures clickHistory == old(clickHistory) && hoverHistory == old(hoverHistory)
      ensures mouseArrivals == old(mouseArrivals) && scrollArrivals == old(scrollArrivals)
      ensures clickArrivals == old(clickArrivals) && hoverArrivals == old(hoverArrivals)
      ensures old(SignalsInUnit()) ==> SignalsInUnit()
    {
      engagement := Engagement(intentClarity, exploration, rhythm, hesitation);
    }
  }
}
