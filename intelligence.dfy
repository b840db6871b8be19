/**
 * The session state store of src/context/IntelligenceContext.jsx: three
 * named-parameter maps that change only by shallow merge, and the
 * narrative phase.
 */
module Intelligence {

  /** A named-parameter map; every value the source stores there is a number. */
  type Params = map<string, real>

  /**
   * `{ ...prev, ...updates }`: every key of the patch takes the patch's value,
   * every other key keeps its old one, and no key is lost.
   */
  function Merge(prev: Params, updates: Params): (r: Params)
    ensures r.Keys == prev.Keys + updates.Keys
    ensures forall k :: k in updates ==> r[k] == updates[k]
    ensures forall k :: k in prev && k !in updates ==> r[k] == prev[k]
  {
    prev + updates
  }

  lemma MergeEmpty(prev: Params)
    ensures Merge(prev, map[]) == prev
  {
  }

  lemma MergeIdempotent(prev: Params, updates: Params)
    ensures Merge(Merge(prev, updates), updates) == Merge(prev, updates)
  {
  }

  /** Two patches in a row are one patch in which the later keys win. */
  lemma MergeCompose(prev: Params, p: Params, q: Params)
    ensures Merge(Merge(prev, p), q) == Merge(prev, Merge(p, q))
  {
  }

  /** A patch whose keys the state already has never adds a key. */
  lemma MergeKeepsKeys(prev: Params, updates: Params)
    requires updates.Keys <= prev.Keys
    ensures Merge(prev, updates).Keys == prev.Keys
  {
  }

  const InitialCognitive: Params := map[
    "intensity" := 0.5, "coherence" := 0.8, "entropy" := 0.3,
    "focus" := 0.6, "flow" := 0.4, "awareness" := 0.9]

  const InitialVisual: Params := map[
    "brightness" := 1.0, "contrast" := 1.0, "saturation" := 1.0, "hue" := 0.0,
    "bloom" := 0.3, "vignette" := 0.2, "noise" := 0.05, "grain" := 0.02]

  const InitialMetrics: Params := map[
    "fps" := 60.0, "memory" := 0.0, "drawCalls" := 0.0, "triangles" := 0.0]

  const InitialPhase: string := "initialization"

  class Store {
    var cognitiveState: Params
    var visualState: Params
    var narrativePhase: string
    var systemMetrics: Params

    constructor ()
      ensures cognitiveState == InitialCognitive && visualState == InitialVisual
      ensures systemMetrics == InitialMetrics && narrativePhase == InitialPhase
    {
      cognitiveState := InitialCognitive;
      visualState := InitialVisual;
      narrativePhase := InitialPhase;
      systemMetrics := InitialMetrics;
    }

    method UpdateCognitiveState(updates: Params)
      modifies this
      ensures cognitiveState == Merge(old(cognitiveState), updates)
      ensures visualState == old(visualState) && systemMetrics == old(systemMetrics)
      ensures narrativePhase == old(narrativePhase)
    {
      cognitiveState := Merge(cognitiveState, updates);
    }

    method UpdateVisualState(updates: Params)
      modifies this
      ensures visualState == Merge(old(visualState), updates)
      ensures cognitiveState == old(cognitiveState) && systemMetrics == old(systemMetrics)
      ensures narrativePhase == old(narrativePhase)
    {
      visualState := Merge(visualState, updates);
    }

    method ProgressNarrative(phase: string)
      modifies this
      ensures narrativePhase == phase
      ensures cognitiveState == old(cognitiveState) && visualState == old(visualState)
      ensures systemMetrics == old(systemMetrics)
    {
      narrativePhase := phase;
    }

    method UpdateMetrics(metrics: Params)
      modifies this
      ensures systemMetrics == Merge(old(systemMetrics), metrics)
      ensures cognitiveState == old(cognitiveState) && visualState == old(visualState)
      ensures narrativePhase == old(narrativePhase)
    {
      systemMetrics := Merge(systemMetrics, metrics);
    }
  }
}
