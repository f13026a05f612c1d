/**
 When React runs an effect. A component renders a number of times; on every
 render the effect's dependency list is evaluated, and the effect body runs
 after the first render and after every later render whose dependency list
 differs from the one of the render before. An empty list therefore never
 differs, and the body runs once, on mount.
 */
module Effects {

  /** Whether the effect body runs after render `i`, given every render's dependency values. */
  predicate RunsAt<T(==)>(deps: seq<seq<T>>, i: nat)
    requires i < |deps|
  {
    i == 0 || deps[i] != deps[i - 1]
  }

  /** The renders after which the effect body runs, in render order. */
  function EffectRuns<T(==)>(deps: seq<seq<T>>): (r: seq<nat>)
    ensures forall k :: 0 <= k < |r| ==> r[k] < |deps| && RunsAt(deps, r[k])
    ensures forall i :: 0 <= i < |deps| && RunsAt(deps, i) ==> i in r
    ensures forall k, l :: 0 <= k < l < |r| ==> r[k] < r[l]
    decreases |deps|
  {
    if |deps| == 0 then []
    else
      var front := deps[..|deps| - 1];
      var earlier := EffectRuns(front);
      assert forall i :: 0 <= i < |front| ==> RunsAt(front, i) == RunsAt(deps, i);
      if RunsAt(deps, |deps| - 1) then earlier + [|deps| - 1] else earlier
  }

  /** The same dependency values on every render. */
  predicate Constant<T(==)>(deps: seq<seq<T>>) {
    forall i :: 0 <= i < |deps| ==> deps[i] == deps[0]
  }

  /** With unchanging dependencies the body runs exactly once, after the first render. */
  lemma {:induction false} ConstantDepsRunOnce<T>(deps: seq<seq<T>>)
    requires |deps| >= 1 && Constant(deps)
    ensures EffectRuns(deps) == [0]
    decreases |deps|
  {
    var last := |deps| - 1;
    var front := deps[..last];
    if last == 0 {
      assert EffectRuns(front) == [];
    } else {
      assert deps[last] == deps[0] == deps[last - 1];
      assert front[0] == deps[0];
      ConstantDepsRunOnce(front);
    }
  }

  /** A component that renders `n` times with the empty dependency list `[]`. */
  function MountOnly<T>(n: nat): (deps: seq<seq<T>>)
    ensures |deps| == n && Constant(deps)
  {
    seq(n, _ => [])
  }
}
