/*
 * Properties of the technique walk of run_all, stated against reference
 * definitions: the score it computes, where the early exit happens, which
 * probes it invokes, and what a repeated memoized walk does.
 */
module Scoring {
  import opened Enums
  import opened Flags
  import opened Memo
  import opened Core

  /** The reference probe order: the selected, non-GPU techniques from `id` on, ascending. */
  function SelectedIds(flags: FlagSet, id: nat): (ids: seq<nat>)
    requires id <= TECHNIQUE_END
    decreases TECHNIQUE_END - id
  {
    if id == TECHNIQUE_END then []
    else (if flags[id] && !IsGpu(id) then [id] else []) + SelectedIds(flags, id + 1)
  }

  /**
   * A walk that does not stop at `id` continues with the next identifier,
   * from the state `next` and score `total` that the entry's step leaves.
   */
  lemma WalkOn(e: Engine, flags: FlagSet, shortcut: bool, o: Oracle, id: nat, points: nat, next: Engine, total: nat)
    requires Inv(e) && id < TECHNIQUE_END
    requires var s := BuiltinStep(e, flags, o, id);
      next == s.e && total == points + s.gained && !(s.ran && shortcut && total >= Threshold(flags))
    ensures BuiltinPass(e, flags, shortcut, o, id, points) == BuiltinPass(next, flags, shortcut, o, id + 1, total)
  {
    var s := BuiltinStep(e, flags, o, id);
    assert next == s.e && total == points + s.gained;
    WalkEnters(e, flags, shortcut, o, id, points, s);
    WalkContinues(e, flags, shortcut, o, id, points, s);
  }

  /** A walk whose probe at `id` brings the score to the threshold stops there. */
  lemma WalkStops(e: Engine, flags: FlagSet, o: Oracle, id: nat, points: nat, next: Engine, total: nat)
    requires Inv(e) && id < TECHNIQUE_END
    requires var s := BuiltinStep(e, flags, o, id); next == s.e && total == points + s.gained
    requires BuiltinStep(e, flags, o, id).ran && total >= Threshold(flags)
    ensures BuiltinPass(e, flags, true, o, id, points) == Pass(next, total, true)
  {
    var s := BuiltinStep(e, flags, o, id);
    assert BuiltinPass(e, flags, true, o, id, points) == BuiltinNext(e, flags, true, o, id, points, s);
  }

  /** The walk past the last technique does nothing. */
  lemma WalkEnd(e: Engine, flags: FlagSet, shortcut: bool, o: Oracle, points: nat)
    requires Inv(e)
    ensures BuiltinPass(e, flags, shortcut, o, TECHNIQUE_END, points) == Pass(e, points, false)
    ensures WalkScore(e.weights, flags, o, TECHNIQUE_END) == 0
    ensures SelectedIds(flags, TECHNIQUE_END) == []
  {
  }

  /** One entry of the reference score. */
  lemma ScoreStep(w: Weights, flags: FlagSet, o: Oracle, id: nat)
    requires id < TECHNIQUE_END
    ensures WalkScore(w, flags, o, id) == Gain(w, flags, o, id) + WalkScore(w, flags, o, id + 1)
  {
  }

  /** One entry of the reference probe order. */
  lemma SelectedStep(flags: FlagSet, id: nat, here: seq<nat>)
    requires id < TECHNIQUE_END && here == if flags[id] && !IsGpu(id) then [id] else []
    ensures SelectedIds(flags, id) == here + SelectedIds(flags, id + 1)
  {
  }

  /**
   * Without the early exit, the walk scores exactly the reference sum,
   * provided the cache cannot disagree with the probes: either
   * memoization is off, or every cached entry holds the probe's verdict
   * and the technique's current weight.
   */
  lemma {:induction false} WalkScoresReference(e: Engine, flags: FlagSet, o: Oracle, id: nat, points: nat)
    requires Inv(e) && id <= TECHNIQUE_END
    requires !MemoOn(flags) || (Consistent(e, o) && Fresh(e))
    ensures !BuiltinPass(e, flags, false, o, id, points).stopped
    ensures BuiltinPass(e, flags, false, o, id, points).points == points + WalkScore(e.weights, flags, o, id)
    decreases TECHNIQUE_END - id
  {
    if id < TECHNIQUE_END {
      var s := BuiltinStep(e, flags, o, id);
      var next := s.e;
      var total := points + s.gained;
      WalkOn(e, flags, false, o, id, points, next, total);
      ScoreStep(e.weights, flags, o, id);
      WalkScoresReference(next, flags, o, id + 1, total);
    } else {
      WalkEnd(e, flags, false, o, points);
    }
  }

  /**
   * The walk with the early exit, from a state whose cache agrees with the
   * probes and the current weights (or with memoization off): it ends at
   * or above the threshold exactly when the reference score does, and when
   * the early exit is not taken it returns the full reference score.
   */
  lemma {:induction false} ShortcutScore(e: Engine, flags: FlagSet, o: Oracle, id: nat, points: nat)
    requires Inv(e) && id <= TECHNIQUE_END
    requires !MemoOn(flags) || (Consistent(e, o) && Fresh(e))
    ensures var p := BuiltinPass(e, flags, true, o, id, points);
      && (p.points >= Threshold(flags) <==> points + WalkScore(e.weights, flags, o, id) >= Threshold(flags))
      && (!p.stopped ==> p.points == points + WalkScore(e.weights, flags, o, id))
    decreases TECHNIQUE_END - id
  {
    if id < TECHNIQUE_END {
      var s := BuiltinStep(e, flags, o, id);
      var next := s.e;
      var total := points + s.gained;
      ScoreStep(e.weights, flags, o, id);
      if s.ran && total >= Threshold(flags) {
        WalkStops(e, flags, o, id, points, next, total);
      } else {
        WalkOn(e, flags, true, o, id, points, next, total);
        ShortcutScore(next, flags, o, id + 1, total);
      }
    } else {
      WalkEnd(e, flags, true, o, points);
    }
  }

  /**
   * The early exit against the reference score. With memoization off it is
   * taken exactly when the reference score reaches the threshold; with a
   * cache that agrees with the probes and the current weights the walk may
   * run on past a cached entry that reaches the threshold, but it still ends
   * at or above the threshold exactly when the reference score does, and
   * returns the full reference score when the exit is not taken.
   */
  lemma {:induction false} ShortcutAtThreshold(e: Engine, flags: FlagSet, o: Oracle, id: nat, points: nat)
    requires Inv(e) && id <= TECHNIQUE_END
    requires !MemoOn(flags) || (Consistent(e, o) && Fresh(e))
    requires points < Threshold(flags)
    ensures !MemoOn(flags) ==> (BuiltinPass(e, flags, true, o, id, points).stopped <==>
      points + WalkScore(e.weights, flags, o, id) >= Threshold(flags))
    ensures BuiltinPass(e, flags, true, o, id, points).points >= Threshold(flags) <==>
      points + WalkScore(e.weights, flags, o, id) >= Threshold(flags)
    ensures !BuiltinPass(e, flags, true, o, id, points).stopped ==>
      BuiltinPass(e, flags, true, o, id, points).points == points + WalkScore(e.weights, flags, o, id)
    decreases TECHNIQUE_END - id
  {
    ShortcutScore(e, flags, o, id, points);
    if !MemoOn(flags) {
      if id < TECHNIQUE_END {
        var s := BuiltinStep(e, flags, o, id);
        var next := s.e;
        var total := points + s.gained;
        ScoreStep(e.weights, flags, o, id);
        if s.ran && total >= Threshold(flags) {
          WalkStops(e, flags, o, id, points, next, total);
        } else {
          WalkOn(e, flags, true, o, id, points, next, total);
          ShortcutAtThreshold(next, flags, o, id + 1, total);
        }
      } else {
        WalkEnd(e, flags, true, o, points);
      }
    }
  }

  /**
   * With memoization off and no early exit, the walk invokes the probe of
   * every selected non-GPU technique once, in identifier order, and no
   * other.
   */
  lemma {:induction false} WalkProbesSelection(e: Engine, flags: FlagSet, o: Oracle, id: nat, points: nat)
    requires Inv(e) && id <= TECHNIQUE_END && !MemoOn(flags)
    ensures BuiltinPass(e, flags, false, o, id, points).e.trace == e.trace + SelectedIds(flags, id)
    decreases TECHNIQUE_END - id
  {
    if id < TECHNIQUE_END {
      var s := BuiltinStep(e, flags, o, id);
      var next := s.e;
      var total := points + s.gained;
      WalkOn(e, flags, false, o, id, points, next, total);
      WalkProbesSelection(next, flags, o, id + 1, total);
      var here := if flags[id] && !IsGpu(id) then [id] else [];
      var later := SelectedIds(flags, id + 1);
      var rest := BuiltinPass(next, flags, false, o, id + 1, total).e.trace;
      assert rest == next.trace + later;
      StepTrace(e, flags, o, id, next, here);
      SelectedStep(flags, id, here);
      Regroup(e.trace, here, later);
    } else {
      WalkEnd(e, flags, false, o, points);
    }
  }

  /** Without memoization, a step runs the probe exactly when the technique is selected and not a GPU one. */
  lemma StepTrace(e: Engine, flags: FlagSet, o: Oracle, id: nat, next: Engine, here: seq<nat>)
    requires Inv(e) && id < TECHNIQUE_END && !MemoOn(flags)
    requires next == BuiltinStep(e, flags, o, id).e && here == if flags[id] && !IsGpu(id) then [id] else []
    ensures next.trace == e.trace + here
  {
  }

  lemma Regroup(a: seq<nat>, b: seq<nat>, c: seq<nat>)
    ensures a + b + c == a + (b + c)
  {
  }

  /** Every selected non-GPU technique from `id` on has a cache entry. */
  ghost predicate Covered(e: Engine, flags: FlagSet, id: nat) {
    forall t :: id <= t < TECHNIQUE_END && flags[t] && !IsGpu(t) ==> t in e.cache.table
  }

  /** A memoized walk without the early exit leaves every technique it visits cached. */
  lemma {:induction false} WalkCovers(e: Engine, flags: FlagSet, o: Oracle, id: nat, points: nat)
    requires Inv(e) && id <= TECHNIQUE_END && MemoOn(flags)
    ensures Covered(BuiltinPass(e, flags, false, o, id, points).e, flags, id)
    ensures e.cache.table.Keys <= BuiltinPass(e, flags, false, o, id, points).e.cache.table.Keys
    decreases TECHNIQUE_END - id
  {
    if id < TECHNIQUE_END {
      var s := BuiltinStep(e, flags, o, id);
      var next := s.e;
      var total := points + s.gained;
      WalkOn(e, flags, false, o, id, points, next, total);
      WalkCovers(next, flags, o, id + 1, total);
      var last := BuiltinPass(next, flags, false, o, id + 1, total).e;
      StepCaches(e, flags, o, id, next);
      CoveredFrom(e.cache.table, next.cache.table, last, flags, id);
    } else {
      WalkEnd(e, flags, false, o, points);
    }
  }

  /** With memoization on, a step caches a selected non-GPU technique and drops no entry. */
  lemma StepCaches(e: Engine, flags: FlagSet, o: Oracle, id: nat, next: Engine)
    requires Inv(e) && id < TECHNIQUE_END && MemoOn(flags)
    requires next == BuiltinStep(e, flags, o, id).e
    ensures flags[id] && !IsGpu(id) ==> id in next.cache.table
    ensures e.cache.table.Keys <= next.cache.table.Keys
  {
  }

  /** Coverage from `id + 1` on, plus the entry for `id`, is coverage from `id` on. */
  lemma CoveredFrom(t0: map<nat, Entry>, t1: map<nat, Entry>, last: Engine, flags: FlagSet, id: nat)
    requires id < TECHNIQUE_END && t0.Keys <= t1.Keys <= last.cache.table.Keys
    requires flags[id] && !IsGpu(id) ==> id in t1
    requires Covered(last, flags, id + 1)
    ensures Covered(last, flags, id) && t0.Keys <= last.cache.table.Keys
  {
  }

  /**
   * A memoized walk over techniques that are all cached invokes no probe
   * and changes nothing; the early exit is never taken, since it is only
   * checked after a probe runs.
   */
  lemma {:induction false} CachedWalkIsQuiet(e: Engine, flags: FlagSet, shortcut: bool, o: Oracle, id: nat, points: nat)
    requires Inv(e) && id <= TECHNIQUE_END && MemoOn(flags) && Covered(e, flags, id)
    ensures BuiltinPass(e, flags, shortcut, o, id, points).e == e
    ensures !BuiltinPass(e, flags, shortcut, o, id, points).stopped
    decreases TECHNIQUE_END - id
  {
    if id < TECHNIQUE_END {
      var total := points + BuiltinStep(e, flags, o, id).gained;
      WalkOn(e, flags, shortcut, o, id, points, e, total);
      CachedWalkIsQuiet(e, flags, shortcut, o, id + 1, total);
    } else {
      WalkEnd(e, flags, shortcut, o, points);
    }
  }

  /**
   * Repeating a memoized walk: when the cache agrees with the probes and
   * the current weights, the second walk invokes no probe and returns
   * exactly what the first one did.
   */
  lemma RepeatedWalk(e: Engine, flags: FlagSet, o: Oracle)
    requires Inv(e) && MemoOn(flags) && Consistent(e, o) && Fresh(e)
    ensures var first := BuiltinPass(e, flags, false, o, 0, 0);
      BuiltinPass(first.e, flags, false, o, 0, 0) == first
  {
    var first := BuiltinPass(e, flags, false, o, 0, 0);
    var after := first.e;
    WalkCovers(e, flags, o, 0, 0);
    WalkPreserves(e, flags, false, o, 0, 0);
    WalkScoresReference(e, flags, o, 0, 0);
    CachedWalkIsQuiet(after, flags, false, o, 0, 0);
    WalkScoresReference(after, flags, o, 0, 0);
  }

  /** The walk keeps the cache in agreement with the probes and the current weights. */
  lemma {:induction false} WalkPreserves(e: Engine, flags: FlagSet, shortcut: bool, o: Oracle, id: nat, points: nat)
    requires Inv(e) && id <= TECHNIQUE_END
    ensures Consistent(e, o) ==> Consistent(BuiltinPass(e, flags, shortcut, o, id, points).e, o)
    ensures Fresh(e) ==> Fresh(BuiltinPass(e, flags, shortcut, o, id, points).e)
    decreases TECHNIQUE_END - id
  {
    if id < TECHNIQUE_END {
      var s := BuiltinStep(e, flags, o, id);
      var next := s.e;
      var total := points + s.gained;
      if s.ran && shortcut && total >= Threshold(flags) {
        WalkStops(e, flags, o, id, points, next, total);
      } else {
        WalkOn(e, flags, shortcut, o, id, points, next, total);
        WalkPreserves(next, flags, shortcut, o, id + 1, total);
      }
    } else {
      WalkEnd(e, flags, shortcut, o, points);
    }
  }
}
