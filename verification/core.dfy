/*
 * The scoring engine: the process-wide state the public calls share, the
 * single-technique check, and run_all, which walks the technique table,
 * the custom techniques and the GPU post-processing step.
 *
 * Probes themselves are not modelled; an Oracle gives, for each technique
 * identifier, the verdict its probe returns and the brands it credits. The
 * engine keeps a log of the identifiers whose probe it invoked, so that
 * contracts can say which probes ran.
 */
module Core {
  import opened Wrappers
  import opened Enums
  import opened Flags
  import opened Brands
  import opened Memo

  /**
   * A technique registered at run time, by its weight. Its identifier is
   * determined by its position: add_custom bumps its counter once per
   * registration, so the k-th registered technique (from 0) gets CustomId(k).
   */
  datatype Custom = Custom(points: Percent)

  function CustomId(k: nat): nat {
    BASE_TECHNIQUE_COUNT + k + 1
  }

  /** The technique table's weights, one per built-in technique. */
  type Weights = w: seq<Percent> | |w| == TECHNIQUE_END witness seq(TECHNIQUE_END, _ => 0)

  /** The environment: what the probe behind each identifier reports. */
  type Oracle = nat -> ProbeOutcome

  datatype Engine = Engine(
    weights: Weights,        // technique_table points, by identifier
    customs: seq<Custom>,    // custom_table, in registration order
    cache: Cache,
    scoreboard: Scoreboard,
    detected: u8,            // detected_count_num, wraps at 256
    disabled: FlagSet,       // the disabled collector of the argument handler
    trace: seq<nat>)         // identifiers whose probe was invoked, in order

  /** An engine state together with the value a call returns. */
  datatype Answer<T> = Answer(e: Engine, value: T)

  /** A run_all result: the state afterwards and the accumulated score. */
  datatype Run = Run(e: Engine, points: nat)

  /** One step of the technique walk. */
  datatype Pass = Pass(e: Engine, points: nat, stopped: bool)

  /** The state at process start. */
  function Start(): (e: Engine)
    ensures Inv(e)
  {
    Layout();
    Engine(WEIGHTS, [], Initial(), map[], 0, Cleared(), [])
  }

  /** globals::technique_count: the base count plus one per custom technique. */
  function TechniqueCount(e: Engine): nat {
    BASE_TECHNIQUE_COUNT + |e.customs|
  }

  /** Whether `id` is the identifier of a registered custom technique. */
  predicate IsCustomId(e: Engine, id: nat) {
    BASE_TECHNIQUE_COUNT < id <= BASE_TECHNIQUE_COUNT + |e.customs|
  }

  /**
   * What every public call preserves: only built-in techniques and
   * registered custom techniques are ever cached.
   */
  ghost predicate Inv(e: Engine) {
    forall id :: id in e.cache.table ==> IsTechnique(id) || IsCustomId(e, id)
  }

  /** The parts of the state that scoring never changes. */
  predicate SameConfig(e: Engine, e': Engine) {
    && e'.weights == e.weights
    && e'.customs == e.customs
    && e'.disabled == e.disabled
    && e'.cache.brand == e.cache.brand
    && e'.cache.multiBrand == e.cache.multiBrand
    && e'.cache.cpuBrand == e.cache.cpuBrand
  }

  function MemoOn(flags: FlagSet): bool {
    !flags[NO_MEMO]
  }

  /** The score at which a run counts as a VM: 150, or 300 with HIGH_THRESHOLD. */
  function Threshold(flags: FlagSet): (t: nat)
    ensures t == THRESHOLD_SCORE || t == HIGH_THRESHOLD_SCORE
  {
    if flags[HIGH_THRESHOLD] then HIGH_THRESHOLD_SCORE else THRESHOLD_SCORE
  }

  /**
   * Invokes the probe behind `id`: the brands it credits are awarded, the
   * detection counter is bumped on a positive verdict, and the call is
   * logged.
   */
  function RunProbe(e: Engine, id: nat, o: Oracle): (r: Answer<bool>)
    ensures r.value == o(id).result
    ensures r.e.trace == e.trace + [id]
    ensures r.e == e.(scoreboard := r.e.scoreboard, detected := r.e.detected, trace := r.e.trace)
    ensures r.e.detected == if o(id).result then (e.detected + 1) % 256 else e.detected
    ensures forall b :: Credit(r.e.scoreboard, b) == Credit(e.scoreboard, b) + multiset(o(id).credits)[b]
  {
    var out := o(id);
    forall b ensures Credit(Award(e.scoreboard, out.credits), b) == Credit(e.scoreboard, b) + multiset(out.credits)[b] {
      AwardCounts(e.scoreboard, out.credits, b);
    }
    Answer(e.(scoreboard := Award(e.scoreboard, out.credits),
              detected := if out.result then (e.detected + 1) % 256 else e.detected,
              trace := e.trace + [id]),
           out.result)
  }

  /** Records a technique result in the cache (identifier inside the flag set). */
  function Remember(e: Engine, id: nat, result: bool, points: Percent): (e': Engine)
    requires Inv(e) && id < ENUM_END && (IsTechnique(id) || IsCustomId(e, id))
    ensures Inv(e') && SameConfig(e, e') && e'.trace == e.trace && e'.scoreboard == e.scoreboard
    ensures e'.cache.table == e.cache.table[id := Entry(result, points)]
  {
    StoreThenFetch(e.cache, id, result, points);
    e.(cache := CacheStore(e.cache, id, result, points).value)
  }

  /** Every cached verdict is the one the probe gives. */
  ghost predicate Consistent(e: Engine, o: Oracle) {
    forall id :: id in e.cache.table ==> e.cache.table[id].result == o(id).result
  }

  /** Every cached built-in result carries the technique's current weight. */
  ghost predicate Fresh(e: Engine) {
    forall id :: id in e.cache.table && IsTechnique(id) ==>
      e.cache.table[id].points == e.weights[id]
  }

  /**
   * check: validates the flag and the memoization argument, answers from
   * the cache when allowed, and otherwise runs the technique and, unless
   * told not to, caches its result with the technique's current weight.
   */
  function Check(e: Engine, flag: u8, memoArg: u8, o: Oracle): (r: Result<Answer<bool>>)
    requires Inv(e)
    ensures r.Ok? <==> IsTechnique(flag) && (memoArg == NO_MEMO || memoArg == NULL_ARG)
    ensures r.Ok? ==> Inv(r.value.e) && SameConfig(e, r.value.e)
    ensures r.Ok? && memoArg == NULL_ARG ==> flag in r.value.e.cache.table
    ensures r.Ok? ==> r.value.e.trace == e.trace || r.value.e.trace == e.trace + [flag]
    ensures r.Ok? && memoArg == NO_MEMO ==> r.value.e.trace == e.trace + [flag] && r.value.e.cache == e.cache
    ensures r.Ok? && memoArg == NULL_ARG && flag in e.cache.table ==> r.value.e == e
    ensures r.Ok? && Consistent(e, o) ==> r.value.value == o(flag).result && Consistent(r.value.e, o)
    ensures r.Ok? && Fresh(e) ==> Fresh(r.value.e)
  {
    if flag > ENUM_SIZE then Err(InvalidArgument)
    else if IsTunable(flag) then Err(InvalidArgument)
    else if memoArg != NO_MEMO && memoArg != NULL_ARG then Err(InvalidArgument)
    else
      var memoized := memoArg != NO_MEMO;
      if IsCached(e.cache, flag) == Ok(true) && memoized then
        Ok(Answer(e, CacheFetch(e.cache, flag).value.result))
      else if !IsTechnique(flag) then Err(InvalidArgument)
      else
        var s := Probe(e, flag, o, memoized, e.weights[flag]);
        Ok(Answer(s.e, o(flag).result))
  }

  /** The entries of a probe log from position `from` on: selected, not GPU, technique `lo` or later. */
  predicate Probed(t: seq<nat>, from: nat, flags: FlagSet, lo: nat) {
    forall i :: from <= i < |t| ==> lo <= t[i] < TECHNIQUE_END && flags[t[i]] && !IsGpu(t[i])
  }

  /** The effect of one table entry on a walk: the new state, the points it adds, whether its probe ran. */
  datatype Step = Step(e: Engine, gained: nat, ran: bool)

  /**
   * Invokes the probe behind `id`, scoring it with weight `w`, and caches
   * the result when `memo` holds.
   */
  function Probe(e: Engine, id: nat, o: Oracle, memo: bool, w: Percent): (s: Step)
    requires Inv(e) && (IsTechnique(id) || IsCustomId(e, id)) && (memo ==> id < ENUM_END)
    ensures Inv(s.e) && SameConfig(e, s.e) && s.ran && s.e.trace == e.trace + [id]
    ensures s.gained == if o(id).result then w else 0
    ensures memo ==> s.e.cache.table == e.cache.table[id := Entry(o(id).result, w)]
    ensures !memo ==> s.e.cache == e.cache
    ensures Consistent(e, o) ==> Consistent(s.e, o)
    ensures Fresh(e) && (IsTechnique(id) ==> w == e.weights[id]) ==> Fresh(s.e)
  {
    var run := RunProbe(e, id, o);
    var e' := if memo then Remember(run.e, id, run.value, w) else run.e;
    Step(e', if run.value then w else 0, true)
  }

  /** What a selected, non-GPU technique adds when its probe is positive: its weight. */
  function Gain(w: seq<Percent>, flags: FlagSet, o: Oracle, id: nat): nat
    requires id < |w| && id < ENUM_END
  {
    if flags[id] && !IsGpu(id) && o(id).result then w[id] else 0
  }

  /**
   * The reference score of the technique walk from `id` on: the sum of the
   * weights of the selected, non-GPU techniques whose probe is positive.
   */
  function WalkScore(w: seq<Percent>, flags: FlagSet, o: Oracle, id: nat): nat
    requires |w| == TECHNIQUE_END && id <= TECHNIQUE_END
    decreases TECHNIQUE_END - id
  {
    if id == TECHNIQUE_END then 0 else Gain(w, flags, o, id) + WalkScore(w, flags, o, id + 1)
  }

  /**
   * One entry of the technique walk: a deselected or GPU technique is
   * skipped; a cached result is used without running the probe; otherwise
   * the probe runs with the technique's current weight.
   */
  function BuiltinStep(e: Engine, flags: FlagSet, o: Oracle, id: nat): (s: Step)
    requires Inv(e) && IsTechnique(id)
    ensures Inv(s.e) && SameConfig(e, s.e)
    ensures s.ran <==> flags[id] && !IsGpu(id) && !(MemoOn(flags) && id in e.cache.table)
    ensures s.e.trace == if s.ran then e.trace + [id] else e.trace
    ensures !flags[id] || IsGpu(id) ==> s.gained == 0
    ensures !MemoOn(flags) || (Consistent(e, o) && Fresh(e)) ==> s.gained == Gain(e.weights, flags, o, id)
    ensures Consistent(e, o) ==> Consistent(s.e, o)
    ensures Fresh(e) ==> Fresh(s.e)
    ensures MemoOn(flags) && flags[id] && !IsGpu(id) ==> id in s.e.cache.table
    ensures MemoOn(flags) ==> e.cache.table.Keys <= s.e.cache.table.Keys
  {
    if !flags[id] || IsGpu(id) then Step(e, 0, false)
    else if MemoOn(flags) && IsCached(e.cache, id) == Ok(true) then
      var d := CacheFetch(e.cache, id).value;
      Step(e, if d.result then d.points else 0, false)
    else Probe(e, id, o, MemoOn(flags), e.weights[id])
  }

  /**
   * The walk over the technique table from identifier `id` on, one
   * BuiltinStep per identifier. With `shortcut`, the walk stops as soon as
   * a probe that ran brings the score to the threshold; a score reached
   * through a cached result is only noticed at the next probe.
   */
  function BuiltinPass(e: Engine, flags: FlagSet, shortcut: bool, o: Oracle, id: nat, points: nat): (p: Pass)
    requires Inv(e) && id <= TECHNIQUE_END
    ensures Inv(p.e) && SameConfig(e, p.e)
    ensures p.points >= points
    ensures p.stopped ==> shortcut && p.points >= Threshold(flags)
    decreases TECHNIQUE_END - id, 1
  {
    if id == TECHNIQUE_END then Pass(e, points, false)
    else BuiltinNext(e, flags, shortcut, o, id, points, BuiltinStep(e, flags, o, id))
  }

  /** What the walk needs to know of a step at `id`: a valid state, and at most this probe logged. */
  ghost predicate StepShape(e: Engine, flags: FlagSet, id: nat, s: Step) {
    && Inv(s.e) && SameConfig(e, s.e)
    && (s.e.trace == e.trace || (s.e.trace == e.trace + [id] && id < TECHNIQUE_END && flags[id] && !IsGpu(id)))
  }

  /** The walk after the step `s` at `id`: stop there, or go on with the next identifier. */
  function BuiltinNext(e: Engine, flags: FlagSet, shortcut: bool, o: Oracle, id: nat, points: nat, s: Step): (p: Pass)
    requires Inv(e) && id < TECHNIQUE_END && StepShape(e, flags, id, s)
    ensures Inv(p.e) && SameConfig(e, p.e)
    ensures p.points >= points
    ensures p.stopped ==> shortcut && p.points >= Threshold(flags)
    decreases TECHNIQUE_END - id, 0
  {
    var total := points + s.gained;
    if s.ran && shortcut && total >= Threshold(flags) then Pass(s.e, total, true)
    else BuiltinPass(s.e, flags, shortcut, o, id + 1, total)
  }

  /** The walk enters an entry by taking its step. */
  lemma WalkEnters(e: Engine, flags: FlagSet, shortcut: bool, o: Oracle, id: nat, points: nat, s: Step)
    requires Inv(e) && id < TECHNIQUE_END && s == BuiltinStep(e, flags, o, id)
    ensures BuiltinPass(e, flags, shortcut, o, id, points) == BuiltinNext(e, flags, shortcut, o, id, points, s)
  {
  }

  /** Without the early exit, the walk goes on with the next identifier. */
  lemma WalkContinues(e: Engine, flags: FlagSet, shortcut: bool, o: Oracle, id: nat, points: nat, s: Step)
    requires Inv(e) && id < TECHNIQUE_END && StepShape(e, flags, id, s)
    requires !(s.ran && shortcut && points + s.gained >= Threshold(flags))
    ensures BuiltinNext(e, flags, shortcut, o, id, points, s) == BuiltinPass(s.e, flags, shortcut, o, id + 1, points + s.gained)
  {
  }

  /**
   * The walk only appends to the probe log, and every probe it logs is a
   * selected, non-GPU technique at or after `id`.
   */
  lemma {:induction false} WalkLogsSelection(e: Engine, flags: FlagSet, shortcut: bool, o: Oracle, id: nat, points: nat)
    requires Inv(e) && id <= TECHNIQUE_END
    ensures var t := BuiltinPass(e, flags, shortcut, o, id, points).e.trace;
      e.trace <= t && Probed(t, |e.trace|, flags, id)
    decreases TECHNIQUE_END - id, 1
  {
    if id < TECHNIQUE_END {
      var s := BuiltinStep(e, flags, o, id);
      WalkEnters(e, flags, shortcut, o, id, points, s);
      NextLogsSelection(e, flags, shortcut, o, id, points, s);
    }
  }

  /** WalkLogsSelection, after the step `s` at `id`. */
  lemma {:induction false} NextLogsSelection(e: Engine, flags: FlagSet, shortcut: bool, o: Oracle, id: nat, points: nat, s: Step)
    requires Inv(e) && id < TECHNIQUE_END && StepShape(e, flags, id, s)
    ensures var t := BuiltinNext(e, flags, shortcut, o, id, points, s).e.trace;
      e.trace <= t && Probed(t, |e.trace|, flags, id)
    decreases TECHNIQUE_END - id, 0
  {
    var next := s.e;
    var total := points + s.gained;
    if s.ran && shortcut && total >= Threshold(flags) {
      ProbedFrom(e.trace, next.trace, next.trace, flags, id);
    } else {
      WalkContinues(e, flags, shortcut, o, id, points, s);
      WalkLogsSelection(next, flags, shortcut, o, id + 1, total);
      var rest := BuiltinPass(next, flags, shortcut, o, id + 1, total).e.trace;
      ProbedFrom(e.trace, next.trace, rest, flags, id);
    }
  }

  /** Extending a log by this identifier's probe (or not) keeps the new entries ordered and selected. */
  lemma ProbedFrom(t0: seq<nat>, t1: seq<nat>, t2: seq<nat>, flags: FlagSet, id: nat)
    requires t1 == t0 || (t1 == t0 + [id] && id < TECHNIQUE_END && flags[id] && !IsGpu(id))
    requires t1 <= t2 && Probed(t2, |t1|, flags, id + 1)
    ensures t0 <= t2 && Probed(t2, |t0|, flags, id)
  {
    if t1 != t0 {
      assert t2[|t0|] == t1[|t0|];
    }
  }

  /** The identifiers of the custom techniques at positions [k, n), in order. */
  function CustomIdRange(k: nat, n: nat): (ids: seq<nat>)
    requires k <= n
    ensures |ids| == n - k && forall i :: 0 <= i < n - k ==> ids[i] == CustomId(k + i)
    decreases n - k
  {
    if k == n then [] else [CustomId(k)] + CustomIdRange(k + 1, n)
  }

  /**
   * The walk over the custom techniques from position `k` on. The
   * selection is not consulted and there is no early exit. With
   * memoization on, the cache test throws for an identifier outside the
   * flag set, which the fourth custom technique already has.
   */
  function CustomPass(e: Engine, memo: bool, o: Oracle, k: nat, points: nat): (r: Result<Run>)
    requires Inv(e) && k <= |e.customs|
    ensures r.Ok? ==> Inv(r.value.e) && SameConfig(e, r.value.e) && r.value.points >= points
    ensures r.Ok? ==> e.trace <= r.value.e.trace
    ensures r.Ok? ==> forall i :: |e.trace| <= i < |r.value.e.trace| ==> r.value.e.trace[i] > BASE_TECHNIQUE_COUNT
    ensures !memo ==> r.Ok? && r.value.e.trace == e.trace + CustomIdRange(k, |e.customs|)
    ensures r.Err? <==> memo && k < |e.customs| && TechniqueCount(e) >= ENUM_END
    decreases |e.customs| - k
  {
    if k == |e.customs| then Ok(Run(e, points))
    else
      var c := CustomStep(e, memo, o, k);
      if c.Err? then Err(c.error)
      else
        var r := CustomPass(c.value.e, memo, o, k + 1, points + c.value.gained);
        if r.Ok? then
          CustomLog(e.trace, c.value.e.trace, r.value.e.trace, k, |e.customs|);
          r
        else r
  }

  /** Logging one custom probe (or none) ahead of the rest keeps the log's shape. */
  lemma CustomLog(t0: seq<nat>, t1: seq<nat>, t2: seq<nat>, k: nat, n: nat)
    requires k < n
    requires t1 == t0 || t1 == t0 + [CustomId(k)]
    requires t1 <= t2 && forall i :: |t1| <= i < |t2| ==> t2[i] > BASE_TECHNIQUE_COUNT
    ensures t0 <= t2 && forall i :: |t0| <= i < |t2| ==> t2[i] > BASE_TECHNIQUE_COUNT
    ensures t1 == t0 + [CustomId(k)] && t2 == t1 + CustomIdRange(k + 1, n) ==> t2 == t0 + CustomIdRange(k, n)
  {
    assert CustomIdRange(k, n) == [CustomId(k)] + CustomIdRange(k + 1, n);
  }

  /**
   * One custom technique: with memoization on, the cache test throws for an
   * identifier outside the flag set, a cached result is reused, and a fresh
   * result is cached; the selection is not consulted.
   */
  function CustomStep(e: Engine, memo: bool, o: Oracle, k: nat): (r: Result<Step>)
    requires Inv(e) && k < |e.customs|
    ensures r.Err? <==> memo && CustomId(k) >= ENUM_END
    ensures r.Ok? ==> Inv(r.value.e) && SameConfig(e, r.value.e)
    ensures r.Ok? ==> r.value.e.trace == e.trace || r.value.e.trace == e.trace + [CustomId(k)]
    ensures !memo ==> r.Ok? && r.value.e.trace == e.trace + [CustomId(k)]
  {
    var id := CustomId(k);
    if memo && IsCached(e.cache, id).Err? then Err(OutOfRange)
    else if memo && IsCached(e.cache, id) == Ok(true) then
      var d := CacheFetch(e.cache, id).value;
      Ok(Step(e, if d.result then d.points else 0, false))
    else Ok(Probe(e, id, o, memo, e.customs[k].points))
  }

  /**
   * The reference GPU score: nothing unless both GPU techniques are
   * selected; 100 when both probes are positive rather than the sum of
   * their weights; a single positive probe adds its own weight.
   */
  function GpuScore(w: seq<Percent>, flags: FlagSet, o: Oracle): nat
    requires |w| == TECHNIQUE_END
  {
    var a := o(GPU_CAPABILITIES).result;
    var b := o(GPU_VM_STRINGS).result;
    if !flags[GPU_CAPABILITIES] || !flags[GPU_VM_STRINGS] then 0
    else if a && b then 100
    else (if a then w[GPU_CAPABILITIES] else 0) + (if b then w[GPU_VM_STRINGS] else 0)
  }

  /**
   * merge_scores for the two GPU techniques: only when both are selected,
   * each is answered through check (which caches even when the caller
   * asked for no memoization); both positive adds 100 instead of the two
   * weights, one positive adds that technique's weight.
   */
  function MergeGpu(e: Engine, flags: FlagSet, o: Oracle, points: nat): (r: Run)
    requires Inv(e)
    ensures Inv(r.e) && SameConfig(e, r.e) && r.points >= points
    ensures e.trace <= r.e.trace
    ensures forall i :: |e.trace| <= i < |r.e.trace| ==>
      IsGpu(r.e.trace[i]) && flags[GPU_CAPABILITIES] && flags[GPU_VM_STRINGS]
    ensures flags[GPU_CAPABILITIES] && flags[GPU_VM_STRINGS] ==>
      GPU_CAPABILITIES in r.e.cache.table && GPU_VM_STRINGS in r.e.cache.table
    ensures e.cache.table.Keys <= r.e.cache.table.Keys
    ensures Consistent(e, o) ==> Consistent(r.e, o) && r.points == points + GpuScore(e.weights, flags, o)
    ensures Fresh(e) ==> Fresh(r.e)
  {
    if !flags[GPU_CAPABILITIES] || !flags[GPU_VM_STRINGS] then Run(e, points)
    else
      GpuBothAgrees(e, o, points);
      GpuBoth(e, o, points)
  }

  /** The GPU step when both GPU techniques are selected. */
  function GpuBoth(e: Engine, o: Oracle, points: nat): (r: Run)
    requires Inv(e)
    ensures Inv(r.e) && SameConfig(e, r.e) && r.points >= points
    ensures e.trace <= r.e.trace
    ensures forall i :: |e.trace| <= i < |r.e.trace| ==> IsGpu(r.e.trace[i])
    ensures GPU_CAPABILITIES in r.e.cache.table && GPU_VM_STRINGS in r.e.cache.table
    ensures e.cache.table.Keys <= r.e.cache.table.Keys
  {
    var a := Check(e, GPU_CAPABILITIES, NULL_ARG, o).value;
    var b := Check(a.e, GPU_VM_STRINGS, NULL_ARG, o).value;
    GpuTrace(e.trace, a.e.trace, b.e.trace);
    Run(b.e, points + GpuBonus(e.weights, a.value, b.value))
  }

  /** The two GPU checks add at most one entry each, both GPU techniques. */
  lemma GpuTrace(t0: seq<nat>, t1: seq<nat>, t2: seq<nat>)
    requires t1 == t0 || t1 == t0 + [GPU_CAPABILITIES]
    requires t2 == t1 || t2 == t1 + [GPU_VM_STRINGS]
    ensures t0 <= t2
    ensures forall i :: |t0| <= i < |t2| ==> IsGpu(t2[i])
  {
  }

  /** A cache that agrees with the probes yields their verdicts to the GPU step, and keeps agreeing. */
  lemma GpuBothAgrees(e: Engine, o: Oracle, points: nat)
    requires Inv(e)
    ensures Consistent(e, o) ==> Consistent(GpuBoth(e, o, points).e, o)
    ensures Consistent(e, o) ==>
      GpuBoth(e, o, points).points == points + GpuBonus(e.weights, o(GPU_CAPABILITIES).result, o(GPU_VM_STRINGS).result)
    ensures Fresh(e) ==> Fresh(GpuBoth(e, o, points).e)
  {
  }

  /** What the two GPU verdicts add: 100 for both, otherwise the positive one's weight. */
  function GpuBonus(w: Weights, a: bool, b: bool): nat {
    if a && b then 100
    else if a then w[GPU_CAPABILITIES]
    else if b then w[GPU_VM_STRINGS]
    else 0
  }

  /** From position `from` on, a log names built-in techniques only where the selection allows. */
  predicate SelectedFrom(t: seq<nat>, flags: FlagSet, from: nat) {
    forall i :: from <= i < |t| && IsTechnique(t[i]) ==>
      flags[t[i]] && (IsGpu(t[i]) ==> flags[GPU_CAPABILITIES] && flags[GPU_VM_STRINGS])
  }

  /** The technique walk followed by the later stages respects the selection. */
  lemma StagesCompose(t0: seq<nat>, t1: seq<nat>, t2: seq<nat>, flags: FlagSet)
    requires t0 <= t1 <= t2
    requires Probed(t1, |t0|, flags, 0)
    requires SelectedFrom(t2, flags, |t1|)
    ensures SelectedFrom(t2, flags, |t0|)
  {
    forall i | |t0| <= i < |t1| ensures t2[i] == t1[i] {
    }
  }

  /**
   * The stages of run_all after an uninterrupted technique walk: the
   * custom techniques, then the GPU step. The only built-in techniques
   * they probe are the GPU ones, and only when both are selected.
   */
  function Finish(e: Engine, flags: FlagSet, o: Oracle, points: nat): (r: Result<Run>)
    requires Inv(e)
    ensures r.Ok? ==> Inv(r.value.e) && SameConfig(e, r.value.e) && r.value.points >= points
    ensures r.Ok? ==> e.trace <= r.value.e.trace && SelectedFrom(r.value.e.trace, flags, |e.trace|)
    ensures r.Err? <==> MemoOn(flags) && TechniqueCount(e) >= ENUM_END
  {
    var c := CustomPass(e, MemoOn(flags), o, 0, points);
    if c.Err? then Err(c.error)
    else
      var g := MergeGpu(c.value.e, flags, o, c.value.points);
      CustomsThenGpu(e.trace, c.value.e.trace, g.e.trace, flags);
      Ok(g)
  }

  /** Custom identifiers are not built-in techniques, so only the GPU entries need the selection. */
  lemma CustomsThenGpu(t0: seq<nat>, t1: seq<nat>, t2: seq<nat>, flags: FlagSet)
    requires t0 <= t1 <= t2
    requires forall i :: |t0| <= i < |t1| ==> t1[i] > BASE_TECHNIQUE_COUNT
    requires forall i :: |t1| <= i < |t2| ==> IsGpu(t2[i]) && flags[GPU_CAPABILITIES] && flags[GPU_VM_STRINGS]
    ensures SelectedFrom(t2, flags, |t0|)
  {
    forall i | |t0| <= i < |t1| ensures t2[i] == t1[i] {
    }
  }

  /**
   * run_all: the technique walk, then (unless it stopped early) the custom
   * techniques and the GPU step. Every probe it invokes on a built-in
   * technique is one the selection names; a GPU probe runs only when both
   * GPU techniques are selected.
   */
  function RunAll(e: Engine, flags: FlagSet, shortcut: bool, o: Oracle): (r: Result<Run>)
    requires Inv(e)
    ensures r.Ok? ==> Inv(r.value.e) && SameConfig(e, r.value.e)
    ensures r.Ok? ==> e.trace <= r.value.e.trace && SelectedFrom(r.value.e.trace, flags, |e.trace|)
    ensures r.Err? <==> !BuiltinPass(e, flags, shortcut, o, 0, 0).stopped && MemoOn(flags) &&
                        TechniqueCount(e) >= ENUM_END
  {
    var p := BuiltinPass(e, flags, shortcut, o, 0, 0);
    WalkLogsSelection(e, flags, shortcut, o, 0, 0);
    if p.stopped then
      StagesCompose(e.trace, p.e.trace, p.e.trace, flags);
      Ok(Run(p.e, p.points))
    else
      var f := Finish(p.e, flags, o, p.points);
      if f.Ok? then
        StagesCompose(e.trace, p.e.trace, f.value.e.trace, flags);
        f
      else f
  }
}
