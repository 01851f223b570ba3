/*
 * The argument handler: how the variadic arguments of a public call become
 * the selection flag set, and how the disable call builds its mask.
 *
 * The two process-wide collectors of the source (the selection and the
 * disabled mask) are threaded explicitly: every handler starts from a reset
 * state and returns the mask it leaves behind together with its result.
 */
module ArgHandle {
  import opened Wrappers
  import opened Enums
  import opened Flags

  /** One variadic argument: an enumerator, a whole flag set, or any other type. */
  datatype Arg = Flag(id: u8) | Vector(bits: FlagSet) | Other

  /** The selection collector and the disabled mask. */
  datatype Collectors = Collectors(selection: FlagSet, disabled: FlagSet)

  /** The collectors as a handler leaves them, and the exception it raised, if any. */
  datatype Handled = Handled(c: Collectors, failure: Option<Error>)

  /** What a handler returns: the disabled mask it leaves behind and its result. */
  datatype Outcome = Outcome(disabled: FlagSet, result: Result<FlagSet>)

  /** An argument the selection handler accepts without throwing. */
  predicate Accepted(a: Arg) {
    a.Vector? || (a.Flag? && a.id <= ENUM_SIZE)
  }

  predicate AllAccepted(args: seq<Arg>) {
    forall i :: 0 <= i < |args| ==> Accepted(args[i])
  }

  /** Whether `args` names the enumerator `id`. */
  predicate Names(args: seq<Arg>, id: int) {
    exists i :: 0 <= i < |args| && args[i].Flag? && args[i].id == id
  }

  /**
   * flag_manager: DEFAULT and ALL overwrite the whole selection with their
   * expansion; any other valid enumerator sets its own position.
   */
  function FlagManager(sel: FlagSet, id: u8): (r: Result<FlagSet>)
    ensures r.Ok? <==> id <= ENUM_SIZE
    ensures id == DEFAULT ==> r == Ok(GenerateDefault())
    ensures id == ALL ==> r == Ok(GenerateAll())
    ensures r.Ok? && id != DEFAULT && id != ALL ==>
      r.value[id] && forall i :: 0 <= i < ENUM_END && i != id ==> r.value[i] == sel[i]
  {
    if id == INVALID || id > ENUM_SIZE then Err(InvalidArgument)
    else if id == DEFAULT then Ok(GenerateDefault())
    else if id == ALL then Ok(GenerateAll())
    else Ok(sel[id := true])
  }

  /** The last flag-set argument, or `d` when there is none. */
  function LastVector(args: seq<Arg>, d: FlagSet): FlagSet
    decreases |args|
  {
    if |args| == 0 then d
    else if args[|args| - 1].Vector? then args[|args| - 1].bits
    else LastVector(args[..|args| - 1], d)
  }

  lemma {:induction false} LastVectorCons(args: seq<Arg>, d: FlagSet)
    requires |args| > 0
    ensures LastVector(args, d) == LastVector(args[1..], if args[0].Vector? then args[0].bits else d)
    decreases |args|
  {
    if |args| > 1 {
      assert args[1..][..|args[1..]| - 1] == args[..|args| - 1][1..];
      LastVectorCons(args[..|args| - 1], d);
    }
  }

  /**
   * handleArgs: arguments are processed left to right; an enumerator goes to
   * flag_manager, a flag set REPLACES the disabled mask, anything else
   * throws. The first failure stops the walk with the collectors as they are.
   */
  function HandleArgs(args: seq<Arg>, c: Collectors): (h: Handled)
    ensures h.failure.None? <==> AllAccepted(args)
    ensures h.failure.Some? ==> h.failure.value == InvalidArgument
    ensures h.failure.None? ==> h.c.disabled == LastVector(args, c.disabled)
    decreases |args|
  {
    if |args| == 0 then Handled(c, None)
    else
      LastVectorCons(args, c.disabled);
      assert forall i :: 1 <= i < |args| ==> args[1..][i - 1] == args[i];
      match args[0]
      case Vector(v) => HandleArgs(args[1..], c.(disabled := v))
      case Flag(id) =>
        (match FlagManager(c.selection, id)
         case Ok(s) => HandleArgs(args[1..], c.(selection := s))
         case Err(e) => Handled(c, Some(e)))
      case Other => Handled(c, Some(InvalidArgument))
  }

  /** Handling a concatenation is handling its parts in turn. */
  lemma {:induction false} HandleArgsAppend(a: seq<Arg>, b: seq<Arg>, c: Collectors)
    requires AllAccepted(a)
    ensures HandleArgs(a + b, c) == HandleArgs(b, HandleArgs(a, c).c)
    decreases |a|
  {
    if |a| > 0 {
      assert (a + b)[0] == a[0] && Accepted(a[0]);
      assert (a + b)[1..] == a[1..] + b;
      assert AllAccepted(a[1..]) by {
        forall i | 0 <= i < |a[1..]| ensures Accepted(a[1..][i]) {
          assert a[1..][i] == a[i + 1];
        }
      }
      var c1 := match a[0]
        case Vector(v) => c.(disabled := v)
        case Flag(id) => c.(selection := FlagManager(c.selection, id).value)
        case Other => c;
      assert HandleArgs(a + b, c) == HandleArgs(a[1..] + b, c1);
      assert HandleArgs(a, c) == HandleArgs(a[1..], c1);
      HandleArgsAppend(a[1..], b, c1);
    } else {
      assert a + b == b;
    }
  }

  /**
   * A DEFAULT (or ALL) argument discards the effect of every enumerator
   * before it: the selection depends only on what follows it.
   */
  lemma ResetDiscardsEarlierFlags(pre: seq<Arg>, reset: u8, post: seq<Arg>, c: Collectors, c': Collectors)
    requires reset == DEFAULT || reset == ALL
    requires AllAccepted(pre)
    ensures HandleArgs(pre + [Flag(reset)] + post, c).c.selection
         == HandleArgs([Flag(reset)] + post, c').c.selection
  {
    HandleArgsAppend(pre, [Flag(reset)] + post, c);
    assert pre + [Flag(reset)] + post == pre + ([Flag(reset)] + post);
    var c1 := HandleArgs(pre, c).c;
    assert ([Flag(reset)] + post)[1..] == post;
    var s := FlagManager(c1.selection, reset).value;
    assert s == FlagManager(c'.selection, reset).value;
    SelectionIgnoresMask(post, c1.(selection := s), c'.(selection := s));
  }

  /** The selection a walk produces does not depend on the mask it starts with. */
  lemma {:induction false} SelectionIgnoresMask(args: seq<Arg>, c: Collectors, c': Collectors)
    requires c.selection == c'.selection
    ensures HandleArgs(args, c).c.selection == HandleArgs(args, c').c.selection
    ensures HandleArgs(args, c).failure == HandleArgs(args, c').failure
    decreases |args|
  {
    if |args| > 0 {
      match args[0]
      case Vector(v) => SelectionIgnoresMask(args[1..], c.(disabled := v), c'.(disabled := v));
      case Flag(id) =>
        if id <= ENUM_SIZE {
          var s := FlagManager(c.selection, id).value;
          SelectionIgnoresMask(args[1..], c.(selection := s), c'.(selection := s));
        }
      case Other =>
    }
  }

  /**
   * Without DEFAULT or ALL among the arguments, a position ends up selected
   * exactly when it was selected before or some argument names it.
   */
  lemma {:induction false} SelectionWithoutResets(args: seq<Arg>, c: Collectors)
    requires AllAccepted(args)
    requires !Names(args, DEFAULT) && !Names(args, ALL)
    ensures forall i :: 0 <= i < ENUM_END ==>
      (HandleArgs(args, c).c.selection[i] <==> c.selection[i] || Names(args, i))
    decreases |args|
  {
    if |args| > 0 {
      var rest := args[1..];
      assert forall i :: 0 <= i < |rest| ==> rest[i] == args[i + 1];
      assert forall id :: Names(args, id) <==> ((args[0].Flag? && args[0].id == id) || Names(rest, id)) by {
        forall id ensures Names(args, id) <==> ((args[0].Flag? && args[0].id == id) || Names(rest, id)) {
          if Names(args, id) {
            var k :| 0 <= k < |args| && args[k].Flag? && args[k].id == id;
            if k > 0 { assert rest[k - 1] == args[k]; }
          }
          if Names(rest, id) {
            var k :| 0 <= k < |rest| && rest[k].Flag? && rest[k].id == id;
            assert args[k + 1] == rest[k];
          }
        }
      }
      assert AllAccepted(rest);
      match args[0]
      case Vector(v) => SelectionWithoutResets(rest, c.(disabled := v));
      case Flag(id) =>
        assert id != DEFAULT && id != ALL;
        SelectionWithoutResets(rest, c.(selection := FlagManager(c.selection, id).value));
    }
  }

  /**
   * The selection restricted by the mask, except that the six settings
   * positions keep their selected value (they are saved before the `&=` and
   * written back after it). NULL_ARG is not among them.
   */
  function MaskKeepingSettings(sel: FlagSet, mask: FlagSet): (r: FlagSet)
    ensures forall i :: IsTunable(i) || i == ALL || i == DEFAULT ==> r[i] == sel[i]
    ensures forall i :: 0 <= i < ENUM_END && !IsTunable(i) && i != ALL && i != DEFAULT ==>
      r[i] == (sel[i] && mask[i])
  {
    Intersect(sel, mask)[NO_MEMO := sel[NO_MEMO]][HIGH_THRESHOLD := sel[HIGH_THRESHOLD]]
      [DYNAMIC := sel[DYNAMIC]][MULTIPLE := sel[MULTIPLE]][ALL := sel[ALL]][DEFAULT := sel[DEFAULT]]
  }

  /**
   * arg_handler: resets both collectors (the mask to the default selection),
   * walks the arguments, falls back to the default selection when nothing
   * was selected, applies the mask while keeping the settings, and sanitizes.
   */
  function ArgHandler(args: seq<Arg>): (o: Outcome)
    ensures o.result.Ok? <==> AllAccepted(args)
    ensures o.result.Ok? ==> o.disabled == LastVector(args, GenerateDefault())
    ensures o.result.Ok? ==> Coherent(o.result.value)
  {
    var c0 := Collectors(Cleared(), GenerateDefault());
    if |args| == 0 then Outcome(c0.disabled, Ok(GenerateDefault()))
    else
      var h := HandleArgs(args, c0);
      if h.failure.Some? then Outcome(h.c.disabled, Err(h.failure.value))
      else
        var sel := if !Any(h.c.selection) then GenerateDefault() else h.c.selection;
        Outcome(h.c.disabled, Sanitize(MaskKeepingSettings(sel, h.c.disabled)))
  }

  /** A call without arguments selects the default set and leaves the default mask. */
  lemma NoArgumentsSelectDefault()
    ensures ArgHandler([]) == Outcome(GenerateDefault(), Ok(GenerateDefault()))
  {
  }

  /**
   * Without a flag-set argument the mask is the default selection, so the
   * opt-in techniques are never selected, even through ALL or by naming
   * them.
   */
  lemma OptInNeedsMask(args: seq<Arg>)
    requires AllAccepted(args)
    requires forall i :: 0 <= i < |args| ==> !args[i].Vector?
    ensures forall id :: IsOptIn(id) ==> !ArgHandler(args).result.value[id]
  {
    if |args| > 0 {
      NoVectorKeepsMask(args, GenerateDefault());
    }
  }

  lemma {:induction false} NoVectorKeepsMask(args: seq<Arg>, d: FlagSet)
    requires forall i :: 0 <= i < |args| ==> !args[i].Vector?
    ensures LastVector(args, d) == d
    decreases |args|
  {
    if |args| > 0 {
      NoVectorKeepsMask(args[..|args| - 1], d);
    }
  }

  /**
   * A call whose only arguments are settings loses them: the selection has
   * no technique, so the sanitizer replaces it with the default selection,
   * in which every tunable setting is clear. `brand(MULTIPLE)` therefore
   * resolves in single-brand mode.
   */
  lemma SettingsOnlyCallDropsSettings(args: seq<Arg>)
    requires |args| > 0
    requires forall i :: 0 <= i < |args| ==> args[i].Flag? && IsTunable(args[i].id)
    ensures ArgHandler(args).result == Ok(GenerateDefault())
  {
    assert AllAccepted(args);
    var c0 := Collectors(Cleared(), GenerateDefault());
    assert !Names(args, DEFAULT) && !Names(args, ALL);
    SelectionWithoutResets(args, c0);
    var sel := HandleArgs(args, c0).c.selection;
    assert sel[args[0].id];
    var m := MaskKeepingSettings(sel, HandleArgs(args, c0).c.disabled);
    forall i | IsTechnique(i) ensures !m[i] {
      assert !Names(args, i);
    }
    assert !m[DEFAULT] && !m[ALL];
  }

  /**
   * A public call that hands its own sanitized flag set to another public
   * call: the flag set becomes the inner call's mask, the inner selection
   * starts empty and falls back to the default, and so the inner call sees
   * the default techniques that the outer call selected, DEFAULT, and no
   * other setting.
   */
  lemma Reentry(f: FlagSet)
    ensures ArgHandler([Vector(f)]).disabled == f
    ensures forall i :: IsTechnique(i) ==>
      (ArgHandler([Vector(f)]).result.value[i] <==> f[i] && !IsOptIn(i))
    ensures ArgHandler([Vector(f)]).result.value[DEFAULT]
    ensures forall i :: IsSetting(i) && i != DEFAULT ==> !ArgHandler([Vector(f)]).result.value[i]
  {
    var c0 := Collectors(Cleared(), GenerateDefault());
    assert [Vector(f)][1..] == [];
    assert HandleArgs([Vector(f)], c0).c.selection == Cleared();
    assert !Any(Cleared());
  }

  /**
   * handle_disabled_args: each enumerator clears its own position of the
   * mask (a position outside the flag set is out of range); a flag set or
   * any other type throws.
   */
  function HandleDisabledArgs(args: seq<Arg>, mask: FlagSet): (h: (FlagSet, Option<Error>))
    ensures h.1.None? <==> forall i :: 0 <= i < |args| ==> args[i].Flag? && args[i].id < ENUM_END
    ensures h.1.None? ==> forall i :: 0 <= i < ENUM_END ==> (h.0[i] <==> mask[i] && !Names(args, i))
    decreases |args|
  {
    if |args| == 0 then (mask, None)
    else
      var rest := args[1..];
      assert forall i :: 0 <= i < |rest| ==> rest[i] == args[i + 1];
      assert forall id :: Names(args, id) <==> ((args[0].Flag? && args[0].id == id) || Names(rest, id)) by {
        forall id ensures Names(args, id) <==> ((args[0].Flag? && args[0].id == id) || Names(rest, id)) {
          if Names(args, id) {
            var k :| 0 <= k < |args| && args[k].Flag? && args[k].id == id;
            if k > 0 { assert rest[k - 1] == args[k]; }
          }
          if Names(rest, id) {
            var k :| 0 <= k < |rest| && rest[k].Flag? && rest[k].id == id;
            assert args[k + 1] == rest[k];
          }
        }
      }
      match args[0]
      case Flag(id) =>
        if id >= ENUM_END then (mask, Some(OutOfRange))
        else HandleDisabledArgs(rest, mask[id := false])
      case Vector(_) => (mask, Some(InvalidArgument))
      case Other => (mask, Some(InvalidArgument))
  }

  /**
   * disabled_arg_handler followed by returning the mask (the disable call):
   * the mask is reset to the default selection, each named position is
   * cleared, and the call throws unless some settings flag is left clear.
   */
  function DisabledArgHandler(args: seq<Arg>): (o: Outcome)
    ensures o.result.Ok? ==> o.result.value == o.disabled
  {
    var mask := GenerateDefault();
    if |args| == 0 then Outcome(mask, Err(InvalidArgument))
    else
      var h := HandleDisabledArgs(args, mask);
      if h.1.Some? then Outcome(h.0, Err(h.1.value))
      else if IsSettingFlagSet(h.0) then Outcome(h.0, Err(InvalidArgument))
      else Outcome(h.0, Ok(h.0))
  }

  /**
   * The disable call succeeds exactly when it is given enumerators only,
   * all inside the flag set, and one of them is DEFAULT: the freshly reset
   * mask has DEFAULT set, and the settings check rejects it otherwise. Its
   * mask then clears the named positions of the default selection.
   */
  lemma DisableNeedsDefault(args: seq<Arg>)
    ensures DisabledArgHandler(args).result.Ok? <==>
      |args| > 0 && (forall i :: 0 <= i < |args| ==> args[i].Flag? && args[i].id < ENUM_END) && Names(args, DEFAULT)
    ensures DisabledArgHandler(args).result.Ok? ==>
      forall i :: 0 <= i < ENUM_END ==>
        (DisabledArgHandler(args).disabled[i] <==> GenerateDefault()[i] && !Names(args, i))
  {
    if |args| > 0 {
      var h := HandleDisabledArgs(args, GenerateDefault());
      if h.1.None? {
        if Names(args, DEFAULT) {
          assert !IsSettingFlagSet(h.0);
        } else {
          assert h.0[DEFAULT];
        }
      }
    }
  }

  /**
   * A rejected disable call has still rewritten the mask: after the reset,
   * each position named before the failure is cleared.
   */
  lemma DisableMutatesBeforeRejecting(id: u8)
    requires IsTechnique(id) && !IsOptIn(id)
    ensures DisabledArgHandler([Flag(id)]).result.Err?
    ensures !DisabledArgHandler([Flag(id)]).disabled[id]
  {
    var h := HandleDisabledArgs([Flag(id)], GenerateDefault());
    assert !Names([Flag(id)], DEFAULT);
    assert h.0[DEFAULT];
    assert Names([Flag(id)], id);
  }
}
