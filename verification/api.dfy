/*
 * The public calls: brand, detect, percentage, type, conclusion,
 * add_custom, modify_score and the disable call. Each is a function from
 * the engine state (and, for those that probe, the oracle) to the new
 * state and the value returned; a call that throws gives Err. The calls
 * that probe take the selection their argument handler produced (Handle).
 */
module Api {
  import opened Wrappers
  import opened Enums
  import opened Flags
  import opened Brands
  import opened Memo
  import opened Core
  import opened ArgHandle
  import opened Text
  import opened Resolver
  import opened Scoring

  /**
   * arg_handler as a public call uses it: the disabled mask it leaves
   * behind is written to the state and the selection is handed on.
   */
  function Handle(e: Engine, args: seq<Arg>): (r: Result<Answer<FlagSet>>)
    ensures r.Ok? <==> AllAccepted(args)
    ensures r.Ok? ==> r.value.e == e.(disabled := LastVector(args, GenerateDefault()))
    ensures r.Ok? ==> Coherent(r.value.value)
  {
    var o := ArgHandler(args);
    if o.result.Err? then Err(o.result.error)
    else Ok(Answer(e.(disabled := o.disabled), o.result.value))
  }

  /**
   * The selection of a call nested inside type or conclusion, which hand
   * their own selection on as a flag set: the outer call's default
   * techniques, DEFAULT, and no other setting.
   */
  function Inner(flags: FlagSet): (f: FlagSet)
    ensures forall i :: IsTechnique(i) ==> (f[i] <==> flags[i] && !IsOptIn(i))
    ensures f[DEFAULT] && !f[MULTIPLE] && !f[HIGH_THRESHOLD] && !f[DYNAMIC]
    ensures MemoOn(f) && Threshold(f) == THRESHOLD_SCORE
  {
    Reentry(flags);
    assert AllAccepted([Vector(flags)]);
    ArgHandler([Vector(flags)]).result.value
  }

  /** The nested argument handling succeeds, records the flag set as the mask, and selects Inner. */
  lemma HandleInner(e: Engine, flags: FlagSet)
    ensures Handle(e, [Vector(flags)]) == Ok(Answer(e.(disabled := flags), Inner(flags)))
  {
    Reentry(flags);
    assert AllAccepted([Vector(flags)]);
  }

  // ---------------------------------------------------------------- detect, percentage

  /**
   * The percentage for a score: 100 from the threshold on, 99 from 100 up
   * to the threshold, and the score itself below 100.
   */
  function PercentOf(points: nat, flags: FlagSet): (p: Percent)
    ensures p == 100 <==> points >= Threshold(flags)
    ensures p == 99 <==> points == 99 || 100 <= points < Threshold(flags)
    ensures points < 100 ==> p == points
  {
    if points >= Threshold(flags) then 100
    else if points >= 100 then 99
    else points
  }

  /** A higher score never gives a lower percentage. */
  lemma PercentMonotone(a: nat, b: nat, flags: FlagSet)
    requires a <= b
    ensures PercentOf(a, flags) <= PercentOf(b, flags)
  {
  }

  /**
   * detect: run_all with the early exit, compared with the threshold. It
   * throws only when memoization is on and four custom techniques make the
   * cache test go out of range.
   */
  function DetectWith(e: Engine, flags: FlagSet, o: Oracle): (r: Result<Answer<bool>>)
    requires Inv(e)
    ensures r.Ok? ==> Inv(r.value.e) && SameConfig(e, r.value.e)
    ensures r.Err? ==> MemoOn(flags) && TechniqueCount(e) >= ENUM_END
  {
    var run := RunAll(e, flags, true, o);
    if run.Err? then Err(run.error)
    else Ok(Answer(run.value.e, run.value.points >= Threshold(flags)))
  }

  /** percentage: run_all with the early exit, turned into a percentage. */
  function PercentageWith(e: Engine, flags: FlagSet, o: Oracle): (r: Result<Answer<Percent>>)
    requires Inv(e)
    ensures r.Ok? ==> Inv(r.value.e) && SameConfig(e, r.value.e)
    ensures r.Err? ==> MemoOn(flags) && TechniqueCount(e) >= ENUM_END
  {
    var run := RunAll(e, flags, true, o);
    if run.Err? then Err(run.error)
    else Ok(Answer(run.value.e, PercentOf(run.value.points, flags)))
  }

  /**
   * detect and percentage agree: from the same state they fail together,
   * leave the same state, and detect holds exactly when the percentage is
   * 100.
   */
  lemma DetectIffCertain(e: Engine, flags: FlagSet, o: Oracle)
    requires Inv(e)
    ensures DetectWith(e, flags, o).Ok? <==> PercentageWith(e, flags, o).Ok?
    ensures DetectWith(e, flags, o).Ok? ==>
      DetectWith(e, flags, o).value.e == PercentageWith(e, flags, o).value.e &&
      (DetectWith(e, flags, o).value.value <==> PercentageWith(e, flags, o).value.value == 100)
  {
  }

  /**
   * The reference score of a run without custom techniques: the selected
   * non-GPU techniques whose probe is positive, plus the GPU step.
   */
  function ReferenceScore(e: Engine, flags: FlagSet, o: Oracle): nat {
    WalkScore(e.weights, flags, o, 0) + GpuScore(e.weights, flags, o)
  }

  /**
   * Without custom techniques and with a cache that agrees with the probes
   * (and, with memoization on, with the current weights), the early exit
   * does not change the percentage: it is the one of the reference score.
   */
  lemma PercentageMatchesReference(e: Engine, flags: FlagSet, o: Oracle)
    requires Inv(e) && e.customs == [] && Consistent(e, o) && (!MemoOn(flags) || Fresh(e))
    ensures PercentageWith(e, flags, o).Ok?
    ensures PercentageWith(e, flags, o).value.value == PercentOf(ReferenceScore(e, flags, o), flags)
  {
    var p := BuiltinPass(e, flags, true, o, 0, 0);
    ShortcutAtThreshold(e, flags, o, 0, 0);
    if !p.stopped {
      WalkPreserves(e, flags, true, o, 0, 0);
      var c := CustomPass(p.e, MemoOn(flags), o, 0, p.points);
      assert c == Ok(Run(p.e, p.points));
      var g := MergeGpu(p.e, flags, o, p.points);
      assert g.points == p.points + GpuScore(e.weights, flags, o);
      assert RunAll(e, flags, true, o) == Ok(g);
    }
  }

  /** Under the same conditions detect holds exactly when the reference score reaches the threshold. */
  lemma DetectMatchesReference(e: Engine, flags: FlagSet, o: Oracle)
    requires Inv(e) && e.customs == [] && Consistent(e, o) && (!MemoOn(flags) || Fresh(e))
    ensures DetectWith(e, flags, o).Ok?
    ensures DetectWith(e, flags, o).value.value <==> ReferenceScore(e, flags, o) >= Threshold(flags)
  {
    PercentageMatchesReference(e, flags, o);
    DetectIffCertain(e, flags, o);
  }

  // ---------------------------------------------------------------- brand

  /** The string cache a brand call reads and writes. */
  function SlotOf(flags: FlagSet): Slot {
    if flags[MULTIPLE] then MultiBrand else SingleBrand
  }

  /**
   * The first half of brand: run_all without the early exit, unless the
   * technique cache is complete and memoization is on. The cache is never
   * complete (NeverAllPresent), so the techniques are always walked.
   */
  function BrandRun(e: Engine, flags: FlagSet, o: Oracle): Result<Run>
    requires Inv(e)
  {
    if !AllPresent(e.cache, TechniqueCount(e)) || !MemoOn(flags) then RunAll(e, flags, false, o)
    else Ok(Run(e, 0))
  }

  /** The technique cache is never complete, so brand always walks the techniques. */
  lemma BrandAlwaysRuns(e: Engine, flags: FlagSet, o: Oracle)
    requires Inv(e)
    ensures !AllPresent(e.cache, TechniqueCount(e))
    ensures BrandRun(e, flags, o) == RunAll(e, flags, false, o)
  {
    NeverAllPresent(e.cache, Span(BASE_TECHNIQUE_COUNT + 1, TechniqueCount(e) + 1), TechniqueCount(e));
  }

  /**
   * The second half of brand, after the run: with memoization on, the
   * cached message for the mode; otherwise the resolver's message, which
   * is cached when two or more brands were credited and memoization is on.
   * The run's score never affects the message.
   */
  function BrandAfterRun(e: Engine, flags: FlagSet, points: nat): (r: Answer<string>)
    requires Inv(e)
    ensures Inv(r.e) && r.e == e.(cache := r.e.cache) && r.e.cache.table == e.cache.table
    ensures MemoOn(flags) && IsStringCached(e.cache, SlotOf(flags)) ==> r == Answer(e, FetchString(e.cache, SlotOf(flags)))
    ensures !(MemoOn(flags) && IsStringCached(e.cache, SlotOf(flags))) ==>
      r.value == Resolve(e.scoreboard, 0, flags[MULTIPLE]).text
    ensures MemoOn(flags) && (IsStringCached(e.cache, SlotOf(flags)) || |Relevant(e.scoreboard)| > 1) ==>
      IsStringCached(r.e.cache, SlotOf(flags)) && FetchString(r.e.cache, SlotOf(flags)) == r.value
    ensures !MemoOn(flags) || IsStringCached(e.cache, SlotOf(flags)) || |Relevant(e.scoreboard)| <= 1 ==> r.e == e
    ensures forall s :: s != SlotOf(flags) ==> FetchString(r.e.cache, s) == FetchString(e.cache, s)
  {
    var slot := SlotOf(flags);
    if MemoOn(flags) && IsStringCached(e.cache, slot) then Answer(e, FetchString(e.cache, slot))
    else
      var res := Resolve(e.scoreboard, points, flags[MULTIPLE]);
      ResolveIgnoresScore(e.scoreboard, points, flags[MULTIPLE]);
      if res.cacheable && MemoOn(flags) then
        ResolvedTextNonEmpty(e.scoreboard, points, flags[MULTIPLE]);
        StringStoreThenFetch(e.cache, slot, res.text);
        Answer(e.(cache := StoreString(e.cache, slot, res.text)), res.text)
      else Answer(e, res.text)
  }

  /**
   * brand: the run, then the message. It throws only when memoization is
   * on and four custom techniques make the cache test go out of range.
   */
  function BrandWith(e: Engine, flags: FlagSet, o: Oracle): (r: Result<Answer<string>>)
    requires Inv(e)
    ensures r.Err? <==> MemoOn(flags) && TechniqueCount(e) >= ENUM_END
    ensures r.Ok? ==>
      && RunAll(e, flags, false, o).Ok?
      && var run := RunAll(e, flags, false, o).value;
         r.value == BrandAfterRun(run.e, flags, run.points)
  {
    BrandAlwaysRuns(e, flags, o);
    var run := BrandRun(e, flags, o);
    if run.Err? then Err(run.error)
    else Ok(BrandAfterRun(run.value.e, flags, run.value.points))
  }

  /**
   * With memoization on, once a message has been cached (two or more
   * brands were credited), the next brand call in the same mode returns
   * it again, whatever the probes now report.
   */
  lemma BrandRepeats(e: Engine, flags: FlagSet, o: Oracle, o': Oracle)
    requires Inv(e) && MemoOn(flags) && TechniqueCount(e) < ENUM_END
    ensures BrandWith(e, flags, o).Ok?
    ensures var first := BrandWith(e, flags, o).value;
      IsStringCached(e.cache, SlotOf(flags)) || |Relevant(first.e.scoreboard)| > 1 ==>
        BrandWith(first.e, flags, o').Ok? && BrandWith(first.e, flags, o').value.value == first.value
  {
    var run := RunAll(e, flags, false, o).value;
    var first := BrandAfterRun(run.e, flags, run.points);
    if IsStringCached(e.cache, SlotOf(flags)) || |Relevant(first.e.scoreboard)| > 1 {
      var next := first.e;
      var run2 := RunAll(next, flags, false, o').value;
      CachedMessageReturned(run.e, flags, run.points, run2.e, run2.points);
    }
  }

  /** A message cached by one brand call is what the next call, after its own run, returns. */
  lemma CachedMessageReturned(e: Engine, flags: FlagSet, points: nat, e2: Engine, points2: nat)
    requires Inv(e) && Inv(e2) && MemoOn(flags)
    requires IsStringCached(e.cache, SlotOf(flags)) || |Relevant(e.scoreboard)| > 1
    requires SameConfig(BrandAfterRun(e, flags, points).e, e2)
    ensures BrandAfterRun(e2, flags, points2).value == BrandAfterRun(e, flags, points).value
  {
    var slot := SlotOf(flags);
    var first := BrandAfterRun(e, flags, points);
    assert FetchString(e2.cache, slot) == FetchString(first.e.cache, slot);
  }

  /** The single-brand message is always one label. */
  lemma SingleIsLabel(sb: Scoreboard, score: nat)
    ensures exists b :: Resolve(sb, score, false).text == Label(b)
  {
    var m := Relevant(sb);
    if m == map[] {
      assert Resolve(sb, score, false).text == Label(NullBrand);
    } else if |m| == 1 {
      assert Resolve(sb, score, false).text == Label(Best(m).value);
    } else {
      var order := Ordered(PostProcess(m, score));
      assert Resolve(sb, score, false).text == Label(order[0]);
    }
  }

  /** The single-brand cache is empty or holds a label. */
  ghost predicate SingleSlotLabelled(e: Engine) {
    e.cache.brand == "" || exists b :: Label(b) == e.cache.brand
  }

  /** A brand call keeps the single-brand cache empty or labelled. */
  lemma BrandKeepsSingleSlot(e: Engine, flags: FlagSet, o: Oracle)
    requires Inv(e) && SingleSlotLabelled(e) && !(MemoOn(flags) && TechniqueCount(e) >= ENUM_END)
    ensures BrandWith(e, flags, o).Ok? && SingleSlotLabelled(BrandWith(e, flags, o).value.e)
  {
    var run := RunAll(e, flags, false, o).value;
    var r := BrandAfterRun(run.e, flags, run.points);
    assert run.e.cache.brand == e.cache.brand;
    if r.e.cache.brand != e.cache.brand {
      assert SlotOf(flags) == SingleBrand;
      SingleIsLabel(run.e.scoreboard, 0);
    }
  }

  // ---------------------------------------------------------------- type

  /** The type table, by brand. Four brands have no entry. */
  function TypeEntry(b: Brand): Option<string> {
    match b
    case NullBrand => Some("Unknown")
    case VBox => Some("Hypervisor (type 2)")
    case VMware => Some("Hypervisor (type 2)")
    case VMwareExpress => Some("Hypervisor (type 2)")
    case VMwareEsx => Some("Hypervisor (type 1)")
    case VMwareGsx => Some("Hypervisor (type 2)")
    case VMwareWorkstation => Some("Hypervisor (type 2)")
    case VMwareFusion => Some("Hypervisor (type 2)")
    case VMwareHard => None
    case Bhyve => Some("Hypervisor (type 2)")
    case Kvm => Some("Hypervisor (type 1)")
    case Qemu => Some("Emulator/Hypervisor (type 2)")
    case QemuKvm => Some("Hypervisor (type 1)")
    case KvmHyperV => Some("Hypervisor (type 1)")
    case QemuKvmHyperV => Some("Hypervisor (type 1)")
    case HyperV => Some("Hypervisor (type 2)")
    case HyperVVpc => Some("Hypervisor (type 2)")
    case Parallels => Some("Hypervisor (type 2)")
    case Xen => Some("Hypervisor (type 1)")
    case Acrn => Some("Hypervisor (type 1)")
    case Qnx => Some("Hypervisor (type 1)")
    case Hybrid => Some("Sandbox")
    case Sandboxie => Some("Sandbox")
    case Docker => Some("Container")
    case Wine => Some("Compatibility layer")
    case Vpc => Some("Hypervisor (type 2)")
    case Anubis => Some("Sandbox")
    case JoeBox => Some("Sandbox")
    case ThreatExpert => Some("Sandbox")
    case CwSandbox => Some("Sandbox")
    case Comodo => Some("Sandbox")
    case Bochs => Some("Emulator")
    case Nvmm => Some("Hypervisor (type 2)")
    case BsdVmm => Some("Hypervisor (type 2)")
    case IntelHaxm => Some("Hypervisor (type 1)")
    case Unisys => Some("Partitioning Hypervisor")
    case Lmhs => Some("Hypervisor (unknown type)")
    case Cuckoo => Some("Sandbox")
    case BlueStacks => Some("Emulator")
    case Jailhouse => Some("Partitioning Hypervisor")
    case AppleVz => Some("Unknown")
    case IntelKgt => Some("Hypervisor (type 1)")
    case AzureHyperV => Some("Hypervisor (type 1)")
    case NanoVisor => Some("Hypervisor (type 1)")
    case SimpleVisor => Some("Hypervisor (type 1)")
    case HyperVArtifact => Some("Unknown")
    case Uml => Some("Paravirtualised/Hypervisor (type 2)")
    case PowerVm => Some("Hypervisor (type 1)")
    case Gce => Some("Cloud VM service")
    case OpenStack => Some("Hypervisor (type 1)")
    case KubeVirt => Some("Hypervisor (type 1)")
    case AwsNitro => Some("Hypervisor (type 1)")
    case Podman => Some("Container")
    case Wsl => Some("Hypervisor (Type 1)")
    case OpenVz => Some("Container")
    case Barevisor => None
    case HyperPlatform => None
    case MiniVisor => None
    case IntelTdx => Some("Trusted Domain")
    case Lkvm => Some("Hypervisor (type 1)")
    case AmdSev => Some("VM encryptor")
    case AmdSevEs => Some("VM encryptor")
    case AmdSevSnp => Some("VM encryptor")
    case NekoProject => Some("Emulator")
    case NoirVisor => Some("Hypervisor (type 1)")
    case Qihoo => Some("Sandbox")
    case NsJail => Some("Process isolator")
    case HypervisorPhantom => Some("Sandbox")
  }

  /**
   * The lookup of a message in the string-keyed type table: a label finds
   * its brand's entry, and any other text finds nothing.
   */
  function TypeLookup(s: string): (r: Option<string>)
    ensures forall b :: Label(b) == s ==> r == TypeEntry(b)
    ensures (forall b :: Label(b) != s) ==> r.None?
    ensures r.Some? ==> exists b :: Label(b) == s && TypeEntry(b) == r
  {
    IdentifyAll();
    match Identify(s)
    case None => None
    case Some(b) => if Label(b) == s then TypeEntry(b) else None
  }

  /** A table entry, or "Unknown" without one. */
  function OrUnknown(t: Option<string>): string {
    match t
    case Some(x) => x
    case None => "Unknown"
  }

  /**
   * What type answers for a brand message: "Unknown" for a message naming
   * several brands, otherwise the table entry, and "Unknown" for a message
   * missing from the table.
   */
  function TypeOfText(text: string): (t: string)
    ensures Find(text, SEPARATOR) ==> t == "Unknown"
    ensures t == "Unknown" || exists b :: TypeEntry(b) == Some(t)
  {
    if Find(text, SEPARATOR) then "Unknown"
    else OrUnknown(TypeLookup(text))
  }

  /** The category type gives for a brand: its table entry, or "Unknown" without one. */
  function TypeName(b: Brand): string {
    OrUnknown(TypeEntry(b))
  }

  /** A message without the separator is looked up in the table. */
  lemma TypeOfPlainText(s: string)
    requires !Find(s, SEPARATOR)
    ensures TypeOfText(s) == OrUnknown(TypeLookup(s))
  {
  }

  /** For a single brand's label, type gives that brand's category. */
  lemma TypeOfLabel(b: Brand)
    ensures TypeOfText(Label(b)) == TypeName(b)
  {
    LabelHasNoSeparator(b);
    TypeOfPlainText(Label(b));
  }

  /** Exactly four brands are missing from the table. */
  lemma TypeTableGaps(b: Brand)
    ensures TypeEntry(b).None? <==> b in {VMwareHard, Barevisor, HyperPlatform, MiniVisor}
  {
  }

  /** VMware with the hardened loader comes out as "Unknown". */
  lemma TypeOfHardenedVMware()
    ensures TypeOfText(Label(VMwareHard)) == "Unknown"
  {
    TypeOfLabel(VMwareHard);
  }

  /** WSL keeps the capitalised "Type 1" of its table entry. */
  lemma TypeOfWsl()
    ensures TypeOfText(Label(Wsl)) == "Hypervisor (Type 1)"
  {
    TypeOfLabel(Wsl);
  }

  /**
   * type: brand in the nested call's selection, then the table. The nested
   * brand call is always memoized and in single-brand mode, whatever the
   * caller asked for: it fails exactly when four custom techniques exist,
   * and its message comes from the single-brand cache or is a fresh
   * single-brand resolution.
   */
  function TypeWith(e: Engine, flags: FlagSet, o: Oracle): (r: Result<Answer<string>>)
    requires Inv(e)
    ensures r.Err? <==> TechniqueCount(e) >= ENUM_END
    ensures r.Ok? ==> Inv(r.value.e)
    ensures r.Ok? && IsStringCached(e.cache, SingleBrand) ==>
      r.value.value == TypeOfText(FetchString(e.cache, SingleBrand))
    ensures r.Ok? && !IsStringCached(e.cache, SingleBrand) ==>
      r.value.value == TypeOfText(Resolve(r.value.e.scoreboard, 0, false).text)
  {
    HandleInner(e, flags);
    var h := Handle(e, [Vector(flags)]).value;
    var b := BrandWith(h.e, h.value, o);
    if b.Err? then Err(b.error)
    else Ok(Answer(b.value.e, TypeOfText(b.value.value)))
  }

  /**
   * The " or " branch of type is never taken through its own brand call:
   * while the single-brand cache is empty or holds a label, type answers
   * with the category of some brand.
   */
  lemma TypeOfSomeBrand(e: Engine, flags: FlagSet, o: Oracle)
    requires Inv(e) && SingleSlotLabelled(e) && TechniqueCount(e) < ENUM_END
    ensures TypeWith(e, flags, o).Ok? && exists b :: TypeWith(e, flags, o).value.value == TypeName(b)
  {
    var r := TypeWith(e, flags, o).value;
    if IsStringCached(e.cache, SingleBrand) {
      var b :| Label(b) == e.cache.brand;
      TypeOfLabel(b);
    } else {
      SingleIsLabel(r.e.scoreboard, 0);
      var b :| Resolve(r.e.scoreboard, 0, false).text == Label(b);
      TypeOfLabel(b);
    }
  }

  // ---------------------------------------------------------------- conclusion

  /** The eight verdicts of conclusion, from least to most certain. */
  datatype Band = Baremetal | VeryUnlikely | Unlikely | Potentially | MightBe | Likely | VeryLikely | Inside

  function Level(b: Band): nat {
    match b
    case Baremetal => 0
    case VeryUnlikely => 1
    case Unlikely => 2
    case Potentially => 3
    case MightBe => 4
    case Likely => 5
    case VeryLikely => 6
    case Inside => 7
  }

  /**
   * The verdict for a percentage: eight bands in dynamic mode, otherwise
   * "inside" at 100 and baremetal below.
   */
  function BandOf(percent: Percent, dynamic: bool): (band: Band)
    ensures !dynamic ==> band == (if percent == 100 then Inside else Baremetal)
    ensures band == Baremetal <==> percent == 0 || (!dynamic && percent < 100)
    ensures band == Inside <==> percent == 100
  {
    if dynamic then
      if percent == 0 then Baremetal
      else if percent <= 20 then VeryUnlikely
      else if percent <= 35 then Unlikely
      else if percent < 50 then Potentially
      else if percent <= 62 then MightBe
      else if percent <= 75 then Likely
      else if percent < 100 then VeryLikely
      else Inside
    else if percent == 100 then Inside
    else Baremetal
  }

  /** In dynamic mode a higher percentage never gives a less certain verdict. */
  lemma BandMonotone(p: Percent, q: Percent)
    requires p <= q
    ensures Level(BandOf(p, true)) <= Level(BandOf(q, true))
  {
  }

  /** The brands whose name is preceded by "an". */
  const AN_BRANDS: set<Brand> := {Acrn, Anubis, BsdVmm, IntelHaxm, AppleVz, IntelKgt, PowerVm, OpenStack,
    AwsNitro, OpenVz, IntelTdx, AmdSev, AmdSevEs, AmdSevSnp, NsJail, NullBrand}

  /** The article test of make_conclusion: the message is the label of one of those brands. */
  predicate TakesAn(text: string) {
    exists b :: b in AN_BRANDS && text == Label(b)
  }

  /**
   * make_conclusion: the category, the article, the brand ("unknown" for
   * the null brand) and " VM", except for the Hyper-V artifact.
   */
  function MakeConclusion(category: string, text: string): (m: string)
    ensures category <= m
  {
    var article := if TakesAn(text) then " an " else " a ";
    var shown := if text == Label(NullBrand) then "unknown" else text;
    if shown == Label(HyperVArtifact) then category + article + shown
    else category + article + shown + " VM"
  }

  /** The sentence for a brand, written from the brand rather than its label. */
  function Sentence(category: string, b: Brand): string {
    category + (if b in AN_BRANDS then " an " else " a ") + (if b == NullBrand then "unknown" else Label(b))
      + (if b == HyperVArtifact then "" else " VM")
  }

  /** The article test on a message that is the label of exactly one brand. */
  lemma TakesAnOnly(s: string, b: Brand)
    requires Label(b) == s
    requires forall c :: Label(c) == s ==> c == b
    ensures TakesAn(s) <==> b in AN_BRANDS
  {
    if TakesAn(s) {
      var c :| c in AN_BRANDS && s == Label(c);
      assert c == b;
    } else {
      assert !(b in AN_BRANDS && s == Label(b));
    }
  }

  /** A brand's label takes "an" exactly for the brands listed. */
  lemma TakesAnLabel(b: Brand)
    ensures TakesAn(Label(b)) <==> b in AN_BRANDS
  {
    LabelsInjective();
    TakesAnOnly(Label(b), b);
  }

  /** A brand's label is shown as "unknown" exactly for the null brand. */
  lemma ShownAsUnknown(b: Brand)
    ensures Label(b) == Label(NullBrand) <==> b == NullBrand
  {
    LabelInjective(b, NullBrand);
  }

  /** The shown brand drops the " VM" suffix exactly for the Hyper-V artifact. */
  lemma ShownAsArtifact(b: Brand)
    ensures (if b == NullBrand then "unknown" else Label(b)) == Label(HyperVArtifact) <==> b == HyperVArtifact
  {
    LabelInjective(b, HyperVArtifact);
  }

  /** make_conclusion, once its three tests on the message are decided. */
  lemma ConclusionShape(category: string, text: string, an: bool, isNull: bool, isArtifact: bool)
    requires TakesAn(text) == an
    requires (text == Label(NullBrand)) == isNull
    requires ((if isNull then "unknown" else text) == Label(HyperVArtifact)) == isArtifact
    ensures MakeConclusion(category, text)
         == category + (if an then " an " else " a ") + (if isNull then "unknown" else text)
            + (if isArtifact then "" else " VM")
  {
  }

  /** make_conclusion on a brand's label writes that brand's sentence. */
  lemma ConclusionOfLabel(category: string, b: Brand)
    ensures MakeConclusion(category, Label(b)) == Sentence(category, b)
  {
    TakesAnLabel(b);
    ShownAsUnknown(b);
    ShownAsArtifact(b);
    ConclusionShape(category, Label(b), b in AN_BRANDS, b == NullBrand, b == HyperVArtifact);
  }

  /** The message for a verdict and a brand message. */
  function Message(band: Band, text: string): (m: string)
    ensures band == Inside ==> "Running inside" <= m
  {
    match band
    case Baremetal => "Running on baremetal"
    case VeryUnlikely => "Very unlikely a VM"
    case Unlikely => "Unlikely a VM"
    case Potentially => MakeConclusion("Potentially", text)
    case MightBe => MakeConclusion("Might be", text)
    case Likely => MakeConclusion("Likely", text)
    case VeryLikely => MakeConclusion("Very likely", text)
    case Inside => MakeConclusion("Running inside", text)
  }

  /**
   * conclusion: brand and percentage in the nested call's selection, and
   * the message for the percentage's verdict (dynamic mode is read from the
   * caller's own selection). The nested calls are memoized and use the
   * plain threshold of 150 even when the caller asked for the high one.
   */
  function ConclusionWith(e: Engine, flags: FlagSet, o: Oracle): (r: Result<Answer<string>>)
    requires Inv(e)
    ensures r.Err? <==> TechniqueCount(e) >= ENUM_END
    ensures r.Ok? ==> Inv(r.value.e)
    ensures r.Ok? && !flags[DYNAMIC] ==>
      r.value.value == "Running on baremetal" || "Running inside" <= r.value.value
  {
    HandleInner(e, flags);
    var h := Handle(e, [Vector(flags)]).value;
    var b := BrandWith(h.e, h.value, o);
    if b.Err? then Err(b.error)
    else
      match PercentageWith(b.value.e, Inner(flags), o)
      case Err(err) => Err(err)
      case Ok(p) => Ok(Answer(p.e, Message(BandOf(p.value, flags[DYNAMIC]), b.value.value)))
  }

  /**
   * In static mode conclusion reports "Running inside" exactly when the
   * nested percentage call, which uses threshold 150, gives 100; and then
   * the sentence for the brand it named.
   */
  lemma ConclusionStatic(e: Engine, flags: FlagSet, o: Oracle, b: Brand)
    requires Inv(e) && !flags[DYNAMIC] && TechniqueCount(e) < ENUM_END
    ensures ConclusionWith(e, flags, o).Ok?
    ensures var h := BrandWith(e.(disabled := flags), Inner(flags), o).value;
      var p := PercentageWith(h.e, Inner(flags), o).value.value;
      h.value == Label(b) ==>
        ConclusionWith(e, flags, o).value.value ==
          if p == 100 then Sentence("Running inside", b) else "Running on baremetal"
  {
    HandleInner(e, flags);
    var h := BrandWith(e.(disabled := flags), Inner(flags), o).value;
    var p := PercentageWith(h.e, Inner(flags), o).value.value;
    StaticMessage(p, h.value);
    ConclusionOfLabel("Running inside", b);
  }

  /** Without the dynamic setting the message is the full sentence at 100 percent and baremetal below. */
  lemma StaticMessage(percent: Percent, text: string)
    ensures Message(BandOf(percent, false), text)
         == if percent == 100 then MakeConclusion("Running inside", text) else "Running on baremetal"
  {
  }

  // ---------------------------------------------------------------- add_custom, modify_score, disable

  /**
   * add_custom: a percentage above 100 throws; otherwise the technique is
   * appended, the technique count grows by one, and its identifier is the
   * base count plus the number of registrations so far.
   */
  function AddCustom(e: Engine, percent: u8): (r: Result<Engine>)
    requires Inv(e)
    ensures r.Ok? <==> percent <= 100
    ensures r.Ok? ==> Inv(r.value) && TechniqueCount(r.value) == TechniqueCount(e) + 1
    ensures r.Ok? ==> r.value.customs == e.customs + [Custom(percent)] && r.value == e.(customs := r.value.customs)
    ensures r.Ok? ==> CustomId(|e.customs|) == BASE_TECHNIQUE_COUNT + |r.value.customs| && IsCustomId(r.value, CustomId(|e.customs|))
  {
    if percent > 100 then Err(InvalidArgument)
    else Ok(e.(customs := e.customs + [Custom(percent)]))
  }

  /** Without memoization, the next run invokes the newly added technique's probe. */
  lemma AddedCustomRuns(e: Engine, percent: u8, flags: FlagSet, o: Oracle)
    requires Inv(e) && percent <= 100 && !MemoOn(flags)
    ensures var e' := AddCustom(e, percent).value;
      RunAll(e', flags, false, o).Ok? && CustomId(|e.customs|) in RunAll(e', flags, false, o).value.e.trace
  {
    var e' := AddCustom(e, percent).value;
    var p := BuiltinPass(e', flags, false, o, 0, 0);
    var c := CustomPass(p.e, false, o, 0, p.points);
    var n := |e.customs|;
    assert CustomIdRange(0, n + 1)[n] == CustomId(n);
    assert c.value.e.trace[|p.e.trace| + n] == CustomId(n);
    var g := MergeGpu(c.value.e, flags, o, c.value.points);
    assert g.e.trace[|p.e.trace| + n] == CustomId(n);
  }

  /**
   * modify_score: a percentage above 100, or a flag that is not a
   * technique, throws; otherwise only that technique's weight changes.
   */
  function ModifyScore(e: Engine, flag: u8, percent: u8): (r: Result<Engine>)
    requires Inv(e)
    ensures r.Ok? <==> percent <= 100 && IsTechnique(flag)
    ensures r.Ok? ==> Inv(r.value) && r.value.weights[flag] == percent
    ensures r.Ok? ==> forall id :: IsTechnique(id) && id != flag ==> r.value.weights[id] == e.weights[id]
    ensures r.Ok? ==> r.value == e.(weights := r.value.weights)
  {
    if percent > 100 then Err(InvalidArgument)
    else if flag >= TECHNIQUE_END then Err(InvalidArgument)
    else Ok(e.(weights := e.weights[flag := percent]))
  }

  /**
   * modify_score does not touch the cache: with memoization on, a positive
   * cached result still scores the weight it was cached with, while a run
   * without memoization scores the new weight.
   */
  lemma ModifiedScoreIsStale(e: Engine, flag: u8, percent: u8, flags: FlagSet, o: Oracle)
    requires Inv(e) && percent <= 100 && IsTechnique(flag) && flags[flag] && !IsGpu(flag)
    ensures var e' := ModifyScore(e, flag, percent).value;
      MemoOn(flags) && flag in e.cache.table ==>
        BuiltinStep(e', flags, o, flag).gained == if e.cache.table[flag].result then e.cache.table[flag].points else 0
    ensures var e' := ModifyScore(e, flag, percent).value;
      !MemoOn(flags) ==> BuiltinStep(e', flags, o, flag).gained == if o(flag).result then percent else 0
  {
  }

  /**
   * The disable call: it succeeds only for enumerators inside the flag set
   * that include DEFAULT, and returns the mask it wrote to the state.
   */
  function Disable(e: Engine, args: seq<Arg>): (r: Result<Answer<FlagSet>>)
    ensures r.Ok? <==>
      |args| > 0 && (forall i :: 0 <= i < |args| ==> args[i].Flag? && args[i].id < ENUM_END) && Names(args, DEFAULT)
    ensures r.Ok? ==> r.value.e == e.(disabled := r.value.value)
    ensures r.Ok? ==> forall i :: 0 <= i < ENUM_END ==> (r.value.value[i] <==> GenerateDefault()[i] && !Names(args, i))
  {
    DisableNeedsDefault(args);
    var o := DisabledArgHandler(args);
    if o.result.Err? then Err(o.result.error)
    else Ok(Answer(e.(disabled := o.disabled), o.result.value))
  }

  /** A disable call has no effect on later calls: their argument handling starts from scratch. */
  lemma DisableDoesNotPersist(e: Engine, args: seq<Arg>, later: seq<Arg>)
    requires Disable(e, args).Ok?
    ensures Handle(Disable(e, args).value.e, later) == Handle(e, later)
  {
  }
}
