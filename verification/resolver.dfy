/*
 * The brand resolver behind VM::brand: from the scoreboard to the brand
 * message. The credited brands become candidates; with two or more, the
 * Hyper-V artifact is dropped, a fixed list of merge rules folds related
 * brands into one, and the survivors are ranked by credit and either the
 * first is named or all are joined with " or ".
 */
module Resolver {
  import opened Wrappers
  import opened Brands
  import opened Text

  /** The brands still in the running, with their credits. */
  type Candidates = map<Brand, nat>

  /** The scoreboard entries with at least one point. */
  function Relevant(sb: Scoreboard): (m: Candidates)
    ensures forall b :: b in m <==> Credit(sb, b) > 0
    ensures forall b :: b in m ==> m[b] == Credit(sb, b)
  {
    map b | b in sb && sb[b] > 0 :: sb[b]
  }

  /** std::map::count on the candidates: 1 for a present brand, 0 otherwise. */
  function Count(m: Candidates, b: Brand): (n: nat)
    ensures n <= 1 && (n == 1 <==> b in m)
  {
    if b in m then 1 else 0
  }

  /**
   * merge(a, b, r): when both a and b are candidates, both go and r comes
   * in with credit 2, unless r survived the erasing, in which case emplace
   * leaves r's credit alone. Otherwise nothing changes.
   */
  function Merge(m: Candidates, a: Brand, b: Brand, r: Brand): (m': Candidates)
    requires a != b
    ensures a in m && b in m ==> m'.Keys == m.Keys - {a, b} + {r}
    ensures a in m && b in m ==> m'[r] == (if r in m && r != a && r != b then m[r] else 2)
    ensures a in m && b in m ==> forall x :: x in m' && x != r ==> m'[x] == m[x]
    ensures !(a in m && b in m) ==> m' == m
  {
    if a in m && b in m then
      var rest := m - {a, b};
      if r in rest then rest else rest[r := 2]
    else m
  }

  /** triple_merge(a, b, c, r): the same with three brands that must all be candidates. */
  function TripleMerge(m: Candidates, a: Brand, b: Brand, c: Brand, r: Brand): (m': Candidates)
    requires a != b && b != c && a != c
    ensures a in m && b in m && c in m ==> m'.Keys == m.Keys - {a, b, c} + {r}
    ensures !(a in m && b in m && c in m) ==> m' == m
  {
    if a in m && b in m && c in m then
      var rest := m - {a, b, c};
      if r in rest then rest else rest[r := 2]
    else m
  }

  /** One merge(a, b, into) line of the post-processing. */
  datatype Rule = Rule(a: Brand, b: Brand, into: Brand)

  /** The brands some merge rule produces. */
  predicate Merged(b: Brand) {
    || b == HyperVVpc || b == AzureHyperV || b == NanoVisor
    || b == QemuKvm || b == KvmHyperV || b == QemuKvmHyperV
    || b == VMwareFusion || b == VMwareExpress || b == VMwareEsx || b == VMwareGsx
    || b == VMwareWorkstation || b == VMwareHard
  }

  /** Rules merge two different brands into a merge result. */
  predicate WellFormed(rules: seq<Rule>) {
    forall i :: 0 <= i < |rules| ==> rules[i].a != rules[i].b && Merged(rules[i].into)
  }

  /**
   * What every post-processing stage keeps: a non-empty candidate map
   * stays non-empty, and the only brands that can appear are merge results.
   */
  ghost predicate Narrows(m: Candidates, m': Candidates) {
    && (m != map[] ==> m' != map[])
    && (forall x :: x in m' && !Merged(x) ==> x in m)
  }

  /** The merge rules applied one after the other. */
  function Apply(m: Candidates, rules: seq<Rule>): (m': Candidates)
    requires WellFormed(rules)
    ensures Narrows(m, m')
    decreases |rules|
  {
    if |rules| == 0 then m
    else
      var r := rules[0];
      var m1 := Merge(m, r.a, r.b, r.into);
      var m2 := Apply(m1, rules[1..]);
      assert r.into in m1 || m1 == m;
      m2
  }

  /** A brand that is not a candidate and that no rule produces stays out. */
  lemma {:induction false} ApplyKeepsOut(m: Candidates, rules: seq<Rule>, x: Brand)
    requires WellFormed(rules) && x !in m
    requires forall i :: 0 <= i < |rules| ==> rules[i].into != x
    ensures x !in Apply(m, rules)
    decreases |rules|
  {
    if |rules| > 0 {
      var r := rules[0];
      var m1 := Merge(m, r.a, r.b, r.into);
      ApplyKeepsOut(m1, rules[1..], x);
    }
  }

  /** The Azure and NanoVisor rules: each absorbs Hyper-V, Virtual PC and their merge. */
  const HYPERV_RULES: seq<Rule> := [
    Rule(AzureHyperV, HyperV, AzureHyperV), Rule(AzureHyperV, Vpc, AzureHyperV),
    Rule(AzureHyperV, HyperVVpc, AzureHyperV),
    Rule(NanoVisor, HyperV, NanoVisor), Rule(NanoVisor, Vpc, NanoVisor),
    Rule(NanoVisor, HyperVVpc, NanoVisor)]

  /** The seven pairwise QEMU / KVM / Hyper-V rules. */
  const KVM_RULES: seq<Rule> := [Rule(Qemu, Kvm, QemuKvm)] + KVM_LATER_RULES

  /** The six KVM rules after the first; none of them produces QEMU or KVM. */
  const KVM_LATER_RULES: seq<Rule> := [
    Rule(Kvm, HyperV, KvmHyperV), Rule(Qemu, HyperV, QemuKvmHyperV),
    Rule(QemuKvm, HyperV, QemuKvmHyperV), Rule(Kvm, KvmHyperV, KvmHyperV),
    Rule(Qemu, KvmHyperV, QemuKvmHyperV), Rule(QemuKvm, KvmHyperV, QemuKvmHyperV)]

  /** VMware yields to a specific edition; the hardened loader absorbs VMware and every edition. */
  const VMWARE_RULES: seq<Rule> := [
    Rule(VMware, VMwareFusion, VMwareFusion), Rule(VMware, VMwareExpress, VMwareExpress),
    Rule(VMware, VMwareEsx, VMwareEsx), Rule(VMware, VMwareGsx, VMwareGsx),
    Rule(VMware, VMwareWorkstation, VMwareWorkstation),
    Rule(VMwareHard, VMware, VMwareHard), Rule(VMwareHard, VMwareFusion, VMwareHard),
    Rule(VMwareHard, VMwareExpress, VMwareHard), Rule(VMwareHard, VMwareEsx, VMwareHard),
    Rule(VMwareHard, VMwareGsx, VMwareHard), Rule(VMwareHard, VMwareWorkstation, VMwareHard)]

  lemma RulesWellFormed()
    ensures WellFormed(HYPERV_RULES) && WellFormed(KVM_RULES) && WellFormed(VMWARE_RULES)
  {
  }

  /** With more than one candidate, the Hyper-V artifact label is erased. */
  function DropArtifact(m: Candidates): (m': Candidates)
    requires |m| > 1
    ensures HyperVArtifact !in m'
    ensures forall x :: x != HyperVArtifact ==> (x in m' <==> x in m)
    ensures forall x :: x in m' ==> m'[x] == m[x]
    ensures m' != map[] && Narrows(m, m')
  {
    OtherKey(m, HyperVArtifact);
    if HyperVArtifact in m then m - {HyperVArtifact} else m
  }

  /** A map with more than one key has a key besides any given one. */
  lemma OtherKey(m: Candidates, b: Brand)
    requires |m| > 1
    ensures exists x :: x in m && x != b
  {
    var rest := m.Keys - {b};
    assert |rest| > 0;
    var x :| x in rest;
  }

  /**
   * The Hyper-V / Virtual PC rule: when both are candidates they merge into
   * "Microsoft Virtual PC/Hyper-V" if their counts are equal, and Virtual
   * PC is erased otherwise.
   */
  function MicrosoftStep(m: Candidates): (m': Candidates)
    ensures Narrows(m, m')
  {
    if HyperV in m && Vpc in m then
      if Count(m, HyperV) == Count(m, Vpc) then
        MergeNarrows(m, Vpc, HyperV, HyperVVpc);
        Merge(m, Vpc, HyperV, HyperVVpc)
      else
        EraseNarrows(m, Vpc, HyperV);
        m - {Vpc}
    else m
  }

  /** A merge into a merge result narrows. */
  lemma MergeNarrows(m: Candidates, a: Brand, b: Brand, r: Brand)
    requires a != b && Merged(r)
    ensures Narrows(m, Merge(m, a, b, r))
  {
  }

  /** Erasing one candidate while another stays narrows. */
  lemma EraseNarrows(m: Candidates, gone: Brand, kept: Brand)
    requires gone != kept && kept in m
    ensures Narrows(m, m - {gone})
  {
    assert kept in m - {gone};
  }

  /** The QEMU / KVM rules: the pairwise ones, then the QEMU + KVM + KVM Hyper-V triple rule. */
  function KvmFamily(m: Candidates): (m': Candidates)
    ensures Narrows(m, m')
  {
    RulesWellFormed();
    var m1 := Apply(m, KVM_RULES);
    TripleMergeNeverFires(m);
    TripleMerge(m1, Qemu, Kvm, KvmHyperV, QemuKvmHyperV)
  }

  /**
   * The triple rule finds nothing to merge: the first pairwise rule has
   * already consumed any QEMU and KVM pair, and no later rule brings either
   * back.
   */
  lemma TripleMergeNeverFires(m: Candidates)
    ensures WellFormed(KVM_RULES)
    ensures !(Qemu in Apply(m, KVM_RULES) && Kvm in Apply(m, KVM_RULES))
  {
    RulesWellFormed();
    LaterRulesAvoidPair();
    assert KVM_RULES[1..] == KVM_LATER_RULES;
    FirstRuleSplitsPair(m, KVM_RULES, Qemu, Kvm);
  }

  /** No later KVM rule produces QEMU or KVM. */
  lemma LaterRulesAvoidPair()
    ensures WellFormed(KVM_LATER_RULES)
    ensures forall i :: 0 <= i < |KVM_LATER_RULES| ==> KVM_LATER_RULES[i].into !in {Qemu, Kvm}
  {
  }

  /**
   * When the first rule merges a and b into a third brand and no later rule
   * produces either, a and b do not both survive the rules.
   */
  lemma FirstRuleSplitsPair(m: Candidates, rules: seq<Rule>, a: Brand, b: Brand)
    requires WellFormed(rules) && |rules| > 0
    requires rules[0].a == a && rules[0].b == b && rules[0].into !in {a, b}
    requires forall i :: 0 <= i < |rules[1..]| ==> rules[1..][i].into !in {a, b}
    ensures !(a in Apply(m, rules) && b in Apply(m, rules))
  {
    var first := Merge(m, a, b, rules[0].into);
    var later := rules[1..];
    assert WellFormed(later);
    MergeSplitsPair(m, a, b, rules[0].into);
    if a !in first {
      ApplyKeepsOut(first, later, a);
    } else {
      ApplyKeepsOut(first, later, b);
    }
  }

  /** After merge(a, b, r) with r another brand, a and b are not both candidates. */
  lemma MergeSplitsPair(m: Candidates, a: Brand, b: Brand, r: Brand)
    requires a != b && r != a && r != b
    ensures !(a in Merge(m, a, b, r) && b in Merge(m, a, b, r))
  {
  }

  /** The late artifact rule: erase the artifact label when the score is positive. */
  function LateArtifact(m: Candidates, score: nat): (m': Candidates)
    ensures HyperVArtifact !in m ==> m' == m
  {
    if Count(m, HyperVArtifact) > 0 && score > 0 then m - {HyperVArtifact} else m
  }

  /** Narrowing composes. */
  lemma NarrowsTrans(m1: Candidates, m2: Candidates, m3: Candidates)
    requires Narrows(m1, m2) && Narrows(m2, m3)
    ensures Narrows(m1, m3)
  {
  }

  /** The merge rules, in source order: Hyper-V with Virtual PC, then the Hyper-V, QEMU / KVM and VMware families. */
  function MergeAll(m: Candidates): (m': Candidates)
    ensures Narrows(m, m')
  {
    RulesWellFormed();
    var m1 := MicrosoftStep(m);
    var m2 := Apply(m1, HYPERV_RULES);
    NarrowsTrans(m, m1, m2);
    var m3 := KvmFamily(m2);
    NarrowsTrans(m, m2, m3);
    var m4 := Apply(m3, VMWARE_RULES);
    NarrowsTrans(m, m3, m4);
    m4
  }

  /**
   * All the post-processing of two or more candidates, in source order. Some
   * candidate always survives, the artifact label never does, and the only
   * brands that can appear are merge results.
   */
  function PostProcess(m: Candidates, score: nat): (m': Candidates)
    requires |m| > 1
    ensures Narrows(m, m') && m' != map[] && HyperVArtifact !in m'
  {
    var m1 := DropArtifact(m);
    var m2 := MergeAll(m1);
    NarrowsTrans(m, m1, m2);
    ArtifactEraseNeverFires(m1, m2, score);
    LateArtifact(m2, score)
  }

  /**
   * The late artifact rule finds nothing to erase: the label is gone once
   * there are two candidates, and no merge rule produces it.
   */
  lemma ArtifactEraseNeverFires(m1: Candidates, m2: Candidates, score: nat)
    requires HyperVArtifact !in m1 && Narrows(m1, m2)
    ensures HyperVArtifact !in m2 && LateArtifact(m2, score) == m2
  {
    assert !Merged(HyperVArtifact);
  }

  /**
   * `a` is ranked no later than `x`: more credit, or the same credit and an
   * earlier place in the brand table.
   */
  predicate Beats(m: Candidates, a: Brand, x: Brand)
    requires a in m && x in m
  {
    m[a] > m[x] || (m[a] == m[x] && Rank(a) <= Rank(x))
  }

  /**
   * Scans the brand table from position `i` for the candidate that beats
   * all others; there is none only when there are no candidates.
   */
  function BestFrom(m: Candidates, i: nat, cur: Option<Brand>): (r: Option<Brand>)
    requires Leads(m, i, cur)
    ensures r.Some? ==> r.value in m && forall x :: x in m ==> Beats(m, r.value, x)
    ensures r.None? ==> m == map[]
    decreases BRAND_COUNT - i
  {
    if i == BRAND_COUNT then cur
    else
      var y := FromRank(i);
      var next := if y in m && (cur.None? || !Beats(m, cur.value, y)) then Some(y) else cur;
      LeadsStep(m, i, cur, y, next);
      BestFrom(m, i + 1, next)
  }

  /** `cur` beats every candidate before position `i` in the brand table; `None` when there is none. */
  ghost predicate Leads(m: Candidates, i: nat, cur: Option<Brand>) {
    && i <= BRAND_COUNT
    && (cur.Some? ==> cur.value in m && forall x :: x in m && Rank(x) < i ==> Beats(m, cur.value, x))
    && (cur.None? ==> forall x :: x in m ==> Rank(x) >= i)
  }

  /** Looking at position `i` keeps the scan's invariant. */
  lemma LeadsStep(m: Candidates, i: nat, cur: Option<Brand>, y: Brand, next: Option<Brand>)
    requires Leads(m, i, cur) && i < BRAND_COUNT && y == FromRank(i)
    requires next == if y in m && (cur.None? || !Beats(m, cur.value, y)) then Some(y) else cur
    ensures Leads(m, i + 1, next)
  {
    AtRank(i);
  }

  /** The candidate the sort puts first, if there is any. */
  function Best(m: Candidates): (r: Option<Brand>)
    ensures r.Some? ==> r.value in m && forall x :: x in m ==> Beats(m, r.value, x)
    ensures r.None? <==> m == map[]
  {
    BestFrom(m, 0, None)
  }

  /**
   * The candidates in the order the sort leaves them: every candidate
   * exactly once, credits descending. The source's sort is not stable and
   * its input order is that of label addresses, so equal credits come out
   * in an unspecified order; the model breaks ties by brand-table position.
   */
  function Ordered(m: Candidates): (s: seq<Brand>)
    ensures s == [] <==> m == map[]
    ensures Ranked(m, s)
    decreases m.Keys
  {
    match Best(m)
    case None => []
    case Some(b) =>
      var smaller := m - {b};
      var rest := Ordered(smaller);
      assert smaller.Keys < m.Keys;
      assert forall x :: x in m ==> m[b] >= m[x];
      SortedCons(m, b, smaller, rest);
      [b] + rest
  }

  /** Putting a top candidate in front of the ranked rest ranks them all. */
  lemma SortedCons<T(!new)>(m: map<T, nat>, b: T, smaller: map<T, nat>, rest: seq<T>)
    requires b in m && forall x :: x in m ==> m[b] >= m[x]
    requires smaller == m - {b} && Ranked(smaller, rest)
    ensures Ranked(m, [b] + rest)
  {
    var s := [b] + rest;
    forall j, k | 0 <= j < k < |s| ensures s[j] != s[k] && s[j] in m && s[k] in m && m[s[j]] >= m[s[k]] {
      assert s[k] == rest[k - 1] && s[k] in rest;
      if j > 0 {
        assert s[j] == rest[j - 1];
      }
    }
  }

  /** The labels of a list of brands. */
  function Labels(s: seq<Brand>): (l: seq<string>)
    ensures |l| == |s| && forall i :: 0 <= i < |s| ==> l[i] == Label(s[i])
  {
    seq(|s|, i requires 0 <= i < |s| => Label(s[i]))
  }

  /** The brand message, and whether the call stores it in its cache slot. */
  datatype Resolution = Resolution(text: string, cacheable: bool)

  /**
   * The resolver from the scoreboard on: "Unknown" without candidates; the
   * lone candidate's label, unmerged and uncached; otherwise the label of
   * the first candidate after post-processing and sorting, or all labels
   * joined with " or " in multiple mode, to be cached.
   */
  function Resolve(sb: Scoreboard, score: nat, multiple: bool): (r: Resolution)
    ensures r.cacheable <==> |Relevant(sb)| > 1
  {
    var m := Relevant(sb);
    if m == map[] then Resolution(Label(NullBrand), false)
    else if |m| == 1 then Resolution(Label(Best(m).value), false)
    else
      var order := Ordered(PostProcess(m, score));
      Resolution(if multiple then Join(Labels(order)) else Label(order[0]), true)
  }

  /** Without any credited brand the message is "Unknown", and it is not cached. */
  lemma ResolveNothing(sb: Scoreboard, score: nat, multiple: bool)
    requires forall b :: Credit(sb, b) == 0
    ensures Resolve(sb, score, multiple) == Resolution("Unknown", false)
  {
    if Relevant(sb) != map[] {
      var b :| b in Relevant(sb);
    }
  }

  /**
   * A lone credited brand is named as it is, in either mode and even when it
   * is the Hyper-V artifact: no merge rule and no artifact erasure applies,
   * and the message is not cached.
   */
  lemma ResolveSingle(sb: Scoreboard, score: nat, multiple: bool, b: Brand)
    requires Credit(sb, b) > 0 && forall x :: x != b ==> Credit(sb, x) == 0
    ensures Resolve(sb, score, multiple) == Resolution(Label(b), false)
  {
    var m := Relevant(sb);
    assert m.Keys == {b};
  }

  /**
   * With two or more credited brands, the single-brand message names a
   * final candidate with the highest credit; that candidate is not the
   * Hyper-V artifact and was either credited or produced by a merge rule.
   */
  lemma ResolveTop(sb: Scoreboard, score: nat)
    requires |Relevant(sb)| > 1
    ensures var f := PostProcess(Relevant(sb), score);
      exists b :: b in f && Resolve(sb, score, false) == Resolution(Label(b), true)
        && b != HyperVArtifact && (Merged(b) || Credit(sb, b) > 0)
        && forall x :: x in f ==> f[b] >= f[x]
  {
    var m := Relevant(sb);
    var f := PostProcess(m, score);
    var order := Ordered(f);
    RankedTop(f, order);
    var b := order[0];
    assert Resolve(sb, score, false) == Resolution(Label(b), true);
    assert b != HyperVArtifact && (Merged(b) || b in m);
  }

  /** `order` lists the candidates of `f` once each, credits descending. */
  ghost predicate Ranked<T(!new)>(f: map<T, nat>, order: seq<T>) {
    && (forall x :: x in order <==> x in f)
    && (forall j, k :: 0 <= j < k < |order| ==> order[j] != order[k])
    && (forall j, k :: 0 <= j < k < |order| ==> order[j] in f && order[k] in f && f[order[j]] >= f[order[k]])
  }

  /** The first of the ranked candidates has the highest credit. */
  lemma RankedTop<T(!new)>(f: map<T, nat>, order: seq<T>)
    requires f != map[] && Ranked(f, order)
    ensures order != [] && order[0] in f
    ensures forall x :: x in f ==> f[order[0]] >= f[x]
  {
    var some :| some in f;
    assert some in order;
    forall x | x in f ensures f[order[0]] >= f[x] {
      var k :| 0 <= k < |order| && order[k] == x;
      if k > 0 {
        assert f[order[0]] >= f[order[k]];
      }
    }
  }

  /**
   * In multiple mode, the message starts with the single-brand message,
   * names every final candidate, and contains " or " once there are two.
   */
  lemma ResolveMultiple(sb: Scoreboard, score: nat)
    requires |Relevant(sb)| > 1
    ensures Resolve(sb, score, false).text <= Resolve(sb, score, true).text
    ensures forall x :: x in PostProcess(Relevant(sb), score) ==>
      Find(Resolve(sb, score, true).text, Label(x))
    ensures (exists x, y :: x in PostProcess(Relevant(sb), score) && y in PostProcess(Relevant(sb), score) && x != y) ==>
      Find(Resolve(sb, score, true).text, SEPARATOR)
  {
    var m := Relevant(sb);
    var f := PostProcess(m, score);
    var order := Ordered(f);
    assert Resolve(sb, score, false).text == Label(order[0]);
    assert Resolve(sb, score, true).text == Join(Labels(order));
    RankedJoin(f, order, Labels(order), Label);
  }

  /** The joined names of the ranked candidates. */
  lemma RankedJoin<T(!new)>(f: map<T, nat>, order: seq<T>, labels: seq<string>, name: T -> string)
    requires order != [] && Ranked(f, order)
    requires |labels| == |order| && forall i :: 0 <= i < |order| ==> labels[i] == name(order[i])
    ensures name(order[0]) <= Join(labels)
    ensures forall x :: x in f ==> Find(Join(labels), name(x))
    ensures (exists x, y :: x in f && y in f && x != y) ==> Find(Join(labels), SEPARATOR)
  {
    forall x | x in f ensures Find(Join(labels), name(x)) {
      var k :| 0 <= k < |order| && order[k] == x;
      JoinContains(labels, k);
    }
    if exists x, y :: x in f && y in f && x != y {
      var x, y :| x in f && y in f && x != y;
      var i :| 0 <= i < |order| && order[i] == x;
      var j :| 0 <= j < |order| && order[j] == y;
      assert i != j;
      JoinHasSeparator(labels);
    }
  }

  /**
   * std::map::count is 0 or 1, so when Hyper-V and Virtual PC are both
   * candidates their counts agree and the merge always happens: the erase
   * branch is never taken.
   */
  lemma MicrosoftAlwaysMerges(m: Candidates)
    ensures MicrosoftStep(m) == Merge(m, Vpc, HyperV, HyperVVpc)
    ensures HyperV in m && Vpc in m ==>
      HyperVVpc in MicrosoftStep(m) && HyperV !in MicrosoftStep(m) && Vpc !in MicrosoftStep(m)
  {
  }

  /** Since the triple rule never fires, the QEMU / KVM stage is just the pairwise rules. */
  lemma KvmFamilyIsPairwise(m: Candidates)
    ensures WellFormed(KVM_RULES)
    ensures KvmFamily(m) == Apply(m, KVM_RULES)
  {
    TripleMergeNeverFires(m);
  }

  /**
   * The run's score never changes the message: the only rule that reads it
   * is the late artifact rule, which never fires.
   */
  lemma ResolveIgnoresScore(sb: Scoreboard, score: nat, multiple: bool)
    ensures Resolve(sb, score, multiple) == Resolve(sb, 0, multiple)
  {
    var m := Relevant(sb);
    if |m| > 1 {
      var m1 := DropArtifact(m);
      var m2 := MergeAll(m1);
      ArtifactEraseNeverFires(m1, m2, score);
      ArtifactEraseNeverFires(m1, m2, 0);
      assert PostProcess(m, score) == PostProcess(m, 0);
    }
  }

  /** The message is never empty: every label has at least three characters. */
  lemma ResolvedTextNonEmpty(sb: Scoreboard, score: nat, multiple: bool)
    ensures |Resolve(sb, score, multiple).text| >= 3
  {
    var m := Relevant(sb);
    if m == map[] {
      LabelInjective(NullBrand, NullBrand);
    } else if |m| == 1 {
      LabelInjective(Best(m).value, Best(m).value);
    } else {
      var order := Ordered(PostProcess(m, score));
      LabelInjective(order[0], order[0]);
      assert Labels(order)[0] == Label(order[0]);
    }
  }
}
