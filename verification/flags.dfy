/*
 * Flag sets: the 112-bit selection vectors that every public call builds
 * from its arguments, the two canonical selections (default and all), and
 * the sanitizer that decides what an incoherent selection means.
 */
module Flags {
  import opened Wrappers
  import opened Enums

  /** A std::bitset of ENUM_END positions. */
  type FlagSet = f: seq<bool> | |f| == ENUM_END witness seq(ENUM_END, _ => false)

  function Cleared(): (f: FlagSet)
    ensures forall i :: 0 <= i < ENUM_END ==> !f[i]
  {
    seq(ENUM_END, _ => false)
  }

  /** Whether any position in [lo, hi) is set. */
  function AnyIn(f: FlagSet, lo: nat, hi: nat): (b: bool)
    requires lo <= hi <= ENUM_END
    ensures b <==> exists i :: lo <= i < hi && f[i]
    decreases hi - lo
  {
    if lo == hi then false else f[lo] || AnyIn(f, lo + 1, hi)
  }

  /** bitset::count() != 0 */
  function Any(f: FlagSet): (b: bool)
    ensures b <==> exists i :: 0 <= i < ENUM_END && f[i]
  {
    AnyIn(f, 0, ENUM_END)
  }

  /** Whether a built-in technique is selected. */
  function IsTechniqueSet(f: FlagSet): (b: bool)
    ensures b <==> exists i :: IsTechnique(i) && f[i]
  {
    AnyIn(f, 0, TECHNIQUE_END)
  }

  /** Whether a special or settings flag is selected. */
  function IsSettingFlagSet(f: FlagSet): (b: bool)
    ensures b <==> exists i :: IsSetting(i) && f[i]
  {
    AnyIn(f, SETTINGS_BEGIN, SETTINGS_END)
  }

  /** Position-wise conjunction (operator &=). */
  function Intersect(f: FlagSet, g: FlagSet): (h: FlagSet)
    ensures forall i :: 0 <= i < ENUM_END ==> h[i] == (f[i] && g[i])
  {
    seq(ENUM_END, i requires 0 <= i < ENUM_END => f[i] && g[i])
  }

  /**
   * The default selection: every position set, then the opt-in techniques
   * and every flag except DEFAULT cleared again.
   */
  function GenerateDefault(): (f: FlagSet)
    ensures forall i :: IsTechnique(i) ==> (f[i] <==> !IsOptIn(i))
    ensures f[DEFAULT]
    ensures forall i :: IsSetting(i) && i != DEFAULT ==> !f[i]
  {
    var all := seq(ENUM_END, _ => true);
    all[VMWARE_DMESG := false][PORT_CONNECTORS := false][ACPI_TEMPERATURE := false][LSHW_QEMU := false]
       [NO_MEMO := false][HIGH_THRESHOLD := false][NULL_ARG := false][DYNAMIC := false][MULTIPLE := false]
       [ALL := false]
  }

  /**
   * The "all" selection: every position set, then the settings flags and
   * DEFAULT cleared again; ALL itself stays set.
   */
  function GenerateAll(): (f: FlagSet)
    ensures forall i :: IsTechnique(i) ==> f[i]
    ensures f[ALL]
    ensures forall i :: IsSetting(i) && i != ALL ==> !f[i]
  {
    var all := seq(ENUM_END, _ => true);
    all[NO_MEMO := false][HIGH_THRESHOLD := false][NULL_ARG := false][DYNAMIC := false][MULTIPLE := false]
       [DEFAULT := false]
  }

  /** A selection the sanitizer returns unchanged. */
  predicate Coherent(f: FlagSet) {
    f[DEFAULT] || f[ALL] || IsTechniqueSet(f)
  }

  /**
   * flag_sanitizer: an empty selection or one made only of settings becomes
   * the default selection; a selection that names a technique, DEFAULT or
   * ALL is kept. The two throws of the source are kept as error values; the
   * contract shows they are never reached.
   */
  function Sanitize(f: FlagSet): (r: Result<FlagSet>)
    ensures r.Ok?
    ensures Coherent(f) ==> r.value == f
    ensures !Coherent(f) ==> r.value == GenerateDefault()
    ensures Coherent(r.value)
  {
    if !Any(f) then Ok(GenerateDefault())
    else if f[DEFAULT] then Ok(f)
    else if f[ALL] then Ok(f)
    else if IsTechniqueSet(f) then Ok(f)
    else if !IsSettingFlagSet(f) then Err(InvalidArgument)
    else if f[NO_MEMO] || f[HIGH_THRESHOLD] || f[DYNAMIC] || f[NULL_ARG] || f[MULTIPLE] then
      Ok(GenerateDefault())
    else Err(InvalidArgument)
  }

  /** Sanitizing a sanitized selection changes nothing. */
  lemma SanitizeIdempotent(f: FlagSet)
    ensures Sanitize(Sanitize(f).value) == Sanitize(f)
  {
  }

  /**
   * A selection made only of settings keeps none of them: the sanitizer
   * replaces it by the default selection, which has every tunable setting
   * cleared.
   */
  lemma SettingsOnlySelectionLosesSettings(f: FlagSet)
    requires !f[DEFAULT] && !f[ALL] && !IsTechniqueSet(f)
    ensures forall i :: IsTunable(i) ==> !Sanitize(f).value[i]
    ensures Sanitize(f).value[DEFAULT]
  {
  }
}
