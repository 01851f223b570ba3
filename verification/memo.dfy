/*
 * The memoization store: per-technique results keyed by identifier, the
 * three brand string slots, and the Hyper-X state slot.
 */
module Memo {
  import opened Wrappers
  import opened Enums
  import opened Flags

  /** A cached technique result and the weight it was scored with. */
  datatype Entry = Entry(result: bool, points: Percent)

  /** The outcome of the Hyper-V analysis that some probes consult. */
  datatype HyperXState = UnknownVm | RealVm | ArtifactVm | Enlightenment

  /** The three string caches. */
  datatype Slot = SingleBrand | MultiBrand | CpuBrand

  /**
   * The technique cache is the ordered map of results; the source also
   * keeps a flag set of cached identifiers, written together with every
   * map entry, which the map's key set stands for here.
   */
  datatype Cache = Cache(
    table: map<nat, Entry>,
    brand: string,
    multiBrand: string,
    cpuBrand: string,
    hyperX: HyperXState,
    hyperXCached: bool)

  /** The state at process start. */
  function Initial(): (m: Cache)
    ensures |m.table| == 0 && !m.hyperXCached
    ensures forall s :: !IsStringCached(m, s)
  {
    Cache(map[], "", "", "", UnknownVm, false)
  }

  /**
   * cache_store: writes the table entry and sets the key bit, which throws
   * for an identifier outside the flag set.
   */
  function CacheStore(m: Cache, id: nat, result: bool, points: Percent): (r: Result<Cache>)
    ensures r.Ok? <==> id < ENUM_END
    ensures r.Err? ==> r.error == OutOfRange
  {
    if id >= ENUM_END then Err(OutOfRange)
    else Ok(m.(table := m.table[id := Entry(result, points)]))
  }

  /** is_cached: tests the key bit; throws outside the flag set. */
  function IsCached(m: Cache, id: nat): (r: Result<bool>)
    ensures r.Ok? <==> id < ENUM_END
    ensures r.Ok? ==> (r.value <==> id in m.table)
  {
    if id >= ENUM_END then Err(OutOfRange) else Ok(id in m.table)
  }

  /** cache_fetch: the table entry; throws for an identifier never stored. */
  function CacheFetch(m: Cache, id: nat): (r: Result<Entry>)
    ensures r.Ok? <==> id in m.table
  {
    if id in m.table then Ok(m.table[id]) else Err(OutOfRange)
  }

  /**
   * The stored entry is what a later lookup returns, the identifier counts
   * as cached, and every other identifier's entry is unchanged.
   */
  lemma StoreThenFetch(m: Cache, id: nat, result: bool, points: Percent)
    requires id < ENUM_END
    ensures IsCached(CacheStore(m, id, result, points).value, id) == Ok(true)
    ensures CacheFetch(CacheStore(m, id, result, points).value, id) == Ok(Entry(result, points))
    ensures forall other: nat :: other != id ==>
      CacheFetch(CacheStore(m, id, result, points).value, other) == CacheFetch(m, other)
  {
  }

  /**
   * cache_fetch_all: the identifiers whose cached result is positive, in
   * ascending order (the table is an ordered map). Only identifiers inside
   * the flag set are looked at, which are the only ones cache_store keeps.
   */
  method CacheFetchAll(m: Cache) returns (ids: seq<nat>)
    requires forall id :: id in m.table ==> id < ENUM_END
    ensures forall i, j :: 0 <= i < j < |ids| ==> ids[i] < ids[j]
    ensures forall id: nat :: id in ids <==> id in m.table && m.table[id].result
  {
    ids := [];
    var k := 0;
    while k < ENUM_END
      invariant 0 <= k <= ENUM_END
      invariant forall i, j :: 0 <= i < j < |ids| ==> ids[i] < ids[j]
      invariant forall i :: 0 <= i < |ids| ==> ids[i] < k
      invariant forall id: nat :: id in ids <==> id < k && id in m.table && m.table[id].result
    {
      if k in m.table && m.table[k].result {
        ids := ids + [k];
      }
      k := k + 1;
    }
  }

  /**
   * all_present: the table holds as many entries as there are techniques,
   * or three fewer while none of the four opt-in techniques is cached.
   */
  function AllPresent(m: Cache, techniqueCount: nat): bool {
    if |m.table| == techniqueCount then true
    else if |m.table| == techniqueCount - 3 then
      VMWARE_DMESG !in m.table && PORT_CONNECTORS !in m.table &&
      ACPI_TEMPERATURE !in m.table && LSHW_QEMU !in m.table
    else false
  }

  /** The identifiers [lo, hi). */
  function Span(lo: nat, hi: nat): (s: set<nat>)
    requires lo <= hi
    ensures forall i :: i in s <==> lo <= i < hi
    ensures |s| == hi - lo
    decreases hi - lo
  {
    if lo == hi then {} else Span(lo, hi - 1) + {hi - 1}
  }

  lemma {:induction false} SubsetCard<T>(a: set<T>, b: set<T>)
    requires a <= b
    ensures |a| <= |b|
    decreases b
  {
    if a != {} {
      var x :| x in a;
      SubsetCard(a - {x}, b - {x});
    }
  }

  /**
   * When the table can only hold built-in techniques and the given custom
   * identifiers, and the technique count is the base count plus one per
   * custom technique, all_present never holds: the three reserved
   * identifiers after the built-in block are counted but never cached, and
   * the "three fewer" case needs the opt-in techniques missing as well.
   */
  lemma NeverAllPresent(m: Cache, customs: set<nat>, techniqueCount: nat)
    requires forall id :: id in m.table ==> IsTechnique(id) || id in customs
    requires techniqueCount == BASE_TECHNIQUE_COUNT + |customs|
    ensures !AllPresent(m, techniqueCount)
  {
    TableBound(m.table.Keys, customs, TECHNIQUE_END, VMWARE_DMESG);
    if |m.table| == techniqueCount - 3 && VMWARE_DMESG !in m.table {
      assert false;
    }
  }

  /**
   * A key set drawn from the identifiers below `hi` and some custom
   * identifiers is no larger than the two together, and one smaller when a
   * given identifier below `hi` is missing from it.
   */
  lemma TableBound(keys: set<nat>, customs: set<nat>, hi: nat, missing: nat)
    requires forall id :: id in keys ==> id < hi || id in customs
    requires missing < hi
    ensures |keys| <= hi + |customs|
    ensures missing !in keys ==> |keys| < hi + |customs|
  {
    var a := Span(0, hi);
    assert |keys| <= |a| + |customs| by {
      DrawnFrom(keys, a, customs);
    }
    if missing !in keys {
      assert |keys| <= |a| - 1 + |customs| by {
        assert |a - {missing}| == |a| - 1;
        DrawnFrom(keys, a - {missing}, customs);
      }
    }
  }

  /** A set drawn from two sets is no larger than the two together. */
  lemma DrawnFrom(keys: set<nat>, a: set<nat>, b: set<nat>)
    requires forall id :: id in keys ==> id in a || id in b
    ensures |keys| <= |a| + |b|
  {
    assert keys <= a + b;
    SubsetCard(keys, a + b);
    assert |a + b| <= |a| + |b| by {
      assert a + b == a + (b - a);
    }
  }

  /** Stores a brand string; an empty string leaves the slot uncached. */
  function StoreString(m: Cache, slot: Slot, s: string): Cache {
    match slot
    case SingleBrand => m.(brand := s)
    case MultiBrand => m.(multiBrand := s)
    case CpuBrand => m.(cpuBrand := s)
  }

  function FetchString(m: Cache, slot: Slot): string {
    match slot
    case SingleBrand => m.brand
    case MultiBrand => m.multiBrand
    case CpuBrand => m.cpuBrand
  }

  /** A slot counts as cached exactly when it holds a non-empty string. */
  function IsStringCached(m: Cache, slot: Slot): bool {
    FetchString(m, slot) != ""
  }

  /**
   * A stored string is fetched back unchanged, it counts as cached unless
   * it is empty, and the other slots and the technique cache are untouched.
   */
  lemma StringStoreThenFetch(m: Cache, slot: Slot, s: string)
    ensures FetchString(StoreString(m, slot, s), slot) == s
    ensures IsStringCached(StoreString(m, slot, s), slot) <==> s != ""
    ensures forall other :: other != slot ==> FetchString(StoreString(m, slot, s), other) == FetchString(m, other)
    ensures StoreString(m, slot, s).table == m.table
  {
  }

  /** hyperx::store: records the state and marks it cached. */
  function StoreHyperX(m: Cache, st: HyperXState): (m': Cache)
    ensures m'.hyperXCached && m'.hyperX == st
    ensures m'.table == m.table && m'.brand == m.brand
    ensures m'.multiBrand == m.multiBrand && m'.cpuBrand == m.cpuBrand
  {
    m.(hyperX := st, hyperXCached := true)
  }
}
