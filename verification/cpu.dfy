/*
 * The CPUID decoders of the cpu module, as functions of the register values
 * the instruction returns: the leaf-range test, the manufacturer string, the
 * stepping fields, the Celeron test, and the hypervisor vendor matching of
 * the VMID probes.
 */
module Cpu {
  import opened Wrappers
  import opened Text
  import opened Brands
  import opened Memo

  /** Unsigned 32-bit register values. */
  type u32 = x: int | 0 <= x < 0x1_0000_0000

  const HYPERVISOR_LEAF: u32 := 0x4000_0000
  const EXTENDED_LEAF: u32 := 0x8000_0000
  const RESERVED_LEAF: u32 := 0xC000_0000

  /** The maximum leaf CPUID reports for each range, read from leaves 0, 0x40000000 and 0x80000000. */
  datatype MaxLeaves = MaxLeaves(standard: u32, hypervisor: u32, extended: u32)

  /** The maximum leaf of the range a leaf lies in; no range covers leaves from 0xC0000000 on. */
  function RangeMax(m: MaxLeaves, leaf: u32): Option<u32> {
    if leaf < HYPERVISOR_LEAF then Some(m.standard)
    else if leaf < EXTENDED_LEAF then Some(m.hypervisor)
    else if leaf < RESERVED_LEAF then Some(m.extended)
    else None
  }

  /** The first leaf of the range a leaf lies in. */
  function RangeStart(leaf: u32): u32 {
    if leaf < HYPERVISOR_LEAF then 0
    else if leaf < EXTENDED_LEAF then HYPERVISOR_LEAF
    else if leaf < RESERVED_LEAF then EXTENDED_LEAF
    else RESERVED_LEAF
  }

  /** is_leaf_supported: the leaf does not exceed the maximum of its range. */
  function IsLeafSupported(leaf: u32, m: MaxLeaves): (r: bool)
    ensures r <==> RangeMax(m, leaf).Some? && leaf <= RangeMax(m, leaf).value
    ensures leaf >= RESERVED_LEAF ==> !r
  {
    if leaf < HYPERVISOR_LEAF then leaf <= m.standard
    else if leaf < EXTENDED_LEAF then leaf <= m.hypervisor
    else if leaf < RESERVED_LEAF then leaf <= m.extended
    else false
  }

  /**
   * Support is closed downwards within a range: every leaf between the
   * range's first leaf and a supported leaf is supported, and leaf 0 always is.
   */
  lemma LeafSupportDownward(leaf: u32, lower: u32, m: MaxLeaves)
    requires IsLeafSupported(leaf, m)
    requires RangeStart(leaf) <= lower <= leaf
    ensures IsLeafSupported(lower, m)
    ensures IsLeafSupported(0, m)
  {
  }

  /** The four bytes of a register, least-significant first, as the characters a string copy of them holds. */
  function LeBytes(n: u32): (s: string)
    ensures |s| == 4 && IsBytes(s)
  {
    var n1 := n / 0x100;
    var n2 := n1 / 0x100;
    var n3 := n2 / 0x100;
    [(n % 0x100) as char, (n1 % 0x100) as char, (n2 % 0x100) as char, (n3 % 0x100) as char]
  }

  /** Every character of `s` is a byte. */
  predicate IsBytes(s: string) {
    forall i :: 0 <= i < |s| ==> s[i] as int < 0x100
  }

  /** The register value four bytes spell, least-significant first. */
  function Word(s: string): (n: u32)
    requires |s| == 4 && IsBytes(s)
  {
    s[0] as int + 0x100 * (s[1] as int + 0x100 * (s[2] as int + 0x100 * (s[3] as int)))
  }

  /** One byte split off the bottom of a value. */
  lemma SplitByte(x: int, low: int, high: int)
    requires 0 <= low < 0x100 && x == low + 0x100 * high
    ensures x % 0x100 == low && x / 0x100 == high
  {
  }

  /** Reading a register's bytes back gives the register. */
  lemma WordOfLeBytes(n: u32)
    ensures Word(LeBytes(n)) == n
  {
    var n1 := n / 0x100;
    var n2 := n1 / 0x100;
    var n3 := n2 / 0x100;
    assert n3 < 0x100;
    assert n3 % 0x100 == n3;
  }

  /** Writing out the register four bytes spell gives those bytes. */
  lemma LeBytesOfWord(s: string)
    requires |s| == 4 && IsBytes(s)
    ensures LeBytes(Word(s)) == s
  {
    var a, b, c, d := s[0] as int, s[1] as int, s[2] as int, s[3] as int;
    var n := Word(s);
    SplitByte(n, a, b + 0x100 * (c + 0x100 * d));
    SplitByte(n / 0x100, b, c + 0x100 * d);
    SplitByte(n / 0x100 / 0x100, c, d);
    SplitByte(n / 0x100 / 0x100 / 0x100, d, 0);
  }

  /** EBX, ECX and EDX of a CPUID leaf. */
  datatype Registers = Registers(ebx: u32, ecx: u32, edx: u32)

  /**
   * cpu_manufacturer: empty when all three registers are zero; otherwise
   * twelve bytes, EBX, ECX, EDX for hypervisor and extended leaves and
   * EBX, EDX, ECX for standard leaves.
   */
  function CpuManufacturer(leaf: u32, r: Registers): (s: string)
    ensures s == "" <==> r.ebx == 0 && r.ecx == 0 && r.edx == 0
    ensures s == "" || (|s| == 12 && IsBytes(s))
  {
    if r.ebx == 0 && r.ecx == 0 && r.edx == 0 then ""
    else if leaf >= HYPERVISOR_LEAF then LeBytes(r.ebx) + LeBytes(r.ecx) + LeBytes(r.edx)
    else LeBytes(r.ebx) + LeBytes(r.edx) + LeBytes(r.ecx)
  }

  /** The registers a twelve-byte manufacturer string was assembled from, in the leaf's order. */
  function VendorRegisters(leaf: u32, s: string): Registers
    requires |s| == 12 && IsBytes(s)
  {
    var first, second, third := Word(s[0..4]), Word(s[4..8]), Word(s[8..12]);
    if leaf >= HYPERVISOR_LEAF then Registers(first, second, third) else Registers(first, third, second)
  }

  /** The manufacturer string determines the registers it was built from. */
  lemma ManufacturerRoundTrip(leaf: u32, r: Registers)
    requires r.ebx != 0 || r.ecx != 0 || r.edx != 0
    ensures VendorRegisters(leaf, CpuManufacturer(leaf, r)) == r
  {
    var s := CpuManufacturer(leaf, r);
    var a, b, c := r.ebx, if leaf >= HYPERVISOR_LEAF then r.ecx else r.edx, if leaf >= HYPERVISOR_LEAF then r.edx else r.ecx;
    assert s == LeBytes(a) + LeBytes(b) + LeBytes(c);
    assert s[0..4] == LeBytes(a) && s[4..8] == LeBytes(b) && s[8..12] == LeBytes(c);
    WordOfLeBytes(a);
    WordOfLeBytes(b);
    WordOfLeBytes(c);
  }

  /** Four bytes spell zero only when they are all NUL. */
  lemma ZeroWord(x: string)
    requires |x| == 4 && IsBytes(x)
    ensures Word(x) == 0 ==> forall j :: 0 <= j < 4 ==> x[j] == '\0'
  {
  }

  /** Every twelve-byte string with a non-NUL byte is the manufacturer string of some registers. */
  lemma ManufacturerOnto(leaf: u32, s: string, i: nat)
    requires |s| == 12 && IsBytes(s)
    requires i < 12 && s[i] != '\0'
    ensures CpuManufacturer(leaf, VendorRegisters(leaf, s)) == s
  {
    var a, b, c := s[0..4], s[4..8], s[8..12];
    LeBytesOfWord(a);
    LeBytesOfWord(b);
    LeBytesOfWord(c);
    ZeroWord(a);
    ZeroWord(b);
    ZeroWord(c);
    assert s == a + b + c;
    if i < 4 {
      assert a[i] == s[i];
    } else if i < 8 {
      assert b[i - 4] == s[i];
    } else {
      assert c[i - 8] == s[i];
    }
  }

  /** A register holding the value four bytes spell holds those bytes. */
  lemma Spells(n: u32, s: string)
    requires |s| == 4 && IsBytes(s) && Word(s) == n
    ensures LeBytes(n) == s
  {
    LeBytesOfWord(s);
  }

  /** A standard leaf's string from what its registers spell. */
  lemma Spelled(leaf: u32, r: Registers, b: string, d: string, c: string)
    requires leaf < HYPERVISOR_LEAF && r.ebx != 0
    requires LeBytes(r.ebx) == b && LeBytes(r.edx) == d && LeBytes(r.ecx) == c
    ensures CpuManufacturer(leaf, r) == b + d + c
  {
  }

  /** Leaf 0 of an Intel processor spells "GenuineIntel" with EDX before ECX. */
  lemma GenuineIntel()
    ensures CpuManufacturer(0, Registers(0x756e_6547, 0x6c65_746e, 0x4965_6e69)) == "GenuineIntel"
  {
    Spells(0x756e_6547, "Genu");
    Spells(0x4965_6e69, "ineI");
    Spells(0x6c65_746e, "ntel");
    Spelled(0, Registers(0x756e_6547, 0x6c65_746e, 0x4965_6e69), "Genu", "ineI", "ntel");
  }

  const NTEL: u32 := 0x6c65_746e
  const OTEL: u32 := 0x6c65_746f

  /** The two ECX values is_intel accepts, spelled out. */
  lemma IntelWords()
    ensures LeBytes(NTEL) == "ntel" && LeBytes(OTEL) == "otel"
  {
    Spells(NTEL, "ntel");
    Spells(OTEL, "otel");
  }

  /** is_intel: ECX of leaf 0 spells "ntel", or "otel" for the rare "GenuineIotel". */
  function IsIntel(ecx: u32): (r: bool)
    ensures r <==> LeBytes(ecx) == "ntel" || LeBytes(ecx) == "otel"
  {
    IntelWords();
    WordOfLeBytes(ecx);
    WordOfLeBytes(NTEL);
    WordOfLeBytes(OTEL);
    ecx == NTEL || ecx == OTEL
  }

  /** The processor signature fields fetch_steppings reads. */
  datatype Steppings = Steppings(model: nat, family: nat, extmodel: nat)

  /** fetch_steppings: model from EAX bits 4-7, family from bits 8-11, extended model from bits 16-19. */
  function FetchSteppings(eax: u32): (s: Steppings)
    ensures s.model < 0x10 && s.family < 0x10 && s.extmodel < 0x10
  {
    Steppings(eax / 0x10 % 0x10, eax / 0x100 % 0x10, eax / 0x1_0000 % 0x10)
  }

  /** The EAX value carrying the three fields and no other bit. */
  function Signature(s: Steppings): u32
    requires s.model < 0x10 && s.family < 0x10 && s.extmodel < 0x10
  {
    s.model * 0x10 + s.family * 0x100 + s.extmodel * 0x1_0000
  }

  /** Fields placed in a signature are fetched back unchanged. */
  lemma SteppingsRoundTrip(s: Steppings)
    requires s.model < 0x10 && s.family < 0x10 && s.extmodel < 0x10
    ensures FetchSteppings(Signature(s)) == s
  {
    var n := Signature(s);
    assert n / 0x10 == s.model + 0x10 * (s.family + 0x10 * (0x10 * s.extmodel));
    assert n / 0x100 == s.family + 0x10 * (0x10 * s.extmodel);
    assert n / 0x1_0000 == s.extmodel;
  }

  const CELERON := Steppings(0xA, 0x6, 0x2)

  /** is_celeron: an Intel processor with model 0xA, family 0x6 and extended model 0x2. */
  function IsCeleron(ecx: u32, s: Steppings): bool {
    IsIntel(ecx) && s.model == CELERON.model && s.family == CELERON.family && s.extmodel == CELERON.extmodel
  }

  /** The Celeron test on a raw EAX: bits 4-11 are 0x6A and bits 16-19 are 2. */
  lemma CeleronSignature(ecx: u32, eax: u32)
    ensures IsCeleron(ecx, FetchSteppings(eax)) <==> IsIntel(ecx) && eax / 0x10 % 0x100 == 0x6A && eax / 0x1_0000 % 0x10 == 2
  {
    var q := eax / 0x10;
    assert eax / 0x100 == q / 0x10;
    assert q % 0x100 == q % 0x10 + 0x10 * (q / 0x10 % 0x10);
  }

  // The hypervisor vendor strings of vmid_template.
  const HYPERV_ID := "Microsoft Hv"
  const VMWARE_ID := "VMwareVMware"
  const VBOX_ID := "VBoxVBoxVBox"
  const QEMU_ID := "TCGTCGTCGTCG"
  const XEN_ID := "XenVMMXenVMM"
  const KVM_HYPERV_ID := "Linux KVM Hv"
  const PARALLELS_ID := " prl hyperv "
  const PARALLELS_ALT_ID := " lrpepyh  vr"
  const BHYVE_ID := "bhyve bhyve "
  const BHYVE_ALT_ID := "BHyVE BHyVE "
  const ACRN_ID := "ACRNACRNACRN"
  const QNX_ID := " QNXQVMBSQG "
  const NVMM_ID := "___ NVMM ___"
  const OPENBSD_ID := "OpenBSDVMM58"
  const HAXM_ID := "HAXMHAXMHAXM"
  const UNISYS_ID := "UnisysSpar64"
  const LMHS_ID := "SRESRESRESRE"
  const KGT_ID := "EVMMEVMMEVMM"
  const TDX_ID := "IntelTDX    "
  const LKVM_ID := "LKVMLKVMLKVM"
  const NEKO_ID := "Neko Project"
  const NOIR_ID := "NoirVisor ZT"
  const QNX_SAMPLE := "QXNQSBMV"
  const APPLE_VZ_SAMPLE := "Apple VZ"
  const HYPERPLATFORM_SAMPLE := "PpyH"

  /**
   * The three vendor strings written with trailing NUL bytes. The source
   * builds its constants from C string literals, which end at the first
   * NUL, so as written they are nine or ten characters long.
   */
  datatype PaddedIds = PaddedIds(jailhouse: string, barevisor: string, minivisor: string)

  const AS_WRITTEN := PaddedIds("Jailhouse", "Barevisor!", "MiniVisor")
  const PADDED := PaddedIds("Jailhouse\0\0\0", "Barevisor!\0\0", "MiniVisor\0\0\0")

  /** The exact-match chain of vmid_template, in the source's order. */
  function ExactVendor(s: string, ids: PaddedIds): Option<Brand>
  {
    if s == VMWARE_ID then Some(VMware)
    else if s == VBOX_ID then Some(VBox)
    else if s == QEMU_ID then Some(Qemu)
    else if s == XEN_ID then Some(Xen)
    else if s == KVM_HYPERV_ID then Some(KvmHyperV)
    else if s == PARALLELS_ID || s == PARALLELS_ALT_ID then Some(Parallels)
    else if s == BHYVE_ID || s == BHYVE_ALT_ID then Some(Bhyve)
    else if s == ACRN_ID then Some(Acrn)
    else if s == QNX_ID then Some(Qnx)
    else if s == NVMM_ID then Some(Nvmm)
    else if s == OPENBSD_ID then Some(BsdVmm)
    else if s == HAXM_ID then Some(IntelHaxm)
    else if s == UNISYS_ID then Some(Unisys)
    else if s == LMHS_ID then Some(Lmhs)
    else LaterVendor(s, ids)
  }

  /** The exact matches after Lockheed Martin's, in source order. */
  function LaterVendor(s: string, ids: PaddedIds): Option<Brand>
  {
    if s == ids.jailhouse then Some(Jailhouse)
    else if s == KGT_ID then Some(IntelKgt)
    else if s == ids.barevisor then Some(Barevisor)
    else if s == ids.minivisor then Some(MiniVisor)
    else if s == TDX_ID then Some(IntelTdx)
    else if s == LKVM_ID then Some(Lkvm)
    else if s == NEKO_ID then Some(NekoProject)
    else if s == NOIR_ID then Some(NoirVisor)
    else None
  }

  /**
   * vmid_template on a manufacturer string, with the hypervisor state the
   * Hyper-V check consults. "Microsoft Hv" credits Hyper-V twice (through
   * add with Virtual PC as its second label) unless the state says the
   * host only carries the Hyper-V artifact; any string containing "KVM" is
   * KVM; then the exact matches; then three substring matches.
   */
  function VmidWith(s: string, hx: HyperXState, ids: PaddedIds): (o: ProbeOutcome)
    ensures o.result <==> |o.credits| > 0
  {
    if s == HYPERV_ID then
      if hx == ArtifactVm then NOT_FOUND
      else ProbeOutcome(true, Add(Known(HyperV), Label(Vpc)).value)
    else if Find(s, "KVM") then Detected(Kvm)
    else
      match ExactVendor(s, ids)
      case Some(b) => Detected(b)
      case None =>
        if Find(s, QNX_SAMPLE) then Detected(Qnx)
        else if Find(s, APPLE_VZ_SAMPLE) then Detected(AppleVz)
        else if Find(s, HYPERPLATFORM_SAMPLE) then Detected(HyperPlatform)
        else NOT_FOUND
  }

  /** vmid_template with the padded vendor strings the comparisons evidently intend. */
  function VmidTemplate(s: string, hx: HyperXState): ProbeOutcome {
    VmidWith(s, hx, PADDED)
  }

  /** "Microsoft Hv" credits Hyper-V twice, or nothing on a host that only carries the artifact. */
  lemma VmidHyperV(hx: HyperXState, ids: PaddedIds)
    ensures VmidWith(HYPERV_ID, hx, ids)
         == if hx == ArtifactVm then NOT_FOUND else ProbeOutcome(true, [HyperV, HyperV])
  {
  }

  /** Any other string that contains "KVM" is credited as KVM, before any exact match. */
  lemma VmidKvmFirst(s: string, hx: HyperXState, ids: PaddedIds)
    requires s != HYPERV_ID && Find(s, "KVM")
    ensures VmidWith(s, hx, ids) == Detected(Kvm)
  {
  }

  /** Both vendor strings of the KVM exact matches contain "KVM". */
  lemma KvmIdsContainKvm()
    ensures Find(KVM_HYPERV_ID, "KVM") && Find(LKVM_ID, "KVM")
  {
    assert OccursAt(KVM_HYPERV_ID, "KVM", 6);
    assert OccursAt(LKVM_ID, "KVM", 1);
  }

  /** The exact matches for KVM with Hyper-V enlightenments and for LKVM come from their own strings. */
  lemma KvmSources(s: string, ids: PaddedIds)
    ensures ExactVendor(s, ids) == Some(KvmHyperV) ==> s == KVM_HYPERV_ID
    ensures ExactVendor(s, ids) == Some(Lkvm) ==> s == LKVM_ID
  {
  }

  /** The exact matches for Jailhouse, Barevisor and MiniVisor come from their own strings. */
  lemma PaddedSources(s: string, ids: PaddedIds)
    ensures ExactVendor(s, ids) == Some(Jailhouse) ==> s == ids.jailhouse
    ensures ExactVendor(s, ids) == Some(Barevisor) ==> s == ids.barevisor
    ensures ExactVendor(s, ids) == Some(MiniVisor) ==> s == ids.minivisor
  {
  }

  /** Brands other than Hyper-V, KVM and the three substring matches are credited only through the exact matches. */
  lemma CreditedByExactMatch(s: string, hx: HyperXState, ids: PaddedIds, b: Brand)
    requires b != HyperV && b != Kvm && b != Qnx && b != AppleVz && b != HyperPlatform
    ensures b in VmidWith(s, hx, ids).credits ==> ExactVendor(s, ids) == Some(b)
  {
    if s == HYPERV_ID {
      VmidHyperV(hx, ids);
    }
  }

  /** vmid_template never credits Virtual PC: that label only goes in add's second argument. */
  lemma VmidNeverCreditsVpc(s: string, hx: HyperXState, ids: PaddedIds)
    ensures Vpc !in VmidWith(s, hx, ids).credits
  {
    ExactNeverVpc(s, ids);
    CreditedByExactMatch(s, hx, ids, Vpc);
  }

  /** No vendor string of the exact matches stands for Virtual PC. */
  lemma ExactNeverVpc(s: string, ids: PaddedIds)
    ensures ExactVendor(s, ids) != Some(Vpc)
  {
  }

  /**
   * vmid_template never credits KVM with Hyper-V enlightenments or LKVM:
   * both vendor strings contain "KVM" and are caught by the test before
   * the exact matches.
   */
  lemma VmidNeverCreditsKvmVariants(s: string, hx: HyperXState, ids: PaddedIds)
    ensures KvmHyperV !in VmidWith(s, hx, ids).credits
    ensures Lkvm !in VmidWith(s, hx, ids).credits
  {
    KvmIdsContainKvm();
    KvmSources(s, ids);
    if s == HYPERV_ID {
      VmidHyperV(hx, ids);
    }
  }

  /**
   * As written, the vendor strings of Jailhouse, Barevisor and MiniVisor
   * lose their NUL padding, so no manufacturer string (empty or twelve
   * bytes) ever equals one of them.
   */
  lemma UnpaddedNeverMatch(leaf: u32, r: Registers, hx: HyperXState)
    ensures Jailhouse !in VmidWith(CpuManufacturer(leaf, r), hx, AS_WRITTEN).credits
    ensures Barevisor !in VmidWith(CpuManufacturer(leaf, r), hx, AS_WRITTEN).credits
    ensures MiniVisor !in VmidWith(CpuManufacturer(leaf, r), hx, AS_WRITTEN).credits
  {
    var s := CpuManufacturer(leaf, r);
    assert |s| == 0 || |s| == 12;
    PaddedSources(s, AS_WRITTEN);
    CreditedByExactMatch(s, hx, AS_WRITTEN, Jailhouse);
    CreditedByExactMatch(s, hx, AS_WRITTEN, Barevisor);
    CreditedByExactMatch(s, hx, AS_WRITTEN, MiniVisor);
  }

  /** A padded vendor string without a K, once the exact-match chain has recognised it. */
  lemma PaddedMatch(s: string, hx: HyperXState, b: Brand)
    requires ExactVendor(s, PADDED) == Some(b) && s != HYPERV_ID
    requires forall i :: 0 <= i < |s| ==> s[i] != 'K'
    ensures VmidTemplate(s, hx) == Detected(b)
  {
    NotFoundWithoutFirst(s, "KVM");
  }

  /** With the padding kept, Jailhouse's vendor string is recognised. */
  lemma PaddedJailhouse(hx: HyperXState)
    ensures VmidTemplate(PADDED.jailhouse, hx) == Detected(Jailhouse)
  {
    assert ExactVendor(PADDED.jailhouse, PADDED) == Some(Jailhouse);
    PaddedMatch(PADDED.jailhouse, hx, Jailhouse);
  }

  /** With the padding kept, Barevisor's vendor string is recognised. */
  lemma PaddedBarevisor(hx: HyperXState)
    ensures VmidTemplate(PADDED.barevisor, hx) == Detected(Barevisor)
  {
    assert ExactVendor(PADDED.barevisor, PADDED) == Some(Barevisor);
    PaddedMatch(PADDED.barevisor, hx, Barevisor);
  }

  /** With the padding kept, MiniVisor's vendor string is recognised. */
  lemma PaddedMiniVisor(hx: HyperXState)
    ensures VmidTemplate(PADDED.minivisor, hx) == Detected(MiniVisor)
  {
    assert ExactVendor(PADDED.minivisor, PADDED) == Some(MiniVisor);
    PaddedMatch(PADDED.minivisor, hx, MiniVisor);
  }

  /** Apple's eight-character vendor string is not among the exact matches. */
  lemma AppleNotExact()
    ensures ExactVendor("Apple VZ\0\0\0\0", PADDED) == None
  {
  }

  /** Apple's eight-character vendor string, padded to twelve bytes, is found as a substring. */
  lemma VmidAppleVz(hx: HyperXState)
    ensures VmidTemplate("Apple VZ\0\0\0\0", hx) == Detected(AppleVz)
  {
    var s := "Apple VZ\0\0\0\0";
    AppleNotExact();
    NotFoundWithoutFirst(s, "KVM");
    NotFoundWithoutFirst(s, QNX_SAMPLE);
    assert OccursAt(s, APPLE_VZ_SAMPLE, 0);
  }
}
