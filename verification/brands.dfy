/*
 * VM brands, the scoreboard that probes credit, and the "add" operation
 * through which a probe credits a brand.
 */
module Brands {
  import opened Wrappers
  import opened Text

  /** Every brand the scoreboard knows, in the order the brand table lists them. */
  datatype Brand =
    | NullBrand
    | VBox
    | VMware
    | VMwareExpress
    | VMwareEsx
    | VMwareGsx
    | VMwareWorkstation
    | VMwareFusion
    | VMwareHard
    | Bhyve
    | Kvm
    | Qemu
    | QemuKvm
    | KvmHyperV
    | QemuKvmHyperV
    | HyperV
    | HyperVVpc
    | Parallels
    | Xen
    | Acrn
    | Qnx
    | Hybrid
    | Sandboxie
    | Docker
    | Wine
    | Vpc
    | Anubis
    | JoeBox
    | ThreatExpert
    | CwSandbox
    | Comodo
    | Bochs
    | Nvmm
    | BsdVmm
    | IntelHaxm
    | Unisys
    | Lmhs
    | Cuckoo
    | BlueStacks
    | Jailhouse
    | AppleVz
    | IntelKgt
    | AzureHyperV
    | NanoVisor
    | SimpleVisor
    | HyperVArtifact
    | Uml
    | PowerVm
    | Gce
    | OpenStack
    | KubeVirt
    | AwsNitro
    | Podman
    | Wsl
    | OpenVz
    | Barevisor
    | HyperPlatform
    | MiniVisor
    | IntelTdx
    | Lkvm
    | AmdSev
    | AmdSevEs
    | AmdSevSnp
    | NekoProject
    | NoirVisor
    | Qihoo
    | NsJail
    | HypervisorPhantom

  /** The brand's label, the text the public calls return. */
  function Label(b: Brand): string
  {
    match b
    case NullBrand => "Unknown"
    case VBox => "VirtualBox"
    case VMware => "VMware"
    case VMwareExpress => "VMware Express"
    case VMwareEsx => "VMware ESX"
    case VMwareGsx => "VMware GSX"
    case VMwareWorkstation => "VMware Workstation"
    case VMwareFusion => "VMware Fusion"
    case VMwareHard => "VMware (with VmwareHardenedLoader)"
    case Bhyve => "bhyve"
    case Kvm => "KVM"
    case Qemu => "QEMU"
    case QemuKvm => "QEMU+KVM"
    case KvmHyperV => "KVM Hyper-V Enlightenment"
    case QemuKvmHyperV => "QEMU+KVM Hyper-V Enlightenment"
    case HyperV => "Microsoft Hyper-V"
    case HyperVVpc => "Microsoft Virtual PC/Hyper-V"
    case Parallels => "Parallels"
    case Xen => "Xen HVM"
    case Acrn => "ACRN"
    case Qnx => "QNX hypervisor"
    case Hybrid => "Hybrid Analysis"
    case Sandboxie => "Sandboxie"
    case Docker => "Docker"
    case Wine => "Wine"
    case Vpc => "Virtual PC"
    case Anubis => "Anubis"
    case JoeBox => "JoeBox"
    case ThreatExpert => "ThreatExpert"
    case CwSandbox => "CWSandbox"
    case Comodo => "Comodo"
    case Bochs => "Bochs"
    case Nvmm => "NetBSD NVMM"
    case BsdVmm => "OpenBSD VMM"
    case IntelHaxm => "Intel HAXM"
    case Unisys => "Unisys s-Par"
    case Lmhs => "Lockheed Martin LMHS"
    case Cuckoo => "Cuckoo"
    case BlueStacks => "BlueStacks"
    case Jailhouse => "Jailhouse"
    case AppleVz => "Apple VZ"
    case IntelKgt => "Intel KGT (Trusty)"
    case AzureHyperV => "Microsoft Azure Hyper-V"
    case NanoVisor => "Xbox NanoVisor (Hyper-V)"
    case SimpleVisor => "SimpleVisor"
    case HyperVArtifact => "Hyper-V artifact (not an actual VM)"
    case Uml => "User-mode Linux"
    case PowerVm => "IBM PowerVM"
    case Gce => "Google Compute Engine (KVM)"
    case OpenStack => "OpenStack (KVM)"
    case KubeVirt => "KubeVirt (KVM)"
    case AwsNitro => "AWS Nitro System EC2 (KVM-based)"
    case Podman => "Podman"
    case Wsl => "WSL"
    case OpenVz => "OpenVZ"
    case Barevisor => "Barevisor"
    case HyperPlatform => "HyperPlatform"
    case MiniVisor => "MiniVisor"
    case IntelTdx => "Intel TDX"
    case Lkvm => "LKVM"
    case AmdSev => "AMD SEV"
    case AmdSevEs => "AMD SEV-ES"
    case AmdSevSnp => "AMD SEV-SNP"
    case NekoProject => "Neko Project II"
    case NoirVisor => "NoirVisor"
    case Qihoo => "Qihoo 360 Sandbox"
    case NsJail => "nsjail"
    case HypervisorPhantom => "Hypervisor-Phantom"
  }

  /**
   * Recognises a label by its length and a few of its characters; on a
   * label it gives back the brand (IdentifyLabel), which shows that no two
   * brands share a label.
   */
  function Identify(s: string): (r: Option<Brand>)
    ensures r.Some? ==> |s| >= 3
  {
    if |s| == 3 then
      if s[0] == 'K' then Some(Kvm)
      else Some(Wsl)
    else if |s| == 4 then
      if s[0] == 'Q' then Some(Qemu)
      else if s[0] == 'A' then Some(Acrn)
      else if s[0] == 'W' then Some(Wine)
      else Some(Lkvm)
    else if |s| == 5 then
      if s[0] == 'b' then Some(Bhyve)
      else Some(Bochs)
    else if |s| == 6 then
      if s[0] == 'V' then Some(VMware)
      else if s[0] == 'D' then Some(Docker)
      else if s[0] == 'A' then Some(Anubis)
      else if s[0] == 'J' then Some(JoeBox)
      else if s[0] == 'C' then
        if s[1] == 'o' then Some(Comodo)
        else Some(Cuckoo)
      else if s[0] == 'P' then Some(Podman)
      else if s[0] == 'O' then Some(OpenVz)
      else Some(NsJail)
    else if |s| == 7 then
      if s[0] == 'U' then Some(NullBrand)
      else if s[0] == 'X' then Some(Xen)
      else Some(AmdSev)
    else if |s| == 8 then
      if s[0] == 'Q' then Some(QemuKvm)
      else Some(AppleVz)
    else if |s| == 9 then
      if s[0] == 'P' then Some(Parallels)
      else if s[0] == 'S' then Some(Sandboxie)
      else if s[0] == 'C' then Some(CwSandbox)
      else if s[0] == 'J' then Some(Jailhouse)
      else if s[0] == 'B' then Some(Barevisor)
      else if s[0] == 'M' then Some(MiniVisor)
      else if s[0] == 'I' then Some(IntelTdx)
      else Some(NoirVisor)
    else if |s| == 10 then
      if s[7] == 'B' then Some(VBox)
      else if s[7] == 'E' then Some(VMwareEsx)
      else if s[7] == 'G' then Some(VMwareGsx)
      else if s[7] == ' ' then Some(Vpc)
      else if s[7] == 'A' then Some(IntelHaxm)
      else if s[7] == 'c' then Some(BlueStacks)
      else Some(AmdSevEs)
    else if |s| == 11 then
      if s[0] == 'N' then Some(Nvmm)
      else if s[0] == 'O' then Some(BsdVmm)
      else if s[0] == 'S' then Some(SimpleVisor)
      else if s[0] == 'I' then Some(PowerVm)
      else Some(AmdSevSnp)
    else if |s| == 12 then
      if s[0] == 'T' then Some(ThreatExpert)
      else Some(Unisys)
    else if |s| == 13 then
      if s[0] == 'V' then Some(VMwareFusion)
      else Some(HyperPlatform)
    else if |s| == 14 then
      if s[0] == 'V' then Some(VMwareExpress)
      else if s[0] == 'Q' then Some(Qnx)
      else Some(KubeVirt)
    else if |s| == 15 then
      if s[0] == 'H' then Some(Hybrid)
      else if s[0] == 'U' then Some(Uml)
      else if s[0] == 'O' then Some(OpenStack)
      else Some(NekoProject)
    else if |s| == 17 then
      if s[0] == 'M' then Some(HyperV)
      else Some(Qihoo)
    else if |s| == 18 then
      if s[0] == 'V' then Some(VMwareWorkstation)
      else if s[0] == 'I' then Some(IntelKgt)
      else Some(HypervisorPhantom)
    else if |s| == 20 then Some(Lmhs)
    else if |s| == 23 then Some(AzureHyperV)
    else if |s| == 24 then Some(NanoVisor)
    else if |s| == 25 then Some(KvmHyperV)
    else if |s| == 27 then Some(Gce)
    else if |s| == 28 then Some(HyperVVpc)
    else if |s| == 30 then Some(QemuKvmHyperV)
    else if |s| == 32 then Some(AwsNitro)
    else if |s| == 34 then Some(VMwareHard)
    else if |s| == 35 then Some(HyperVArtifact)
    else None
  }

  /** Every label is recognised as its own brand. */
  lemma IdentifyLabel(b: Brand)
    ensures Identify(Label(b)) == Some(b)
  {
    if b == NullBrand ||
        b == VBox ||
        b == VMware ||
        b == VMwareExpress ||
        b == VMwareEsx ||
        b == VMwareGsx {
      IdentifyGroup0(b);
    } else if b == VMwareWorkstation ||
        b == VMwareFusion ||
        b == VMwareHard ||
        b == Bhyve ||
        b == Kvm ||
        b == Qemu {
      IdentifyGroup1(b);
    } else if b == QemuKvm ||
        b == KvmHyperV ||
        b == QemuKvmHyperV ||
        b == HyperV ||
        b == HyperVVpc ||
        b == Parallels {
      IdentifyGroup2(b);
    } else if b == Xen ||
        b == Acrn ||
        b == Qnx ||
        b == Hybrid ||
        b == Sandboxie ||
        b == Docker {
      IdentifyGroup3(b);
    } else if b == Wine ||
        b == Vpc ||
        b == Anubis ||
        b == JoeBox ||
        b == ThreatExpert ||
        b == CwSandbox {
      IdentifyGroup4(b);
    } else if b == Comodo ||
        b == Bochs ||
        b == Nvmm ||
        b == BsdVmm ||
        b == IntelHaxm ||
        b == Unisys {
      IdentifyGroup5(b);
    } else if b == Lmhs ||
        b == Cuckoo ||
        b == BlueStacks ||
        b == Jailhouse ||
        b == AppleVz ||
        b == IntelKgt {
      IdentifyGroup6(b);
    } else if b == AzureHyperV ||
        b == NanoVisor ||
        b == SimpleVisor ||
        b == HyperVArtifact ||
        b == Uml ||
        b == PowerVm {
      IdentifyGroup7(b);
    } else if b == Gce ||
        b == OpenStack ||
        b == KubeVirt ||
        b == AwsNitro ||
        b == Podman ||
        b == Wsl {
      IdentifyGroup8(b);
    } else if b == OpenVz ||
        b == Barevisor ||
        b == HyperPlatform ||
        b == MiniVisor ||
        b == IntelTdx ||
        b == Lkvm {
      IdentifyGroup9(b);
    } else if b == AmdSev ||
        b == AmdSevEs ||
        b == AmdSevSnp ||
        b == NekoProject ||
        b == NoirVisor ||
        b == Qihoo {
      IdentifyGroup10(b);
    } else {
      IdentifyGroup11(b);
    }
  }

  // IdentifyLabel in parts, each a case check on a few brands.

  lemma IdentifyGroup0(b: Brand)
    requires b == NullBrand ||
             b == VBox ||
             b == VMware ||
             b == VMwareExpress ||
             b == VMwareEsx ||
             b == VMwareGsx
    ensures Identify(Label(b)) == Some(b)
  {
    match b
    case NullBrand => assert Identify("Unknown") == Some(NullBrand);
    case VBox => assert Identify("VirtualBox") == Some(VBox);
    case VMware => assert Identify("VMware") == Some(VMware);
    case VMwareExpress => assert Identify("VMware Express") == Some(VMwareExpress);
    case VMwareEsx => assert Identify("VMware ESX") == Some(VMwareEsx);
    case VMwareGsx => assert Identify("VMware GSX") == Some(VMwareGsx);
    case _ =>
  }

  lemma IdentifyGroup1(b: Brand)
    requires b == VMwareWorkstation ||
             b == VMwareFusion ||
             b == VMwareHard ||
             b == Bhyve ||
             b == Kvm ||
             b == Qemu
    ensures Identify(Label(b)) == Some(b)
  {
    match b
    case VMwareWorkstation => assert Identify("VMware Workstation") == Some(VMwareWorkstation);
    case VMwareFusion => assert Identify("VMware Fusion") == Some(VMwareFusion);
    case VMwareHard => assert Identify("VMware (with VmwareHardenedLoader)") == Some(VMwareHard);
    case Bhyve => assert Identify("bhyve") == Some(Bhyve);
    case Kvm => assert Identify("KVM") == Some(Kvm);
    case Qemu => assert Identify("QEMU") == Some(Qemu);
    case _ =>
  }

  lemma IdentifyGroup2(b: Brand)
    requires b == QemuKvm ||
             b == KvmHyperV ||
             b == QemuKvmHyperV ||
             b == HyperV ||
             b == HyperVVpc ||
             b == Parallels
    ensures Identify(Label(b)) == Some(b)
  {
    match b
    case QemuKvm => assert Identify("QEMU+KVM") == Some(QemuKvm);
    case KvmHyperV => assert Identify("KVM Hyper-V Enlightenment") == Some(KvmHyperV);
    case QemuKvmHyperV => assert Identify("QEMU+KVM Hyper-V Enlightenment") == Some(QemuKvmHyperV);
    case HyperV => assert Identify("Microsoft Hyper-V") == Some(HyperV);
    case HyperVVpc => assert Identify("Microsoft Virtual PC/Hyper-V") == Some(HyperVVpc);
    case Parallels => assert Identify("Parallels") == Some(Parallels);
    case _ =>
  }

  lemma IdentifyGroup3(b: Brand)
    requires b == Xen ||
             b == Acrn ||
             b == Qnx ||
             b == Hybrid ||
             b == Sandboxie ||
             b == Docker
    ensures Identify(Label(b)) == Some(b)
  {
    match b
    case Xen => assert Identify("Xen HVM") == Some(Xen);
    case Acrn => assert Identify("ACRN") == Some(Acrn);
    case Qnx => assert Identify("QNX hypervisor") == Some(Qnx);
    case Hybrid => assert Identify("Hybrid Analysis") == Some(Hybrid);
    case Sandboxie => assert Identify("Sandboxie") == Some(Sandboxie);
    case Docker => assert Identify("Docker") == Some(Docker);
    case _ =>
  }

  lemma IdentifyGroup4(b: Brand)
    requires b == Wine ||
             b == Vpc ||
             b == Anubis ||
             b == JoeBox ||
             b == ThreatExpert ||
             b == CwSandbox
    ensures Identify(Label(b)) == Some(b)
  {
    match b
    case Wine => assert Identify("Wine") == Some(Wine);
    case Vpc => assert Identify("Virtual PC") == Some(Vpc);
    case Anubis => assert Identify("Anubis") == Some(Anubis);
    case JoeBox => assert Identify("JoeBox") == Some(JoeBox);
    case ThreatExpert => assert Identify("ThreatExpert") == Some(ThreatExpert);
    case CwSandbox => assert Identify("CWSandbox") == Some(CwSandbox);
    case _ =>
  }

  lemma IdentifyGroup5(b: Brand)
    requires b == Comodo ||
             b == Bochs ||
             b == Nvmm ||
             b == BsdVmm ||
             b == IntelHaxm ||
             b == Unisys
    ensures Identify(Label(b)) == Some(b)
  {
    match b
    case Comodo => assert Identify("Comodo") == Some(Comodo);
    case Bochs => assert Identify("Bochs") == Some(Bochs);
    case Nvmm => assert Identify("NetBSD NVMM") == Some(Nvmm);
    case BsdVmm => assert Identify("OpenBSD VMM") == Some(BsdVmm);
    case IntelHaxm => assert Identify("Intel HAXM") == Some(IntelHaxm);
    case Unisys => assert Identify("Unisys s-Par") == Some(Unisys);
    case _ =>
  }

  lemma IdentifyGroup6(b: Brand)
    requires b == Lmhs ||
             b == Cuckoo ||
             b == BlueStacks ||
             b == Jailhouse ||
             b == AppleVz ||
             b == IntelKgt
    ensures Identify(Label(b)) == Some(b)
  {
    match b
    case Lmhs => assert Identify("Lockheed Martin LMHS") == Some(Lmhs);
    case Cuckoo => assert Identify("Cuckoo") == Some(Cuckoo);
    case BlueStacks => assert Identify("BlueStacks") == Some(BlueStacks);
    case Jailhouse => assert Identify("Jailhouse") == Some(Jailhouse);
    case AppleVz => assert Identify("Apple VZ") == Some(AppleVz);
    case IntelKgt => assert Identify("Intel KGT (Trusty)") == Some(IntelKgt);
    case _ =>
  }

  lemma IdentifyGroup7(b: Brand)
    requires b == AzureHyperV ||
             b == NanoVisor ||
             b == SimpleVisor ||
             b == HyperVArtifact ||
             b == Uml ||
             b == PowerVm
    ensures Identify(Label(b)) == Some(b)
  {
    match b
    case AzureHyperV => assert Identify("Microsoft Azure Hyper-V") == Some(AzureHyperV);
    case NanoVisor => assert Identify("Xbox NanoVisor (Hyper-V)") == Some(NanoVisor);
    case SimpleVisor => assert Identify("SimpleVisor") == Some(SimpleVisor);
    case HyperVArtifact => assert Identify("Hyper-V artifact (not an actual VM)") == Some(HyperVArtifact);
    case Uml => assert Identify("User-mode Linux") == Some(Uml);
    case PowerVm => assert Identify("IBM PowerVM") == Some(PowerVm);
    case _ =>
  }

  lemma IdentifyGroup8(b: Brand)
    requires b == Gce ||
             b == OpenStack ||
             b == KubeVirt ||
             b == AwsNitro ||
             b == Podman ||
             b == Wsl
    ensures Identify(Label(b)) == Some(b)
  {
    match b
    case Gce => assert Identify("Google Compute Engine (KVM)") == Some(Gce);
    case OpenStack => assert Identify("OpenStack (KVM)") == Some(OpenStack);
    case KubeVirt => assert Identify("KubeVirt (KVM)") == Some(KubeVirt);
    case AwsNitro => assert Identify("AWS Nitro System EC2 (KVM-based)") == Some(AwsNitro);
    case Podman => assert Identify("Podman") == Some(Podman);
    case Wsl => assert Identify("WSL") == Some(Wsl);
    case _ =>
  }

  lemma IdentifyGroup9(b: Brand)
    requires b == OpenVz ||
             b == Barevisor ||
             b == HyperPlatform ||
             b == MiniVisor ||
             b == IntelTdx ||
             b == Lkvm
    ensures Identify(Label(b)) == Some(b)
  {
    match b
    case OpenVz => assert Identify("OpenVZ") == Some(OpenVz);
    case Barevisor => assert Identify("Barevisor") == Some(Barevisor);
    case HyperPlatform => assert Identify("HyperPlatform") == Some(HyperPlatform);
    case MiniVisor => assert Identify("MiniVisor") == Some(MiniVisor);
    case IntelTdx => assert Identify("Intel TDX") == Some(IntelTdx);
    case Lkvm => assert Identify("LKVM") == Some(Lkvm);
    case _ =>
  }

  lemma IdentifyGroup10(b: Brand)
    requires b == AmdSev ||
             b == AmdSevEs ||
             b == AmdSevSnp ||
             b == NekoProject ||
             b == NoirVisor ||
             b == Qihoo
    ensures Identify(Label(b)) == Some(b)
  {
    match b
    case AmdSev => assert Identify("AMD SEV") == Some(AmdSev);
    case AmdSevEs => assert Identify("AMD SEV-ES") == Some(AmdSevEs);
    case AmdSevSnp => assert Identify("AMD SEV-SNP") == Some(AmdSevSnp);
    case NekoProject => assert Identify("Neko Project II") == Some(NekoProject);
    case NoirVisor => assert Identify("NoirVisor") == Some(NoirVisor);
    case Qihoo => assert Identify("Qihoo 360 Sandbox") == Some(Qihoo);
    case _ =>
  }

  lemma IdentifyGroup11(b: Brand)
    requires b == NsJail ||
             b == HypervisorPhantom
    ensures Identify(Label(b)) == Some(b)
  {
    match b
    case NsJail => assert Identify("nsjail") == Some(NsJail);
    case HypervisorPhantom => assert Identify("Hypervisor-Phantom") == Some(HypervisorPhantom);
    case _ =>
  }

  /** IdentifyLabel for every brand at once. */
  lemma IdentifyAll()
    ensures forall b :: Identify(Label(b)) == Some(b)
  {
    forall b ensures Identify(Label(b)) == Some(b) {
      IdentifyLabel(b);
    }
  }

  /** LabelInjective for all pairs. */
  lemma LabelsInjective()
    ensures forall a, b :: Label(a) == Label(b) ==> a == b
  {
    IdentifyAll();
  }

  /** Different brands have different labels, and none is shorter than three characters. */
  lemma LabelInjective(a: Brand, b: Brand)
    ensures Label(a) == Label(b) <==> a == b
    ensures |Label(a)| >= 3
  {
    IdentifyLabel(a);
    IdentifyLabel(b);
  }

  /** No label contains the " or " of the multiple-brand message. */
  lemma LabelHasNoSeparator(b: Brand)
    ensures !Find(Label(b), SEPARATOR)
  {
    LabelNoSpaceO(b);
    NoSeparator(Label(b));
  }

  /** In no label is a space followed by the letter o. */
  lemma LabelNoSpaceO(b: Brand)
    ensures NoSpaceO(Label(b))
  {
    LabelTexts0();
    LabelTexts1();
    LabelTexts2();
    LabelTexts3();
    LabelTexts4();
    LabelTexts5();
    LabelTexts6();
    LabelTexts7();
    LabelTexts8();
    LabelTexts9();
    LabelTexts10();
    LabelTexts11();
  }

  // The label texts, a few at a time.

  lemma LabelTexts0()
    ensures NoSpaceO("Unknown")
    ensures NoSpaceO("VirtualBox")
    ensures NoSpaceO("VMware")
    ensures NoSpaceO("VMware Express")
    ensures NoSpaceO("VMware ESX")
    ensures NoSpaceO("VMware GSX")
  {
  }

  lemma LabelTexts1()
    ensures NoSpaceO("VMware Workstation")
    ensures NoSpaceO("VMware Fusion")
    ensures NoSpaceO("VMware (with VmwareHardenedLoader)")
    ensures NoSpaceO("bhyve")
    ensures NoSpaceO("KVM")
    ensures NoSpaceO("QEMU")
  {
  }

  lemma LabelTexts2()
    ensures NoSpaceO("QEMU+KVM")
    ensures NoSpaceO("KVM Hyper-V Enlightenment")
    ensures NoSpaceO("QEMU+KVM Hyper-V Enlightenment")
    ensures NoSpaceO("Microsoft Hyper-V")
    ensures NoSpaceO("Microsoft Virtual PC/Hyper-V")
    ensures NoSpaceO("Parallels")
  {
  }

  lemma LabelTexts3()
    ensures NoSpaceO("Xen HVM")
    ensures NoSpaceO("ACRN")
    ensures NoSpaceO("QNX hypervisor")
    ensures NoSpaceO("Hybrid Analysis")
    ensures NoSpaceO("Sandboxie")
    ensures NoSpaceO("Docker")
  {
  }

  lemma LabelTexts4()
    ensures NoSpaceO("Wine")
    ensures NoSpaceO("Virtual PC")
    ensures NoSpaceO("Anubis")
    ensures NoSpaceO("JoeBox")
    ensures NoSpaceO("ThreatExpert")
    ensures NoSpaceO("CWSandbox")
  {
  }

  lemma LabelTexts5()
    ensures NoSpaceO("Comodo")
    ensures NoSpaceO("Bochs")
    ensures NoSpaceO("NetBSD NVMM")
    ensures NoSpaceO("OpenBSD VMM")
    ensures NoSpaceO("Intel HAXM")
    ensures NoSpaceO("Unisys s-Par")
  {
  }

  lemma LabelTexts6()
    ensures NoSpaceO("Lockheed Martin LMHS")
    ensures NoSpaceO("Cuckoo")
    ensures NoSpaceO("BlueStacks")
    ensures NoSpaceO("Jailhouse")
    ensures NoSpaceO("Apple VZ")
    ensures NoSpaceO("Intel KGT (Trusty)")
  {
  }

  lemma LabelTexts7()
    ensures NoSpaceO("Microsoft Azure Hyper-V")
    ensures NoSpaceO("Xbox NanoVisor (Hyper-V)")
    ensures NoSpaceO("SimpleVisor")
    ensures NoSpaceO("Hyper-V artifact (not an actual VM)")
    ensures NoSpaceO("User-mode Linux")
    ensures NoSpaceO("IBM PowerVM")
  {
  }

  lemma LabelTexts8()
    ensures NoSpaceO("Google Compute Engine (KVM)")
    ensures NoSpaceO("OpenStack (KVM)")
    ensures NoSpaceO("KubeVirt (KVM)")
    ensures NoSpaceO("AWS Nitro System EC2 (KVM-based)")
    ensures NoSpaceO("Podman")
    ensures NoSpaceO("WSL")
  {
  }

  lemma LabelTexts9()
    ensures NoSpaceO("OpenVZ")
    ensures NoSpaceO("Barevisor")
    ensures NoSpaceO("HyperPlatform")
    ensures NoSpaceO("MiniVisor")
    ensures NoSpaceO("Intel TDX")
    ensures NoSpaceO("LKVM")
  {
  }

  lemma LabelTexts10()
    ensures NoSpaceO("AMD SEV")
    ensures NoSpaceO("AMD SEV-ES")
    ensures NoSpaceO("AMD SEV-SNP")
    ensures NoSpaceO("Neko Project II")
    ensures NoSpaceO("NoirVisor")
    ensures NoSpaceO("Qihoo 360 Sandbox")
  {
  }

  lemma LabelTexts11()
    ensures NoSpaceO("nsjail")
    ensures NoSpaceO("Hypervisor-Phantom")
  {
  }

  const BRAND_COUNT := 68

  /** A brand's position in the brand table. */
  function Rank(b: Brand): (i: nat)
    ensures i < BRAND_COUNT
  {
    match b
    case NullBrand => 0
    case VBox => 1
    case VMware => 2
    case VMwareExpress => 3
    case VMwareEsx => 4
    case VMwareGsx => 5
    case VMwareWorkstation => 6
    case VMwareFusion => 7
    case VMwareHard => 8
    case Bhyve => 9
    case Kvm => 10
    case Qemu => 11
    case QemuKvm => 12
    case KvmHyperV => 13
    case QemuKvmHyperV => 14
    case HyperV => 15
    case HyperVVpc => 16
    case Parallels => 17
    case Xen => 18
    case Acrn => 19
    case Qnx => 20
    case Hybrid => 21
    case Sandboxie => 22
    case Docker => 23
    case Wine => 24
    case Vpc => 25
    case Anubis => 26
    case JoeBox => 27
    case ThreatExpert => 28
    case CwSandbox => 29
    case Comodo => 30
    case Bochs => 31
    case Nvmm => 32
    case BsdVmm => 33
    case IntelHaxm => 34
    case Unisys => 35
    case Lmhs => 36
    case Cuckoo => 37
    case BlueStacks => 38
    case Jailhouse => 39
    case AppleVz => 40
    case IntelKgt => 41
    case AzureHyperV => 42
    case NanoVisor => 43
    case SimpleVisor => 44
    case HyperVArtifact => 45
    case Uml => 46
    case PowerVm => 47
    case Gce => 48
    case OpenStack => 49
    case KubeVirt => 50
    case AwsNitro => 51
    case Podman => 52
    case Wsl => 53
    case OpenVz => 54
    case Barevisor => 55
    case HyperPlatform => 56
    case MiniVisor => 57
    case IntelTdx => 58
    case Lkvm => 59
    case AmdSev => 60
    case AmdSevEs => 61
    case AmdSevSnp => 62
    case NekoProject => 63
    case NoirVisor => 64
    case Qihoo => 65
    case NsJail => 66
    case HypervisorPhantom => 67
  }

  /** The brand at a position of the brand table (the last one past the end). */
  function FromRank(i: nat): Brand
  {
    if i < 34 then
      if i < 17 then
        if i < 8 then
          if i < 4 then
            if i < 2 then
              if i < 1 then NullBrand else VBox
            else
              if i < 3 then VMware else VMwareExpress
          else
            if i < 6 then
              if i < 5 then VMwareEsx else VMwareGsx
            else
              if i < 7 then VMwareWorkstation else VMwareFusion
        else
          if i < 12 then
            if i < 10 then
              if i < 9 then VMwareHard else Bhyve
            else
              if i < 11 then Kvm else Qemu
          else
            if i < 14 then
              if i < 13 then QemuKvm else KvmHyperV
            else
              if i < 15 then QemuKvmHyperV else (if i < 16 then HyperV else HyperVVpc)
      else
        if i < 25 then
          if i < 21 then
            if i < 19 then
              if i < 18 then Parallels else Xen
            else
              if i < 20 then Acrn else Qnx
          else
            if i < 23 then
              if i < 22 then Hybrid else Sandboxie
            else
              if i < 24 then Docker else Wine
        else
          if i < 29 then
            if i < 27 then
              if i < 26 then Vpc else Anubis
            else
              if i < 28 then JoeBox else ThreatExpert
          else
            if i < 31 then
              if i < 30 then CwSandbox else Comodo
            else
              if i < 32 then Bochs else (if i < 33 then Nvmm else BsdVmm)
    else
      if i < 51 then
        if i < 42 then
          if i < 38 then
            if i < 36 then
              if i < 35 then IntelHaxm else Unisys
            else
              if i < 37 then Lmhs else Cuckoo
          else
            if i < 40 then
              if i < 39 then BlueStacks else Jailhouse
            else
              if i < 41 then AppleVz else IntelKgt
        else
          if i < 46 then
            if i < 44 then
              if i < 43 then AzureHyperV else NanoVisor
            else
              if i < 45 then SimpleVisor else HyperVArtifact
          else
            if i < 48 then
              if i < 47 then Uml else PowerVm
            else
              if i < 49 then Gce else (if i < 50 then OpenStack else KubeVirt)
      else
        if i < 59 then
          if i < 55 then
            if i < 53 then
              if i < 52 then AwsNitro else Podman
            else
              if i < 54 then Wsl else OpenVz
          else
            if i < 57 then
              if i < 56 then Barevisor else HyperPlatform
            else
              if i < 58 then MiniVisor else IntelTdx
        else
          if i < 63 then
            if i < 61 then
              if i < 60 then Lkvm else AmdSev
            else
              if i < 62 then AmdSevEs else AmdSevSnp
          else
            if i < 65 then
              if i < 64 then NekoProject else NoirVisor
            else
              if i < 66 then Qihoo else (if i < 67 then NsJail else HypervisorPhantom)
  }

  /** Every brand is found again at its own position, so positions identify brands. */
  lemma RankRoundTrip(b: Brand)
    ensures FromRank(Rank(b)) == b
  {
    match b
    case NullBrand => assert FromRank(0) == NullBrand;
    case VBox => assert FromRank(1) == VBox;
    case VMware => assert FromRank(2) == VMware;
    case VMwareExpress => assert FromRank(3) == VMwareExpress;
    case VMwareEsx => assert FromRank(4) == VMwareEsx;
    case VMwareGsx => assert FromRank(5) == VMwareGsx;
    case VMwareWorkstation => assert FromRank(6) == VMwareWorkstation;
    case VMwareFusion => assert FromRank(7) == VMwareFusion;
    case VMwareHard => assert FromRank(8) == VMwareHard;
    case Bhyve => assert FromRank(9) == Bhyve;
    case Kvm => assert FromRank(10) == Kvm;
    case Qemu => assert FromRank(11) == Qemu;
    case QemuKvm => assert FromRank(12) == QemuKvm;
    case KvmHyperV => assert FromRank(13) == KvmHyperV;
    case QemuKvmHyperV => assert FromRank(14) == QemuKvmHyperV;
    case HyperV => assert FromRank(15) == HyperV;
    case HyperVVpc => assert FromRank(16) == HyperVVpc;
    case Parallels => assert FromRank(17) == Parallels;
    case Xen => assert FromRank(18) == Xen;
    case Acrn => assert FromRank(19) == Acrn;
    case Qnx => assert FromRank(20) == Qnx;
    case Hybrid => assert FromRank(21) == Hybrid;
    case Sandboxie => assert FromRank(22) == Sandboxie;
    case Docker => assert FromRank(23) == Docker;
    case Wine => assert FromRank(24) == Wine;
    case Vpc => assert FromRank(25) == Vpc;
    case Anubis => assert FromRank(26) == Anubis;
    case JoeBox => assert FromRank(27) == JoeBox;
    case ThreatExpert => assert FromRank(28) == ThreatExpert;
    case CwSandbox => assert FromRank(29) == CwSandbox;
    case Comodo => assert FromRank(30) == Comodo;
    case Bochs => assert FromRank(31) == Bochs;
    case Nvmm => assert FromRank(32) == Nvmm;
    case BsdVmm => assert FromRank(33) == BsdVmm;
    case IntelHaxm => assert FromRank(34) == IntelHaxm;
    case Unisys => assert FromRank(35) == Unisys;
    case Lmhs => assert FromRank(36) == Lmhs;
    case Cuckoo => assert FromRank(37) == Cuckoo;
    case BlueStacks => assert FromRank(38) == BlueStacks;
    case Jailhouse => assert FromRank(39) == Jailhouse;
    case AppleVz => assert FromRank(40) == AppleVz;
    case IntelKgt => assert FromRank(41) == IntelKgt;
    case AzureHyperV => assert FromRank(42) == AzureHyperV;
    case NanoVisor => assert FromRank(43) == NanoVisor;
    case SimpleVisor => assert FromRank(44) == SimpleVisor;
    case HyperVArtifact => assert FromRank(45) == HyperVArtifact;
    case Uml => assert FromRank(46) == Uml;
    case PowerVm => assert FromRank(47) == PowerVm;
    case Gce => assert FromRank(48) == Gce;
    case OpenStack => assert FromRank(49) == OpenStack;
    case KubeVirt => assert FromRank(50) == KubeVirt;
    case AwsNitro => assert FromRank(51) == AwsNitro;
    case Podman => assert FromRank(52) == Podman;
    case Wsl => assert FromRank(53) == Wsl;
    case OpenVz => assert FromRank(54) == OpenVz;
    case Barevisor => assert FromRank(55) == Barevisor;
    case HyperPlatform => assert FromRank(56) == HyperPlatform;
    case MiniVisor => assert FromRank(57) == MiniVisor;
    case IntelTdx => assert FromRank(58) == IntelTdx;
    case Lkvm => assert FromRank(59) == Lkvm;
    case AmdSev => assert FromRank(60) == AmdSev;
    case AmdSevEs => assert FromRank(61) == AmdSevEs;
    case AmdSevSnp => assert FromRank(62) == AmdSevSnp;
    case NekoProject => assert FromRank(63) == NekoProject;
    case NoirVisor => assert FromRank(64) == NoirVisor;
    case Qihoo => assert FromRank(65) == Qihoo;
    case NsJail => assert FromRank(66) == NsJail;
    case HypervisorPhantom => assert FromRank(67) == HypervisorPhantom;
  }

  /** The brand at position `i` is the only one there. */
  lemma AtRank(i: nat)
    ensures forall b :: Rank(b) == i ==> b == FromRank(i)
  {
    forall b | Rank(b) == i ensures b == FromRank(i) {
      RankRoundTrip(b);
    }
  }

  /**
   * Brand credits. A brand that is not a key has credit zero, which is what
   * the source's table (every brand present, initialised to zero) holds.
   */
  type Scoreboard = map<Brand, nat>

  function Credit(sb: Scoreboard, b: Brand): nat {
    if b in sb then sb[b] else 0
  }

  /**
   * The key a probe hands to "add": the brand table's own label pointer, or
   * some other string literal whose pointer is not a key of the scoreboard
   * even when its text equals a label.
   */
  datatype Key = Known(brand: Brand) | Literal(text: string)

  /** What a probe reports: its verdict and the brands it credited, in order. */
  datatype ProbeOutcome = ProbeOutcome(result: bool, credits: seq<Brand>)

  /** A probe that found nothing. */
  const NOT_FOUND := ProbeOutcome(false, [])

  /**
   * add: credits the primary brand once, and once more when a second label
   * is given; the second label itself is never credited. An unknown key
   * makes the scoreboard lookup throw inside a noexcept function, which
   * ends the process.
   */
  function Add(p: Key, extra: string): (r: Result<seq<Brand>>)
    ensures r.Err? <==> p.Literal?
    ensures r.Err? ==> r.error == Terminated
    ensures r.Ok? ==> |r.value| == (if extra == "" then 1 else 2)
    ensures r.Ok? ==> forall i :: 0 <= i < |r.value| ==> r.value[i] == p.brand
  {
    match p
    case Literal(_) => Err(Terminated)
    case Known(b) => Ok(if extra == "" then [b] else [b, b])
  }

  /** The outcome of a probe that detected `b` and called add(b). */
  function Detected(b: Brand): (o: ProbeOutcome)
    ensures o.result && o.credits == [b]
  {
    ProbeOutcome(true, Add(Known(b), "").value)
  }

  /** Applies a probe's credits to the scoreboard, one increment each. */
  function Award(sb: Scoreboard, credits: seq<Brand>): Scoreboard
    decreases |credits|
  {
    if |credits| == 0 then sb
    else Award(sb[credits[0] := Credit(sb, credits[0]) + 1], credits[1..])
  }

  /** Each brand gains exactly as many points as it occurs among the credits. */
  lemma {:induction false} AwardCounts(sb: Scoreboard, credits: seq<Brand>, b: Brand)
    ensures Credit(Award(sb, credits), b) == Credit(sb, b) + multiset(credits)[b]
    decreases |credits|
  {
    if |credits| > 0 {
      assert credits == [credits[0]] + credits[1..];
      AwardCounts(sb[credits[0] := Credit(sb, credits[0]) + 1], credits[1..], b);
    }
  }

  /**
   * Crediting through add with a second label gives the primary brand two
   * points and leaves every other brand where it was; the second label is
   * not credited even when it names a brand.
   */
  lemma AddCreditsPrimaryTwice(sb: Scoreboard, p: Brand, extra: string, b: Brand)
    requires extra != ""
    ensures Credit(Award(sb, Add(Known(p), extra).value), b) == Credit(sb, b) + (if b == p then 2 else 0)
  {
    var cs := Add(Known(p), extra).value;
    assert cs == [p, p];
    AwardCounts(sb, cs, b);
  }
}
