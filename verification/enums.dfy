/*
 * The flag enumeration of the library: technique identifiers, the special
 * selection flags, the settings flags, and the constants derived from them.
 *
 * Identifiers are plain naturals; a flag set is a vector of 112 booleans
 * indexed by them (see module Flags).
 */
module Enums {

  /** Unsigned 8-bit values, the underlying type of the flag enumeration. */
  type u8 = x: int | 0 <= x < 0x100

  /** A certainty weight, a percentage. */
  type Percent = x: int | 0 <= x <= 100

  // A few technique identifiers the model refers to by name.
  const VMID: nat := 0
  const GAMARUE: nat := 31
  const VMWARE_DMESG: nat := 46
  const HYPERV_HOSTNAME: nat := 57
  const DISK_SERIAL: nat := 79
  const PORT_CONNECTORS: nat := 80
  const GPU_VM_STRINGS: nat := 82
  const GPU_CAPABILITIES: nat := 83
  const ACPI_TEMPERATURE: nat := 87
  const LSHW_QEMU: nat := 89
  const QEMU_PASSTHROUGH: nat := 104

  // Special selection flags.
  const DEFAULT: nat := 105
  const ALL: nat := 106
  const NULL_ARG: nat := 107

  // Settings flags.
  const NO_MEMO: nat := 108
  const HIGH_THRESHOLD: nat := 109
  const DYNAMIC: nat := 110
  const MULTIPLE: nat := 111

  const ENUM_SIZE: nat := MULTIPLE
  const SETTINGS_COUNT: nat := MULTIPLE - NO_MEMO + 1
  const INVALID: nat := 255
  /** Number of identifiers reserved before the first custom technique. */
  const BASE_TECHNIQUE_COUNT: nat := NO_MEMO
  const MAXIMUM_POINTS: nat := 5510
  const HIGH_THRESHOLD_SCORE: nat := 300
  /** The score at which the default threshold declares a VM. */
  const THRESHOLD_SCORE: nat := 150
  /** Number of positions in a flag set. */
  const ENUM_END: nat := ENUM_SIZE + 1
  const TECHNIQUE_END: nat := DEFAULT
  const SETTINGS_BEGIN: nat := DEFAULT
  const SETTINGS_END: nat := ENUM_END

  /** Positions of a flag set that name built-in techniques. */
  predicate IsTechnique(id: int) {
    0 <= id < TECHNIQUE_END
  }

  /** Positions of a flag set that hold special or settings flags. */
  predicate IsSetting(id: int) {
    SETTINGS_BEGIN <= id < SETTINGS_END
  }

  /** The techniques left out of the default selection. */
  predicate IsOptIn(id: int) {
    id == VMWARE_DMESG || id == PORT_CONNECTORS || id == ACPI_TEMPERATURE || id == LSHW_QEMU
  }

  /** The two techniques whose scores are combined after the main pass. */
  predicate IsGpu(id: int) {
    id == GPU_VM_STRINGS || id == GPU_CAPABILITIES
  }

  /** The four settings that the arguments handler keeps through the disabled mask. */
  predicate IsTunable(id: int) {
    id == NO_MEMO || id == HIGH_THRESHOLD || id == DYNAMIC || id == MULTIPLE
  }

  /**
   * Certainty weight of every built-in technique, in identifier order
   * (the technique table is an ordered map keyed by identifier).
   */
  const WEIGHTS: seq<Percent> := [
    100, 50, 100, 75, 45, 35, 20, 15, 35, 65, 20, 30, 55, 55, 35, 25, 50, 25, 100, 60,
    25, 100, 10, 100, 10, 30, 30, 50, 100, 15, 10, 10, 100, 100, 15, 100, 100, 40, 25, 75,
    25, 30, 15, 65, 70, 40, 65, 35, 100, 85, 30, 85, 80, 95, 95, 30, 30, 30, 10, 20,
    25, 5, 95, 40, 80, 40, 20, 20, 80, 5, 10, 15, 15, 20, 50, 50, 5, 30, 100, 100,
    25, 100, 100, 100, 50, 50, 50, 25, 70, 80, 50, 100, 80, 50, 95, 100, 65, 100, 15, 25,
    50, 75, 50, 90, 90
  ]

  /**
   * The enumeration layout: techniques and settings tile the flag set, the
   * settings block has SETTINGS_COUNT tunable entries after the three
   * special flags, and there is one weight per technique.
   */
  lemma Layout()
    ensures forall id :: 0 <= id < ENUM_END ==> (IsTechnique(id) <==> !IsSetting(id))
    ensures forall id :: IsTunable(id) ==> IsSetting(id) && id != DEFAULT && id != ALL && id != NULL_ARG
    ensures SETTINGS_COUNT == 4 && ENUM_END == 112
    ensures |WEIGHTS| == TECHNIQUE_END
    ensures forall id :: IsOptIn(id) || IsGpu(id) ==> IsTechnique(id)
  {
  }
}
