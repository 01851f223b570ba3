/*
 * The serial-number test of the DISK_SERIAL probe: the serial of each of
 * the first four physical drives is copied upper-cased into a 256-byte
 * buffer and compared against VirtualBox's "VB" + 8 hex + "-" + 8 hex
 * form. What each drive's storage query returned is an input of the model.
 */
module DiskSerial {
  import opened Wrappers
  import opened Brands

  predicate IsHex(c: char) {
    ('0' <= c <= '9') || ('A' <= c <= 'F') || ('a' <= c <= 'f')
  }

  predicate AllHex(s: string) {
    forall i :: 0 <= i < |s| ==> IsHex(s[i])
  }

  /** is_vbox_serial: 19 characters, V then B in either case, hex digits around a hyphen at position 10. */
  function IsVBoxSerial(s: string): bool {
    && |s| == 19
    && (s[0] == 'V' || s[0] == 'v')
    && (s[1] == 'B' || s[1] == 'b')
    && (forall i :: 2 <= i < 10 ==> IsHex(s[i]))
    && (forall i :: 11 <= i < 19 ==> IsHex(s[i]))
    && s[10] == '-'
  }

  /** The VirtualBox form, written from its parts. */
  ghost predicate VBoxPattern(s: string) {
    exists v: char, b: char, x: string, y: string :: VBoxParts(s, v, b, x, y)
  }

  /** `s` is V, B, eight hex digits, a hyphen and eight hex digits. */
  predicate VBoxParts(s: string, v: char, b: char, x: string, y: string) {
    && (v == 'V' || v == 'v') && (b == 'B' || b == 'b')
    && |x| == 8 && |y| == 8 && AllHex(x) && AllHex(y)
    && s == [v, b] + x + "-" + y
  }

  /** A serial the test accepts has the VirtualBox form. */
  lemma AcceptedSerialHasParts(s: string)
    requires IsVBoxSerial(s)
    ensures VBoxParts(s, s[0], s[1], s[2..10], s[11..19])
  {
    assert s == [s[0], s[1]] + s[2..10] + "-" + s[11..19];
  }

  /** Every serial of the VirtualBox form is accepted. */
  lemma PartsAccepted(s: string, v: char, b: char, x: string, y: string)
    requires VBoxParts(s, v, b, x, y)
    ensures IsVBoxSerial(s)
  {
    forall i | 2 <= i < 10 ensures IsHex(s[i]) {
      assert s[i] == x[i - 2];
    }
    forall i | 11 <= i < 19 ensures IsHex(s[i]) {
      assert s[i] == y[i - 11];
    }
  }

  /** The test accepts exactly the VirtualBox form. */
  lemma VBoxSerialIff(s: string)
    ensures IsVBoxSerial(s) <==> VBoxPattern(s)
  {
    if IsVBoxSerial(s) {
      AcceptedSerialHasParts(s);
    }
    if VBoxPattern(s) {
      var v: char, b: char, x: string, y: string :| VBoxParts(s, v, b, x, y);
      PartsAccepted(s, v, b, x, y);
    }
  }

  /** The upper-casing of the copy: only a-z change. */
  function Upper(c: char): (u: char)
    ensures 'a' <= c <= 'z' ==> 'A' <= u <= 'Z' && u as int == c as int - 32
    ensures !('a' <= c <= 'z') ==> u == c
  {
    if 'a' <= c <= 'z' then (c as int - 32) as char else c
  }

  /** The copy buffer holds 256 bytes, the last one kept for the terminator. */
  const COPY_LIMIT: nat := 255

  /** The upper-casing copy: at most 255 characters, each upper-cased. */
  function UpperCopy(serial: string): (u: string)
    ensures |u| == if |serial| <= COPY_LIMIT then |serial| else COPY_LIMIT
    ensures forall i :: 0 <= i < |u| ==> u[i] == Upper(serial[i])
  {
    var n := if |serial| <= COPY_LIMIT then |serial| else COPY_LIMIT;
    seq(n, i requires 0 <= i < n => Upper(serial[i]))
  }

  /** Copying twice changes nothing more: the copy is already upper case and short enough. */
  lemma UpperCopyIdempotent(serial: string)
    ensures UpperCopy(UpperCopy(serial)) == UpperCopy(serial)
  {
  }

  /**
   * The test on the copy agrees with the test on the serial itself: the
   * copy of a 19-character serial has the same length, and upper-casing
   * keeps hex digits, the hyphen, V and B. Longer serials are never taken.
   */
  lemma UpperCopyKeepsVerdict(serial: string)
    ensures IsVBoxSerial(UpperCopy(serial)) <==> IsVBoxSerial(serial)
  {
    var u := UpperCopy(serial);
    if |serial| == 19 {
      forall i | 0 <= i < 19 ensures IsHex(u[i]) <==> IsHex(serial[i]) {
      }
    }
  }

  /** The text at the start of a buffer, up to its first NUL (strnlen bounded by the buffer). */
  function CString(buf: string): (s: string)
    ensures s <= buf
    ensures forall i :: 0 <= i < |s| ==> s[i] != '\0'
    ensures |s| < |buf| ==> buf[|s|] == '\0'
  {
    if |buf| == 0 || buf[0] == '\0' then ""
    else [buf[0]] + CString(buf[1..])
  }

  /** A storage device descriptor: its bytes and the offset of the serial number in them. */
  datatype Descriptor = Descriptor(bytes: string, serialOffset: nat)

  /** The serial a descriptor carries, upper-cased, when its offset lies inside the descriptor. */
  function DriveSerial(d: Descriptor): (r: Option<string>)
    ensures r.Some? <==> 0 < d.serialOffset < |d.bytes|
  {
    if 0 < d.serialOffset < |d.bytes| then Some(UpperCopy(CString(d.bytes[d.serialOffset..])))
    else None
  }

  /** A drive whose serial is VirtualBox's. */
  predicate IsVBoxDrive(drive: Option<Descriptor>) {
    && drive.Some?
    && DriveSerial(drive.value).Some?
    && IsVBoxSerial(DriveSerial(drive.value).value)
  }

  /** At most this many physical drives are queried. */
  const MAX_PHYSICAL_DRIVES: nat := 4

  /**
   * The probe over the drives from `i` on: the first drive (of the first
   * four) whose query succeeded and whose serial is VirtualBox's credits
   * VirtualBox once. A drive that could not be opened or queried is None.
   */
  function DiskSerialFrom(drives: seq<Option<Descriptor>>, i: nat): (o: ProbeOutcome)
    ensures o == NOT_FOUND || o == Detected(VBox)
    decreases MAX_PHYSICAL_DRIVES - i
  {
    if i >= MAX_PHYSICAL_DRIVES || i >= |drives| then NOT_FOUND
    else if IsVBoxDrive(drives[i]) then Detected(VBox)
    else DiskSerialFrom(drives, i + 1)
  }

  function DiskSerialNumber(drives: seq<Option<Descriptor>>): ProbeOutcome {
    DiskSerialFrom(drives, 0)
  }

  /** The probe fires exactly when one of the first four drives carries a VirtualBox serial. */
  lemma {:induction false} DiskSerialFromIff(drives: seq<Option<Descriptor>>, i: nat)
    ensures DiskSerialFrom(drives, i).result
        <==> exists j :: i <= j < MAX_PHYSICAL_DRIVES && j < |drives| && IsVBoxDrive(drives[j])
    decreases MAX_PHYSICAL_DRIVES - i
  {
    if i < MAX_PHYSICAL_DRIVES && i < |drives| && !IsVBoxDrive(drives[i]) {
      DiskSerialFromIff(drives, i + 1);
      assert forall j :: i <= j < MAX_PHYSICAL_DRIVES && j < |drives| && IsVBoxDrive(drives[j]) ==> i + 1 <= j;
    }
  }

  /** A drive's verdict does not depend on the case of its serial, and a serial past 255 bytes never matches. */
  lemma DriveVerdict(d: Descriptor)
    requires 0 < d.serialOffset < |d.bytes|
    ensures IsVBoxDrive(Some(d)) <==> IsVBoxSerial(CString(d.bytes[d.serialOffset..]))
  {
    UpperCopyKeepsVerdict(CString(d.bytes[d.serialOffset..]));
  }

  /** The text before a NUL that ends it. */
  lemma {:induction false} CStringBeforeNul(s: string, rest: string)
    requires forall i :: 0 <= i < |s| ==> s[i] != '\0'
    ensures CString(s + "\0" + rest) == s
    decreases |s|
  {
    if |s| > 0 {
      assert (s + "\0" + rest)[1..] == s[1..] + "\0" + rest;
      CStringBeforeNul(s[1..], rest);
    }
  }

  /** A lower-case VirtualBox serial is still recognised after the upper-casing copy. */
  lemma LowerCaseSerialFound()
    ensures IsVBoxSerial(UpperCopy("vb0123abcd-89ef4567"))
  {
    var serial := "vb0123abcd-89ef4567";
    assert VBoxParts(serial, 'v', 'b', "0123abcd", "89ef4567");
    PartsAccepted(serial, 'v', 'b', "0123abcd", "89ef4567");
    UpperCopyKeepsVerdict(serial);
  }

  /** The probe fires on the first drive that carries a VirtualBox serial, after drives that failed. */
  lemma FoundAfterFailedDrives(d: Descriptor)
    requires IsVBoxDrive(Some(d))
    ensures DiskSerialNumber([None, None, Some(d)]) == Detected(VBox)
  {
  }
}
