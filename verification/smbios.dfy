/*
 * The SMBIOS decoding of util::sys_info: the walk over the structure table
 * that finds the System Information structure (type 1), the string-set
 * lookup by string number, the retrieval of the raw firmware table, and the
 * strings the sys_info constructor reads.
 *
 * Layout, after section 6.1 of DMTF DSP0134: every structure starts with a
 * four-byte header (type, length of the formatted area, handle), the
 * formatted area follows, then the text-string set: each string ends in a
 * NUL and the set ends in one more NUL, so a structure without strings ends
 * in two NULs. Section 7.2 gives System Information its string numbers at
 * offsets 4 to 7 and, from version 2.4 on, SKU and family at 0x19 and 0x1A.
 *
 * A read beyond the end of the bytes the model is given is undefined
 * behaviour in the source; the model returns Err(PastEnd) for it.
 */
module Smbios {
  import opened Wrappers

  type byte = x: int | 0 <= x < 0x100

  const HEADER_LENGTH: nat := 4
  const SYSTEM_INFORMATION: byte := 0x01
  const SYSTEM_INFORMATION_LENGTH: nat := 0x19

  /** `e` occurs in `t` at position `q`. */
  predicate Holds(t: seq<byte>, q: nat, e: seq<byte>) {
    q + |e| <= |t| && forall i :: 0 <= i < |e| ==> t[q + i] == e[i]
  }

  /** A piece that holds at `q` holds in two parts. */
  lemma HoldsSplit(t: seq<byte>, q: nat, a: seq<byte>, b: seq<byte>)
    requires Holds(t, q, a + b)
    ensures Holds(t, q, a) && Holds(t, q + |a|, b)
  {
    forall i | 0 <= i < |a| ensures t[q + i] == a[i] {
      assert (a + b)[i] == a[i];
    }
    forall i | 0 <= i < |b| ensures t[q + |a| + i] == b[i] {
      assert t[q + (|a| + i)] == (a + b)[|a| + i];
    }
  }

  /** A piece that holds at `q` is the slice there. */
  lemma HoldsSlice(t: seq<byte>, q: nat, e: seq<byte>)
    requires Holds(t, q, e)
    ensures t[q..q + |e|] == e
  {
    forall i | 0 <= i < |e| ensures t[q..q + |e|][i] == e[i] {
      assert t[q..q + |e|][i] == t[q + i];
    }
  }

  /** The byte at a position, or a read past the end. */
  function At(t: seq<byte>, i: nat): (r: Result<byte>)
    ensures r.Ok? <==> i < |t|
    ensures r.Ok? ==> r.value == t[i]
  {
    if i < |t| then Ok(t[i]) else Err(PastEnd)
  }

  // ---------------------------------------------------------------------
  // Text strings

  /** A text string: non-empty, without NUL bytes. */
  predicate IsText(s: seq<byte>) {
    |s| > 0 && forall i :: 0 <= i < |s| ==> s[i] != 0
  }

  predicate AllText(ss: seq<seq<byte>>) {
    forall i :: 0 <= i < |ss| ==> IsText(ss[i])
  }

  /** The text-string set as it follows a formatted area. */
  function EncodeStrings(ss: seq<seq<byte>>): (e: seq<byte>)
    ensures |e| >= 2
    decreases |ss|
  {
    if |ss| == 0 then [0, 0]
    else ss[0] + [0] + (if |ss| == 1 then [0] else EncodeStrings(ss[1..]))
  }

  /** The first NUL at or after `q` (strlen), or a read past the end. */
  function StrEnd(t: seq<byte>, q: nat): (r: Result<nat>)
    ensures r.Ok? ==> q <= r.value < |t| && t[r.value] == 0
    ensures r.Ok? ==> forall j :: q <= j < r.value ==> t[j] != 0
    ensures r.Err? ==> forall j :: q <= j < |t| ==> t[j] != 0
    decreases |t| - q
  {
    if q >= |t| then Err(PastEnd)
    else if t[q] == 0 then Ok(q)
    else StrEnd(t, q + 1)
  }

  /** The NUL-terminated string at `q`. */
  function CStr(t: seq<byte>, q: nat): Result<seq<byte>> {
    match StrEnd(t, q)
    case Ok(e) => Ok(t[q..e])
    case Err(err) => Err(err)
  }

  /** `n` times past the string at the cursor and its NUL. */
  function SkipN(t: seq<byte>, q: nat, n: nat): Result<nat>
    decreases n
  {
    if n == 0 then Ok(q)
    else
      match StrEnd(t, q)
      case Ok(e) => SkipN(t, e + 1, n - 1)
      case Err(err) => Err(err)
  }

  /** The string reached by skipping `n` strings from `q`. */
  function StringAfter(t: seq<byte>, q: nat, n: nat): Result<seq<byte>> {
    match SkipN(t, q, n)
    case Ok(p) => CStr(t, p)
    case Err(err) => Err(err)
  }

  /**
   * get_string_by_index: the null text for string number 0 or an empty set,
   * otherwise the string reached by skipping index - 1 strings.
   */
  function GetStringByIndex(t: seq<byte>, q: nat, index: byte, nullText: seq<byte>): Result<seq<byte>> {
    if index == 0 then Ok(nullText)
    else if q >= |t| then Err(PastEnd)
    else if t[q] == 0 then Ok(nullText)
    else StringAfter(t, q, index - 1)
  }

  /** The string a string number names in a set: nothing for 0. */
  function StringNumber(ss: seq<seq<byte>>, index: nat, nullText: seq<byte>): seq<byte>
    requires index <= |ss|
  {
    if index == 0 then nullText else ss[index - 1]
  }

  /** strlen over a text string followed by its NUL. */
  lemma {:induction false} StrEndText(t: seq<byte>, q: nat, s: seq<byte>)
    requires Holds(t, q, s + [0])
    requires forall i :: 0 <= i < |s| ==> s[i] != 0
    ensures StrEnd(t, q) == Ok(q + |s|)
    decreases |s|
  {
    assert t[q + |s|] == (s + [0])[|s|];
    if |s| > 0 {
      assert t[q + 0] == (s + [0])[0];
      forall i | 0 <= i < |s[1..] + [0]| ensures t[q + 1 + i] == (s[1..] + [0])[i] {
        assert t[q + (1 + i)] == (s + [0])[1 + i];
      }
      StrEndText(t, q + 1, s[1..]);
    }
  }

  /** A non-empty set: its first string with its NUL, then the rest of the set or the final NUL. */
  lemma SetParts(t: seq<byte>, q: nat, ss: seq<seq<byte>>)
    requires |ss| >= 1 && Holds(t, q, EncodeStrings(ss))
    ensures Holds(t, q, ss[0] + [0])
    ensures |ss| == 1 ==> Holds(t, q + |ss[0]| + 1, [0])
    ensures |ss| >= 2 ==> Holds(t, q + |ss[0]| + 1, EncodeStrings(ss[1..]))
  {
    var rest := if |ss| == 1 then [0] else EncodeStrings(ss[1..]);
    HoldsSplit(t, q, ss[0] + [0], rest);
  }

  /** The strings after the first of a set are text strings too. */
  lemma AllTextTail(ss: seq<seq<byte>>)
    requires AllText(ss) && |ss| > 0
    ensures AllText(ss[1..])
  {
    forall i | 0 <= i < |ss| - 1 ensures IsText(ss[1..][i]) {
      assert ss[1..][i] == ss[i + 1];
    }
  }

  /** Skipping k strings of a set reaches the (k+1)-th, which reads back whole. */
  lemma {:induction false} NthString(t: seq<byte>, q: nat, ss: seq<seq<byte>>, k: nat)
    requires AllText(ss) && Holds(t, q, EncodeStrings(ss)) && k < |ss|
    ensures StringAfter(t, q, k) == Ok(ss[k])
    decreases k
  {
    SetParts(t, q, ss);
    StrEndText(t, q, ss[0]);
    if k == 0 {
      HoldsSplit(t, q, ss[0], [0]);
      HoldsSlice(t, q, ss[0]);
    } else {
      AllTextTail(ss);
      NthString(t, q + |ss[0]| + 1, ss[1..], k - 1);
    }
  }

  /** get_string_by_index over an encoded set returns the string the number names. */
  lemma StringByIndex(t: seq<byte>, q: nat, ss: seq<seq<byte>>, index: byte, nullText: seq<byte>)
    requires AllText(ss) && Holds(t, q, EncodeStrings(ss)) && index <= |ss|
    ensures GetStringByIndex(t, q, index, nullText) == Ok(StringNumber(ss, index, nullText))
  {
    if index > 0 {
      SetParts(t, q, ss);
      assert t[q + 0] == (ss[0] + [0])[0];
      NthString(t, q, ss, index - 1);
    }
  }

  /** An empty set reads as the null text for every string number. */
  lemma EmptySetIsNull(t: seq<byte>, q: nat, index: byte, nullText: seq<byte>)
    requires Holds(t, q, EncodeStrings([]))
    ensures GetStringByIndex(t, q, index, nullText) == Ok(nullText)
  {
    assert t[q + 0] == EncodeStrings([])[0];
  }

  // ---------------------------------------------------------------------
  // The structure walk

  /**
   * The skip over a string set: from `q`, forward to the first two NULs in
   * a row and past them, looking at the second byte only when the first is
   * NUL, and stopping as soon as the cursor reaches the end of the table.
   */
  function SkipStrings(t: seq<byte>, end: nat, q: nat): (r: Result<nat>)
    ensures r.Ok? ==> r.value >= q + 2
    decreases end - q
  {
    if q >= end then Ok(q + 2)
    else if q >= |t| then Err(PastEnd)
    else if t[q] != 0 then SkipStrings(t, end, q + 1)
    else if q + 1 >= |t| then Err(PastEnd)
    else if t[q + 1] != 0 then SkipStrings(t, end, q + 1)
    else Ok(q + 2)
  }

  /**
   * find_system_information from offset `p` of a table ending at `end`:
   * nothing at the end or at a header shorter than four bytes; the first
   * type 1 structure whose formatted area reaches offset 0x19; otherwise the
   * next structure, past the formatted area and the string set.
   */
  function WalkFrom(t: seq<byte>, end: nat, p: nat): (r: Result<Option<nat>>)
    ensures r.Ok? && r.value.Some? ==> var s := r.value.value;
      p <= s && s + 1 < |t| && t[s] == SYSTEM_INFORMATION && t[s + 1] >= SYSTEM_INFORMATION_LENGTH
    decreases end - p
  {
    if p >= end then Ok(None)
    else if p + 1 >= |t| then Err(PastEnd)
    else if t[p + 1] < HEADER_LENGTH then Ok(None)
    else if t[p] == SYSTEM_INFORMATION && t[p + 1] >= SYSTEM_INFORMATION_LENGTH then Ok(Some(p))
    else
      match SkipStrings(t, end, p + t[p + 1])
      case Ok(next) => WalkFrom(t, end, next)
      case Err(err) => Err(err)
  }

  function FindSystemInformation(t: seq<byte>, end: nat): Result<Option<nat>> {
    WalkFrom(t, end, 0)
  }

  /** A header shorter than four bytes ends the walk there, whatever follows. */
  lemma ShortHeaderStops(t: seq<byte>, end: nat, p: nat)
    requires p < end && p + 1 < |t| && t[p + 1] < HEADER_LENGTH
    ensures WalkFrom(t, end, p) == Ok(None)
  {
  }

  /** A structure: its type, handle, the formatted area after the header, and its strings. */
  datatype Structure = Structure(kind: byte, handle: nat, formatted: seq<byte>, strings: seq<seq<byte>>)

  predicate WellFormed(st: Structure) {
    st.handle < 0x1_0000 && HEADER_LENGTH + |st.formatted| < 0x100 && AllText(st.strings)
  }

  /** A structure that fits its encoding: a 16-bit handle, a length byte, text strings. */
  type Entry = st: Structure | WellFormed(st) witness Structure(0, 0, [], [])

  /** The length byte of the header: header and formatted area together. */
  function Length(st: Entry): byte
  {
    HEADER_LENGTH + |st.formatted|
  }

  function Header(st: Entry): seq<byte>
  {
    [st.kind, Length(st), st.handle % 0x100, st.handle / 0x100]
  }

  function Encode(st: Entry): (e: seq<byte>)
  {
    Header(st) + st.formatted + EncodeStrings(st.strings)
  }

  function EncodeTable(sts: seq<Entry>): seq<byte>
    decreases |sts|
  {
    if |sts| == 0 then [] else Encode(sts[0]) + EncodeTable(sts[1..])
  }

  predicate IsSystemInformation(st: Entry) {
    st.kind == SYSTEM_INFORMATION && HEADER_LENGTH + |st.formatted| >= SYSTEM_INFORMATION_LENGTH
  }

  /** The offset of the first System Information structure of a table placed at `p`, if any. */
  function FirstSystemInformation(sts: seq<Entry>, p: nat): Option<nat>
    decreases |sts|
  {
    if |sts| == 0 then None
    else if IsSystemInformation(sts[0]) then Some(p)
    else FirstSystemInformation(sts[1..], p + |Encode(sts[0])|)
  }

  /** Skipping non-NUL bytes one at a time. */
  lemma {:induction false} SkipText(t: seq<byte>, end: nat, q: nat, s: seq<byte>)
    requires Holds(t, q, s) && q + |s| <= end
    requires forall i :: 0 <= i < |s| ==> s[i] != 0
    ensures SkipStrings(t, end, q) == SkipStrings(t, end, q + |s|)
    decreases |s|
  {
    if |s| > 0 {
      assert t[q] == s[0];
      assert t[q + 1..q + 1 + |s[1..]|] == s[1..];
      SkipText(t, end, q + 1, s[1..]);
    }
  }

  /** The skip over an encoded string set lands just past it. */
  lemma {:induction false} SkipEncoded(t: seq<byte>, end: nat, q: nat, ss: seq<seq<byte>>)
    requires AllText(ss) && Holds(t, q, EncodeStrings(ss)) && q + |EncodeStrings(ss)| <= end
    ensures SkipStrings(t, end, q) == Ok(q + |EncodeStrings(ss)|)
    decreases |ss|
  {
    if |ss| == 0 {
      assert t[q + 0] == EncodeStrings(ss)[0] && t[q + 1] == EncodeStrings(ss)[1];
    } else {
      var s := ss[0];
      var z := q + |s|;
      SetParts(t, q, ss);
      HoldsSplit(t, q, s, [0]);
      SkipText(t, end, q, s);
      assert t[z + 0] == [0][0];
      if |ss| == 1 {
        assert t[z + 1 + 0] == [0][0];
      } else {
        SetParts(t, z + 1, ss[1..]);
        assert IsText(ss[1]);
        assert t[z + 1 + 0] == (ss[1..][0] + [0])[0];
        AllTextTail(ss);
        SkipEncoded(t, end, z + 1, ss[1..]);
      }
    }
  }

  /** The header bytes of an encoded structure. */
  lemma HeaderBytes(t: seq<byte>, p: nat, st: Entry)
    requires Holds(t, p, Encode(st))
    ensures p + 1 < |t| && t[p] == st.kind && t[p + 1] == Length(st)
    ensures Holds(t, p + Length(st), EncodeStrings(st.strings))
  {
    HoldsSplit(t, p, Header(st) + st.formatted, EncodeStrings(st.strings));
    HoldsSplit(t, p, Header(st), st.formatted);
    assert t[p..p + 4] == Header(st);
  }

  /** One step of the walk over an encoded structure that is not System Information. */
  lemma WalkPastStructure(t: seq<byte>, end: nat, p: nat, st: Entry)
    requires Holds(t, p, Encode(st)) && p + |Encode(st)| <= end
    requires !IsSystemInformation(st)
    ensures WalkFrom(t, end, p) == WalkFrom(t, end, p + |Encode(st)|)
  {
    HeaderBytes(t, p, st);
    SkipEncoded(t, end, p + Length(st), st.strings);
  }

  /**
   * The walk over a table of well-formed structures, placed at `p` and
   * ending the table, finds the first System Information structure, or
   * nothing when there is none.
   */
  lemma {:induction false} WalkEncoded(t: seq<byte>, p: nat, sts: seq<Entry>)
    requires Holds(t, p, EncodeTable(sts))
    ensures WalkFrom(t, p + |EncodeTable(sts)|, p) == Ok(FirstSystemInformation(sts, p))
    decreases |sts|
  {
    if |sts| > 0 {
      var st := sts[0];
      var end := p + |EncodeTable(sts)|;
      HoldsSplit(t, p, Encode(st), EncodeTable(sts[1..]));
      HeaderBytes(t, p, st);
      assert end == p + |Encode(st)| + |EncodeTable(sts[1..])|;
      if !IsSystemInformation(st) {
        WalkPastStructure(t, end, p, st);
        WalkEncoded(t, p + |Encode(st)|, sts[1..]);
        assert FirstSystemInformation(sts, p) == FirstSystemInformation(sts[1..], p + |Encode(st)|);
      }
    }
  }

  /** find_system_information on a whole encoded table. */
  lemma FindInEncodedTable(sts: seq<Entry>)
    ensures FindSystemInformation(EncodeTable(sts), |EncodeTable(sts)|) == Ok(FirstSystemInformation(sts, 0))
  {
    WalkEncoded(EncodeTable(sts), 0, sts);
  }

  // ---------------------------------------------------------------------
  // The firmware table and sys_info

  /**
   * What GetSystemFirmwareTable reports: the size of the raw SMBIOS data
   * (the first call), and the bytes the second call copies.
   */
  datatype Firmware = Firmware(size: nat, copied: seq<byte>)

  /**
   * get_bios_data as written: the buffer pointer starts null and the
   * allocation is guarded by the pointer being non-null, so the guarded
   * branch never runs and the result is always null.
   */
  function GetBiosDataAsWritten(fw: Firmware): (r: Option<seq<byte>>)
    ensures r.None?
  {
    var biosData: Option<seq<byte>> := None;
    if fw.size > 0 && biosData.Some? then
      if |fw.copied| == fw.size then Some(fw.copied) else None
    else biosData
  }

  /** get_bios_data with the guard it evidently intends: the copied table when it is complete. */
  function GetBiosData(fw: Firmware): (r: Option<seq<byte>>)
    ensures r.Some? <==> fw.size > 0 && |fw.copied| == fw.size
    ensures r.Some? ==> r.value == fw.copied
  {
    if fw.size > 0 then
      if |fw.copied| == fw.size then Some(fw.copied) else None
    else None
  }

  /** The strings sys_info fills in (the UUID is left out). */
  datatype SystemStrings = SystemStrings(
    manufacturer: seq<byte>, productName: seq<byte>, version: seq<byte>, serialNumber: seq<byte>,
    sku: seq<byte>, family: seq<byte>)

  const NO_STRINGS := SystemStrings([], [], [], [], [], [])

  /** The raw data: an eight-byte header whose last four bytes give the table length, then the table. */
  const RAW_HEADER_LENGTH: nat := 8

  function TableLength(raw: seq<byte>): nat
    requires |raw| >= RAW_HEADER_LENGTH
  {
    var b4: nat, b5: nat, b6: nat, b7: nat := raw[4], raw[5], raw[6], raw[7];
    b4 + 0x100 * (b5 + 0x100 * (b6 + 0x100 * b7))
  }

  /**
   * The string a field of the structure at `p` names: the string number at
   * `offset`, looked up in the set after the formatted area.
   */
  function FieldString(t: seq<byte>, p: nat, offset: nat): Result<seq<byte>>
    requires p + 1 < |t|
  {
    var index :- At(t, p + offset);
    GetStringByIndex(t, p + t[p + 1], index, [])
  }

  /**
   * The string fields of the System Information structure at `p`: the four
   * string numbers at offsets 4 to 7, and SKU and family (offsets 0x19 and
   * 0x1A) when the formatted area is longer than 0x19 bytes.
   */
  function StringsAt(t: seq<byte>, p: nat): Result<SystemStrings>
    requires p + 1 < |t|
  {
    var manufacturer :- FieldString(t, p, 4);
    var productName :- FieldString(t, p, 5);
    var serialNumber :- FieldString(t, p, 7);
    var version :- FieldString(t, p, 6);
    if t[p + 1] > SYSTEM_INFORMATION_LENGTH then
      var sku :- FieldString(t, p, 0x19);
      var family :- FieldString(t, p, 0x1A);
      Ok(SystemStrings(manufacturer, productName, version, serialNumber, sku, family))
    else
      Ok(SystemStrings(manufacturer, productName, version, serialNumber, [], []))
  }

  /** The sys_info constructor on the data get_bios_data returned. */
  function SysInfo(bios: Option<seq<byte>>): Result<SystemStrings> {
    match bios
    case None => Ok(NO_STRINGS)
    case Some(raw) =>
      if |raw| < RAW_HEADER_LENGTH then Err(PastEnd)
      else
        var t := raw[RAW_HEADER_LENGTH..];
        match FindSystemInformation(t, TableLength(raw))
        case Err(err) => Err(err)
        case Ok(None) => Ok(NO_STRINGS)
        case Ok(Some(p)) => StringsAt(t, p)
  }

  /** As written, sys_info never sees the firmware table: every string stays empty. */
  lemma SysInfoAsWrittenIsEmpty(fw: Firmware)
    ensures SysInfo(GetBiosDataAsWritten(fw)) == Ok(NO_STRINGS)
  {
  }

  /** The string numbers of a System Information structure, each naming a string of its set or none. */
  predicate NumbersInRange(st: Entry)
    requires IsSystemInformation(st)
  {
    && (forall i :: 0 <= i < 4 ==> st.formatted[i] <= |st.strings|)
    && (HEADER_LENGTH + |st.formatted| > SYSTEM_INFORMATION_LENGTH ==>
          |st.formatted| > 0x16 && st.formatted[0x15] <= |st.strings| && st.formatted[0x16] <= |st.strings|)
  }

  /** The strings a System Information structure names. */
  function NamedStrings(st: Entry): SystemStrings
    requires IsSystemInformation(st) && NumbersInRange(st)
  {
    var f, ss := st.formatted, st.strings;
    var long := HEADER_LENGTH + |f| > SYSTEM_INFORMATION_LENGTH;
    SystemStrings(
      StringNumber(ss, f[0], []), StringNumber(ss, f[1], []), StringNumber(ss, f[2], []), StringNumber(ss, f[3], []),
      if long then StringNumber(ss, f[0x15], []) else [],
      if long then StringNumber(ss, f[0x16], []) else [])
  }

  /** The formatted bytes of an encoded structure, by offset from its start. */
  lemma FormattedByte(t: seq<byte>, p: nat, st: Entry, i: nat)
    requires Holds(t, p, Encode(st)) && i < |st.formatted|
    ensures p + HEADER_LENGTH + i < |t| && t[p + HEADER_LENGTH + i] == st.formatted[i]
  {
    HoldsSplit(t, p, Header(st) + st.formatted, EncodeStrings(st.strings));
    HoldsSplit(t, p, Header(st), st.formatted);
    assert t[p + 4..p + 4 + |st.formatted|][i] == st.formatted[i];
  }

  /** A string field of an encoded structure reads the string its number names. */
  lemma FieldOfStructure(t: seq<byte>, p: nat, st: Entry, i: nat)
    requires Holds(t, p, Encode(st))
    requires i < |st.formatted| && st.formatted[i] <= |st.strings|
    ensures p + 1 < |t| && FieldString(t, p, HEADER_LENGTH + i) == Ok(StringNumber(st.strings, st.formatted[i], []))
  {
    HeaderBytes(t, p, st);
    FormattedByte(t, p, st, i);
    StringByIndex(t, p + Length(st), st.strings, st.formatted[i], []);
  }

  /** StringsAt on an encoded System Information structure reads the strings it names. */
  lemma StringsOfStructure(t: seq<byte>, p: nat, st: Entry)
    requires Holds(t, p, Encode(st))
    requires IsSystemInformation(st) && NumbersInRange(st)
    ensures p + 1 < |t| && StringsAt(t, p) == Ok(NamedStrings(st))
  {
    HeaderBytes(t, p, st);
    forall i | 0 <= i < |st.formatted| && st.formatted[i] <= |st.strings|
      ensures FieldString(t, p, HEADER_LENGTH + i) == Ok(StringNumber(st.strings, st.formatted[i], []))
    {
      FieldOfStructure(t, p, st, i);
    }
  }

  /** A piece in the middle of a concatenation holds at its offset. */
  lemma HoldsInMiddle(a: seq<byte>, e: seq<byte>, b: seq<byte>)
    ensures Holds(a + e + b, |a|, e)
  {
    forall i | 0 <= i < |e| ensures (a + e + b)[|a| + i] == e[i] {
      assert (a + e + b)[|a| + i] == (a + e)[|a| + i];
    }
  }

  lemma Regroup(a: seq<byte>, b: seq<byte>, c: seq<byte>, d: seq<byte>)
    ensures a + (b + c + d) == (a + b) + c + d
  {
  }

  /** The table cut at structure k: the structures before it, structure k, and the rest. */
  lemma {:induction false} EncodeTableAt(sts: seq<Entry>, k: nat)
    requires k < |sts|
    ensures EncodeTable(sts) == EncodeTable(sts[..k]) + Encode(sts[k]) + EncodeTable(sts[k + 1..])
    decreases k
  {
    if k == 0 {
      assert sts[1..] == sts[k + 1..];
    } else {
      var rest := sts[1..];
      EncodeTableAt(rest, k - 1);
      assert rest[..k - 1] == sts[..k][1..];
      assert rest[k - 1 + 1..] == sts[k + 1..];
      assert rest[k - 1] == sts[k];
      var before, mid, after := EncodeTable(rest[..k - 1]), Encode(sts[k]), EncodeTable(sts[k + 1..]);
      assert EncodeTable(sts[..k]) == Encode(sts[0]) + before;
      Regroup(Encode(sts[0]), before, mid, after);
    }
  }

  /** When structure k is the first System Information structure, the walk answers with its offset. */
  lemma {:induction false} FirstAt(sts: seq<Entry>, p: nat, k: nat)
    requires k < |sts| && IsSystemInformation(sts[k])
    requires forall j :: 0 <= j < k ==> !IsSystemInformation(sts[j])
    ensures FirstSystemInformation(sts, p) == Some(p + |EncodeTable(sts[..k])|)
    decreases k
  {
    if k > 0 {
      FirstAt(sts[1..], p + |Encode(sts[0])|, k - 1);
      assert sts[1..][..k - 1] == sts[..k][1..];
    }
  }

  /** A table without a System Information structure gives the walk nothing to find. */
  lemma {:induction false} NoneFirst(sts: seq<Entry>, p: nat)
    requires forall j :: 0 <= j < |sts| ==> !IsSystemInformation(sts[j])
    ensures FirstSystemInformation(sts, p) == None
    decreases |sts|
  {
    if |sts| > 0 {
      NoneFirst(sts[1..], p + |Encode(sts[0])|);
    }
  }

  /** Raw data whose header gives the length of the encoded table that follows it. */
  predicate RawTable(raw: seq<byte>, sts: seq<Entry>) {
    && |raw| >= RAW_HEADER_LENGTH
    && raw[RAW_HEADER_LENGTH..] == EncodeTable(sts)
    && TableLength(raw) == |EncodeTable(sts)|
  }

  /**
   * With the retrieval corrected, sys_info reads the strings the first
   * System Information structure of a complete table names.
   */
  lemma CorrectedReadsNamedStrings(fw: Firmware, sts: seq<Entry>, k: nat)
    requires fw.size > 0 && |fw.copied| == fw.size && RawTable(fw.copied, sts)
    requires k < |sts| && IsSystemInformation(sts[k]) && NumbersInRange(sts[k])
    requires forall j :: 0 <= j < k ==> !IsSystemInformation(sts[j])
    ensures SysInfo(GetBiosData(fw)) == Ok(NamedStrings(sts[k]))
  {
    var t := fw.copied[RAW_HEADER_LENGTH..];
    FindInEncodedTable(sts);
    FirstAt(sts, 0, k);
    EncodeTableAt(sts, k);
    HoldsInMiddle(EncodeTable(sts[..k]), Encode(sts[k]), EncodeTable(sts[k + 1..]));
    StringsOfStructure(t, |EncodeTable(sts[..k])|, sts[k]);
  }

  /** With the retrieval corrected, a complete table without System Information leaves every string empty. */
  lemma CorrectedWithoutSystemInformation(fw: Firmware, sts: seq<Entry>)
    requires fw.size > 0 && |fw.copied| == fw.size && RawTable(fw.copied, sts)
    requires forall j :: 0 <= j < |sts| ==> !IsSystemInformation(sts[j])
    ensures SysInfo(GetBiosData(fw)) == Ok(NO_STRINGS)
  {
    FindInEncodedTable(sts);
    NoneFirst(sts, 0);
  }
}
