/*
 * The hostname test of the HYPERV_HOSTNAME probe: Azure names its Hyper-V
 * guests "fv-az" followed by digits, a hyphen and more digits. The
 * hostname is an input of the model.
 */
module Hostname {
  import opened Wrappers
  import opened Brands

  predicate IsDigit(c: char) {
    '0' <= c <= '9'
  }

  predicate AllDigits(s: string) {
    forall i :: 0 <= i < |s| ==> IsDigit(s[i])
  }

  const AZURE_PREFIX := "fv-az"

  /** std::string::find('-', from): the first hyphen at or after `from`, if any. */
  function FindHyphen(s: string, from: nat): (r: Option<nat>)
    ensures r.Some? ==> from <= r.value < |s| && s[r.value] == '-'
    ensures r.Some? ==> forall j :: from <= j < r.value ==> s[j] != '-'
    ensures r.None? ==> forall j :: from <= j < |s| ==> s[j] != '-'
    decreases |s| - from
  {
    if from >= |s| then None
    else if s[from] == '-' then Some(from)
    else FindHyphen(s, from + 1)
  }

  /**
   * hyperv_hostname's test: at least eight characters, the "fv-az" prefix,
   * a first hyphen after it that is neither directly after the prefix nor
   * the last character, and digits on both sides of that hyphen.
   */
  function IsAzureHostname(h: string): bool {
    if |h| < 8 then false
    else if h[..5] != AZURE_PREFIX then false
    else
      match FindHyphen(h, 5)
      case None => false
      case Some(p) =>
        if p <= 5 || p >= |h| - 1 then false
        else AllDigits(h[5..p]) && AllDigits(h[p + 1..])
  }

  /** The names Azure gives: the prefix, digits, a hyphen and digits, with both digit runs non-empty. */
  ghost predicate AzurePattern(h: string) {
    exists a, b :: |a| > 0 && |b| > 0 && AllDigits(a) && AllDigits(b) && h == AZURE_PREFIX + a + "-" + b
  }

  /** A hostname the test accepts has the Azure form. */
  lemma AcceptedHasPattern(h: string)
    requires IsAzureHostname(h)
    ensures AzurePattern(h)
  {
    var p := FindHyphen(h, 5).value;
    var a, b := h[5..p], h[p + 1..];
    assert h == h[..5] + a + "-" + b;
  }

  /** Every hostname of the Azure form is accepted; the length test never decides on its own. */
  lemma PatternAccepted(h: string, a: string, b: string)
    requires |a| > 0 && |b| > 0 && AllDigits(a) && AllDigits(b) && h == AZURE_PREFIX + a + "-" + b
    ensures |h| >= 8
    ensures IsAzureHostname(h)
  {
    var p := 5 + |a|;
    assert h[..5] == AZURE_PREFIX;
    assert h[p] == '-';
    forall j | 5 <= j < p ensures h[j] != '-' {
      assert h[j] == a[j - 5];
    }
    assert FindHyphen(h, 5) == Some(p);
    assert h[5..p] == a;
    assert h[p + 1..] == b;
  }

  /** The test accepts exactly the Azure form. */
  lemma AzureHostnameIff(h: string)
    ensures IsAzureHostname(h) <==> AzurePattern(h)
  {
    if IsAzureHostname(h) {
      AcceptedHasPattern(h);
    }
    if AzurePattern(h) {
      var a, b :| |a| > 0 && |b| > 0 && AllDigits(a) && AllDigits(b) && h == AZURE_PREFIX + a + "-" + b;
      PatternAccepted(h, a, b);
    }
  }

  /** The probe: Azure's Hyper-V is credited once when the hostname matches. */
  function HyperVHostname(h: string): (o: ProbeOutcome)
    ensures o.result <==> IsAzureHostname(h)
    ensures o.result ==> o.credits == [AzureHyperV]
    ensures !o.result ==> o.credits == []
  {
    if IsAzureHostname(h) then Detected(AzureHyperV) else NOT_FOUND
  }

  /** The shortest Azure name is accepted, and a name with an empty digit run is not. */
  lemma HostnameExamples()
    ensures IsAzureHostname("fv-az0-0")
    ensures !IsAzureHostname("fv-az-12")
    ensures !IsAzureHostname("fv-az12-")
  {
    PatternAccepted("fv-az0-0", "0", "0");
    assert FindHyphen("fv-az-12", 5) == Some(5);
    assert FindHyphen("fv-az12-", 5) == Some(7);
  }
}
