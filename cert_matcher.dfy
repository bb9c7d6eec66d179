/** The certificate matcher: turns a peer certificate into its list of
    subject-alternative names, rejects an expired certificate, and decides
    whether a hostname is covered, exactly or through a wildcard entry. */
module CertMatcher {
  import opened Wrappers
  import opened Strings

  /** The label a wildcard hostname's leading `*.` is swapped for before connecting. */
  const ProbeLabel := "domainhelper."

  /** What the matcher reads of a peer certificate: `valid_to` as epoch
      milliseconds and the raw `subjectaltname` string ("" when absent). */
  datatype Certificate = Certificate(validTo: int, subjectAltName: string)

  /** The successful outcome: the expiry timestamp and whether a wildcard entry matched. */
  datatype CertCheck = CertCheck(timestamp: int, isWildcard: bool)

  datatype CertError =
    | Expired
    | NotCovered(altNames: seq<string>, hostname: string)

  /** The probe name used for the TLS handshake: a hostname holding a `*` has
      its first `*.` replaced by `domainhelper.`; any other hostname is kept. */
  function NormalizeHostname(hostname: string): string {
    if '*' in hostname then ReplaceFirst(hostname, "*.", ProbeLabel) else hostname
  }

  lemma NormalizeHostnameSpec(hostname: string)
    ensures '*' !in hostname ==> NormalizeHostname(hostname) == hostname
    ensures !Contains(hostname, "*.") ==> NormalizeHostname(hostname) == hostname
    ensures StartsWith(hostname, "*.") ==>
      NormalizeHostname(hostname) == ProbeLabel + hostname[2..]
    ensures Contains(hostname, "*.") ==>
      exists i: nat :: OccursAt(hostname, "*.", i)
        && (forall j: nat | j < i :: !OccursAt(hostname, "*.", j))
        && NormalizeHostname(hostname) == hostname[..i] + ProbeLabel + hostname[i + 2..]
  {
    if Contains(hostname, "*.") {
      NormalizeAtFirst(hostname);
    }
    if StartsWith(hostname, "*.") {
      assert OccursAt(hostname, "*.", 0);
      assert hostname[0] == '*';
      assert IndexOf(hostname, "*.") == Some(0);
    }
  }

  /** The replaced `*.` is the one `indexOf` finds. */
  lemma NormalizeAtFirst(hostname: string)
    requires Contains(hostname, "*.")
    ensures var i := IndexOf(hostname, "*.").value;
      && OccursAt(hostname, "*.", i)
      && (forall j: nat | j < i :: !OccursAt(hostname, "*.", j))
      && NormalizeHostname(hostname) == hostname[..i] + ProbeLabel + hostname[i + 2..]
  {
    var i := IndexOf(hostname, "*.").value;
    assert hostname[i..i + 2][0] == hostname[i];
  }

  /** A `*.` inside the name is replaced too. */
  lemma NormalizeInnerWildcard()
    ensures NormalizeHostname("a.*.b.com") == "a.domainhelper.b.com"
  {
    var h := "a.*.b.com";
    assert h[2..4] == "*.";
    assert IndexOfFrom(h, "*.", 2) == Some(2);
    assert h[1..3][0] == '.';
    assert IndexOfFrom(h, "*.", 1) == Some(2);
    assert h[0..2][0] == 'a';
    assert IndexOf(h, "*.") == Some(2);
    assert h[2] == '*';
    assert h[..2] + ProbeLabel + h[4..] == "a.domainhelper.b.com";
  }

  /** Only the first `*.` is replaced; a second one is kept. */
  lemma NormalizeKeepsSecondWildcard()
    ensures NormalizeHostname("*.a.*.b.com") == "domainhelper.a.*.b.com"
  {
    var w := "*.a.*.b.com";
    assert w[0..2] == "*.";
    assert IndexOf(w, "*.") == Some(0);
    assert w[0] == '*';
    assert w[..0] + ProbeLabel + w[2..] == "domainhelper.a.*.b.com";
  }

  /** A wildcard name `*.<suffix>` is probed as `domainhelper.<suffix>`. */
  lemma NormalizeWildcardName(suffix: string)
    ensures NormalizeHostname("*." + suffix) == ProbeLabel + suffix
  {
    var w := "*." + suffix;
    assert w[..2] == "*.";
    NormalizeHostnameSpec(w);
    assert w[2..] == suffix;
  }

  /** One SAN item as the source cleans it: trimmed, then its first `DNS:` removed. */
  function CleanAltName(item: string): string {
    ReplaceFirst(Trim(item), "DNS:", "")
  }

  /** The SAN list: the comma-separated items of `subjectaltname`, each cleaned. */
  function AltNames(subjectAltName: string): (names: seq<string>)
    ensures |names| == |Split(subjectAltName, ',')|
    ensures forall i | 0 <= i < |names| :: names[i] == CleanAltName(Split(subjectAltName, ',')[i])
  {
    var items := Split(subjectAltName, ',');
    seq(|items|, i requires 0 <= i < |items| => CleanAltName(items[i]))
  }

  /** Every SAN name is free of commas, so the list never merges or splits entries. */
  lemma AltNamesHaveNoComma(subjectAltName: string, i: nat)
    requires i < |AltNames(subjectAltName)|
    ensures ',' !in AltNames(subjectAltName)[i]
  {
    var item := Split(subjectAltName, ',')[i];
    var t := Trim(item);
    TrimIsSlice(item);
    assert ',' !in t;
    if ',' in CleanAltName(item) {
      ReplaceFirstChars(t, "DNS:", "", ',');
    }
  }

  /** The source's wildcard test for one SAN name: it holds a `*`, and the
      hostname ends with what is left after removing its first `*.`. */
  predicate WildcardCovers(altName: string, hostname: string) {
    '*' in altName && EndsWith(hostname, ReplaceFirst(altName, "*.", ""))
  }

  /** Some SAN name covers `hostname` by the wildcard test. */
  predicate SomeWildcardCovers(altNames: seq<string>, hostname: string) {
    exists i | 0 <= i < |altNames| :: WildcardCovers(altNames[i], hostname)
  }

  /** The verdict on a certificate for the original (not normalised) hostname at time `now`. */
  function CheckCertificate(cert: Certificate, hostname: string, now: int): Result<CertCheck, CertError> {
    var altNames := AltNames(cert.subjectAltName);
    if cert.validTo < now then Failure(Expired)
    else if hostname in altNames then Success(CertCheck(cert.validTo, false))
    else if SomeWildcardCovers(altNames, hostname) then Success(CertCheck(cert.validTo, true))
    else Failure(NotCovered(altNames, hostname))
  }

  /** `analyzeCertificate`: the exact-match test first, then a scan of the SAN
      names that stops at the first covering wildcard. */
  method AnalyzeCertificate(cert: Certificate, hostname: string, now: int)
    returns (res: Result<CertCheck, CertError>)
    ensures res == CheckCertificate(cert, hostname, now)
  {
    if cert.validTo < now {
      return Failure(Expired);
    }
    var altNames := AltNames(cert.subjectAltName);
    var result := CertCheck(cert.validTo, false);
    if hostname in altNames {
      return Success(result);
    }
    var found := ScanWildcards(altNames, hostname);
    if found {
      result := result.(isWildcard := true);
      return Success(result);
    }
    return Failure(NotCovered(altNames, hostname));
  }

  /** The `for ... of` loop over the SAN names, returning at the first covering wildcard. */
  method ScanWildcards(altNames: seq<string>, hostname: string) returns (found: bool)
    ensures found == SomeWildcardCovers(altNames, hostname)
  {
    for i := 0 to |altNames|
      invariant forall j | 0 <= j < i :: !WildcardCovers(altNames[j], hostname)
    {
      var altName := altNames[i];
      if '*' in altName {
        var domainPattern := ReplaceFirst(altName, "*.", "");
        if EndsWith(hostname, domainPattern) {
          assert WildcardCovers(altNames[i], hostname);
          return true;
        }
      }
    }
    return false;
  }

  /** The certificate is refused as expired exactly when it expired strictly before
      `now`; an accepted certificate reports its own expiry timestamp. */
  lemma CheckCertificateExpiry(cert: Certificate, hostname: string, now: int)
    ensures CheckCertificate(cert, hostname, now) == Failure(Expired) <==> cert.validTo < now
    ensures CheckCertificate(cert, hostname, now).Success? ==>
      now <= cert.validTo && CheckCertificate(cert, hostname, now).value.timestamp == cert.validTo
  {
  }

  /** Coverage: an exact SAN entry wins and is not a wildcard match; otherwise a
      wildcard entry gives a wildcard match; otherwise the hostname is not covered. */
  lemma CheckCertificateCoverage(cert: Certificate, hostname: string, now: int)
    requires now <= cert.validTo
    ensures var r := CheckCertificate(cert, hostname, now);
      var altNames := AltNames(cert.subjectAltName);
      && (r.Success? && !r.value.isWildcard <==> hostname in altNames)
      && (r.Success? && r.value.isWildcard <==>
            hostname !in altNames && SomeWildcardCovers(altNames, hostname))
      && (r.Failure? <==> hostname !in altNames && !SomeWildcardCovers(altNames, hostname))
      && (r.Failure? ==> r.error == NotCovered(altNames, hostname))
  {
  }

  /** A SAN string holding one `DNS:` entry and no padding gives that one name. */
  lemma AltNamesSingle(san: string)
    requires ',' !in san && StartsWith(san, "DNS:")
    requires !IsWhitespace(san[0]) && !IsWhitespace(san[|san| - 1])
    ensures AltNames(san) == [san[4..]]
  {
    assert Split(san, ',') == [san];
    TrimUnchanged(san);
    ReplaceFirstAtStart(san, "DNS:", "");
    assert CleanAltName(san) == san[4..];
    var names := AltNames(san);
    assert |names| == 1;
    assert names[0] == CleanAltName(Split(san, ',')[0]);
  }

  /** A SAN string `DNS:<name>` gives the single name `<name>` when the name
      holds no comma and does not end in whitespace. */
  lemma AltNamesDns(name: string)
    requires ',' !in name && name != [] && !IsWhitespace(name[|name| - 1])
    ensures AltNames("DNS:" + name) == [name]
  {
    var san := "DNS:" + name;
    assert san[..4] == "DNS:";
    assert san[0] == 'D';
    assert san[|san| - 1] == name[|name| - 1];
    AltNamesSingle(san);
    assert san[4..] == name;
  }

  /** The wildcard test on `*.<suffix>` is exactly the suffix test on `<suffix>`. */
  lemma WildcardNameCovers(suffix: string, hostname: string)
    ensures WildcardCovers("*." + suffix, hostname) <==> EndsWith(hostname, suffix)
  {
    var w := "*." + suffix;
    assert w[..2] == "*.";
    assert w[0] == '*';
    ReplaceFirstAtStart(w, "*.", "");
    assert w[2..] == suffix;
  }

  /** The verdict against a certificate with a single SAN name. */
  lemma CheckSingleName(cert: Certificate, hostname: string, now: int, name: string)
    requires now <= cert.validTo && AltNames(cert.subjectAltName) == [name]
    ensures CheckCertificate(cert, hostname, now) ==
      if hostname == name then Success(CertCheck(cert.validTo, false))
      else if WildcardCovers(name, hostname) then Success(CertCheck(cert.validTo, true))
      else Failure(NotCovered([name], hostname))
  {
    assert SomeWildcardCovers([name], hostname) <==> WildcardCovers(name, hostname) by {
      assert [name][0] == name;
    }
  }

  /** A certificate whose only SAN is `*.<suffix>`: the literal pattern is an
      exact match, every other hostname ending in `<suffix>` a wildcard match,
      and any other hostname is not covered. */
  lemma SingleWildcardCertificate(t: int, now: int, suffix: string, hostname: string)
    requires now <= t
    requires ',' !in suffix && suffix != [] && !IsWhitespace(suffix[|suffix| - 1])
    ensures var r := CheckCertificate(Certificate(t, "DNS:" + ("*." + suffix)), hostname, now);
      && (hostname == "*." + suffix ==> r == Success(CertCheck(t, false)))
      && (hostname != "*." + suffix && EndsWith(hostname, suffix) ==> r == Success(CertCheck(t, true)))
      && (!EndsWith(hostname, suffix) ==> r == Failure(NotCovered(["*." + suffix], hostname)))
  {
    var w := "*." + suffix;
    assert w[|w| - 1] == suffix[|suffix| - 1];
    AltNamesDns(w);
    WildcardNameCovers(suffix, hostname);
    CheckSingleName(Certificate(t, "DNS:" + w), hostname, now, w);
  }

  /** The wildcard test is a plain suffix test: `*.<suffix>` accepts the apex
      `<suffix>` itself and any `<prefix><suffix>`, such as `badexample.com`
      against `*.example.com`, as wildcard matches. */
  lemma WildcardAcceptsApexAndLookalike(t: int, now: int, suffix: string, prefix: string)
    requires now <= t
    requires ',' !in suffix && suffix != [] && !IsWhitespace(suffix[|suffix| - 1])
    requires prefix != "*."
    ensures CheckCertificate(Certificate(t, "DNS:" + ("*." + suffix)), suffix, now)
      == Success(CertCheck(t, true))
    ensures CheckCertificate(Certificate(t, "DNS:" + ("*." + suffix)), prefix + suffix, now)
      == Success(CertCheck(t, true))
  {
    assert suffix[|suffix| - |suffix|..] == suffix;
    SingleWildcardCertificate(t, now, suffix, suffix);
    var h := prefix + suffix;
    assert h[|h| - |suffix|..] == suffix;
    SingleWildcardCertificate(t, now, suffix, h);
  }
}
