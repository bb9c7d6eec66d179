/** Registration of an endpoint, as functions: how `addSslMonitor` derives the
    url, uri, key and sub of a record, the DNS fallback it runs when no record
    type is given, `checkSSLCertificateExpiry`, and the per-item accounting of a
    batch. URL parsing, the public-suffix lookup, the resolvers and the
    certificate fetch come in as the fields of an `Env`. */
module Registration {
  import opened Wrappers
  import opened Strings
  import opened MonitorRecords
  import opened CertMatcher
  import opened DnsFallback

  /** What URL parsing yields: the hostname and the port string, which is ""
      when the URL names the scheme's default port. */
  datatype ParsedUrl = ParsedUrl(hostname: string, port: string)

  /** The surroundings of the core. `parseUrl` is `new URL(...)` (`None` when it
      throws), `publicSuffix` is `psl.get`, the three lookups are the DNS
      resolvers, `fetchCertificate(probeHost, port)` is the TLS handshake
      (`Failure` with the reason when it errors, times out or gets no
      certificate), and `now` is `Date.now()`. */
  datatype Env = Env(
    parseUrl: string -> Option<ParsedUrl>,
    publicSuffix: string -> string,
    resolveA: Lookup,
    resolveCname: Lookup,
    resolveAaaa: Lookup,
    fetchCertificate: (string, string) -> Result<Certificate, string>,
    now: int)

  /** The endpoint descriptor: a bare uri, or an object whose absent fields are "". */
  datatype EndpointInput =
    | UriString(text: string)
    | UriObject(uri: string, recordType: string, address: string, domain: string,
                remark: string, cloud: string, accountKey: string)

  datatype MonitorError =
    | InvalidInput
    | UrlParseFailed(url: string)
    | DnsFailed(dnsError: DnsError)
    | FetchFailed(reason: string)
    | CertRejected(certError: CertError)

  /** `typeof obj === "string" ? {uri: obj} : obj`. */
  function AsObject(input: EndpointInput): (obj: EndpointInput)
    ensures obj.UriObject? && obj.uri == InputUri(input)
  {
    match input
    case UriString(text) => UriObject(text, "", "", "", "", "", "")
    case UriObject(_, _, _, _, _, _, _) => input
  }

  /** The uri a batch reports for an input: the string itself or the object's `uri`. */
  function InputUri(input: EndpointInput): string {
    match input
    case UriString(text) => text
    case UriObject(uri, _, _, _, _, _, _) => uri
  }

  /** A uri without a scheme gets `https://` in front. */
  function TargetUrl(uri: string): (url: string)
    ensures Contains(uri, "://") ==> url == uri
    ensures !Contains(uri, "://") ==> url == "https://" + uri
    ensures url != ""
  {
    if Contains(uri, "://") then uri
    else
      assert ("https://" + uri)[0] == 'h';
      "https://" + uri
  }

  /** The stored uri: the hostname alone for the default port, `hostname:port` otherwise. */
  function MonitorUri(p: ParsedUrl): string {
    if p.port == "" then p.hostname else p.hostname + ":" + p.port
  }

  /** The port the handshake uses: 443 unless the URL names another. */
  function ConnectPort(port: string): string {
    if port == "" then "443" else port
  }

  /** The subdomain label: "@" for the apex, else the hostname with its first `.domain` removed. */
  function SubOf(hostname: string, domain: string): string {
    if hostname == domain then "@" else ReplaceFirst(hostname, "." + domain, "")
  }

  /** What registration has worked out before the certificate check: the URL it
      checks, the storage key, and the record it will store. */
  datatype Plan = Plan(url: string, key: string, data: MonitorRecord)

  /** `addSslMonitor` up to the certificate check. With no record type given the
      DNS fallback runs on the uri, and its failure ends the registration. */
  function PlanRegistration(input: EndpointInput, env: Env): Result<Plan, MonitorError> {
    var obj := AsObject(input);
    var url := TargetUrl(obj.uri);
    match env.parseUrl(url)
    case None => Failure(UrlParseFailed(url))
    case Some(p) =>
      var uri := MonitorUri(p);
      var domain := if obj.domain != "" then obj.domain else env.publicSuffix(p.hostname);
      var key := MonitorKey(domain, uri);
      var sub := SubOf(p.hostname, domain);
      var data := MonitorRecord(domain, obj.recordType, obj.remark, uri, sub, obj.address,
                                false, 0, obj.cloud, obj.accountKey, None);
      if obj.recordType != "" then Success(Plan(url, key, data))
      else match GetDnsRecord(uri, env.resolveA, env.resolveCname, env.resolveAaaa)
        case Failure(e) => Failure(DnsFailed(e))
        case Success(dns) => Success(Plan(url, key, data.(recordType := dns.recordType, address := dns.address)))
  }

  /** The fields registration derives. The key is built from the domain and uri
      it stores; the uri carries the port only when one is given; the sub is "@"
      exactly for the apex (hostnames never hold an '@'); the record starts with
      no expiry, no wildcard flag and no silence window. */
  lemma PlanFields(input: EndpointInput, env: Env)
    requires PlanRegistration(input, env).Success?
    ensures var plan := PlanRegistration(input, env).value;
      var url := TargetUrl(InputUri(input));
      && plan.url == url
      && env.parseUrl(url).Some?
      && var p := env.parseUrl(url).value;
      && plan.key == MonitorKey(plan.data.domain, plan.data.uri)
      && plan.data.uri == MonitorUri(p)
      && (plan.data.uri == p.hostname <==> p.port == "")
      && ('@' !in p.hostname ==> (plan.data.sub == "@" <==> p.hostname == plan.data.domain))
      && plan.data.expireTime == 0 && !plan.data.isWildcard && plan.data.silenceTime.None?
      && (plan.data.domain == if AsObject(input).domain != "" then AsObject(input).domain
                              else env.publicSuffix(p.hostname))
  {
    var p := env.parseUrl(TargetUrl(InputUri(input))).value;
    var plan := PlanRegistration(input, env).value;
    if '@' !in p.hostname && p.hostname != plan.data.domain && plan.data.sub == "@" {
      assert '@' in plan.data.sub;
      ReplaceFirstChars(p.hostname, "." + plan.data.domain, "", '@');
    }
  }

  /** Below the apex the sub is the hostname with its first `.domain` cut out;
      the type and address are the caller's when a type is given, and otherwise
      those the DNS fallback found for the stored uri; remark, cloud and account
      are copied from the caller. */
  lemma PlanRecordSource(input: EndpointInput, env: Env)
    requires PlanRegistration(input, env).Success?
    ensures var plan := PlanRegistration(input, env).value;
      var obj := AsObject(input);
      && env.parseUrl(TargetUrl(obj.uri)).Some?
      && var p := env.parseUrl(TargetUrl(obj.uri)).value;
      && (p.hostname != plan.data.domain ==> plan.data.sub == ReplaceFirst(p.hostname, "." + plan.data.domain, ""))
      && plan.data.remark == obj.remark && plan.data.cloud == obj.cloud && plan.data.accountKey == obj.accountKey
      && (obj.recordType != "" ==> plan.data.recordType == obj.recordType && plan.data.address == obj.address)
      && (obj.recordType == "" ==>
            var dns := GetDnsRecord(plan.data.uri, env.resolveA, env.resolveCname, env.resolveAaaa);
            dns.Success? && plan.data.recordType == dns.value.recordType && plan.data.address == dns.value.address)
  {
  }

  /** With no type given, a DNS fallback that finds nothing ends the registration
      with that failure, before any certificate check. */
  lemma PlanDnsFailure(input: EndpointInput, env: Env)
    requires AsObject(input).recordType == ""
    requires env.parseUrl(TargetUrl(InputUri(input))).Some?
    ensures var uri := MonitorUri(env.parseUrl(TargetUrl(InputUri(input))).value);
      var dns := GetDnsRecord(uri, env.resolveA, env.resolveCname, env.resolveAaaa);
      dns.Failure? ==> PlanRegistration(input, env) == Failure(DnsFailed(dns.error))
  {
  }

  /** A hostname one label below its domain has that label as its sub. */
  lemma SubOfOneLabel(head: string, domain: string)
    requires '.' !in head
    ensures SubOf(head + "." + domain, domain) == head
  {
    assert head + "." + domain == head + ("." + domain);
    assert |head + "." + domain| != |domain|;
    ReplaceFirstAtEnd(head, "." + domain, "");
  }

  /** `www.example.com` under `example.com` has sub `www`. */
  lemma SubOfExample()
    ensures SubOf("www.example.com", "example.com") == "www"
    ensures SubOf("example.com", "example.com") == "@"
  {
    assert "www.example.com" == "www" + "." + "example.com";
    SubOfOneLabel("www", "example.com");
  }

  /** `checkSSLCertificateExpiry`: the handshake goes to the normalised hostname
      and the port (443 by default), while coverage is judged on the hostname
      as given. */
  function ExpiryCheck(inputUrl: string, env: Env): Result<CertCheck, MonitorError> {
    if inputUrl == "" then Failure(InvalidInput)
    else match env.parseUrl(inputUrl)
      case None => Failure(UrlParseFailed(inputUrl))
      case Some(p) =>
        match env.fetchCertificate(NormalizeHostname(p.hostname), ConnectPort(p.port))
        case Failure(reason) => Failure(FetchFailed(reason))
        case Success(cert) =>
          match CheckCertificate(cert, p.hostname, env.now)
          case Failure(e) => Failure(CertRejected(e))
          case Success(c) => Success(c)
  }

  /** A passed check reports the expiry of the certificate the handshake
      returned for the normalised hostname and its port, and that certificate
      has not expired. The empty url and an unparsable one are refused before
      any handshake. */
  lemma ExpiryCheckAccepts(inputUrl: string, env: Env)
    ensures inputUrl == "" ==> ExpiryCheck(inputUrl, env) == Failure(InvalidInput)
    ensures inputUrl != "" && env.parseUrl(inputUrl).None? ==> ExpiryCheck(inputUrl, env) == Failure(UrlParseFailed(inputUrl))
    ensures ExpiryCheck(inputUrl, env).Success? ==>
      && env.parseUrl(inputUrl).Some?
      && var p := env.parseUrl(inputUrl).value;
      && var fetched := env.fetchCertificate(NormalizeHostname(p.hostname), ConnectPort(p.port));
      && fetched.Success?
      && ExpiryCheck(inputUrl, env).value.timestamp == fetched.value.validTo
      && env.now <= fetched.value.validTo
  {
    if ExpiryCheck(inputUrl, env).Success? {
      var p := env.parseUrl(inputUrl).value;
      var fetched := env.fetchCertificate(NormalizeHostname(p.hostname), ConnectPort(p.port));
      CheckCertificateExpiry(fetched.value, p.hostname, env.now);
    }
  }

  method CheckSslCertificateExpiry(inputUrl: string, env: Env) returns (r: Result<CertCheck, MonitorError>)
    ensures r == ExpiryCheck(inputUrl, env)
  {
    if inputUrl == "" {
      return Failure(InvalidInput);
    }
    var parsed := env.parseUrl(inputUrl);
    if parsed.None? {
      return Failure(UrlParseFailed(inputUrl));
    }
    var hostname := parsed.value.hostname;
    var port := ConnectPort(parsed.value.port);
    var fetched := env.fetchCertificate(NormalizeHostname(hostname), port);
    if fetched.Failure? {
      return Failure(FetchFailed(fetched.error));
    }
    var analysed := AnalyzeCertificate(fetched.value, hostname, env.now);
    if analysed.Failure? {
      return Failure(CertRejected(analysed.error));
    }
    return Success(analysed.value);
  }

  /** Monitoring a wildcard name `*.<suffix>`: the handshake goes to
      `domainhelper.<suffix>` on port 443, and a certificate for `*.<suffix>`
      then covers the literal name by exact match, so the record is not flagged
      as a wildcard match. */
  lemma WildcardEndpointMatchesExactly(url: string, suffix: string, env: Env, t: int)
    requires ',' !in suffix && suffix != [] && !IsWhitespace(suffix[|suffix| - 1])
    requires url != "" && env.parseUrl(url) == Some(ParsedUrl("*." + suffix, ""))
    requires env.fetchCertificate(ProbeLabel + suffix, "443") == Success(Certificate(t, "DNS:" + ("*." + suffix)))
    requires env.now <= t
    ensures ExpiryCheck(url, env) == Success(CertCheck(t, false))
  {
    NormalizeWildcardName(suffix);
    SingleWildcardCertificate(t, env.now, suffix, "*." + suffix);
  }

  /** A stored record carries the fetched expiry and wildcard flag. */
  function Registered(plan: Plan, check: CertCheck): (r: MonitorRecord)
    ensures r.expireTime == check.timestamp && r.isWildcard == check.isWildcard
    ensures r.(expireTime := plan.data.expireTime, isWildcard := plan.data.isWildcard) == plan.data
  {
    plan.data.(isWildcard := check.isWildcard, expireTime := check.timestamp)
  }

  /** The stored record as `addSslMonitor` hands it back when re-checking. */
  function RecordAsInput(r: MonitorRecord): (input: EndpointInput)
    ensures InputUri(input) == r.uri
  {
    UriObject(r.uri, r.recordType, r.address, r.domain, r.remark, r.cloud, r.accountKey)
  }

  /** The key `updateOneDomainMonitor` looks up for a (possibly port-carrying) name. */
  function UpdateKey(name: string, env: Env): string {
    MonitorKey(env.publicSuffix(WithoutPort(name)), name)
  }

  /** Refreshing by the stored uri finds the record a bare-uri registration
      created, as long as the root domain came from the public-suffix lookup. */
  lemma UpdateKeyFindsRegistration(text: string, env: Env)
    requires PlanRegistration(UriString(text), env).Success?
    requires ':' !in env.parseUrl(TargetUrl(text)).value.hostname
    ensures var plan := PlanRegistration(UriString(text), env).value;
      UpdateKey(plan.data.uri, env) == plan.key
  {
    var p := env.parseUrl(TargetUrl(text)).value;
    if p.port != "" {
      WithoutPortOfHostPort(p.hostname, p.port);
    }
  }

  /** One entry of a batch's error list. */
  datatype ErrorUrl = ErrorUrl(uri: string, error: MonitorError)

  datatype BatchSummary = BatchSummary(successCount: nat, errorCount: nat, errorUrls: seq<ErrorUrl>)

  /** The failed inputs of a batch, in input order, with the uri each was given as. */
  function FailedItems<T>(inputs: seq<EndpointInput>, outcomes: seq<Result<T, MonitorError>>): seq<ErrorUrl>
    requires |inputs| == |outcomes|
  {
    if inputs == [] then []
    else
      var n := |inputs| - 1;
      FailedItems(inputs[..n], outcomes[..n])
        + (if outcomes[n].Failure? then [ErrorUrl(InputUri(inputs[n]), outcomes[n].error)] else [])
  }

  /** The `forEach` over the settled results of `batchAddSslMonitor`. */
  method SummarizeBatch<T>(inputs: seq<EndpointInput>, outcomes: seq<Result<T, MonitorError>>)
    returns (summary: BatchSummary)
    requires |inputs| == |outcomes|
    ensures summary.errorUrls == FailedItems(inputs, outcomes)
    ensures summary.errorCount == |summary.errorUrls|
    ensures summary.successCount + summary.errorCount == |inputs|
  {
    var successCount, errorCount := 0, 0;
    var errorUrls: seq<ErrorUrl> := [];
    for i := 0 to |inputs|
      invariant errorUrls == FailedItems(inputs[..i], outcomes[..i])
      invariant errorCount == |errorUrls|
      invariant successCount + errorCount == i
    {
      assert inputs[..i + 1][..i] == inputs[..i];
      assert outcomes[..i + 1][..i] == outcomes[..i];
      var uri := InputUri(inputs[i]);
      if outcomes[i].Failure? {
        errorCount := errorCount + 1;
        errorUrls := errorUrls + [ErrorUrl(uri, outcomes[i].error)];
      } else {
        successCount := successCount + 1;
      }
    }
    assert inputs[..|inputs|] == inputs;
    assert outcomes[..|outcomes|] == outcomes;
    summary := BatchSummary(successCount, errorCount, errorUrls);
  }

  /** An error entry stands for exactly one failed input, reported under that input's uri. */
  lemma {:induction false} FailedItemsMember<T>(inputs: seq<EndpointInput>, outcomes: seq<Result<T, MonitorError>>, x: ErrorUrl)
    requires |inputs| == |outcomes|
    ensures x in FailedItems(inputs, outcomes) <==>
      exists i | 0 <= i < |inputs| :: outcomes[i].Failure? && x == ErrorUrl(InputUri(inputs[i]), outcomes[i].error)
  {
    if inputs != [] {
      var n := |inputs| - 1;
      FailedItemsMember(inputs[..n], outcomes[..n], x);
      if exists i | 0 <= i < |inputs| :: outcomes[i].Failure? && x == ErrorUrl(InputUri(inputs[i]), outcomes[i].error) {
        var i :| 0 <= i < |inputs| && outcomes[i].Failure? && x == ErrorUrl(InputUri(inputs[i]), outcomes[i].error);
        if i < n {
          assert inputs[..n][i] == inputs[i] && outcomes[..n][i] == outcomes[i];
        }
      }
    }
  }

  /** The error list is empty exactly when every input was registered. */
  lemma {:induction false} FailedItemsEmpty<T>(inputs: seq<EndpointInput>, outcomes: seq<Result<T, MonitorError>>)
    requires |inputs| == |outcomes|
    ensures FailedItems(inputs, outcomes) == [] <==> forall i | 0 <= i < |outcomes| :: outcomes[i].Success?
  {
    if inputs != [] {
      var n := |inputs| - 1;
      FailedItemsEmpty(inputs[..n], outcomes[..n]);
      assert forall i | 0 <= i < n :: outcomes[..n][i] == outcomes[i];
    }
  }
}
