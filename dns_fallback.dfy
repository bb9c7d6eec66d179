/** The DNS fallback resolver: A, then CNAME, then AAAA, for the hostname
    without its port. Each lookup is given as a function from the name to its
    answer: `None` when the lookup throws, otherwise the records it returned. */
module DnsFallback {
  import opened Wrappers
  import opened Strings

  type Lookup = string -> Option<seq<string>>

  datatype DnsRecord = DnsRecord(recordType: string, address: string)

  /** No record of any type was found for `hostname` (already without its port). */
  datatype DnsError = NoDnsRecord(hostname: string)

  /** `hostname.split(':')[0]`. */
  function WithoutPort(hostname: string): (h: string)
    ensures ':' !in h && StartsWith(hostname, h)
    ensures ':' !in hostname ==> h == hostname
  {
    SplitHead(hostname, ':');
    Split(hostname, ':')[0]
  }

  /** The port never reaches the resolver. */
  lemma WithoutPortOfHostPort(hostname: string, port: string)
    requires ':' !in hostname
    ensures WithoutPort(hostname + ":" + port) == hostname
  {
    var withPort := hostname + ":" + port;
    assert withPort[|hostname|] == ':';
    assert withPort[..|hostname|] == hostname;
    assert FirstIndex(withPort, ':') == |hostname|;
  }

  /** A lookup that returned at least one record. */
  predicate Answered(r: Option<seq<string>>) {
    r.Some? && |r.value| > 0
  }

  function GetDnsRecord(hostname: string, resolveA: Lookup, resolveCname: Lookup, resolveAaaa: Lookup)
    : (r: Result<DnsRecord, DnsError>)
    ensures var h := WithoutPort(hostname);
      && (r.Success? && r.value.recordType == "A" <==> Answered(resolveA(h)))
      && (r.Success? && r.value.recordType == "CNAME" <==>
            !Answered(resolveA(h)) && Answered(resolveCname(h)))
      && (r.Success? && r.value.recordType == "AAAA" <==>
            !Answered(resolveA(h)) && !Answered(resolveCname(h)) && Answered(resolveAaaa(h)))
      && (r.Failure? <==>
            !Answered(resolveA(h)) && !Answered(resolveCname(h)) && !Answered(resolveAaaa(h)))
    ensures r.Failure? ==> r.error == NoDnsRecord(WithoutPort(hostname))
    ensures r.Success? ==> r.value.address in Chosen(hostname, r.value.recordType, resolveA, resolveCname, resolveAaaa)
  {
    var h := WithoutPort(hostname);
    var a := resolveA(h);
    if Answered(a) then Success(DnsRecord("A", a.value[0]))
    else
      var c := resolveCname(h);
      if Answered(c) then Success(DnsRecord("CNAME", c.value[0]))
      else
        var aaaa := resolveAaaa(h);
        if Answered(aaaa) then Success(DnsRecord("AAAA", aaaa.value[0]))
        else Failure(NoDnsRecord(h))
  }

  /** The answer list of the lookup for `recordType`. */
  function Chosen(hostname: string, recordType: string, resolveA: Lookup, resolveCname: Lookup, resolveAaaa: Lookup)
    : seq<string>
  {
    var h := WithoutPort(hostname);
    var r := if recordType == "A" then resolveA(h)
      else if recordType == "CNAME" then resolveCname(h)
      else resolveAaaa(h);
    r.GetOr([])
  }

  /** The address is the first record of the chosen type. */
  lemma GetDnsRecordFirstAnswer(hostname: string, resolveA: Lookup, resolveCname: Lookup, resolveAaaa: Lookup)
    ensures var r := GetDnsRecord(hostname, resolveA, resolveCname, resolveAaaa);
      r.Success? ==> r.value.address == Chosen(hostname, r.value.recordType, resolveA, resolveCname, resolveAaaa)[0]
  {
  }

  /** The port never reaches the resolver. */
  lemma GetDnsRecordIgnoresPort(hostname: string, port: string, resolveA: Lookup, resolveCname: Lookup, resolveAaaa: Lookup)
    requires ':' !in hostname
    ensures GetDnsRecord(hostname + ":" + port, resolveA, resolveCname, resolveAaaa)
      == GetDnsRecord(hostname, resolveA, resolveCname, resolveAaaa)
  {
    WithoutPortOfHostPort(hostname, port);
  }
}
