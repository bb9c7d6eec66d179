# SSL certificate monitor and DNSPod request shaping, in Dafny

This project models the core of a desktop domain-management helper:

- **The SSL-certificate expiry monitor.** It registers an endpoint, resolving a DNS
  record for it when none is given. It checks the endpoint's certificate (not expired,
  covering the hostname exactly or by a wildcard) and keeps one record per endpoint in
  a key/value store under `sslmonitor/{domain}/{uri}`. A monitor pass takes the stored
  records (only the one under the key, when a non-empty key is given), skips those still
  inside their silence window, and classifies each remaining one by the whole days left before expiry (more than 30, 30 to 11, 10 to 6, 5 or
  fewer). It notifies for the last three tiers. It silences NOTICE records for 7 days
  and WARNING records for 3 days, and builds one digest for the whole pass.
- **The request/response shaping of the Tencent Cloud DNSPod service.** This covers the
  `CreateRecord`, `ModifyRecord` and `ModifyRecordStatus` payloads; the record list, the
  domain list joined with registration expiry dates, and the two line lists.

The modules follow the source:

- `Strings`: the JavaScript string built-ins the code relies on, with the semantics
  they have for the arguments the core passes them:
  - `replace` with a string pattern swaps the first occurrence only;
  - `split` on one character;
  - `join`;
  - `trim` over the ECMAScript white space set;
  - `includes`, `startsWith`, `endsWith`;
  - decimal printing of an integer.
- `MonitorRecords`: the stored record and its key.
- `CertMatcher`: `normalizeHostname` and `analyzeCertificate`.
- `DnsFallback`: `getDnsRecord`.
- `ExpiryClassifier`: the tiers, the silence filters and the notify list of `monitorSSL`.
  It also builds the digest title and its plain text.
- `Registration`:
  - the fields `addSslMonitor` derives (url, uri, key, sub);
  - `checkSSLCertificateExpiry`;
  - the refresh key of `updateOneDomainMonitor`;
  - the per-item accounting of `batchAddSslMonitor`.
- `Listing`: `getAllSslMonitor`'s prefix scan and sort.
- `SslMonitor`: the store as the class `MonitorStore`, whose `records` map the
  operations update in place. The operations are:
  - `addSslMonitor`;
  - `getAllSslMonitor`;
  - `monitorSSL`;
  - `updateOneDomainMonitor`;
  - `batchAddSslMonitor`.
- `TencentDns`: the payload builders and response shaping of `TencentDnsService`.

`new URL`, `psl.get`, the three DNS resolvers, the TLS handshake and `Date.now()` are
fields of the `Registration.Env` value that every registration receives. URL parsing
yields the hostname and the WHATWG port string, which is empty for the scheme's default
port. `port === 443` in the source compares that string with a number. The uri is
therefore the bare hostname exactly when the port string is empty, and the handshake
uses port 443 in that case.

Two behaviours of the code differ from what a reader of its comments would expect, and
the model follows the code:

- A wildcard SAN `*.example.com` is tested with a plain `endsWith` on `example.com`. So it
  also accepts the apex `example.com` and the look-alike `badexample.com`, which a
  wildcard certificate does not cover. `CertMatcher.WildcardAcceptsApexAndLookalike`
  states this.
- A critical record (5 days or fewer) is not silenced by the pass, but one still inside
  a silence window set by an earlier, milder tier is skipped like any other silenced
  record: criticality does not bypass the window. `ExpiryClassifier.SilencedRecordSkipped`
  states this.

Two further behaviours follow from the code as written and are easy to miss:

- The listing prefix for a domain has no trailing slash. So the listing for `example.co`
  also holds the records of `example.com`, as `Listing.DomainListingTakesLookalike` states.
- A refresh (`isEdit`) whose certificate check fails deletes the record, like any failed
  registration (`SslMonitor.AddFailureLeavesNoRecord`).

## Model

| member | source | states |
|---|---|---|
| Strings.ContainsIff | src/utils/sslMonitor.js:128 | `includes` holds exactly when the pattern occurs at some index |
| Strings.ReplaceFirstSpec | src/utils/sslMonitor.js:127-131 | `replace` leaves a string without the pattern alone, and otherwise swaps only the leftmost occurrence, keeping what is before and after it |
| Strings.ReplaceFirstAtStart | src/utils/sslMonitor.js:178 | a pattern at the very start is the occurrence `replace` swaps |
| Strings.ReplaceFirstAtEnd | src/utils/sslMonitor.js:222 | a trailing occurrence is the one swapped when the pattern's first character does not occur before it |
| Strings.ReplaceFirstChars | src/utils/sslMonitor.js:222 | replacing never introduces a character found in neither the input nor the replacement |
| Strings.Split | src/utils/sslMonitor.js:177 | `split` on one character gives at least one piece and no piece contains the separator |
| Strings.JoinSplit | src/utils/sslMonitor.js:510-512 | joining the pieces of a split gives the string back |
| Strings.SplitJoin | src/utils/sslMonitor.js:510-512 | splitting a join of separator-free pieces gives the pieces back |
| Strings.SplitHead | src/utils/sslMonitor.js:51 | the first piece of a split is a prefix of the string without the separator, and the whole string when the separator is absent |
| Strings.TrimIsSlice | src/utils/sslMonitor.js:178 | `trim` returns a contiguous slice of its input and drops only white space before and after it |
| Strings.TrimEdges | src/utils/sslMonitor.js:178 | what `trim` returns neither starts nor ends in white space |
| Strings.TrimUnchanged | src/utils/sslMonitor.js:178 | a string with no white space at either end is its own trim |
| Strings.NatToStringRoundTrip | src/utils/sslMonitor.js:492 | the printed count reads back as the same number |
| Strings.NatToStringInjective | src/utils/sslMonitor.js:492 | different counts print differently |
| MonitorRecords.MonitorKey | src/utils/sslMonitor.js:221 | the key starts with `sslmonitor/{domain}/` and ends with `/{uri}` |
| MonitorRecords.MonitorKeyInjective | src/utils/sslMonitor.js:221 | for domains without `/`, equal keys come from equal domains and uris |
| CertMatcher.NormalizeHostnameSpec | src/utils/sslMonitor.js:127-131 | a hostname without `*`, or without `*.`, is unchanged; one starting with `*.` gets `domainhelper.` in place of that first `*.` only; in general the leftmost `*.`, wherever it stands, is the one replaced |
| CertMatcher.NormalizeWildcardName | src/utils/sslMonitor.js:127-131 | every wildcard name `*.<suffix>` probes as `domainhelper.<suffix>` |
| CertMatcher.NormalizeInnerWildcard | src/utils/sslMonitor.js:127-131 | a `*.` inside the name is replaced too: `a.*.b.com` probes as `a.domainhelper.b.com` |
| CertMatcher.NormalizeKeepsSecondWildcard | src/utils/sslMonitor.js:127-131 | only the first `*.` is replaced: `*.a.*.b.com` probes as `domainhelper.a.*.b.com` |
| CertMatcher.AltNames | src/utils/sslMonitor.js:176-178 | one name per comma-separated piece of the SAN string, each trimmed and with its first `DNS:` removed |
| CertMatcher.AltNamesHaveNoComma | src/utils/sslMonitor.js:176-178 | no SAN name contains a comma |
| CertMatcher.AnalyzeCertificate | src/utils/sslMonitor.js:168-201 | the method returns exactly the outcome the declarative expiry-and-coverage check defines |
| CertMatcher.ScanWildcards | src/utils/sslMonitor.js:191-199 | the loop finds a match exactly when some SAN containing `*`, with its first `*.` removed, ends the hostname |
| CertMatcher.CheckCertificateExpiry | src/utils/sslMonitor.js:169-174 | the certificate is refused as expired exactly when its expiry is strictly before now; an accepted one reports its own expiry |
| CertMatcher.CheckCertificateCoverage | src/utils/sslMonitor.js:185-201 | an exact SAN match wins and is not a wildcard match; otherwise a wildcard match is reported as one; otherwise the hostname is reported as not covered, with the SAN list |
| CertMatcher.AltNamesSingle | src/utils/sslMonitor.js:176-178 | a single trimmed `DNS:` entry yields exactly its name |
| CertMatcher.AltNamesDns | src/utils/sslMonitor.js:176-178 | `DNS:<name>` yields the one name `<name>` when the name has no comma and no trailing white space |
| CertMatcher.WildcardNameCovers | src/utils/sslMonitor.js:191-198 | the wildcard test of `*.<suffix>` holds exactly when the hostname ends with `<suffix>` |
| CertMatcher.CheckSingleName | src/utils/sslMonitor.js:168-201 | against an unexpired certificate with one SAN name: an exact match, else a wildcard match if the wildcard test holds, else not covered with that one name |
| CertMatcher.SingleWildcardCertificate | src/utils/sslMonitor.js:168-201 | an unexpired `*.<suffix>` certificate matches the literal pattern exactly, matches every other hostname ending in `<suffix>` as a wildcard, and covers no other hostname |
| CertMatcher.WildcardAcceptsApexAndLookalike | src/utils/sslMonitor.js:191-198 | the plain `endsWith` test lets `*.<suffix>` cover the apex `<suffix>` and every `<prefix><suffix>`, such as `badexample.com` for `*.example.com`, as wildcard matches |
| DnsFallback.WithoutPort | src/utils/sslMonitor.js:51 | the lookup name has no `:`, is a prefix of the input, and is the input itself when it has no `:` |
| DnsFallback.WithoutPortOfHostPort | src/utils/sslMonitor.js:51 | `host:port` resolves as `host` |
| DnsFallback.GetDnsRecord | src/utils/sslMonitor.js:49-85 | type A exactly when A answers; CNAME exactly when A does not and CNAME does; AAAA exactly when only AAAA does; failure naming the port-less host exactly when none does; the address comes from the chosen answer |
| DnsFallback.GetDnsRecordFirstAnswer | src/utils/sslMonitor.js:51-78 | for every hostname, the address is the first record of the chosen answer |
| DnsFallback.GetDnsRecordIgnoresPort | src/utils/sslMonitor.js:49-51 | for a hostname without `:`, adding a port changes nothing |
| ExpiryClassifier.RemainingDays | src/utils/sslMonitor.js:454 | the floor of the time left in whole days, negative once expired |
| ExpiryClassifier.ClassifyBands | src/utils/sslMonitor.js:455-484 | with the `EXPIRY_THRESHOLDS` constants: CLEAR above 30 days, NOTICE in (10, 30], WARNING in (5, 10], CRITICAL at 5 or fewer |
| ExpiryClassifier.ExpiredIsCritical | src/utils/sslMonitor.js:454-484 | an expired certificate has negative remaining days and is CRITICAL |
| ExpiryClassifier.PassRecordEffect | src/utils/sslMonitor.js:459-484 | the pass changes only `silence_time`: now + 7 days for NOTICE, now + 3 days for WARNING, untouched otherwise |
| ExpiryClassifier.PassRecordSilences | src/utils/sslMonitor.js:444-484 | a considered record changes exactly when its tier silences, and exactly then the same instant's filter skips it |
| ExpiryClassifier.AlertsFor | src/utils/sslMonitor.js:455-484 | at most one alert per record, none exactly for CLEAR; it is titled with the record's uri, its content is `证书剩余{days}天`, and its level is `error` for 5 days or fewer, `warning` for 6 to 10 and `info` otherwise |
| ExpiryClassifier.ByKeyMember | src/utils/sslMonitor.js:437-440 | with a non-empty key, exactly the listed records with that `_id` remain; with no key or the empty one, all do |
| ExpiryClassifier.ActiveOnlyMember | src/utils/sslMonitor.js:444-447 | exactly the records with no, zero or past `silence_time` remain |
| ExpiryClassifier.CandidatesMember | src/utils/sslMonitor.js:435-447 | a record is classified exactly when it is listed, matches the key if a non-empty one is given, and is not silenced |
| ExpiryClassifier.SilencedRecordSkipped | src/utils/sslMonitor.js:444-447 | a record silenced until now or later is not classified, whatever its tier |
| ExpiryClassifier.ByKeyUnique | src/utils/sslMonitor.js:437-440 | in a listing with distinct ids, filtering by a non-empty key that is present leaves exactly that record |
| ExpiryClassifier.ByKeyNone | src/utils/sslMonitor.js:437-440 | filtering by a non-empty key that no record carries leaves nothing |
| ExpiryClassifier.ByKeyEmpty | src/utils/sslMonitor.js:437-440 | the empty key is falsy and filters nothing |
| ExpiryClassifier.ByKeyAppend | src/utils/sslMonitor.js:437-440 | the key filter keeps the listing's order: a concatenation filters as its parts in turn |
| ExpiryClassifier.ActiveOnlyAppend | src/utils/sslMonitor.js:444-447 | the silence filter keeps the listing's order: a concatenation filters as its parts in turn |
| ExpiryClassifier.AlertsAppend | src/utils/sslMonitor.js:450-489 | the notify list follows record order: a pass over two stretches notifies for the first, then the second |
| ExpiryClassifier.AlertsOnePerRecord | src/utils/sslMonitor.js:450-489 | when no record is CLEAR, alert i belongs to record i |
| ExpiryClassifier.AlertsNoneWhenClear | src/utils/sslMonitor.js:455-457 | CLEAR records produce no alerts |
| ExpiryClassifier.ApplyPassAt | src/utils/sslMonitor.js:451-489 | after the pass each stored record is as `PassRecord` makes it if it was considered, and untouched otherwise |
| ExpiryClassifier.ApplyPassKeys | src/utils/sslMonitor.js:466-482 | a pass over stored records keeps exactly the store's keys |
| ExpiryClassifier.PlainTextLines | src/utils/sslMonitor.js:510-512 | one `title: content` line per alert, in order |
| ExpiryClassifier.DigestOf | src/utils/sslMonitor.js:491-492 | a digest exists exactly when the notify list is not empty |
| ExpiryClassifier.DigestTitleCount | src/utils/sslMonitor.js:492 | the title names the first alert and carries the total number of alerts, readable back as a number |
| ExpiryClassifier.PlainTextSplits | src/utils/sslMonitor.js:510-512 | the plain text splits at newlines back into the per-alert lines |
| Registration.AsObject | src/utils/sslMonitor.js:206-208 | a bare uri becomes an object with that uri |
| Registration.TargetUrl | src/utils/sslMonitor.js:211 | a uri with `://` is kept; otherwise `https://` is put in front |
| Registration.PlanFields | src/utils/sslMonitor.js:210-245 | the key is built from the stored domain and uri; the uri carries a port exactly when one is given; sub is `@` exactly for the apex; the domain is the given one or the public suffix lookup's; the record starts with no expiry, wildcard flag or silence |
| Registration.PlanRecordSource | src/utils/sslMonitor.js:210-245 | below the apex, sub is the hostname with its first `.domain` removed; type and address are the caller's when a type is given and otherwise the DNS fallback's for the stored uri; remark, cloud and account are the caller's |
| Registration.PlanDnsFailure | src/utils/sslMonitor.js:224-229 | with no type given, a failed DNS fallback ends the registration with that failure |
| Registration.SubOfOneLabel | src/utils/sslMonitor.js:222 | a hostname one label below the domain has that label as its sub |
| Registration.SubOfExample | src/utils/sslMonitor.js:222 | `www.example.com` under `example.com` has sub `www`; the apex has `@` |
| Registration.ExpiryCheckAccepts | src/utils/sslMonitor.js:88-120 | the empty url and an unparsable one are refused; a passed check reports the expiry of the unexpired certificate fetched for the normalised hostname and its port |
| Registration.CheckSslCertificateExpiry | src/utils/sslMonitor.js:88-120 | the method returns exactly the outcome of the check's definition |
| Registration.WildcardEndpointMatchesExactly | src/utils/sslMonitor.js:103-116 | monitoring `*.<suffix>` probes `domainhelper.<suffix>` on port 443; a `*.<suffix>` certificate found there matches the literal name exactly, so the record is not flagged as a wildcard |
| Registration.Registered | src/utils/sslMonitor.js:246-252 | the stored record takes the fetched expiry and wildcard flag and nothing else changes |
| Registration.RecordAsInput | src/utils/sslMonitor.js:423-425 | a stored record handed back for refresh keeps its uri |
| Registration.UpdateKeyFindsRegistration | src/utils/sslMonitor.js:417-423 | refreshing by the stored uri computes the key under which a bare-uri registration stored it |
| Registration.SummarizeBatch | src/utils/sslMonitor.js:281-307 | the error list is the failed inputs in order, the error count is its length, and the counts add up to the number of inputs |
| Registration.FailedItemsMember | src/utils/sslMonitor.js:283-290 | an error entry stands for exactly one failed input, under the uri it was given as |
| Registration.FailedItemsEmpty | src/utils/sslMonitor.js:283-294 | no errors exactly when every input succeeded |
| Listing.InsertPos | src/utils/sslMonitor.js:322-325 | the insertion point follows every record expiring no earlier |
| Listing.InsertByExpiryMembers | src/utils/sslMonitor.js:322-325 | inserting adds the one entry and nothing else |
| Listing.InsertByExpiryIds | src/utils/sslMonitor.js:322-325 | inserting adds exactly the entry's id |
| Listing.InsertByExpirySorted | src/utils/sslMonitor.js:322-325 | inserting keeps the list in non-increasing expiry order |
| Listing.InsertByExpiryDistinct | src/utils/sslMonitor.js:322-325 | inserting a new id keeps the ids distinct |
| Listing.SortByExpiryFacts | src/utils/sslMonitor.js:322-325 | the sort keeps exactly the entries and ids, keeps ids distinct, and orders by expiry, newest first |
| Listing.IdsCount | src/utils/sslMonitor.js:317-321 | a list with distinct ids has as many ids as entries |
| Listing.FullListingHasAll | src/utils/sslMonitor.js:311-317 | the unfiltered listing holds every stored record |
| Listing.DomainListingHasOwn | src/utils/sslMonitor.js:312-317 | a domain's listing holds every record registered under that domain |
| Listing.DomainListingTakesLookalike | src/utils/sslMonitor.js:312-316 | the prefix without trailing slash makes the `example.co` listing include `example.com` records |
| Listing.ListingsAgree | src/utils/sslMonitor.js:311-326 | two listings of one store under one prefix have the same entries and length |
| SslMonitor.MonitorStore.constructor | src/utils/sslMonitor.js:7-16 | a store whose keys match their records |
| SslMonitor.MonitorStore.GetAllSslMonitor | src/utils/sslMonitor.js:311-326 | each stored record under the prefix exactly once, with its key and stored value, sorted by expiry, newest first |
| SslMonitor.MonitorStore.MonitorSsl | src/utils/sslMonitor.js:430-515 | the new store is the pass over the filtered listing; the alerts are that pass's notify list; the digest is built from them; keys are kept and each record is as the pass makes it if considered, untouched otherwise |
| SslMonitor.MonitorStore.StoreChecked | src/utils/sslMonitor.js:258-268 | a passed registration writes its record under its key, and unless editing the follow-up pass leaves it with its silence window and returns that record's alerts |
| SslMonitor.MonitorStore.AddSslMonitor | src/utils/sslMonitor.js:205-269 | the outcome and new store are those of the registration's definition, and the alerts are those of the follow-up pass for the new key |
| SslMonitor.MonitorStore.UpdateOneDomainMonitor | src/utils/sslMonitor.js:417-427 | nothing changes when no record is stored under the name's key; otherwise the stored record is registered again |
| SslMonitor.MonitorStore.BatchAddSslMonitor | src/utils/sslMonitor.js:272-308 | each input's outcome is its registration's, the store is the inputs registered in order, and the summary counts and lists the failures in input order |
| SslMonitor.MonitorStore.BatchStep | src/utils/sslMonitor.js:273-280 | one round of the batch registers the next input and extends the store by that registration |
| SslMonitor.BatchOutcomes | src/utils/sslMonitor.js:273-280 | one outcome per input, in order, each that input's registration outcome |
| SslMonitor.PassOutcome | src/utils/sslMonitor.js:430-489 | a pass over the candidates of a full listing keeps the keys, keeps every record under its own key, and rewrites exactly the considered records |
| SslMonitor.CandidatesSorted | src/utils/sslMonitor.js:435-447 | the records a pass classifies keep the listing's newest-expiry-first order, so the notify list and the record the digest title names follow it |
| SslMonitor.RegisteredState | src/utils/sslMonitor.js:246-252 | after a passed check the record is written under the key of its own domain and uri, fresh of silence |
| SslMonitor.PlanFailedState | src/utils/sslMonitor.js:210-228 | a failure before the certificate check changes nothing |
| SslMonitor.CheckFailedState | src/utils/sslMonitor.js:253-256 | a failed certificate check deletes the key |
| SslMonitor.FollowUpPass | src/utils/sslMonitor.js:261-268 | the pass a registration triggers rewrites only the record just stored and notifies exactly for it |
| SslMonitor.FollowUpCandidates | src/utils/sslMonitor.js:261-268 | the pass a registration triggers considers exactly the record just stored |
| SslMonitor.AddSuccessFresh | src/utils/sslMonitor.js:230-252 | a registered record has no silence window and the expiry of an unexpired certificate |
| SslMonitor.AddSuccessStores | src/utils/sslMonitor.js:246-268 | a success stores its record under its own key: as is when editing, otherwise as the follow-up pass leaves it |
| SslMonitor.AddFailureLeavesNoRecord | src/utils/sslMonitor.js:253-256 | a registration that fails at the certificate check leaves no record under its key |
| SslMonitor.AddFrame | src/utils/sslMonitor.js:205-269 | a registration touches at most its own key, and nothing when it fails before the check |
| SslMonitor.AddIdempotent | src/utils/sslMonitor.js:205-269 | registering the same input twice at one instant leaves the store as registering it once |
| SslMonitor.AddAlerts | src/utils/sslMonitor.js:258-268 | a registration notifies only after a non-editing success, then exactly when the certificate is within 30 days, with at most one alert |
| SslMonitor.AddKeepsKeysMatch | src/utils/sslMonitor.js:220-252 | every record stays stored under the key of its own domain and uri |
| SslMonitor.RefreshTargetsSameKey | src/utils/sslMonitor.js:417-425 | refreshing a stored record with a domain and a uri that parses back to itself targets its own key |
| SslMonitor.BatchKeepsLastSuccess | src/utils/sslMonitor.js:272-280 | a successful batch input's key is in the final store and holds that input's registered record, as its follow-up pass leaves it, when no later input plans the same key |
| TencentDns.ApplyLineAndMx | src/service/TencentDnsService.js:100-108 | a line id other than `0` replaces the line name; `MX` is present exactly for MX records; every other field is kept |
| TencentDns.RecordFields | src/service/TencentDnsService.js:90-98 | the fields both builders start from: the form's fields, the given line, TTL 600 by default, `RecordId` exactly for an update, no line id and no `MX` |
| TencentDns.AddRecordPayload | src/service/TencentDnsService.js:88-111 | the `CreateRecord` payload carries the form's fields, line `默认` and TTL 600 by default, `RecordLineId` instead of `RecordLine` for a line id other than `0`, `MX` exactly for MX records, no `RecordId` or `Status`, and no field outside the record fields |
| TencentDns.UpdateLine | src/service/TencentDnsService.js:114-122 | the form's line, else the existing record's, else `默认`; it fails only when the form has no line and no record has the id |
| TencentDns.FindRecord | src/service/TencentDnsService.js:114 | no record exactly when no record has the id; a found record has the id |
| TencentDns.FindRecordFirst | src/service/TencentDnsService.js:114 | the record found is the first with the id |
| TencentDns.UpdateRecordPayload | src/service/TencentDnsService.js:113-139 | the `ModifyRecord` payload adds `RecordId` and takes the line from the form, the existing record or the default, under the same line-id and MX rules, and no other field; it fails exactly when that line lookup does |
| TencentDns.RecordPayloadKeys | src/service/TencentDnsService.js:88-139 | a fact about the field names alone: any payload without `Status` holds only record fields. The builders' own `Status !in p` clauses, discharged through it, bound their payloads |
| TencentDns.UpdateKeepsExistingLine | src/service/TencentDnsService.js:114-122 | without a line in the form, the update keeps the existing record's line, or `默认` when it has none |
| TencentDns.StatusPayload | src/service/TencentDnsService.js:228-236 | `Status` is `ENABLE` exactly for a truthy flag and `DISABLE` otherwise |
| TencentDns.ShapeRecord | src/service/TencentDnsService.js:65-79 | `Status` becomes true exactly for `ENABLE`, `RecordLine` is the item's `Line`, and every other field is copied |
| TencentDns.ShapeRecordList | src/service/TencentDnsService.js:63-80 | the count is the reported total, and the list has every record shaped, in order |
| TencentDns.StatusRoundTrip | src/service/TencentDnsService.js:228-236 | a status set by `changeRecordStatus` reads back from the record list shaping (line 73) as the flag it was set for |
| TencentDns.ExpirationOf | src/service/TencentDnsService.js:41-44 | no matching registered name gives an empty expiry |
| TencentDns.ExpirationOfFirst | src/service/TencentDnsService.js:42-43 | the expiry comes from the first registered name that matches |
| TencentDns.DomainViewOf | src/service/TencentDnsService.js:45-50 | a listed domain keeps its name, names the cloud `tencent`, and has a renew link exactly when it has an expiry |
| TencentDns.ListDomains | src/service/TencentDnsService.js:39-51 | never more domains than items |
| TencentDns.ListDomainsMember | src/service/TencentDnsService.js:39-51 | a domain view is listed exactly when some item with `Status` `ENABLE` and empty `DNSStatus` gives it |
| TencentDns.ListDomainsAppend | src/service/TencentDnsService.js:39-51 | the listing keeps item order: a concatenation lists as the listings of its parts in turn |
| TencentDns.ListDomainsOne | src/service/TencentDnsService.js:39-51 | one item lists as its own view when its `Status` is `ENABLE` and its `DNSStatus` empty, and as nothing otherwise |
| TencentDns.ListDomainsLength | src/service/TencentDnsService.js:39-51 | the listing has exactly one view per item passing the filter |
| TencentDns.ListDomainsWithoutNames | src/service/TencentDnsService.js:29-35 | when the name lookup fails, no domain has an expiry or a renew link |
| TencentDns.GetRecordLineList | src/service/TencentDnsService.js:249-284 | the default line `默认` with id `0` first, then every line in order, then every group in order with its lines or none; the count is the list length |
| TencentDns.GetRecordLineCategoryList | src/service/TencentDnsService.js:302-319 | one entry per category, in order, with name, id, usefulness, grade and sub-lines or none; the count is the list length |

## Left out

- The certificate fetch (`getCertificate`: the HTTPS request, its timeouts, `getPeerCertificate`) is network I/O. It is the `fetchCertificate` field of `Env`, which yields a certificate or a failure reason.
- `Date.now()` is the `now` field of `Env`, or a parameter of the pass. A registration and the pass it triggers are modelled at one instant.
- `new URL` and `psl.get` wrap libraries whose code is not part of this model. They are the `parseUrl` and `publicSuffix` fields of `Env`. `psl.get` returning `null` is not modelled.
- The live DNS resolvers are given as functions from a name to an optional answer list.
- The storage backend (`utools.dbStorage`, `utools.db.allDocs`) is a map. Its order of keys is not modelled, so listings fix no order among records of equal expiry. Storage errors and the `try`/`catch` around the per-record writes of the pass are not modelled.
- The `_id` field that the pass writes back inside each record is not modelled. The record is stored under that `_id`.
- Notifications are left out: `addNotification`, `utools.showNotification`, the channel dispatch through `sendNotification`, `window.updateUnreadCount` and the HTML digest markup. The pass returns the notify list and the plain-text digest instead. Its error path is not modelled either: when a channel rejects, `Promise.all` makes `monitorSSL` reject, and so does `addSslMonitor`, after the record is already stored. `batchAddSslMonitor` would then count that input as failed, while the model counts it as registered.
- `SslMonitor.MonitorStore.BatchAddSslMonitor`: the registrations run concurrently in the source (`Promise.allSettled`). The model runs them one after another in input order, so interleavings of their store writes are not captured.
- `SslMonitor.MonitorStore.AddSslMonitor`: with `isEdit` the source first copies the old expiry and wildcard flag into the new record. Both are overwritten when the check passes, and the record is never written when it fails. That copy is therefore not modelled.
- Certificate validity dates are integers in milliseconds. An unparsable date (`NaN`) is not modelled.
- The UI wrapper `batchAddSslMonitorLogic` (ant-design-vue messages and modals) is not modelled.
- `TencentDns.UpdateRecordPayload`: the record list is given as the result of a successful `listRecords` call. A failure of that call, which rejects the update, is not modelled. Record ids are compared as integers.
- The DNSPod transport (`_tencentRest`, `_tencentRestDomain`), the TC3-HMAC-SHA256 signing (`_tencentSignatureV3`, which needs SHA-256/HMAC from `crypto`), `JSON.stringify` and the console logging are not modelled. Payloads are the objects before serialisation, as maps from a datatype of the field names to JSON values. Absent form fields are empty strings or a zero TTL, and the fields that `JSON.stringify` would drop when undefined are not distinguished.
- `Strings.ReplaceFirst`: the `$` patterns of a `replace` replacement string are not interpreted; the core's replacements are the literals `''` and `'domainhelper.'`, which hold no `$`.
- `Strings.NatToString`: prints every natural number in plain decimal, whereas JavaScript switches to exponent notation from 1e21 on; the core only prints day counts and list lengths, far below that.
- `deleteRecord` only forwards its two arguments and is not modelled.
- `listDomains`: the model takes the `DescribeDomainList` items as already fetched. A failure of that call, which the source rethrows, is not modelled.
- `src/service/PushPlatform/SSHPushStrategy.js` is SSH/SFTP I/O and is not part of this model.
