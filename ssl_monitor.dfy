/** The monitor store and the operations that change it: registration
    (`addSslMonitor`), the listing, the monitor pass (`monitorSSL`), the refresh
    of one endpoint (`updateOneDomainMonitor`) and the batch registration. The
    store is a map from key to record, held by a class and updated in place. */
module SslMonitor {
  import opened Wrappers
  import opened Strings
  import opened MonitorRecords
  import opened CertMatcher
  import opened ExpiryClassifier
  import opened Registration
  import opened Listing

  /** Every record is stored under `sslmonitor/{domain}/{uri}` of its own fields. */
  predicate KeysMatch(m: map<string, MonitorRecord>) {
    forall k | k in m :: k == MonitorKey(m[k].domain, m[k].uri)
  }

  /** How a registration ends: the stored record, or why nothing was stored.
      It does not depend on what the store already holds. */
  function AddOutcome(input: EndpointInput, env: Env): Result<MonitorRecord, MonitorError> {
    match PlanRegistration(input, env)
    case Failure(e) => Failure(e)
    case Success(plan) =>
      match ExpiryCheck(plan.url, env)
      case Failure(e) => Failure(e)
      case Success(c) => Success(Registered(plan, c))
  }

  /** The store after a registration. A failure before the certificate check
      leaves it alone; a failed check deletes the key; a passed check writes the
      record, and, unless editing, the follow-up pass for that one key then
      writes its silence window. */
  function StoreAfterAdd(m: map<string, MonitorRecord>, input: EndpointInput, isEdit: bool, env: Env): map<string, MonitorRecord> {
    match PlanRegistration(input, env)
    case Failure(_) => m
    case Success(plan) =>
      match ExpiryCheck(plan.url, env)
      case Failure(_) => m - {plan.key}
      case Success(c) =>
        var rec := Registered(plan, c);
        m[plan.key := if isEdit then rec else PassRecord(rec, env.now)]
  }

  /** The notify list of the follow-up pass of a registration. */
  function AlertsAfterAdd(input: EndpointInput, isEdit: bool, env: Env): seq<Alert> {
    match PlanRegistration(input, env)
    case Failure(_) => []
    case Success(plan) =>
      match ExpiryCheck(plan.url, env)
      case Failure(_) => []
      case Success(c) => if isEdit then [] else AlertsFor(Entry(plan.key, Registered(plan, c)), env.now)
  }

  /** The store after registering the inputs one after another. */
  function StoreAfterBatch(m: map<string, MonitorRecord>, inputs: seq<EndpointInput>, env: Env): map<string, MonitorRecord> {
    if inputs == [] then m
    else StoreAfterAdd(StoreAfterBatch(m, inputs[..|inputs| - 1], env), inputs[|inputs| - 1], false, env)
  }

  class MonitorStore {
    /** `utools.dbStorage`, restricted to the monitor records. */
    var records: map<string, MonitorRecord>

    ghost predicate Valid()
      reads this
    {
      KeysMatch(records)
    }

    constructor(initial: map<string, MonitorRecord>)
      requires KeysMatch(initial)
      ensures Valid() && records == initial
    {
      records := initial;
    }

    /** `getAllSslMonitor`: a prefix scan of the store (in whatever order the
        store yields its keys), each record tagged with its key, then sorted by
        expiry, newest first. */
    method GetAllSslMonitor(domain: string) returns (list: seq<Entry>)
      ensures IsListing(records, ListPrefix(domain), list)
    {
      var prefix := ListPrefix(domain);
      var pending := MatchingKeys(records, prefix);
      var docs: seq<Entry> := [];
      ScanStart(records, prefix);
      while pending != {}
        invariant ScanState(records, prefix, pending, docs)
        decreases |pending|
      {
        var k :| k in pending;
        ScanStep(records, prefix, pending, docs, k);
        docs := docs + [Entry(k, records[k])];
        pending := pending - {k};
      }
      list := SortByExpiry(docs);
      ScanSorted(records, prefix, docs);
    }

    /** `monitorSSL`: list every record, keep the one under `key` when given,
        drop the silenced ones, then notify for each record within 30 days of
        expiry and move the silence window of NOTICE and WARNING records. */
    method MonitorSsl(key: Option<string>, now: int) returns (alerts: seq<Alert>, digest: Option<Digest>, ghost listed: seq<Entry>)
      requires Valid()
      modifies this
      ensures Valid()
      ensures IsListing(old(records), Prefix, listed)
      ensures records == ApplyPass(old(records), Candidates(listed, key, now), now)
      ensures alerts == Alerts(Candidates(listed, key, now), now)
      ensures digest == DigestOf(alerts)
      ensures records.Keys == old(records).Keys
      ensures forall k | k in old(records) ::
        records[k] == if k in Ids(Candidates(listed, key, now)) then PassRecord(old(records)[k], now) else old(records)[k]
    {
      var all := GetAllSslMonitor("");
      listed := all;
      var cands := Candidates(all, key, now);
      alerts := [];
      for i := 0 to |cands|
        invariant records == ApplyPass(old(records), cands[..i], now)
        invariant alerts == Alerts(cands[..i], now)
      {
        PassPrefixStep(old(records), cands, i, now);
        var e := cands[i];
        var days := RemainingDays(e.value.expireTime, now);
        var tier := Classify(days);
        if tier == Clear {
          continue;
        }
        alerts := alerts + [Alert(e.value.uri, AlertContent(days), Level(tier))];
        if tier == Notice {
          records := records[e.id := e.value.(silenceTime := Some(now + NoticeSilence))];
        } else if tier == Warning {
          records := records[e.id := e.value.(silenceTime := Some(now + WarningSilence))];
        }
      }
      assert cands[..|cands|] == cands;
      digest := DigestOf(alerts);
      PassOutcome(old(records), listed, key, now);
    }

    /** `addSslMonitor`: work out the key and record, check the certificate,
        store the record or delete the key, and, unless editing, run the pass
        for that key. */
    method AddSslMonitor(input: EndpointInput, isEdit: bool, env: Env) returns (r: Result<MonitorRecord, MonitorError>, alerts: seq<Alert>)
      requires Valid()
      modifies this
      ensures Valid()
      ensures r == AddOutcome(input, env)
      ensures records == StoreAfterAdd(old(records), input, isEdit, env)
      ensures alerts == AlertsAfterAdd(input, isEdit, env)
    {
      var planned := PlanRegistration(input, env);
      if planned.Failure? {
        PlanFailedState(old(records), input, isEdit, env);
        return Failure(planned.error), [];
      }
      var plan := planned.value;
      var checked := CheckSslCertificateExpiry(plan.url, env);
      if checked.Failure? {
        CheckFailedState(old(records), input, isEdit, env);
        records := records - {plan.key};
        return Failure(checked.error), [];
      }
      var data := Registered(plan, checked.value);
      RegisteredState(old(records), input, isEdit, env);
      alerts := StoreChecked(plan.key, data, isEdit, env.now);
      r := Success(data);
    }

    /** The success path of a registration: write the record, then, unless
        editing, run the pass for its key. */
    method StoreChecked(key: string, data: MonitorRecord, isEdit: bool, now: int) returns (alerts: seq<Alert>)
      requires Valid() && key == MonitorKey(data.domain, data.uri) && data.silenceTime.None?
      modifies this
      ensures Valid()
      ensures records == old(records)[key := if isEdit then data else PassRecord(data, now)]
      ensures alerts == if isEdit then [] else AlertsFor(Entry(key, data), now)
    {
      KeysMatchWrite(records, key, data);
      records := records[key := data];
      if isEdit {
        return [];
      }
      ghost var stored := records;
      var digest;
      ghost var listed;
      alerts, digest, listed := MonitorSsl(Some(key), now);
      FollowUpPass(stored, listed, key, data, now);
      OverwriteTwice(old(records), key, data, PassRecord(data, now));
    }

    /** `updateOneDomainMonitor`: look up the record stored for a name (with or
        without a port) and register it again when there is one. */
    method UpdateOneDomainMonitor(name: string, env: Env) returns (refreshed: Option<Result<MonitorRecord, MonitorError>>, alerts: seq<Alert>)
      requires Valid()
      modifies this
      ensures Valid()
      ensures UpdateKey(name, env) !in old(records) ==> records == old(records) && refreshed.None? && alerts == []
      ensures UpdateKey(name, env) in old(records) ==>
        var input := RecordAsInput(old(records)[UpdateKey(name, env)]);
        && refreshed == Some(AddOutcome(input, env))
        && records == StoreAfterAdd(old(records), input, false, env)
        && alerts == AlertsAfterAdd(input, false, env)
    {
      var key := UpdateKey(name, env);
      if key !in records {
        return None, [];
      }
      var r;
      r, alerts := AddSslMonitor(RecordAsInput(records[key]), false, env);
      refreshed := Some(r);
    }

    /** `batchAddSslMonitor`: register each input, then count and collect the failures. */
    method BatchAddSslMonitor(inputs: seq<EndpointInput>, env: Env) returns (summary: BatchSummary, outcomes: seq<Result<MonitorRecord, MonitorError>>)
      requires Valid()
      modifies this
      ensures Valid()
      ensures |outcomes| == |inputs|
      ensures forall i | 0 <= i < |inputs| :: outcomes[i] == AddOutcome(inputs[i], env)
      ensures records == StoreAfterBatch(old(records), inputs, env)
      ensures summary.errorUrls == FailedItems(inputs, outcomes)
      ensures summary.errorCount == |summary.errorUrls|
      ensures summary.successCount + summary.errorCount == |inputs|
    {
      outcomes := [];
      for i := 0 to |inputs|
        invariant Valid()
        invariant outcomes == BatchOutcomes(inputs[..i], env)
        invariant records == StoreAfterBatch(old(records), inputs[..i], env)
      {
        var r := BatchStep(inputs, i, env, old(records));
        BatchOutcomesStep(inputs, i, env);
        outcomes := outcomes + [r];
      }
      assert inputs[..|inputs|] == inputs;
      summary := SummarizeBatch(inputs, outcomes);
    }

    /** One round of the batch: register the next input. */
    method BatchStep(inputs: seq<EndpointInput>, i: nat, env: Env, ghost start: map<string, MonitorRecord>) returns (r: Result<MonitorRecord, MonitorError>)
      requires Valid() && i < |inputs|
      requires records == StoreAfterBatch(start, inputs[..i], env)
      modifies this
      ensures Valid()
      ensures r == AddOutcome(inputs[i], env)
      ensures records == StoreAfterBatch(start, inputs[..i + 1], env)
    {
      StoreAfterBatchStep(start, inputs, i, env);
      var alerts;
      r, alerts := AddSslMonitor(inputs[i], false, env);
    }
  }

  /** `f` applied to each element of `s`, in order. */
  function MapSeq<A, B>(f: A -> B, s: seq<A>): (r: seq<B>)
    ensures |r| == |s|
    ensures forall j | 0 <= j < |s| :: r[j] == f(s[j])
  {
    if s == [] then [] else MapSeq(f, s[..|s| - 1]) + [f(s[|s| - 1])]
  }

  lemma MapSeqStep<A, B>(f: A -> B, s: seq<A>, i: nat)
    requires i < |s|
    ensures MapSeq(f, s[..i + 1]) == MapSeq(f, s[..i]) + [f(s[i])]
  {
    assert s[..i + 1][..i] == s[..i];
  }

  /** The outcome of each registration of a batch, in input order. */
  function BatchOutcomes(inputs: seq<EndpointInput>, env: Env): (r: seq<Result<MonitorRecord, MonitorError>>)
    ensures |r| == |inputs|
    ensures forall j | 0 <= j < |inputs| :: r[j] == AddOutcome(inputs[j], env)
  {
    MapSeq(input => AddOutcome(input, env), inputs)
  }

  /** One more input of the batch is one more outcome. */
  lemma BatchOutcomesStep(inputs: seq<EndpointInput>, i: nat, env: Env)
    requires i < |inputs|
    ensures BatchOutcomes(inputs[..i + 1], env) == BatchOutcomes(inputs[..i], env) + [AddOutcome(inputs[i], env)]
  {
    MapSeqStep(input => AddOutcome(input, env), inputs, i);
  }

  /** One more input of the batch is one more registration. */
  lemma StoreAfterBatchStep(m: map<string, MonitorRecord>, inputs: seq<EndpointInput>, i: nat, env: Env)
    requires i < |inputs|
    ensures StoreAfterBatch(m, inputs[..i + 1], env) == StoreAfterAdd(StoreAfterBatch(m, inputs[..i], env), inputs[i], false, env)
  {
    assert inputs[..i + 1][..i] == inputs[..i];
  }

  /** An entry expiring no earlier than every entry of a sorted list can head it. */
  lemma SortedCons(x: Entry, rest: seq<Entry>)
    requires SortedByExpiry(rest)
    requires forall e | e in rest :: x.value.expireTime >= e.value.expireTime
    ensures SortedByExpiry([x] + rest)
  {
    var s := [x] + rest;
    forall i, j | 0 <= i < j < |s| ensures s[i].value.expireTime >= s[j].value.expireTime {
      assert s[j] == rest[j - 1];
      if i > 0 {
        assert s[i] == rest[i - 1];
      } else {
        assert rest[j - 1] in rest;
      }
    }
  }

  /** The tail of a sorted list is sorted and expires no later than its head. */
  lemma SortedTail(list: seq<Entry>)
    requires list != [] && SortedByExpiry(list)
    ensures SortedByExpiry(list[1..])
    ensures forall e | e in list[1..] :: list[0].value.expireTime >= e.value.expireTime
  {
    var rest := list[1..];
    forall i, j | 0 <= i < j < |rest| ensures rest[i].value.expireTime >= rest[j].value.expireTime {
      assert rest[i] == list[i + 1] && rest[j] == list[j + 1];
    }
    forall e | e in rest ensures list[0].value.expireTime >= e.value.expireTime {
      var j :| 0 <= j < |rest| && rest[j] == e;
      assert list[j + 1] == e;
    }
  }

  lemma {:induction false} ByKeySorted(list: seq<Entry>, key: Option<string>)
    requires SortedByExpiry(list)
    ensures SortedByExpiry(ByKey(list, key))
  {
    if key.Some? && key.value != "" && list != [] {
      SortedTail(list);
      ByKeySorted(list[1..], key);
      if list[0].id == key.value {
        forall e | e in ByKey(list[1..], key) ensures list[0].value.expireTime >= e.value.expireTime {
          ByKeyMember(list[1..], key, e);
        }
        SortedCons(list[0], ByKey(list[1..], key));
      }
    }
  }

  lemma {:induction false} ActiveOnlySorted(list: seq<Entry>, now: int)
    requires SortedByExpiry(list)
    ensures SortedByExpiry(ActiveOnly(list, now))
  {
    if list != [] {
      SortedTail(list);
      ActiveOnlySorted(list[1..], now);
      if IsActive(list[0].value, now) {
        forall e | e in ActiveOnly(list[1..], now) ensures list[0].value.expireTime >= e.value.expireTime {
          ActiveOnlyMember(list[1..], now, e);
        }
        SortedCons(list[0], ActiveOnly(list[1..], now));
      }
    }
  }

  /** The records a pass classifies come in the listing's order, newest expiry
      first, so the notify list and the record its digest title names follow
      that order too. */
  lemma CandidatesSorted(list: seq<Entry>, key: Option<string>, now: int)
    requires SortedByExpiry(list)
    ensures SortedByExpiry(Candidates(list, key, now))
  {
    ByKeySorted(list, key);
    ActiveOnlySorted(ByKey(list, key), now);
  }

  /** A pass over the candidates of a listing keeps the store's keys, keeps
      every key matching its record, and rewrites exactly the candidates. */
  lemma PassOutcome(m: map<string, MonitorRecord>, listed: seq<Entry>, key: Option<string>, now: int)
    requires KeysMatch(m) && IsListing(m, Prefix, listed)
    ensures var cands := Candidates(listed, key, now);
      var r := ApplyPass(m, cands, now);
      && r.Keys == m.Keys
      && KeysMatch(r)
      && forall k | k in m :: r[k] == if k in Ids(cands) then PassRecord(m[k], now) else m[k]
  {
    var cands := Candidates(listed, key, now);
    var r := ApplyPass(m, cands, now);
    forall i | 0 <= i < |cands| ensures cands[i].id in m && cands[i].value == m[cands[i].id] {
      CandidatesMember(listed, key, now, cands[i]);
    }
    forall k | k in m
      ensures k in r
      ensures r[k] == if k in Ids(cands) then PassRecord(m[k], now) else m[k]
      ensures k == MonitorKey(r[k].domain, r[k].uri)
    {
      ApplyPassAt(m, cands, now, k);
      assert Considered(cands, k) <==> k in Ids(cands);
      PassRecordEffect(m[k], now);
    }
    ApplyPassKeys(m, cands, now);
  }

  /** A second write to the same key replaces the first. */
  lemma OverwriteTwice(m: map<string, MonitorRecord>, key: string, first: MonitorRecord, second: MonitorRecord)
    ensures m[key := first][key := second] == m[key := second]
  {
  }

  lemma KeysMatchWrite(m: map<string, MonitorRecord>, key: string, rec: MonitorRecord)
    requires KeysMatch(m) && key == MonitorKey(rec.domain, rec.uri)
    ensures KeysMatch(m[key := rec])
  {
  }

  /** A registration that fails before the certificate check changes nothing. */
  lemma PlanFailedState(m: map<string, MonitorRecord>, input: EndpointInput, isEdit: bool, env: Env)
    requires PlanRegistration(input, env).Failure?
    ensures AddOutcome(input, env) == Failure(PlanRegistration(input, env).error)
    ensures StoreAfterAdd(m, input, isEdit, env) == m
    ensures AlertsAfterAdd(input, isEdit, env) == []
  {
  }

  /** A registration whose certificate check fails deletes the key. */
  lemma CheckFailedState(m: map<string, MonitorRecord>, input: EndpointInput, isEdit: bool, env: Env)
    requires KeysMatch(m)
    requires PlanRegistration(input, env).Success?
    requires ExpiryCheck(PlanRegistration(input, env).value.url, env).Failure?
    ensures var plan := PlanRegistration(input, env).value;
      && AddOutcome(input, env) == Failure(ExpiryCheck(plan.url, env).error)
      && StoreAfterAdd(m, input, isEdit, env) == m - {plan.key}
      && AlertsAfterAdd(input, isEdit, env) == []
      && KeysMatch(m - {plan.key})
  {
  }

  /** Once the certificate check passes, the new state is the written record,
      and writing it keeps every key matching its record. */
  lemma RegisteredState(m: map<string, MonitorRecord>, input: EndpointInput, isEdit: bool, env: Env)
    requires PlanRegistration(input, env).Success?
    requires ExpiryCheck(PlanRegistration(input, env).value.url, env).Success?
    ensures var plan := PlanRegistration(input, env).value;
      var rec := Registered(plan, ExpiryCheck(plan.url, env).value);
      && AddOutcome(input, env) == Success(rec)
      && StoreAfterAdd(m, input, isEdit, env) == m[plan.key := if isEdit then rec else PassRecord(rec, env.now)]
      && AlertsAfterAdd(input, isEdit, env) == (if isEdit then [] else AlertsFor(Entry(plan.key, rec), env.now))
      && plan.key == MonitorKey(rec.domain, rec.uri)
      && rec.silenceTime.None?
  {
    PlanFields(input, env);
  }

  /** The pass a registration triggers sees exactly the record just stored:
      it is the only one under its key, and a fresh record has no silence. */
  lemma FollowUpPass(m: map<string, MonitorRecord>, listed: seq<Entry>, key: string, rec: MonitorRecord, now: int)
    requires key in m && m[key] == rec && rec.silenceTime.None?
    requires KeysMatch(m)
    requires IsListing(m, Prefix, listed)
    ensures Candidates(listed, Some(key), now) == [Entry(key, rec)]
    ensures ApplyPass(m, Candidates(listed, Some(key), now), now) == m[key := PassRecord(rec, now)]
    ensures Alerts(Candidates(listed, Some(key), now), now) == AlertsFor(Entry(key, rec), now)
  {
    FollowUpCandidates(m, listed, key, rec, now);
    var e := Entry(key, rec);
    assert [e][..0] == [];
    PassRecordEffect(rec, now);
  }

  /** The pass for a freshly stored key considers that one record only. */
  lemma FollowUpCandidates(m: map<string, MonitorRecord>, listed: seq<Entry>, key: string, rec: MonitorRecord, now: int)
    requires key in m && m[key] == rec && rec.silenceTime.None?
    requires KeysMatch(m)
    requires IsListing(m, Prefix, listed)
    ensures Candidates(listed, Some(key), now) == [Entry(key, rec)]
  {
    FullListingHasAll(m, listed);
    assert key in Ids(listed);
    var i :| 0 <= i < |listed| && listed[i].id == key;
    assert listed[i] in listed;
    assert key[..|Prefix|] == Prefix;
    ByKeyUnique(listed, key, i);
    var e := Entry(key, rec);
    assert listed[i] == e;
    assert IsActive(rec, now);
    assert [e][1..] == [];
    assert ActiveOnly([e], now) == [e] + ActiveOnly([], now);
  }

  /** A registered record is fresh: no silence window, and the expiry of a
      certificate that had not expired. */
  lemma AddSuccessFresh(input: EndpointInput, env: Env)
    requires AddOutcome(input, env).Success?
    ensures AddOutcome(input, env).value.silenceTime.None?
    ensures env.now <= AddOutcome(input, env).value.expireTime
  {
    var plan := PlanRegistration(input, env).value;
    PlanFields(input, env);
    ExpiryCheckAccepts(plan.url, env);
  }

  /** A registration that succeeds stores its record under the key of the
      record's own domain and uri: as is when editing, otherwise as the
      follow-up pass leaves it (`PassRecordEffect` says what that pass may change). */
  lemma AddSuccessStores(m: map<string, MonitorRecord>, input: EndpointInput, isEdit: bool, env: Env)
    requires AddOutcome(input, env).Success?
    ensures var rec := AddOutcome(input, env).value;
      var key := MonitorKey(rec.domain, rec.uri);
      var s := StoreAfterAdd(m, input, isEdit, env);
      && key in s
      && s[key] == if isEdit then rec else PassRecord(rec, env.now)
  {
    RegisteredState(m, input, isEdit, env);
  }

  /** A registration that gets as far as the certificate check and fails there
      leaves no record under its key, whatever was stored before. */
  lemma AddFailureLeavesNoRecord(m: map<string, MonitorRecord>, input: EndpointInput, isEdit: bool, env: Env)
    requires PlanRegistration(input, env).Success? && AddOutcome(input, env).Failure?
    ensures PlanRegistration(input, env).value.key !in StoreAfterAdd(m, input, isEdit, env)
  {
  }

  /** A registration touches at most its own key, and nothing at all when it
      fails before the key is known or before the certificate check. */
  lemma AddFrame(m: map<string, MonitorRecord>, input: EndpointInput, isEdit: bool, env: Env)
    ensures PlanRegistration(input, env).Failure? ==> StoreAfterAdd(m, input, isEdit, env) == m
    ensures PlanRegistration(input, env).Success? ==>
      var key := PlanRegistration(input, env).value.key;
      var s := StoreAfterAdd(m, input, isEdit, env);
      forall k | k != key :: (k in s <==> k in m) && (k in m ==> s[k] == m[k])
  {
    match PlanRegistration(input, env)
    case Failure(_) =>
    case Success(plan) =>
      var s := StoreAfterAdd(m, input, isEdit, env);
      match ExpiryCheck(plan.url, env)
      case Failure(_) =>
        assert s == m - {plan.key};
      case Success(c) =>
        var rec := Registered(plan, c);
        assert s == m[plan.key := if isEdit then rec else PassRecord(rec, env.now)];
  }

  /** Registering the same input twice at the same instant leaves the store as
      registering it once does. */
  lemma AddIdempotent(m: map<string, MonitorRecord>, input: EndpointInput, isEdit: bool, env: Env)
    ensures StoreAfterAdd(StoreAfterAdd(m, input, isEdit, env), input, isEdit, env) == StoreAfterAdd(m, input, isEdit, env)
  {
  }

  /** A registration notifies only after a successful, non-editing add, and
      then exactly when the new certificate is within 30 days of expiry. */
  lemma AddAlerts(input: EndpointInput, isEdit: bool, env: Env)
    ensures AlertsAfterAdd(input, isEdit, env) != [] <==>
      !isEdit && AddOutcome(input, env).Success? && TierOf(AddOutcome(input, env).value, env.now) != Clear
    ensures |AlertsAfterAdd(input, isEdit, env)| <= 1
  {
  }

  /** Registration keeps every record under the key of its own domain and uri. */
  lemma AddKeepsKeysMatch(m: map<string, MonitorRecord>, input: EndpointInput, isEdit: bool, env: Env)
    requires KeysMatch(m)
    ensures KeysMatch(StoreAfterAdd(m, input, isEdit, env))
  {
    if PlanRegistration(input, env).Success? {
      PlanFields(input, env);
      var plan := PlanRegistration(input, env).value;
      if ExpiryCheck(plan.url, env).Success? {
        var rec := Registered(plan, ExpiryCheck(plan.url, env).value);
        PassRecordEffect(rec, env.now);
      }
    }
  }

  /** Refreshing a stored record targets the key it is stored under, as long as
      its uri parses back to itself and it names its domain. */
  lemma RefreshTargetsSameKey(m: map<string, MonitorRecord>, k: string, env: Env)
    requires KeysMatch(m) && k in m && m[k].domain != ""
    requires env.parseUrl(TargetUrl(m[k].uri)).Some?
    requires MonitorUri(env.parseUrl(TargetUrl(m[k].uri)).value) == m[k].uri
    requires PlanRegistration(RecordAsInput(m[k]), env).Success?
    ensures PlanRegistration(RecordAsInput(m[k]), env).value.key == k
  {
    PlanFields(RecordAsInput(m[k]), env);
  }

  /** After a batch, each input that succeeded has its record stored under its
      key, as its follow-up pass leaves it, unless a later input of the batch
      registered or deleted the same key. */
  lemma {:induction false} BatchKeepsLastSuccess(m: map<string, MonitorRecord>, inputs: seq<EndpointInput>, env: Env, i: nat)
    requires i < |inputs| && AddOutcome(inputs[i], env).Success?
    requires LaterInputsLeaveKey(inputs, env, i, PlanRegistration(inputs[i], env).value.key)
    ensures PlanRegistration(inputs[i], env).value.key in StoreAfterBatch(m, inputs, env)
    ensures StoreAfterBatch(m, inputs, env)[PlanRegistration(inputs[i], env).value.key] ==
      PassRecord(AddOutcome(inputs[i], env).value, env.now)
  {
    var n := |inputs| - 1;
    var before := StoreAfterBatch(m, inputs[..n], env);
    var key := PlanRegistration(inputs[i], env).value.key;
    if i == n {
      AddStoresOwnKey(before, inputs[n], env);
    } else {
      LaterInputsOfInit(inputs, env, i, key);
      BatchKeepsLastSuccess(m, inputs[..n], env, i);
      AddKeepsOtherKey(before, inputs[n], env, key);
    }
  }

  /** Every input after the `i`-th leaves `key` alone. */
  predicate LaterInputsLeaveKey(inputs: seq<EndpointInput>, env: Env, i: nat, key: string) {
    forall j {:trigger LeavesKey(inputs[j], env, key)} | i < j < |inputs| :: LeavesKey(inputs[j], env, key)
  }

  /** Dropping the last input keeps the entry at `i` and what the later inputs
      leave alone, and the last input itself leaves the key. */
  lemma LaterInputsOfInit(inputs: seq<EndpointInput>, env: Env, i: nat, key: string)
    requires i < |inputs| - 1 && LaterInputsLeaveKey(inputs, env, i, key)
    ensures inputs[..|inputs| - 1][i] == inputs[i]
    ensures LaterInputsLeaveKey(inputs[..|inputs| - 1], env, i, key)
    ensures LeavesKey(inputs[|inputs| - 1], env, key)
  {
    var init := inputs[..|inputs| - 1];
    forall j | i < j < |init| ensures LeavesKey(init[j], env, key) {
      assert init[j] == inputs[j];
      assert LeavesKey(inputs[j], env, key);
    }
    assert LeavesKey(inputs[|inputs| - 1], env, key);
  }

  /** A successful registration leaves its planned key in the store. */
  lemma AddStoresOwnKey(m: map<string, MonitorRecord>, input: EndpointInput, env: Env)
    requires AddOutcome(input, env).Success?
    ensures PlanRegistration(input, env).value.key in StoreAfterAdd(m, input, false, env)
    ensures StoreAfterAdd(m, input, false, env)[PlanRegistration(input, env).value.key] ==
      PassRecord(AddOutcome(input, env).value, env.now)
  {
    AddSuccessStores(m, input, false, env);
    PlanFields(input, env);
  }

  /** A registration keeps a stored key that is not its own, with its record. */
  lemma AddKeepsOtherKey(m: map<string, MonitorRecord>, input: EndpointInput, env: Env, key: string)
    requires key in m && LeavesKey(input, env, key)
    ensures key in StoreAfterAdd(m, input, false, env)
    ensures StoreAfterAdd(m, input, false, env)[key] == m[key]
  {
    AddFrame(m, input, false, env);
  }

  /** A registration that does not plan `key`: it fails before the key is
      known, or it works out another key. */
  predicate LeavesKey(input: EndpointInput, env: Env, key: string) {
    PlanRegistration(input, env).Failure? || PlanRegistration(input, env).value.key != key
  }
}
