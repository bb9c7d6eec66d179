/** The expiry classifier and silence engine, as functions: remaining days,
    tiers, the silence windows, which records a pass considers, the alerts it
    raises, the store it leaves behind, and the digest built from the alerts. */
module ExpiryClassifier {
  import opened Wrappers
  import opened Strings
  import opened MonitorRecords

  /** Day thresholds of the three tiers. */
  const NoticeDays := 30
  const WarningDays := 10
  const CriticalDays := 5

  /** Silence windows in milliseconds; a critical record is never silenced. */
  const NoticeSilence := 7 * 24 * 60 * 60 * 1000
  const WarningSilence := 3 * 24 * 60 * 60 * 1000

  datatype Tier = Clear | Notice | Warning | Critical

  /** One entry of the notify list. `level` is "info", "warning" or "error". */
  datatype Alert = Alert(title: string, content: string, level: string)

  /** The digest of one pass: its title and the plain-text body sent to the OS and to channels. */
  datatype Digest = Digest(title: string, plainText: string)

  /** `Math.floor((expireTime - now) / DayMs)`; Dafny's division by a positive
      divisor rounds down, so this is the floor for negative differences too. */
  function RemainingDays(expireTime: int, now: int): (days: int)
    ensures days * DayMs <= expireTime - now < (days + 1) * DayMs
  {
    (expireTime - now) / DayMs
  }

  /** The tier tests in the order the pass applies them. */
  function Classify(days: int): Tier {
    if days > NoticeDays then Clear
    else if days > WarningDays && days <= NoticeDays then Notice
    else if days > CriticalDays && days <= WarningDays then Warning
    else Critical
  }

  /** The four bands: above 30, (10, 30], (5, 10] and at most 5 days. */
  lemma ClassifyBands(days: int)
    ensures Classify(days) == Clear <==> days > 30
    ensures Classify(days) == Notice <==> 10 < days <= 30
    ensures Classify(days) == Warning <==> 5 < days <= 10
    ensures Classify(days) == Critical <==> days <= 5
  {
  }

  /** A certificate that has already expired is critical. */
  lemma ExpiredIsCritical(expireTime: int, now: int)
    requires expireTime < now
    ensures RemainingDays(expireTime, now) < 0
    ensures Classify(RemainingDays(expireTime, now)) == Critical
  {
  }

  function TierOf(r: MonitorRecord, now: int): Tier {
    Classify(RemainingDays(r.expireTime, now))
  }

  /** `!record.silence_time || now > record.silence_time`: no silence, a zero one, or one that has passed. */
  predicate IsActive(r: MonitorRecord, now: int) {
    r.silenceTime.None? || r.silenceTime.value == 0 || now > r.silenceTime.value
  }

  /** The tiers that push the silence window forward. */
  predicate Silences(t: Tier) {
    t == Notice || t == Warning
  }

  /** The record as a pass leaves it. */
  function PassRecord(r: MonitorRecord, now: int): MonitorRecord {
    match TierOf(r, now)
    case Notice => r.(silenceTime := Some(now + NoticeSilence))
    case Warning => r.(silenceTime := Some(now + WarningSilence))
    case _ => r
  }

  /** The pass moves `silence_time` to exactly now + 7 days for NOTICE records and
      now + 3 days for WARNING records, leaves CLEAR and CRITICAL records alone, and
      never touches any other field. */
  lemma PassRecordEffect(r: MonitorRecord, now: int)
    ensures PassRecord(r, now).(silenceTime := r.silenceTime) == r
    ensures TierOf(r, now) == Notice ==> PassRecord(r, now).silenceTime == Some(now + 7 * DayMs)
    ensures TierOf(r, now) == Warning ==> PassRecord(r, now).silenceTime == Some(now + 3 * DayMs)
    ensures !Silences(TierOf(r, now)) ==> PassRecord(r, now) == r
  {
  }

  /** With a clock past the epoch: a record the pass considers changes exactly
      when its tier silences, and a silenced record is skipped by a pass at the
      same instant (ACTIVE to SILENCED). */
  lemma PassRecordSilences(r: MonitorRecord, now: int)
    requires 0 <= now && IsActive(r, now)
    ensures PassRecord(r, now) == r <==> !Silences(TierOf(r, now))
    ensures Silences(TierOf(r, now)) <==> !IsActive(PassRecord(r, now), now)
  {
  }

  function Level(t: Tier): string {
    match t
    case Notice => "info"
    case Warning => "warning"
    case _ => "error"
  }

  /** `证书剩余{days}天`. */
  function AlertContent(days: int): string {
    "证书剩余" + IntToString(days) + "天"
  }

  /** The notify-list entry one considered record contributes: none for CLEAR. */
  function AlertsFor(e: Entry, now: int): (alerts: seq<Alert>)
    ensures |alerts| <= 1
    ensures alerts == [] <==> TierOf(e.value, now) == Clear
    ensures forall a | a in alerts :: a.title == e.value.uri
    ensures forall a | a in alerts ::
      a.content == "证书剩余" + IntToString(RemainingDays(e.value.expireTime, now)) + "天"
    ensures forall a | a in alerts ::
      a.level == (var days := RemainingDays(e.value.expireTime, now);
                  if days <= 5 then "error" else if days <= 10 then "warning" else "info")
  {
    var days := RemainingDays(e.value.expireTime, now);
    var tier := Classify(days);
    if tier == Clear then [] else [Alert(e.value.uri, AlertContent(days), Level(tier))]
  }

  /** `records.filter(record => record._id === key)` when a key is given; an
      absent or empty key is falsy, so it filters nothing. */
  function ByKey(list: seq<Entry>, key: Option<string>): seq<Entry> {
    if key.None? || key.value == "" || list == [] then list
    else if list[0].id == key.value then [list[0]] + ByKey(list[1..], key)
    else ByKey(list[1..], key)
  }

  /** The silence filter. */
  function ActiveOnly(list: seq<Entry>, now: int): seq<Entry> {
    if list == [] then []
    else if IsActive(list[0].value, now) then [list[0]] + ActiveOnly(list[1..], now)
    else ActiveOnly(list[1..], now)
  }

  /** The records one pass classifies, in listing order. */
  function Candidates(list: seq<Entry>, key: Option<string>, now: int): seq<Entry> {
    ActiveOnly(ByKey(list, key), now)
  }

  lemma {:induction false} ByKeyMember(list: seq<Entry>, key: Option<string>, e: Entry)
    ensures e in ByKey(list, key) <==> e in list && (key.None? || key.value == "" || e.id == key.value)
  {
    if key.Some? && key.value != "" && list != [] {
      ByKeyMember(list[1..], key, e);
      assert list == [list[0]] + list[1..];
    }
  }

  lemma {:induction false} ActiveOnlyMember(list: seq<Entry>, now: int, e: Entry)
    ensures e in ActiveOnly(list, now) <==> e in list && IsActive(e.value, now)
  {
    if list != [] {
      ActiveOnlyMember(list[1..], now, e);
      assert list == [list[0]] + list[1..];
    }
  }

  /** A record is classified in a pass exactly when it is listed, matches the key
      if one is given, and is not silenced. */
  lemma CandidatesMember(list: seq<Entry>, key: Option<string>, now: int, e: Entry)
    ensures e in Candidates(list, key, now) <==>
      e in list && (key.None? || key.value == "" || e.id == key.value) && IsActive(e.value, now)
  {
    ByKeyMember(list, key, e);
    ActiveOnlyMember(ByKey(list, key), now, e);
  }

  /** The key filter keeps the listing's order: filtering a concatenation
      filters each part in turn. */
  lemma {:induction false} ByKeyAppend(a: seq<Entry>, b: seq<Entry>, key: Option<string>)
    ensures ByKey(a + b, key) == ByKey(a, key) + ByKey(b, key)
  {
    if key.Some? && key.value != "" && a != [] {
      assert (a + b)[0] == a[0];
      assert (a + b)[1..] == a[1..] + b;
      ByKeyAppend(a[1..], b, key);
    } else if a == [] {
      assert a + b == b;
    }
  }

  /** The silence filter keeps the listing's order: filtering a concatenation
      filters each part in turn. */
  lemma {:induction false} ActiveOnlyAppend(a: seq<Entry>, b: seq<Entry>, now: int)
    ensures ActiveOnly(a + b, now) == ActiveOnly(a, now) + ActiveOnly(b, now)
  {
    if a == [] {
      assert a + b == b;
    } else {
      assert (a + b)[0] == a[0];
      assert (a + b)[1..] == a[1..] + b;
      ActiveOnlyAppend(a[1..], b, now);
    }
  }

  /** There is no bypass for critical records: a record still inside its silence
      window is skipped by the pass, whatever its tier. */
  lemma SilencedRecordSkipped(list: seq<Entry>, key: Option<string>, now: int, e: Entry)
    requires e.value.silenceTime.Some? && e.value.silenceTime.value != 0
    requires now <= e.value.silenceTime.value
    ensures e !in Candidates(list, key, now)
  {
    CandidatesMember(list, key, now, e);
  }

  /** With a key, only the listed record with that id is considered: if ids are
      distinct and `list[i]` carries the key, the key filter yields exactly it. */
  lemma {:induction false} ByKeyUnique(list: seq<Entry>, key: string, i: nat)
    requires key != ""
    requires i < |list| && list[i].id == key
    requires forall a, b | 0 <= a < b < |list| :: list[a].id != list[b].id
    ensures ByKey(list, Some(key)) == [list[i]]
  {
    if i == 0 {
      assert forall j | 0 <= j < |list[1..]| :: list[1..][j].id != key by {
        forall j | 0 <= j < |list[1..]| ensures list[1..][j].id != key {
          assert list[1..][j] == list[j + 1];
        }
      }
      ByKeyNone(list[1..], key);
    } else {
      assert list[0].id != key;
      ByKeyUnique(list[1..], key, i - 1);
    }
  }

  lemma {:induction false} ByKeyNone(list: seq<Entry>, key: string)
    requires key != ""
    requires forall j | 0 <= j < |list| :: list[j].id != key
    ensures ByKey(list, Some(key)) == []
  {
    if list != [] {
      assert list[0].id != key;
      ByKeyNone(list[1..], key);
    }
  }

  /** An empty key is falsy: the pass then considers every listed record, in order. */
  lemma ByKeyEmpty(list: seq<Entry>)
    ensures ByKey(list, Some("")) == list
  {
  }

  /** The notify list of a pass over `cands`, grown one record at a time. */
  function Alerts(cands: seq<Entry>, now: int): seq<Alert> {
    if cands == [] then []
    else Alerts(cands[..|cands| - 1], now) + AlertsFor(cands[|cands| - 1], now)
  }

  /** The last record's alerts come last. */
  lemma AlertsSnoc(cands: seq<Entry>, now: int)
    requires cands != []
    ensures Alerts(cands, now) == Alerts(cands[..|cands| - 1], now) + AlertsFor(cands[|cands| - 1], now)
  {
  }

  lemma SeqAssoc(x: seq<Alert>, y: seq<Alert>, z: seq<Alert>)
    ensures (x + y) + z == x + (y + z)
  {
  }

  /** The notify list is in record order: a pass over two stretches of records
      notifies for the first stretch, then for the second. */
  lemma {:induction false} AlertsAppend(a: seq<Entry>, b: seq<Entry>, now: int)
    ensures Alerts(a + b, now) == Alerts(a, now) + Alerts(b, now)
    decreases |b|
  {
    if b == [] {
      assert a + b == a;
    } else {
      var b' := b[..|b| - 1];
      assert (a + b)[..|a + b| - 1] == a + b' && (a + b)[|a + b| - 1] == b[|b| - 1];
      AlertsSnoc(a + b, now);
      AlertsSnoc(b, now);
      AlertsAppend(a, b', now);
      SeqAssoc(Alerts(a, now), Alerts(b', now), AlertsFor(b[|b| - 1], now));
    }
  }

  /** When every considered record is within 30 days, each one notifies, and
      the i-th alert is the i-th record's. */
  lemma {:induction false} AlertsOnePerRecord(cands: seq<Entry>, now: int)
    requires forall i | 0 <= i < |cands| :: TierOf(cands[i].value, now) != Clear
    ensures |Alerts(cands, now)| == |cands|
    ensures forall i | 0 <= i < |cands| :: Alerts(cands, now)[i] == AlertsFor(cands[i], now)[0]
  {
    if cands != [] {
      var n := |cands| - 1;
      var init := cands[..n];
      assert forall i | 0 <= i < |init| :: init[i] == cands[i];
      AlertsOnePerRecord(init, now);
      AlertsSnoc(cands, now);
      var prev, last := Alerts(init, now), AlertsFor(cands[n], now);
      assert |last| == 1;
      forall i | 0 <= i < |cands| ensures Alerts(cands, now)[i] == AlertsFor(cands[i], now)[0] {
        if i < n {
          assert (prev + last)[i] == prev[i] && init[i] == cands[i];
        } else {
          assert (prev + last)[i] == last[0];
        }
      }
    }
  }

  /** A pass over records that are all more than 30 days out raises nothing. */
  lemma {:induction false} AlertsNoneWhenClear(cands: seq<Entry>, now: int)
    requires forall i | 0 <= i < |cands| :: TierOf(cands[i].value, now) == Clear
    ensures Alerts(cands, now) == []
  {
    if cands != [] {
      var n := |cands| - 1;
      var init := cands[..n];
      assert forall i | 0 <= i < |init| :: init[i] == cands[i];
      AlertsNoneWhenClear(init, now);
    }
  }

  /** The store a pass leaves: each considered record in a silencing tier written back with its new window. */
  function ApplyPass(m: map<string, MonitorRecord>, cands: seq<Entry>, now: int): map<string, MonitorRecord> {
    if cands == [] then m
    else
      var m' := ApplyPass(m, cands[..|cands| - 1], now);
      var e := cands[|cands| - 1];
      if Silences(TierOf(e.value, now)) then m'[e.id := PassRecord(e.value, now)] else m'
  }

  /** One more record of the pass: its alert is appended, and a NOTICE or
      WARNING record is written back with its new silence window. */
  lemma PassPrefixStep(m: map<string, MonitorRecord>, cands: seq<Entry>, i: nat, now: int)
    requires i < |cands|
    ensures var before := ApplyPass(m, cands[..i], now);
      var e := cands[i];
      ApplyPass(m, cands[..i + 1], now) ==
        if Silences(TierOf(e.value, now)) then before[e.id := PassRecord(e.value, now)] else before
    ensures Alerts(cands[..i + 1], now) == Alerts(cands[..i], now) + AlertsFor(cands[i], now)
  {
    assert cands[..i + 1][..i] == cands[..i];
  }

  /** When the considered records are copies of stored ones, the pass keeps the
      store's keys and leaves each stored record as `PassRecord` makes it if it
      was considered, and untouched otherwise. */
  lemma {:induction false} ApplyPassAt(m: map<string, MonitorRecord>, cands: seq<Entry>, now: int, k: string)
    requires forall i | 0 <= i < |cands| :: cands[i].id in m && cands[i].value == m[cands[i].id]
    requires k in m
    ensures k in ApplyPass(m, cands, now)
    ensures ApplyPass(m, cands, now)[k] == if Considered(cands, k) then PassRecord(m[k], now) else m[k]
  {
    if cands != [] {
      var n := |cands| - 1;
      var init := cands[..n];
      assert forall i | 0 <= i < |init| :: init[i] == cands[i];
      ApplyPassAt(m, init, now, k);
      ConsideredSnoc(cands, k);
      if cands[n].id == k {
        PassRecordEffect(m[k], now);
      }
    }
  }

  /** Some record among the candidates is stored under `k`. */
  predicate Considered(cands: seq<Entry>, k: string) {
    exists i | 0 <= i < |cands| :: cands[i].id == k
  }

  lemma ConsideredSnoc(cands: seq<Entry>, k: string)
    requires cands != []
    ensures Considered(cands, k) <==> Considered(cands[..|cands| - 1], k) || cands[|cands| - 1].id == k
  {
    var init := cands[..|cands| - 1];
    if Considered(cands, k) && cands[|cands| - 1].id != k {
      var i :| 0 <= i < |cands| && cands[i].id == k;
      assert init[i].id == k;
    }
    if Considered(init, k) {
      var i :| 0 <= i < |init| && init[i].id == k;
      assert cands[i].id == k;
    }
  }

  /** A pass over stored keys writes only keys that are already there. */
  lemma {:induction false} ApplyPassKeys(m: map<string, MonitorRecord>, cands: seq<Entry>, now: int)
    requires forall i | 0 <= i < |cands| :: cands[i].id in m
    ensures ApplyPass(m, cands, now).Keys == m.Keys
  {
    if cands != [] {
      var n := |cands| - 1;
      var init := cands[..n];
      assert forall i | 0 <= i < |init| :: init[i] == cands[i];
      ApplyPassKeys(m, init, now);
    }
  }

  /** `关于{first title}等{count}个域名证书到期提醒`, with the full count of alerts. */
  function DigestTitle(alerts: seq<Alert>): string
    requires alerts != []
  {
    "关于" + alerts[0].title + "等" + NatToString(|alerts|) + "个域名证书到期提醒"
  }

  /** `{title}: {content}` per alert, one per line. */
  function PlainTextLine(a: Alert): string {
    a.title + ": " + a.content
  }

  function PlainTextLines(alerts: seq<Alert>): (lines: seq<string>)
    ensures |lines| == |alerts|
    ensures forall i | 0 <= i < |alerts| :: lines[i] == PlainTextLine(alerts[i])
  {
    seq(|alerts|, i requires 0 <= i < |alerts| => PlainTextLine(alerts[i]))
  }

  function PlainText(alerts: seq<Alert>): string {
    Join(PlainTextLines(alerts), "\n")
  }

  /** A digest exists exactly when the notify list is not empty. */
  function DigestOf(alerts: seq<Alert>): (d: Option<Digest>)
    ensures d.Some? <==> alerts != []
  {
    if alerts == [] then None else Some(Digest(DigestTitle(alerts), PlainText(alerts)))
  }

  /** The digest title names the first alert and carries the total count of
      alerts (not the count of the others), readable back as a number. */
  lemma DigestTitleCount(alerts: seq<Alert>)
    requires alerts != []
    ensures exists count ::
      DigestTitle(alerts) == "关于" + alerts[0].title + "等" + count + "个域名证书到期提醒"
      && IsDigits(count) && DecimalValue(count) == |alerts|
  {
    NatToStringRoundTrip(|alerts|);
    var count := NatToString(|alerts|);
    assert DigestTitle(alerts) == "关于" + alerts[0].title + "等" + count + "个域名证书到期提醒";
  }

  /** When no title or content holds a line break, the plain-text body splits
      back into one line per alert, in notify-list order. */
  lemma PlainTextSplits(alerts: seq<Alert>)
    requires alerts != []
    requires forall i | 0 <= i < |alerts| :: '\n' !in alerts[i].title && '\n' !in alerts[i].content
    ensures Split(PlainText(alerts), '\n') == PlainTextLines(alerts)
  {
    var lines := PlainTextLines(alerts);
    forall i | 0 <= i < |lines| ensures '\n' !in lines[i] {
      assert lines[i] == alerts[i].title + ": " + alerts[i].content;
    }
    SplitJoin(lines, '\n');
  }
}
