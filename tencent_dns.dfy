/** The request and response shaping of the Tencent Cloud DNSPod service: the
    payloads of `CreateRecord`, `ModifyRecord` and `ModifyRecordStatus`, and the
    lists built from `DescribeRecordList`, `DescribeDomainList`,
    `DescribeRecordLineList` and `DescribeRecordLineCategoryList` responses.
    A payload is the JSON object before serialisation, as a map. */
module TencentDns {
  import opened Wrappers

  datatype Json = JStr(str: string) | JInt(num: int) | JBool(flag: bool)

  /** The field names of a request payload. */
  datatype Field =
    | Domain | SubDomain | RecordId | RecordType | RecordLine | RecordLineId
    | Value | Remark | TTL | MX | Status

  /** A payload: the JSON object sent to the API, before serialisation. */
  type Payload = map<Field, Json>

  const DefaultLine := "默认"
  const DefaultTtl := 600
  const BasicLines := "基础线路"
  const LineGroups := "线路分组"
  const RenewLink := "https://console.cloud.tencent.com/domain/all-domain/all"

  /** The record form of the UI. Empty strings and a zero TTL stand for absent fields. */
  datatype RecordForm = RecordForm(
    id: int, name: string, recordType: string, line: string, lineId: string,
    value: string, remark: string, ttl: int, mx: int)

  /** `record.lineId && record.lineId !== '0'`. */
  predicate UsesLineId(f: RecordForm) {
    f.lineId != "" && f.lineId != "0"
  }

  /** The line and MX rules both payload builders apply to `formData`: a line id
      replaces the line name, and only MX records carry an `MX` field. */
  method ApplyLineAndMx(form: Payload, f: RecordForm) returns (p: Payload)
    requires RecordLine in form
    requires RecordLineId !in form && MX !in form
    ensures UsesLineId(f) ==> RecordLineId in p && p[RecordLineId] == JStr(f.lineId) && RecordLine !in p
    ensures !UsesLineId(f) ==> RecordLine in p && p[RecordLine] == form[RecordLine] && RecordLineId !in p
    ensures (MX in p <==> f.recordType == "MX") && (f.recordType == "MX" ==> p[MX] == JInt(f.mx))
    ensures forall k | k != RecordLine && k != RecordLineId && k != MX ::
      (k in p <==> k in form) && (k in form ==> p[k] == form[k])
  {
    p := form;
    if UsesLineId(f) {
      p := p[RecordLineId := JStr(f.lineId)];
      p := map k | k in p && k != RecordLine :: p[k];
    }
    if f.recordType == "MX" {
      p := p[MX := JInt(f.mx)];
    }
  }

  /** The fields both builders start from, before the line and MX rules. */
  function RecordFields(domain: string, f: RecordForm, id: Option<int>, line: string): (form: Payload)
    ensures RecordLine in form && RecordLineId !in form && MX !in form && Status !in form
    ensures RecordId in form <==> id.Some?
    ensures id.Some? ==> form[RecordId] == JInt(id.value)
    ensures Domain in form && form[Domain] == JStr(domain)
    ensures SubDomain in form && form[SubDomain] == JStr(f.name)
    ensures RecordType in form && form[RecordType] == JStr(f.recordType)
    ensures RecordLine in form && form[RecordLine] == JStr(line)
    ensures Value in form && form[Value] == JStr(f.value)
    ensures Remark in form && form[Remark] == JStr(f.remark)
    ensures TTL in form && form[TTL] == JInt(if f.ttl != 0 then f.ttl else DefaultTtl)
  {
    var base := map[
      Domain := JStr(domain),
      SubDomain := JStr(f.name),
      RecordType := JStr(f.recordType),
      RecordLine := JStr(line),
      Value := JStr(f.value),
      Remark := JStr(f.remark),
      TTL := JInt(if f.ttl != 0 then f.ttl else DefaultTtl)];
    if id.Some? then base[RecordId := JInt(id.value)] else base
  }

  /** The `CreateRecord` payload (`addRecord`). */
  method AddRecordPayload(domain: string, f: RecordForm) returns (p: Payload)
    ensures RecordId !in p && Status !in p
    ensures p.Keys <= KeysOfRecordPayloads
    ensures Domain in p && p[Domain] == JStr(domain)
    ensures SubDomain in p && p[SubDomain] == JStr(f.name)
    ensures RecordType in p && p[RecordType] == JStr(f.recordType)
    ensures Value in p && p[Value] == JStr(f.value)
    ensures Remark in p && p[Remark] == JStr(f.remark)
    ensures TTL in p && p[TTL] == JInt(if f.ttl != 0 then f.ttl else DefaultTtl)
    ensures UsesLineId(f) ==> RecordLineId in p && p[RecordLineId] == JStr(f.lineId) && RecordLine !in p
    ensures !UsesLineId(f) ==>
      RecordLine in p && RecordLineId !in p && p[RecordLine] == JStr(if f.line != "" then f.line else DefaultLine)
    ensures (MX in p <==> f.recordType == "MX") && (f.recordType == "MX" ==> p[MX] == JInt(f.mx))
  {
    var line := if f.line != "" then f.line else DefaultLine;
    var form := RecordFields(domain, f, None, line);
    p := ApplyLineAndMx(form, f);
    RecordPayloadKeys(p);
  }

  /** The fields a record payload may carry: all but `Status`. */
  const KeysOfRecordPayloads: set<Field> := {Domain, SubDomain, RecordId, RecordType, RecordLine, RecordLineId, Value, Remark, TTL, MX}

  /** `Status` is the only field outside the record payloads: a payload without
      it carries record fields only. */
  lemma RecordPayloadKeys(p: Payload)
    requires Status !in p
    ensures p.Keys <= KeysOfRecordPayloads
  {
    forall k | k in p
      ensures k in KeysOfRecordPayloads
    {
      assert k != Status;
    }
  }

  /** One record as `listRecords` returns it. */
  datatype RecordView = RecordView(
    recordId: int, name: string, weight: int, value: string, ttl: int, recordType: string,
    enabled: bool, updatedOn: string, remark: string, mx: int, recordLine: string)

  /** The line `updateRecord` sends before the line-id rule: the form's line, else
      the existing record's, else the default. Without a line in the form the
      existing record must be found, or the lookup of its line fails. */
  function UpdateLine(f: RecordForm, existing: seq<RecordView>): (r: Option<string>)
    ensures f.line != "" ==> r == Some(f.line)
    ensures f.line == "" && r.None? ==> forall i | 0 <= i < |existing| :: existing[i].recordId != f.id
    ensures r.Some? ==> r.value != ""
  {
    if f.line != "" then Some(f.line)
    else match FindRecord(existing, f.id)
      case None => None
      case Some(found) => Some(if found.recordLine != "" then found.recordLine else DefaultLine)
  }

  /** `list.find(item => item.RecordId === id)`: the first record with that id. */
  function FindRecord(list: seq<RecordView>, id: int): (r: Option<RecordView>)
    ensures r.None? <==> forall i | 0 <= i < |list| :: list[i].recordId != id
    ensures r.Some? ==> r.value in list && r.value.recordId == id
  {
    if list == [] then None
    else if list[0].recordId == id then Some(list[0])
    else
      var r := FindRecord(list[1..], id);
      assert forall i | 1 <= i < |list| :: list[i] == list[1..][i - 1];
      r
  }

  /** The record found is the first one with the id. */
  lemma {:induction false} FindRecordFirst(list: seq<RecordView>, id: int, i: nat)
    requires i < |list| && list[i].recordId == id
    requires forall j | 0 <= j < i :: list[j].recordId != id
    ensures FindRecord(list, id) == Some(list[i])
  {
    if i > 0 {
      assert list[0].recordId != id;
      assert forall j | 0 <= j < i - 1 :: list[1..][j] == list[j + 1];
      FindRecordFirst(list[1..], id, i - 1);
    }
  }

  /** The `ModifyRecord` payload (`updateRecord`), given the domain's current
      records. It fails where the source would read the line of a record that is
      not there. */
  method UpdateRecordPayload(domain: string, f: RecordForm, existing: seq<RecordView>) returns (r: Result<Payload, string>)
    ensures r.Failure? <==> UpdateLine(f, existing).None?
    ensures r.Success? ==>
      var p := r.value;
      && Status !in p && p.Keys <= KeysOfRecordPayloads
      && RecordId in p && p[RecordId] == JInt(f.id)
      && Domain in p && p[Domain] == JStr(domain)
      && SubDomain in p && p[SubDomain] == JStr(f.name)
      && RecordType in p && p[RecordType] == JStr(f.recordType)
      && Value in p && p[Value] == JStr(f.value)
      && Remark in p && p[Remark] == JStr(f.remark)
      && TTL in p && p[TTL] == JInt(if f.ttl != 0 then f.ttl else DefaultTtl)
      && (UsesLineId(f) ==> RecordLineId in p && p[RecordLineId] == JStr(f.lineId) && RecordLine !in p)
      && (!UsesLineId(f) ==> RecordLine in p && RecordLineId !in p && p[RecordLine] == JStr(UpdateLine(f, existing).value))
      && (MX in p <==> f.recordType == "MX") && (f.recordType == "MX" ==> p[MX] == JInt(f.mx))
  {
    var line := UpdateLine(f, existing);
    if line.None? {
      return Failure("the record to update is not in the domain's record list");
    }
    var form := RecordFields(domain, f, Some(f.id), line.value);
    var p := ApplyLineAndMx(form, f);
    RecordPayloadKeys(p);
    return Success(p);
  }

  /** With no line and no line id in the form, the update keeps the existing
      record's line (or the default when it has none). */
  lemma UpdateKeepsExistingLine(f: RecordForm, existing: seq<RecordView>, i: nat)
    requires f.line == "" && i < |existing| && existing[i].recordId == f.id
    requires forall j | 0 <= j < i :: existing[j].recordId != f.id
    ensures UpdateLine(f, existing) == Some(if existing[i].recordLine != "" then existing[i].recordLine else DefaultLine)
  {
    FindRecordFirst(existing, f.id, i);
  }

  /** The `ModifyRecordStatus` payload: `ENABLE` for a truthy status, `DISABLE` otherwise. */
  function StatusPayload(domain: string, recordId: int, enable: bool): (p: Payload)
    ensures p.Keys == {Domain, RecordId, Status}
    ensures p[Status] == JStr("ENABLE") <==> enable
    ensures p[Status] == JStr("DISABLE") <==> !enable
  {
    map[Domain := JStr(domain), RecordId := JInt(recordId),
        Status := JStr(if enable then "ENABLE" else "DISABLE")]
  }

  /** One item of a `DescribeRecordList` response. */
  datatype RawRecord = RawRecord(
    recordId: int, name: string, weight: int, value: string, ttl: int, recordType: string,
    status: string, updatedOn: string, remark: string, mx: int, line: string)

  datatype RecordList = RecordList(count: int, list: seq<RecordView>)

  function ShapeRecord(item: RawRecord): (v: RecordView)
    ensures v.enabled <==> item.status == "ENABLE"
    ensures v.recordLine == item.line && v.recordId == item.recordId && v.recordType == item.recordType
    ensures v.name == item.name && v.value == item.value && v.ttl == item.ttl && v.mx == item.mx
    ensures v.weight == item.weight && v.updatedOn == item.updatedOn && v.remark == item.remark
  {
    RecordView(item.recordId, item.name, item.weight, item.value, item.ttl, item.recordType,
               item.status == "ENABLE", item.updatedOn, item.remark, item.mx, item.line)
  }

  /** `listRecords`: the total count as reported, and every record shaped, in order. */
  function ShapeRecordList(totalCount: int, items: seq<RawRecord>): (r: RecordList)
    ensures r.count == totalCount && |r.list| == |items|
    ensures forall i | 0 <= i < |items| :: r.list[i] == ShapeRecord(items[i])
  {
    RecordList(totalCount, seq(|items|, i requires 0 <= i < |items| => ShapeRecord(items[i])))
  }

  /** A status sent by `changeRecordStatus` reads back from the list as the flag it was sent for. */
  lemma StatusRoundTrip(domain: string, item: RawRecord, enable: bool)
    requires JStr(item.status) == StatusPayload(domain, item.recordId, enable)[Status]
    ensures ShapeRecord(item).enabled == enable
  {
  }

  /** One item of `DescribeDomainList` and of `DescribeDomainNameList`. */
  datatype DomainItem = DomainItem(name: string, status: string, dnsStatus: string)
  datatype DomainName = DomainName(domainName: string, expirationDate: string)

  datatype DomainView = DomainView(domain: string, cloud: string, expireTime: string, renewLink: string)

  /** The expiry of the first registered name equal to `name`, or "". */
  function ExpirationOf(names: seq<DomainName>, name: string): (e: string)
    ensures (forall j | 0 <= j < |names| :: names[j].domainName != name) ==> e == ""
  {
    if names == [] then ""
    else if names[0].domainName == name then names[0].expirationDate
    else ExpirationOf(names[1..], name)
  }

  /** `expire_time` comes from the first registered name that matches. */
  lemma {:induction false} ExpirationOfFirst(names: seq<DomainName>, name: string, i: nat)
    requires i < |names| && names[i].domainName == name
    requires forall j | 0 <= j < i :: names[j].domainName != name
    ensures ExpirationOf(names, name) == names[i].expirationDate
  {
    if i > 0 {
      assert names[0].domainName != name;
      assert forall j | 0 <= j < i - 1 :: names[1..][j] == names[j + 1];
      ExpirationOfFirst(names[1..], name, i - 1);
    }
  }

  function DomainViewOf(item: DomainItem, names: seq<DomainName>): (v: DomainView)
    ensures v.domain == item.name && v.cloud == "tencent"
    ensures v.expireTime == ExpirationOf(names, item.name)
    ensures v.renewLink != "" <==> v.expireTime != ""
  {
    var expire := ExpirationOf(names, item.name);
    DomainView(item.name, "tencent", expire, if expire != "" then RenewLink else "")
  }

  predicate Listed(item: DomainItem) {
    item.status == "ENABLE" && item.dnsStatus == ""
  }

  /** `listDomains`: the enabled domains with no DNS problem, in order, joined with
      the registration expiry. A failed name lookup (`None`) joins nothing. */
  function ListDomains(items: seq<DomainItem>, names: Option<seq<DomainName>>): (r: seq<DomainView>)
    ensures |r| <= |items|
  {
    if items == [] then []
    else
      var rest := ListDomains(items[1..], names);
      if Listed(items[0]) then [DomainViewOf(items[0], names.GetOr([]))] + rest else rest
  }

  /** Some enabled item with no DNS problem gives the view `v`. */
  predicate ListsView(items: seq<DomainItem>, names: seq<DomainName>, v: DomainView) {
    exists i | 0 <= i < |items| :: Listed(items[i]) && v == DomainViewOf(items[i], names)
  }

  lemma ListsViewCons(items: seq<DomainItem>, names: seq<DomainName>, v: DomainView)
    requires items != []
    ensures ListsView(items, names, v) <==>
      (Listed(items[0]) && v == DomainViewOf(items[0], names)) || ListsView(items[1..], names, v)
  {
    var rest := items[1..];
    if ListsView(items, names, v) {
      var i :| 0 <= i < |items| && Listed(items[i]) && v == DomainViewOf(items[i], names);
      if i > 0 {
        assert rest[i - 1] == items[i];
      }
    }
    if ListsView(rest, names, v) {
      var i :| 0 <= i < |rest| && Listed(rest[i]) && v == DomainViewOf(rest[i], names);
      assert items[i + 1] == rest[i];
    }
  }

  /** A domain is listed exactly when an enabled item with no DNS problem names it. */
  lemma {:induction false} ListDomainsMember(items: seq<DomainItem>, names: Option<seq<DomainName>>, v: DomainView)
    ensures v in ListDomains(items, names) <==> ListsView(items, names.GetOr([]), v)
  {
    if items != [] {
      ListDomainsMember(items[1..], names, v);
      ListsViewCons(items, names.GetOr([]), v);
    }
  }

  /** How many items pass the `status`/`dnsStatus` filter. */
  function CountListed(items: seq<DomainItem>): nat {
    if items == [] then 0
    else CountListed(items[..|items| - 1]) + (if Listed(items[|items| - 1]) then 1 else 0)
  }

  /** The listing keeps the order of the items: listing a concatenation lists
      each part in turn. */
  lemma {:induction false} ListDomainsAppend(a: seq<DomainItem>, b: seq<DomainItem>, names: Option<seq<DomainName>>)
    ensures ListDomains(a + b, names) == ListDomains(a, names) + ListDomains(b, names)
  {
    if a == [] {
      assert a + b == b;
    } else {
      assert (a + b)[0] == a[0];
      assert (a + b)[1..] == a[1..] + b;
      ListDomainsAppend(a[1..], b, names);
    }
  }

  /** One item lists as its own view when it passes the filter, and as nothing otherwise. */
  lemma ListDomainsOne(item: DomainItem, names: Option<seq<DomainName>>)
    ensures ListDomains([item], names) ==
      if Listed(item) then [DomainViewOf(item, names.GetOr([]))] else []
  {
    assert [item][1..] == [];
  }

  /** One view per item that passes the filter, and no other. */
  lemma {:induction false} ListDomainsLength(items: seq<DomainItem>, names: Option<seq<DomainName>>)
    ensures |ListDomains(items, names)| == CountListed(items)
  {
    if items != [] {
      var init, last := items[..|items| - 1], items[|items| - 1];
      assert items == init + [last];
      ListDomainsAppend(init, [last], names);
      ListDomainsOne(last, names);
      ListDomainsLength(init, names);
    }
  }

  /** Without the name lookup no domain has an expiry or a renew link. */
  lemma {:induction false} ListDomainsWithoutNames(items: seq<DomainItem>)
    ensures forall v | v in ListDomains(items, None) :: v.expireTime == "" && v.renewLink == ""
  {
    if items != [] {
      ListDomainsWithoutNames(items[1..]);
    }
  }

  /** A line and a line group of `DescribeRecordLineList`. */
  datatype RawLine = RawLine(name: string, lineId: string)
  datatype RawLineGroup = RawLineGroup(name: string, lineId: string, lines: Option<seq<string>>)

  /** An entry of the line list; only groups carry `lines`. */
  datatype LineEntry = LineEntry(name: string, id: string, category: string, lines: Option<seq<string>>)

  /** `getRecordLineList`: the default line, then every line, then every group. */
  method GetRecordLineList(lineList: Option<seq<RawLine>>, groupList: Option<seq<RawLineGroup>>)
    returns (count: nat, list: seq<LineEntry>)
    ensures var lines := lineList.GetOr([]); var groups := groupList.GetOr([]);
      && |list| == 1 + |lines| + |groups|
      && list[0] == LineEntry(DefaultLine, "0", BasicLines, None)
      && (forall i | 0 <= i < |lines| :: list[1 + i] == LineEntry(lines[i].name, lines[i].lineId, BasicLines, None))
      && (forall j | 0 <= j < |groups| ::
            list[1 + |lines| + j] == LineEntry(groups[j].name, groups[j].lineId, LineGroups, Some(groups[j].lines.GetOr([]))))
    ensures count == |list|
  {
    list := [LineEntry(DefaultLine, "0", BasicLines, None)];
    var lines := lineList.GetOr([]);
    var groups := groupList.GetOr([]);
    for i := 0 to |lines|
      invariant |list| == 1 + i
      invariant list[0] == LineEntry(DefaultLine, "0", BasicLines, None)
      invariant forall k | 0 <= k < i :: list[1 + k] == LineEntry(lines[k].name, lines[k].lineId, BasicLines, None)
    {
      list := list + [LineEntry(lines[i].name, lines[i].lineId, BasicLines, None)];
    }
    for j := 0 to |groups|
      invariant |list| == 1 + |lines| + j
      invariant list[0] == LineEntry(DefaultLine, "0", BasicLines, None)
      invariant forall k | 0 <= k < |lines| :: list[1 + k] == LineEntry(lines[k].name, lines[k].lineId, BasicLines, None)
      invariant forall k | 0 <= k < j ::
        list[1 + |lines| + k] == LineEntry(groups[k].name, groups[k].lineId, LineGroups, Some(groups[k].lines.GetOr([])))
    {
      list := list + [LineEntry(groups[j].name, groups[j].lineId, LineGroups, Some(groups[j].lines.GetOr([])))];
    }
    count := |list|;
  }

  /** A line category of `DescribeRecordLineCategoryList`. */
  datatype RawCategory = RawCategory(lineName: string, lineId: string, useful: bool, grade: string, subGroup: Option<seq<string>>)
  datatype CategoryEntry = CategoryEntry(name: string, id: string, useful: bool, grade: string, subLines: seq<string>)

  /** `getRecordLineCategoryList`: every category, in order, with its sub-lines or none. */
  method GetRecordLineCategoryList(lineList: Option<seq<RawCategory>>) returns (count: nat, list: seq<CategoryEntry>)
    ensures var cats := lineList.GetOr([]);
      && |list| == |cats|
      && forall i | 0 <= i < |cats| ::
        list[i] == CategoryEntry(cats[i].lineName, cats[i].lineId, cats[i].useful, cats[i].grade, cats[i].subGroup.GetOr([]))
    ensures count == |list|
  {
    list := [];
    var cats := lineList.GetOr([]);
    for i := 0 to |cats|
      invariant |list| == i
      invariant forall k | 0 <= k < i ::
        list[k] == CategoryEntry(cats[k].lineName, cats[k].lineId, cats[k].useful, cats[k].grade, cats[k].subGroup.GetOr([]))
    {
      list := list + [CategoryEntry(cats[i].lineName, cats[i].lineId, cats[i].useful, cats[i].grade, cats[i].subGroup.GetOr([]))];
    }
    count := |list|;
  }
}
