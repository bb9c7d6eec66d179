/** The persisted monitor record and its storage key. */
module MonitorRecords {
  import opened Wrappers
  import opened Strings

  /** Every monitor key starts with this prefix. */
  const Prefix := "sslmonitor"

  /** Milliseconds in a day. */
  const DayMs := 1000 * 60 * 60 * 24

  /** One monitored endpoint. `expireTime` and `silenceTime` are epoch
      milliseconds; `silenceTime` is `None` when the stored object has no
      `silence_time` field. Text fields hold "" where the source has `undefined`. */
  datatype MonitorRecord = MonitorRecord(
    domain: string,
    recordType: string,
    remark: string,
    uri: string,
    sub: string,
    address: string,
    isWildcard: bool,
    expireTime: int,
    cloud: string,
    accountKey: string,
    silenceTime: Option<int>)

  /** A record as a listing returns it: the storage id beside the stored value. */
  datatype Entry = Entry(id: string, value: MonitorRecord)

  /** `sslmonitor/{domain}/{uri}`. */
  function MonitorKey(domain: string, uri: string): (k: string)
    ensures StartsWith(k, Prefix + "/" + domain + "/")
    ensures EndsWith(k, "/" + uri)
  {
    var k := Prefix + "/" + domain + "/" + uri;
    assert k[..|Prefix + "/" + domain + "/"|] == Prefix + "/" + domain + "/";
    assert k[|k| - |"/" + uri|..] == "/" + uri;
    k
  }

  /** Two endpoints get the same key only if they agree on domain and uri,
      provided the domain itself has no '/'. */
  lemma MonitorKeyInjective(d1: string, u1: string, d2: string, u2: string)
    requires '/' !in d1 && '/' !in d2
    requires MonitorKey(d1, u1) == MonitorKey(d2, u2)
    ensures d1 == d2 && u1 == u2
  {
    var k := MonitorKey(d1, u1);
    var p := |Prefix| + 1;
    assert k == Prefix + "/" + d1 + "/" + u1;
    assert k == Prefix + "/" + d2 + "/" + u2;
    assert k[p..] == d1 + "/" + u1;
    assert k[p..] == d2 + "/" + u2;
    var t := k[p..];
    assert t[..|d1|] == d1 && t[|d1|] == '/';
    assert t[..|d2|] == d2 && t[|d2|] == '/';
    assert FirstIndex(t, '/') == |d1|;
    assert FirstIndex(t, '/') == |d2|;
    assert d1 == t[..|d1|] == d2;
    assert u1 == t[|d1| + 1..] == u2;
  }
}
