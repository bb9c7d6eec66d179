/** `getAllSslMonitor`: every stored record whose key starts with the listing
    prefix, each tagged with its key, newest expiry first. */
module Listing {
  import opened Strings
  import opened MonitorRecords

  /** `sslmonitor`, or `sslmonitor/{domain}` when a domain is given (no trailing slash). */
  function ListPrefix(domain: string): string {
    if domain == "" then Prefix else Prefix + "/" + domain
  }

  /** The keys a prefix scan of the store returns. */
  function MatchingKeys(m: map<string, MonitorRecord>, prefix: string): set<string> {
    set k | k in m && StartsWith(k, prefix)
  }

  function Ids(list: seq<Entry>): set<string> {
    set i | 0 <= i < |list| :: list[i].id
  }

  predicate DistinctIds(list: seq<Entry>) {
    forall i, j | 0 <= i < j < |list| :: list[i].id != list[j].id
  }

  /** `sort((a, b) => b.expire_time - a.expire_time)`: non-increasing expiry. */
  predicate SortedByExpiry(list: seq<Entry>) {
    forall i, j | 0 <= i < j < |list| :: list[i].value.expireTime >= list[j].value.expireTime
  }

  /** What a listing of `m` under `prefix` is: each matching key exactly once,
      with the record stored under it, sorted by expiry. The order of records
      with equal expiry is left open. */
  predicate IsListing(m: map<string, MonitorRecord>, prefix: string, list: seq<Entry>) {
    && Ids(list) == MatchingKeys(m, prefix)
    && (forall e | e in list :: e.id in m && m[e.id] == e.value)
    && DistinctIds(list)
    && SortedByExpiry(list)
  }

  /** Where a record goes in a list sorted by expiry: after every record that
      expires no earlier. */
  function InsertPos(list: seq<Entry>, e: Entry): (p: nat)
    ensures p <= |list|
    ensures forall i | 0 <= i < p :: list[i].value.expireTime >= e.value.expireTime
    ensures p < |list| ==> list[p].value.expireTime < e.value.expireTime
  {
    if list == [] || list[0].value.expireTime < e.value.expireTime then 0
    else 1 + InsertPos(list[1..], e)
  }

  function InsertByExpiry(list: seq<Entry>, e: Entry): (r: seq<Entry>)
    ensures |r| == |list| + 1
  {
    var p := InsertPos(list, e);
    list[..p] + [e] + list[p..]
  }

  /** Position by position, the insertion is the old list with `e` at `InsertPos`. */
  lemma InsertByExpiryAt(list: seq<Entry>, e: Entry)
    ensures var p := InsertPos(list, e); var r := InsertByExpiry(list, e);
      && r[p] == e
      && (forall i | 0 <= i < p :: r[i] == list[i])
      && (forall i | p < i < |r| :: r[i] == list[i - 1])
  {
  }

  /** Inserting adds the one entry and nothing else. */
  lemma InsertByExpiryMembers(list: seq<Entry>, e: Entry)
    ensures forall x :: x in InsertByExpiry(list, e) <==> x == e || x in list
  {
    var p := InsertPos(list, e);
    assert list == list[..p] + list[p..];
  }

  /** Inserting adds exactly the entry's id. */
  lemma InsertByExpiryIds(list: seq<Entry>, e: Entry)
    ensures Ids(InsertByExpiry(list, e)) == Ids(list) + {e.id}
  {
    var p := InsertPos(list, e);
    var r := InsertByExpiry(list, e);
    InsertByExpiryAt(list, e);
    forall x | x in Ids(r) ensures x in Ids(list) + {e.id} {
      var i :| 0 <= i < |r| && r[i].id == x;
      if i < p {
        assert list[i].id == x;
      } else if i > p {
        assert list[i - 1].id == x;
      }
    }
    forall x | x in Ids(list) ensures x in Ids(r) {
      var i :| 0 <= i < |list| && list[i].id == x;
      if i < p {
        assert r[i].id == x;
      } else {
        assert r[i + 1].id == x;
      }
    }
    assert r[p].id == e.id;
  }

  /** Inserting keeps a list sorted by expiry. */
  lemma InsertByExpirySorted(list: seq<Entry>, e: Entry)
    requires SortedByExpiry(list)
    ensures SortedByExpiry(InsertByExpiry(list, e))
  {
    var p := InsertPos(list, e);
    var r := InsertByExpiry(list, e);
    InsertByExpiryAt(list, e);
    forall i, j | 0 <= i < j < |r| ensures r[i].value.expireTime >= r[j].value.expireTime {
      if i == p && j > p + 1 {
        assert list[p].value.expireTime >= list[j - 1].value.expireTime;
      }
    }
  }

  /** Inserting an entry with a new id keeps the ids distinct. */
  lemma InsertByExpiryDistinct(list: seq<Entry>, e: Entry)
    requires DistinctIds(list) && e.id !in Ids(list)
    ensures DistinctIds(InsertByExpiry(list, e))
  {
    var p := InsertPos(list, e);
    var r := InsertByExpiry(list, e);
    InsertByExpiryAt(list, e);
    forall i, j | 0 <= i < j < |r| ensures r[i].id != r[j].id {
      if i == p {
        assert list[j - 1].id in Ids(list);
      } else if j == p {
        assert list[i].id in Ids(list);
      }
    }
  }

  /** Appending an entry adds its id, and keeps ids distinct when the id is new. */
  lemma AppendEntry(list: seq<Entry>, e: Entry)
    ensures Ids(list + [e]) == Ids(list) + {e.id}
    ensures DistinctIds(list) && e.id !in Ids(list) ==> DistinctIds(list + [e])
  {
    var next := list + [e];
    forall x | x in Ids(next) ensures x in Ids(list) + {e.id} {
      var i :| 0 <= i < |next| && next[i].id == x;
      if i < |list| {
        assert list[i].id == x;
      }
    }
    forall x | x in Ids(list) ensures x in Ids(next) {
      var i :| 0 <= i < |list| && list[i].id == x;
      assert next[i].id == x;
    }
    assert next[|list|].id == e.id;
    if DistinctIds(list) && e.id !in Ids(list) {
      forall i, j | 0 <= i < j < |next| ensures next[i].id != next[j].id {
        if j == |list| {
          assert list[i].id in Ids(list);
        }
      }
    }
  }

  /** `sort` by expiry, newest first, as repeated insertion. */
  function SortByExpiry(list: seq<Entry>): (r: seq<Entry>)
    ensures |r| == |list|
  {
    if list == [] then [] else InsertByExpiry(SortByExpiry(list[1..]), list[0])
  }

  /** Sorting keeps exactly the entries and ids, keeps ids distinct, and sorts. */
  lemma {:induction false} SortByExpiryFacts(list: seq<Entry>)
    ensures forall x :: x in SortByExpiry(list) <==> x in list
    ensures Ids(SortByExpiry(list)) == Ids(list)
    ensures SortedByExpiry(SortByExpiry(list))
    ensures DistinctIds(list) ==> DistinctIds(SortByExpiry(list))
  {
    if list != [] {
      var rest := list[1..];
      SortByExpiryFacts(rest);
      var sorted := SortByExpiry(rest);
      InsertByExpiryMembers(sorted, list[0]);
      InsertByExpiryIds(sorted, list[0]);
      InsertByExpirySorted(sorted, list[0]);
      assert list == [list[0]] + rest;
      IdsCons(list);
      if DistinctIds(list) {
        DistinctTail(list);
        InsertByExpiryDistinct(sorted, list[0]);
      }
    }
  }

  /** The ids of a non-empty list: its head's id and the ids of its tail. */
  lemma IdsCons(list: seq<Entry>)
    requires list != []
    ensures Ids(list) == {list[0].id} + Ids(list[1..])
  {
    var rest := list[1..];
    forall x | x in Ids(list) ensures x in {list[0].id} + Ids(rest) {
      var i :| 0 <= i < |list| && list[i].id == x;
      if i > 0 {
        assert rest[i - 1].id == x;
      }
    }
    forall x | x in Ids(rest) ensures x in Ids(list) {
      var i :| 0 <= i < |rest| && rest[i].id == x;
      assert list[i + 1].id == x;
    }
  }

  /** The tail of a list with distinct ids has distinct ids, none of them the head's. */
  lemma DistinctTail(list: seq<Entry>)
    requires list != [] && DistinctIds(list)
    ensures DistinctIds(list[1..]) && list[0].id !in Ids(list[1..])
  {
    var rest := list[1..];
    forall i, j | 0 <= i < j < |rest| ensures rest[i].id != rest[j].id {
      assert rest[i] == list[i + 1] && rest[j] == list[j + 1];
    }
  }

  /** With distinct ids, a list has as many ids as entries. */
  lemma {:induction false} IdsCount(list: seq<Entry>)
    requires DistinctIds(list)
    ensures |Ids(list)| == |list|
  {
    if list != [] {
      var n := |list| - 1;
      var init := list[..n];
      assert DistinctIds(init) by {
        forall i, j | 0 <= i < j < |init| ensures init[i].id != init[j].id {
          assert init[i] == list[i] && init[j] == list[j];
        }
      }
      IdsCount(init);
      assert Ids(list) == Ids(init) + {list[n].id} by {
        forall x | x in Ids(list) ensures x in Ids(init) + {list[n].id} {
          var i :| 0 <= i < |list| && list[i].id == x;
          if i < n {
            assert init[i].id == x;
          }
        }
        forall x | x in Ids(init) ensures x in Ids(list) {
          var i :| 0 <= i < |init| && init[i].id == x;
          assert list[i].id == x;
        }
      }
      assert list[n].id !in Ids(init);
    }
  }

  /** Part way through a prefix scan: the matching keys are split between those
      still pending and those already collected, each once, with its record. */
  predicate ScanState(m: map<string, MonitorRecord>, prefix: string, pending: set<string>, docs: seq<Entry>) {
    && pending + Ids(docs) == MatchingKeys(m, prefix)
    && pending !! Ids(docs)
    && (forall e | e in docs :: e.id in m && m[e.id] == e.value)
    && DistinctIds(docs)
  }

  /** The scan starts with every matching key pending. */
  lemma ScanStart(m: map<string, MonitorRecord>, prefix: string)
    ensures ScanState(m, prefix, MatchingKeys(m, prefix), [])
  {
    assert Ids([]) == {};
  }

  /** Collecting one pending key keeps the scan's state. */
  lemma ScanStep(m: map<string, MonitorRecord>, prefix: string, pending: set<string>, docs: seq<Entry>, k: string)
    requires ScanState(m, prefix, pending, docs) && k in pending
    ensures k in m
    ensures ScanState(m, prefix, pending - {k}, docs + [Entry(k, m[k])])
  {
    AppendEntry(docs, Entry(k, m[k]));
  }

  /** A finished scan, sorted by expiry, is a listing. */
  lemma ScanSorted(m: map<string, MonitorRecord>, prefix: string, docs: seq<Entry>)
    requires ScanState(m, prefix, {}, docs)
    ensures IsListing(m, prefix, SortByExpiry(docs))
  {
    SortByExpiryFacts(docs);
  }

  /** Every stored record shows up in the full listing, since every key carries the prefix. */
  lemma FullListingHasAll(m: map<string, MonitorRecord>, list: seq<Entry>)
    requires forall k | k in m :: k == MonitorKey(m[k].domain, m[k].uri)
    requires IsListing(m, ListPrefix(""), list)
    ensures Ids(list) == m.Keys
  {
    assert ListPrefix("") == Prefix;
    forall k | k in m ensures StartsWith(k, Prefix) {
      var r := m[k];
      assert Prefix + "/" + r.domain + "/" == Prefix + ("/" + r.domain + "/");
      StartsWithConcat(k, Prefix, "/" + r.domain + "/");
    }
    assert MatchingKeys(m, Prefix) == m.Keys;
  }

  /** A domain's listing holds every record registered under that domain. */
  lemma DomainListingHasOwn(m: map<string, MonitorRecord>, domain: string, uri: string, list: seq<Entry>)
    requires domain != "" && MonitorKey(domain, uri) in m
    requires IsListing(m, ListPrefix(domain), list)
    ensures MonitorKey(domain, uri) in Ids(list)
  {
    var k := MonitorKey(domain, uri);
    assert Prefix + "/" + domain + "/" == (Prefix + "/" + domain) + "/";
    StartsWithConcat(k, Prefix + "/" + domain, "/");
  }

  /** The prefix has no trailing slash, so a domain's listing also holds the
      records of any domain it is a prefix of: `example.co` lists `example.com`. */
  lemma DomainListingTakesLookalike(m: map<string, MonitorRecord>, uri: string, list: seq<Entry>)
    requires MonitorKey("example.com", uri) in m
    requires IsListing(m, ListPrefix("example.co"), list)
    ensures MonitorKey("example.com", uri) in Ids(list)
  {
    var k := MonitorKey("example.com", uri);
    assert Prefix + "/" + "example.com" + "/" == ListPrefix("example.co") + "m/";
    StartsWithConcat(k, ListPrefix("example.co"), "m/");
  }

  /** Listings of one store under one prefix hold the same entries, and as many;
      they can differ only in how records of equal expiry are ordered. */
  lemma ListingsAgree(m: map<string, MonitorRecord>, prefix: string, a: seq<Entry>, b: seq<Entry>)
    requires IsListing(m, prefix, a) && IsListing(m, prefix, b)
    ensures forall e :: e in a <==> e in b
    ensures |a| == |b|
  {
    forall e | e in a ensures e in b {
      var i :| 0 <= i < |a| && a[i] == e;
      assert e.id in Ids(b);
      var j :| 0 <= j < |b| && b[j].id == e.id;
      assert b[j] in b;
    }
    forall e | e in b ensures e in a {
      var i :| 0 <= i < |b| && b[i] == e;
      assert e.id in Ids(a);
      var j :| 0 <= j < |a| && a[j].id == e.id;
      assert a[j] in a;
    }
    IdsCount(a);
    IdsCount(b);
  }
}
