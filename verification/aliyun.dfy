/** The Alibaba Cloud DNS provider, pkg/provider/aliyun.go: the page-number loops over
    `DescribeDomains` and `DescribeDomainRecords` and the mapping of SDK items onto the common
    entities. The SDK calls are `Listing` oracles; the rendering of update timestamps is the
    `timeText` parameter. */
module Aliyun {
  import opened Wrappers
  import opened Public
  import opened Provider
  import opened Paging
  import FanOut
  import Decimal

  /** A zone as `DescribeDomains` lists it. */
  datatype ZoneItem = ZoneItem(domainId: string, domainName: string, remark: string)

  /** A record as `DescribeDomainRecords` lists it. */
  datatype RecordItem = RecordItem(
    recordId: string, recordType: string, rr: string, value: string, ttl: int, weight: int,
    status: string, remark: string, updateTimestamp: int)

  const DomainPageSize: nat := 100
  const RecordPageSize: nat := 500

  /** Both Aliyun loops: page 1, 2, ... of `size` items until a short page; an error discards
      everything gathered. */
  function PagedList<T>(l: Listing<T>, size: nat): (r: Result<seq<T>, string>)
    requires size > 0
    ensures r.Ok? ==> r.value == l.items
    ensures r.Err? ==> exists j :: l.failure(j) == Some(r.error)
  {
    ShortPageFromSpec(l, size, 0);
    var o := ShortPageFrom(l, size, 0);
    if o.err.Some? then Err(o.err.value) else Ok(o.items)
  }

  /** With no failing request the listing is complete, after floor(n / size) + 1 requests
      (a last, short page is always asked for). */
  lemma PagedListComplete<T>(l: Listing<T>, size: nat)
    requires size > 0
    requires forall j :: l.failure(j).None?
    ensures PagedList(l, size) == Ok(l.items)
    ensures ShortPageFrom(l, size, 0).requests == |l.items| / size + 1
  {
    ShortPageComplete(l, size);
  }

  /** A failing request past the short page is never made, so it cannot fail the listing. */
  lemma PagedListIgnoresLaterFailures<T>(l: Listing<T>, size: nat)
    requires size > 0
    requires forall j: nat :: j <= |l.items| / size ==> l.failure(j).None?
    ensures PagedList(l, size) == Ok(l.items)
  {
    ShortPageFromSpec(l, size, 0);
    var o := ShortPageFrom(l, size, 0);
    var last := o.requests - 1;
    if last > 0 {
      AtMostQuotient(|l.items|, size, last);
    }
    assert l.failure(last).None?;
    assert o.items == Slice(l.items, 0, |l.items|);
  }

  /** One zone in the common shape: always "enable", with no registration dates. */
  function ToDomain(account: Account, z: ZoneItem): (d: Domain)
    ensures d.cloudProvider == account.cloudProvider && d.cloudName == account.cloudName
    ensures d.domainID == z.domainId && d.domainName == z.domainName && d.domainRemark == z.remark
    ensures d.domainStatus == "enable"
    ensures d.createdDate == "" && d.expiryDate == "" && d.daysUntilExpiry == 0
  {
    Domain(account.cloudProvider, account.cloudName, z.domainId, z.domainName, z.remark, "enable", "", "", 0)
  }

  /** `ListDomains`: the zones in listing order, or the listing's error. */
  function ListDomains(account: Account, zones: Listing<ZoneItem>): (r: Result<seq<Domain>, string>)
    ensures r.Ok? <==> PagedList(zones, DomainPageSize).Ok?
    ensures r.Ok? ==> |r.value| == |zones.items|
    ensures r.Ok? ==> forall i :: 0 <= i < |zones.items| ==> r.value[i] == ToDomain(account, zones.items[i])
  {
    match PagedList(zones, DomainPageSize)
    case Err(e) => Err(e)
    case Ok(zs) => Ok(seq(|zs|, i requires 0 <= i < |zs| => ToDomain(account, zs[i])))
  }

  /** One record in the common shape: the full name is the host record, a dot and the zone. */
  function ToRecord(account: Account, timeText: int -> string, domain: string, v: RecordItem): (r: Record)
    ensures r.cloudProvider == account.cloudProvider && r.cloudName == account.cloudName
    ensures r.domainName == domain && r.recordID == v.recordId && r.recordName == v.rr
    ensures r.recordValue == v.value && r.fullRecord == v.rr + "." + domain
    ensures r.recordTTL == Decimal.IntText(v.ttl) && r.recordWeight == Decimal.IntText(v.weight)
    ensures r.recordStatus == OneStatus(v.status) && r.updateTime == timeText(v.updateTimestamp)
    ensures r.recordType == v.recordType && r.recordRemark == v.remark
  {
    Record(account.cloudProvider, account.cloudName, domain, v.recordId, v.recordType, v.rr, v.value,
      Decimal.IntText(v.ttl), Decimal.IntText(v.weight), OneStatus(v.status), v.remark,
      timeText(v.updateTimestamp), v.rr + "." + domain)
  }

  /** What `getRecordList` hands back for a zone: its records, or nil after an error. */
  function RecordsOrNil(l: Listing<RecordItem>): seq<RecordItem> {
    match PagedList(l, RecordPageSize)
    case Ok(rs) => rs
    case Err(_) => []
  }

  /** What each goroutine stores: the records, or the nil list of a failed listing. */
  function Store(fetch: string -> Listing<RecordItem>): Domain -> Option<seq<RecordItem>> {
    (d: Domain) => Some(RecordsOrNil(fetch(d.domainName)))
  }

  /** `ListRecords`: fails only when the cached domain list is unavailable. */
  function ListRecords(account: Account, timeText: int -> string, domains: Result<seq<Domain>, string>,
                       fetch: string -> Listing<RecordItem>): (r: Result<seq<Record>, string>)
    ensures domains.Err? ==> r == Err(domains.error)
    ensures domains.Ok? ==> r.Ok?
  {
    match domains
    case Err(e) => Err(e)
    case Ok(ds) => Ok(FanOut.Emit(ds, Store(fetch), (name: string, v: RecordItem) => ToRecord(account, timeText, name, v)))
  }

  /** The records are exactly the items of the cached domains whose listing succeeded; a
      domain whose listing failed contributes nothing. */
  lemma ListRecordsMembership(account: Account, timeText: int -> string, ds: seq<Domain>,
                              fetch: string -> Listing<RecordItem>, rec: Record)
    ensures rec in ListRecords(account, timeText, Ok(ds), fetch).value <==>
      exists i, v :: 0 <= i < |ds| && PagedList(fetch(ds[i].domainName), RecordPageSize).Ok?
                     && v in fetch(ds[i].domainName).items
                     && rec == ToRecord(account, timeText, ds[i].domainName, v)
  {
    var store := Store(fetch);
    var toItem := (name: string, v: RecordItem) => ToRecord(account, timeText, name, v);
    var fetched := (name: string) => Some(RecordsOrNil(fetch(name)));
    FanOut.EmitMembership(ds, store, toItem, rec);
    var m := FanOut.Gather(ds, store);
    if exists name, v :: name in m && v in m[name] && rec == toItem(name, v) {
      var name, v :| name in m && v in m[name] && rec == toItem(name, v);
      FanOut.GatherByName(ds, store, fetched, name);
      var i :| 0 <= i < |ds| && ds[i].domainName == name;
      assert PagedList(fetch(ds[i].domainName), RecordPageSize).Ok?;
      assert v in fetch(ds[i].domainName).items;
    }
    if exists i, v :: 0 <= i < |ds| && PagedList(fetch(ds[i].domainName), RecordPageSize).Ok?
                      && v in fetch(ds[i].domainName).items
                      && rec == ToRecord(account, timeText, ds[i].domainName, v) {
      var i, v :| 0 <= i < |ds| && PagedList(fetch(ds[i].domainName), RecordPageSize).Ok?
                  && v in fetch(ds[i].domainName).items
                  && rec == ToRecord(account, timeText, ds[i].domainName, v);
      FanOut.GatherByName(ds, store, fetched, ds[i].domainName);
      assert ds[i].domainName in m && v in m[ds[i].domainName] && rec == toItem(ds[i].domainName, v);
    }
  }
}
