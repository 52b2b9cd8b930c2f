/** The Cloudflare provider, pkg/provider/cloudflare.go: zones with their registrar dates,
    and the paged `ListDNSRecords` loop that stops on the reported total. The API calls are
    oracles: `ZoneIDByName` is a `Result`, the record pages a `Listing`, the registrar lookup
    a function from zone name to dates. */
module Cloudflare {
  import opened Wrappers
  import opened Public
  import opened Provider
  import opened Paging
  import FanOut
  import Decimal

  /** A zone as `ListZones` lists it. */
  datatype Zone = Zone(id: string, name: string, status: string)

  /** A record as `ListDNSRecords` lists it. */
  datatype DNSRecord = DNSRecord(id: string, name: string, recordType: string, ttl: int)

  const RecordPageSize: nat := 2

  /** One zone in the common shape. The zone's name stands in for the account's cloud name
      and the status is passed through unnormalised. */
  function ToDomain(account: Account, z: Zone, reg: Registration): (d: Domain)
    ensures d.cloudProvider == account.cloudProvider
    ensures d.cloudName == z.name && d.domainName == z.name && d.domainID == z.id
    ensures d.domainRemark == "" && d.domainStatus == z.status
    ensures d.createdDate == reg.createdDate && d.expiryDate == reg.expiryDate
    ensures d.daysUntilExpiry == reg.daysUntilExpiry
  {
    Domain(account.cloudProvider, z.name, z.id, z.name, "", z.status, reg.createdDate, reg.expiryDate, reg.daysUntilExpiry)
  }

  /** `ListDomains`: a failed zone listing fails the call; otherwise one domain per zone. */
  function ListDomains(account: Account, zones: Result<seq<Zone>, string>, registrar: string -> Registration): (r: Result<seq<Domain>, string>)
    ensures zones.Err? ==> r == Err(zones.error)
    ensures zones.Ok? ==> r.Ok? && |r.value| == |zones.value|
    ensures zones.Ok? ==> forall i :: 0 <= i < |zones.value| ==>
      r.value[i] == ToDomain(account, zones.value[i], registrar(zones.value[i].name))
  {
    match zones
    case Err(e) => Err(e)
    case Ok(zs) => Ok(seq(|zs|, i requires 0 <= i < |zs| => ToDomain(account, zs[i], registrar(zs[i].name))))
  }

  /** `getRecordList`: the zone id lookup, then pages 1, 2, ... of two records until
      `page * 2` exceeds the total; any error discards what was gathered. */
  function GetRecordList(zone: Result<Listing<DNSRecord>, string>): (r: Result<seq<DNSRecord>, string>)
    ensures zone.Err? ==> r == Err(zone.error)
    ensures zone.Ok? && r.Ok? ==> r.value == zone.value.items
    ensures zone.Ok? && r.Err? ==> exists j :: zone.value.failure(j) == Some(r.error)
  {
    match zone
    case Err(e) => Err(e)
    case Ok(l) =>
      TotalStopIsShortPage(l, RecordPageSize, 0);
      ShortPageFromSpec(l, RecordPageSize, 0);
      var o := TotalStopFrom(l, RecordPageSize, 0);
      if o.err.Some? then Err(o.err.value) else Ok(o.items)
  }

  /** With no failing request every record is gathered in floor(n / 2) + 1 requests: the
      loop asks for one more page when the total is even. */
  lemma GetRecordListComplete(l: Listing<DNSRecord>)
    requires forall j :: l.failure(j).None?
    ensures GetRecordList(Ok(l)) == Ok(l.items)
    ensures TotalStopFrom(l, RecordPageSize, 0).requests == |l.items| / 2 + 1
  {
    TotalStopIsShortPage(l, RecordPageSize, 0);
    ShortPageComplete(l, RecordPageSize);
  }

  /** One record in the common shape: the record's own name is its full name, the status is
      always "enable", and value, weight and update time stay empty. */
  function ToRecord(account: Account, domain: string, v: DNSRecord): (r: Record)
    ensures r.cloudProvider == account.cloudProvider && r.cloudName == account.cloudName
    ensures r.domainName == domain && r.recordID == v.id && r.recordType == v.recordType
    ensures r.recordName == v.name && r.fullRecord == v.name
    ensures r.recordTTL == Decimal.IntText(v.ttl) && r.recordStatus == "enable"
    ensures r.recordValue == "" && r.recordWeight == "" && r.recordRemark == "" && r.updateTime == ""
  {
    Record(account.cloudProvider, account.cloudName, domain, v.id, v.recordType, v.name, "",
      Decimal.IntText(v.ttl), "", "enable", "", "", v.name)
  }

  /** What each goroutine stores: the records, or nothing at all after an error. */
  function Store(fetch: string -> Result<Listing<DNSRecord>, string>): Domain -> Option<seq<DNSRecord>> {
    (d: Domain) => Fetched(fetch, d.domainName)
  }

  /** The records of one zone when its listing succeeded. */
  function Fetched(fetch: string -> Result<Listing<DNSRecord>, string>, name: string): (o: Option<seq<DNSRecord>>)
    ensures o.Some? <==> GetRecordList(fetch(name)).Ok?
    ensures o.Some? ==> o.value == fetch(name).value.items
  {
    match GetRecordList(fetch(name))
    case Ok(rs) => Some(rs)
    case Err(_) => None
  }

  /** `ListRecords`: fails only when the cached domain list is unavailable. */
  function ListRecords(account: Account, domains: Result<seq<Domain>, string>,
                       fetch: string -> Result<Listing<DNSRecord>, string>): (r: Result<seq<Record>, string>)
    ensures domains.Err? ==> r == Err(domains.error)
    ensures domains.Ok? ==> r.Ok?
  {
    match domains
    case Err(e) => Err(e)
    case Ok(ds) => Ok(FanOut.Emit(ds, Store(fetch), (name: string, v: DNSRecord) => ToRecord(account, name, v)))
  }

  /** The records are exactly the listed records of the cached domains whose zone lookup and
      listing succeeded. */
  lemma ListRecordsMembership(account: Account, ds: seq<Domain>, fetch: string -> Result<Listing<DNSRecord>, string>, rec: Record)
    ensures rec in ListRecords(account, Ok(ds), fetch).value <==>
      exists i, v :: 0 <= i < |ds| && GetRecordList(fetch(ds[i].domainName)).Ok?
                     && v in fetch(ds[i].domainName).value.items
                     && rec == ToRecord(account, ds[i].domainName, v)
  {
    var store := Store(fetch);
    var toItem := (name: string, v: DNSRecord) => ToRecord(account, name, v);
    var fetched := (name: string) => Fetched(fetch, name);
    FanOut.EmitMembership(ds, store, toItem, rec);
    var m := FanOut.Gather(ds, store);
    if exists name, v :: name in m && v in m[name] && rec == toItem(name, v) {
      var name, v :| name in m && v in m[name] && rec == toItem(name, v);
      FanOut.GatherByName(ds, store, fetched, name);
      var i :| 0 <= i < |ds| && ds[i].domainName == name;
      assert GetRecordList(fetch(ds[i].domainName)).Ok?;
      assert v in fetch(ds[i].domainName).value.items;
    }
    if exists i, v :: 0 <= i < |ds| && GetRecordList(fetch(ds[i].domainName)).Ok?
                      && v in fetch(ds[i].domainName).value.items
                      && rec == ToRecord(account, ds[i].domainName, v) {
      var i, v :| 0 <= i < |ds| && GetRecordList(fetch(ds[i].domainName)).Ok?
                  && v in fetch(ds[i].domainName).value.items
                  && rec == ToRecord(account, ds[i].domainName, v);
      FanOut.GatherByName(ds, store, fetched, ds[i].domainName);
      assert ds[i].domainName in m && v in m[ds[i].domainName] && rec == toItem(ds[i].domainName, v);
    }
  }
}
