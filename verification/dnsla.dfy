/** The DNS.LA provider, pkg/provider/dnsla.go: one domain page and one record page per
    zone, the numeric record-type table and the mapping onto the common entities. The API
    calls are `Result` oracles; timestamp rendering and the day count are parameters. */
module DnsLa {
  import opened Wrappers
  import opened Public
  import opened Provider
  import FanOut
  import Seqs
  import Decimal
  import DnsLaLib

  /** A zone as the domain list reports it (times are Unix milliseconds). */
  datatype DomainItem = DomainItem(id: string, domain: string, state: int, createdAt: int, expiredAt: int)

  /** A record as the record list reports it. */
  datatype RecordItem = RecordItem(data: string, recordType: int, displayHost: string, ttl: int, weight: int)

  /** The record-type codes the exporter knows, with their names. */
  const TypeTable: seq<(int, string)> :=
    [(1, "A"), (2, "NS"), (5, "CNAME"), (15, "MX"), (16, "TXT"), (28, "AAAA"), (33, "SRV"), (257, "CAA"), (256, "URL转发")]

  const UnknownType: string := "Unknown"

  /** `getRecordType`. */
  function RecordTypeName(code: int): (name: string)
    ensures name != UnknownType <==> (code, name) in TypeTable
  {
    if code == 1 then "A"
    else if code == 2 then "NS"
    else if code == 5 then "CNAME"
    else if code == 15 then "MX"
    else if code == 16 then "TXT"
    else if code == 28 then "AAAA"
    else if code == 33 then "SRV"
    else if code == 257 then "CAA"
    else if code == 256 then "URL转发"
    else "Unknown"
  }

  /** Every code of the table is named by the table, so no known code is "Unknown". */
  lemma KnownCodesNamed(k: nat)
    requires k < |TypeTable|
    ensures RecordTypeName(TypeTable[k].0) == TypeTable[k].1 != UnknownType
  {
  }

  /** Two known codes never share a name. */
  lemma RecordTypeNameInjective(a: int, b: int)
    requires RecordTypeName(a) != UnknownType && RecordTypeName(a) == RecordTypeName(b)
    ensures a == b
  {
  }

  /** A decimal state is never one of the spellings `oneStatus` rewrites, so DNS.LA's states
      ("1", "2", ...) reach the cache unchanged. */
  lemma NumericStatePassesThrough(state: int)
    ensures OneStatus(Decimal.IntText(state)) == Decimal.IntText(state)
  {
    var s := Decimal.IntText(state);
    assert s[0] != 'E' && s[0] != 'A' && s[0] != 'D';
  }

  /** One zone in the common shape: its domain name doubles as its remark. */
  function ToDomain(account: Account, v: DomainItem, timeText: int -> string, daysOf: string -> int): (d: Domain)
    ensures d.cloudProvider == account.cloudProvider && d.cloudName == account.cloudName
    ensures d.domainID == v.id && d.domainName == v.domain && d.domainRemark == v.domain
    ensures d.domainStatus == Decimal.IntText(v.state)
    ensures d.createdDate == timeText(v.createdAt) && d.expiryDate == timeText(v.expiredAt)
    ensures d.daysUntilExpiry == daysOf(d.expiryDate)
  {
    NumericStatePassesThrough(v.state);
    Domain(account.cloudProvider, account.cloudName, v.id, v.domain, v.domain, OneStatus(Decimal.IntText(v.state)),
      timeText(v.createdAt), timeText(v.expiredAt), daysOf(timeText(v.expiredAt)))
  }

  /** The one page the domain list asks for. */
  const DomainPage: DnsLaLib.PageOption := DnsLaLib.NewPageOption(1, 500)

  /** The one page each record list asks for: at most 1000 records per zone. */
  const RecordPage: DnsLaLib.PageOption := DnsLaLib.NewPageOption(1, 1000)

  /** Both requests ask for the first page, of 500 zones and of 1000 records. */
  lemma RequestPages()
    ensures DomainPage == DnsLaLib.PageOption(1, 500) && RecordPage == DnsLaLib.PageOption(1, 1000)
    ensures DnsLaLib.Get(DnsLaLib.DomainListQuery(DomainPage, []), "pageSize") == Decimal.IntText(500)
    ensures forall id :: DnsLaLib.Get(DnsLaLib.RecordListQuery(RecordPage, id, []), "domainId") == id
  {
  }

  /** `ListDomains`: a failed domain list fails the call; otherwise one domain per zone. */
  function ListDomains(account: Account, page: Result<seq<DomainItem>, string>,
                       timeText: int -> string, daysOf: string -> int): (r: Result<seq<Domain>, string>)
    ensures page.Err? ==> r == Err(page.error)
    ensures page.Ok? ==> r.Ok? && |r.value| == |page.value|
    ensures page.Ok? ==> forall i :: 0 <= i < |page.value| ==> r.value[i] == ToDomain(account, page.value[i], timeText, daysOf)
  {
    match page
    case Err(e) => Err(e)
    case Ok(vs) => Ok(seq(|vs|, i requires 0 <= i < |vs| => ToDomain(account, vs[i], timeText, daysOf)))
  }

  /** What `getRecordList` hands back, or a crash of the whole exporter. */
  datatype Fetch = Fetched(records: seq<RecordItem>, err: Option<string>) | Panicked

  /** `getRecordList` as written: after a failed request it still reads the results out of
      the nil response, which panics. */
  function AsWrittenGetRecordList(response: Result<seq<RecordItem>, string>): Fetch {
    match response
    case Ok(rs) => Fetched(rs, None)
    case Err(_) => Panicked
  }

  /** `getRecordList` as intended: no records and the error. */
  function GetRecordList(response: Result<seq<RecordItem>, string>): (f: Fetch)
    ensures f.Fetched?
    ensures response.Ok? ==> f == Fetched(response.value, None)
    ensures response.Err? ==> f == Fetched([], Some(response.error))
  {
    match response
    case Ok(rs) => Fetched(rs, None)
    case Err(e) => Fetched([], Some(e))
  }

  /** The two agree on every successful request; on a failed one the code as written
      crashes where the intended one yields an empty list, which `ListRecords` skips. */
  lemma FailedRecordRequestPanics(response: Result<seq<RecordItem>, string>)
    ensures response.Ok? ==> AsWrittenGetRecordList(response) == GetRecordList(response)
    ensures response.Err? ==> AsWrittenGetRecordList(response).Panicked?
    ensures response.Err? ==> GetRecordList(response).records == []
  {
  }

  /** One record in the common shape: the data is both id and value, the display host both
      name and remark. */
  function ToRecord(account: Account, domain: string, v: RecordItem): (r: Record)
    ensures r.cloudProvider == account.cloudProvider && r.cloudName == account.cloudName
    ensures r.domainName == domain && r.recordID == v.data && r.recordValue == v.data
    ensures r.recordName == v.displayHost && r.recordRemark == v.displayHost
    ensures r.fullRecord == v.displayHost + "." + domain
    ensures r.recordType == RecordTypeName(v.recordType)
    ensures r.recordTTL == Decimal.IntText(v.ttl) && r.recordWeight == Decimal.IntText(v.weight)
    ensures r.recordStatus == "enable" && r.updateTime == ""
  {
    Record(account.cloudProvider, account.cloudName, domain, v.data, RecordTypeName(v.recordType), v.displayHost,
      v.data, Decimal.IntText(v.ttl), Decimal.IntText(v.weight), "enable", v.displayHost, "", v.displayHost + "." + domain)
  }

  /** The records fetched for a zone id. */
  function RecordsOf(fetch: string -> Result<seq<RecordItem>, string>, id: string): seq<RecordItem> {
    GetRecordList(fetch(id)).records
  }

  /** What each goroutine stores under the domain's name: the records fetched by zone id,
      unless there are none. */
  function Store(fetch: string -> Result<seq<RecordItem>, string>): Domain -> Option<seq<RecordItem>> {
    (d: Domain) => if |RecordsOf(fetch, d.domainID)| == 0 then None else Some(RecordsOf(fetch, d.domainID))
  }

  /** `ListRecords`: fails only when the cached domain list is unavailable. */
  function ListRecords(account: Account, domains: Result<seq<Domain>, string>,
                       fetch: string -> Result<seq<RecordItem>, string>): (r: Result<seq<Record>, string>)
    ensures domains.Err? ==> r == Err(domains.error)
    ensures domains.Ok? ==> r.Ok?
  {
    match domains
    case Err(e) => Err(e)
    case Ok(ds) => Ok(FanOut.Emit(ds, Store(fetch), (name: string, v: RecordItem) => ToRecord(account, name, v)))
  }

  /** Every record comes from a record fetched for a cached domain, which therefore had a
      successful, non-empty record list. */
  lemma ListRecordsSound(account: Account, ds: seq<Domain>, fetch: string -> Result<seq<RecordItem>, string>, rec: Record)
    requires rec in ListRecords(account, Ok(ds), fetch).value
    ensures exists i, v :: 0 <= i < |ds| && fetch(ds[i].domainID).Ok? && v in fetch(ds[i].domainID).value
                           && rec == ToRecord(account, ds[i].domainName, v)
  {
    var store := Store(fetch);
    var toItem := (name: string, v: RecordItem) => ToRecord(account, name, v);
    FanOut.EmitMembership(ds, store, toItem, rec);
    var m := FanOut.Gather(ds, store);
    var name, v :| name in m && v in m[name] && rec == toItem(name, v);
    FanOut.GatherSpec(ds, store, name);
    var i :| 0 <= i < |ds| && ds[i].domainName == name && store(ds[i]) == Some(m[name]);
    assert v in RecordsOf(fetch, ds[i].domainID);
    assert fetch(ds[i].domainID).Ok? && v in fetch(ds[i].domainID).value && rec == ToRecord(account, ds[i].domainName, v);
  }

  /** Every fetched record of the last cached domain of each name is exported. */
  lemma ListRecordsComplete(account: Account, ds: seq<Domain>, fetch: string -> Result<seq<RecordItem>, string>,
                            i: nat, v: RecordItem)
    requires i < |ds| && forall j :: i < j < |ds| ==> ds[j].domainName != ds[i].domainName
    requires fetch(ds[i].domainID).Ok? && v in fetch(ds[i].domainID).value
    ensures ToRecord(account, ds[i].domainName, v) in ListRecords(account, Ok(ds), fetch).value
  {
    var store := Store(fetch);
    var toItem := (name: string, v: RecordItem) => ToRecord(account, name, v);
    assert store(ds[i]) == Some(fetch(ds[i].domainID).value);
    FanOut.EmitComplete(ds, store, toItem, i, v);
  }
}
