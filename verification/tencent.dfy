/** The Tencent Cloud (DNSPod) provider, pkg/provider/tencent.go: the record and
    registration page loops, the registration-date lookup and the mapping of SDK items
    onto the common entities. The SDK calls are the `Listing` oracles. */
module Tencent {
  import opened Wrappers
  import opened Public
  import opened Provider
  import opened Paging
  import FanOut
  import Decimal

  /** A zone as `DescribeDomainList` lists it. */
  datatype ZoneItem = ZoneItem(domainId: nat, name: string, remark: string, status: string)

  /** A registration as `DescribeDomainNameList` lists it. */
  datatype RegistrationItem = RegistrationItem(domainName: string, creationDate: string, expirationDate: string)

  /** A record as `DescribeRecordList` lists it. */
  datatype RecordItem = RecordItem(
    recordId: nat, recordType: string, name: string, value: string, ttl: nat, weight: nat,
    status: string, remark: string, updatedOn: string)

  const RecordPageLimit: nat := 3000
  const RegistrationPageLimit: nat := 100

  /** The SDK error code that means "this zone has no records". */
  const NoDataOfRecord: string := "ResourceNotFound.NoDataOfRecord"

  /** `getRecordList`: offsets 0, 3000, 6000, ... until an empty page. What was gathered is
      kept on every error; "no data" is not an error. */
  function GetRecordList(l: Listing<RecordItem>): (o: Outcome<RecordItem>)
    ensures o.items <= l.items
    ensures o.err != Some(NoDataOfRecord)
    ensures o.requests >= 1
    ensures o.err == None ==> o.items == l.items || l.failure(o.requests - 1) == Some(NoDataOfRecord)
    ensures o.err != None ==> l.failure(o.requests - 1) == o.err
  {
    OffsetFromSpec(l, RecordPageLimit, 0);
    var o := OffsetFrom(l, RecordPageLimit, 0);
    SlicePrefix(l.items, (o.requests - 1) * RecordPageLimit);
    SlicePrefix(l.items, |l.items|);
    if o.err == Some(NoDataOfRecord) then o.(err := None) else o
  }

  /** With no failing request, every record is gathered, in ceil(n / 3000) + 1 requests. */
  lemma GetRecordListComplete(l: Listing<RecordItem>)
    requires forall j :: l.failure(j).None?
    ensures GetRecordList(l).items == l.items && GetRecordList(l).err == None
    ensures GetRecordList(l).requests == (|l.items| + RecordPageLimit - 1) / RecordPageLimit + 1
  {
    OffsetComplete(l, RecordPageLimit);
  }

  /** `getDomainNameList`: offsets 0, 100, 200, ... until an empty page; an error discards
      everything gathered. */
  function GetDomainNameList(l: Listing<RegistrationItem>): (r: Result<seq<RegistrationItem>, string>)
    ensures r.Ok? ==> r.value == l.items
    ensures r.Err? ==> exists j :: l.failure(j) == Some(r.error)
  {
    OffsetFromSpec(l, RegistrationPageLimit, 0);
    var o := OffsetFrom(l, RegistrationPageLimit, 0);
    if o.err.Some? then Err(o.err.value) else Ok(o.items)
  }

  /** The position of the last registration named `name`. */
  function LastMatch(regs: seq<RegistrationItem>, name: string): (r: Option<nat>)
    ensures r.Some? ==> r.value < |regs| && regs[r.value].domainName == name
    ensures r.Some? ==> forall k :: r.value < k < |regs| ==> regs[k].domainName != name
    ensures r.None? ==> forall k :: 0 <= k < |regs| ==> regs[k].domainName != name
    decreases |regs|
  {
    if |regs| == 0 then None
    else if regs[|regs| - 1].domainName == name then Some(|regs| - 1)
    else LastMatch(regs[..|regs| - 1], name)
  }

  /** `getDomainCreateAndExpiryDate`: the loop over every registration, each match
      overwriting the dates; the day count (from the `daysOf` clock oracle) is only
      overwritten when the match has an expiry date. */
  function DomainDates(regs: seq<RegistrationItem>, name: string, daysOf: string -> int): (d: Registration)
    ensures LastMatch(regs, name).None? ==> d == Registration("", "", 0)
    ensures LastMatch(regs, name).Some? ==>
      var v := regs[LastMatch(regs, name).value];
      && d.createdDate == v.creationDate && d.expiryDate == v.expirationDate
      && (v.expirationDate != "" ==> d.daysUntilExpiry == daysOf(v.expirationDate))
    ensures d.daysUntilExpiry == 0 ||
      exists k :: 0 <= k < |regs| && regs[k].domainName == name && regs[k].expirationDate != ""
                  && d.daysUntilExpiry == daysOf(regs[k].expirationDate)
    decreases |regs|
  {
    if |regs| == 0 then Registration("", "", 0)
    else
      var init := regs[..|regs| - 1];
      var before := DomainDates(init, name, daysOf);
      var v := regs[|regs| - 1];
      assert forall k :: 0 <= k < |init| ==> init[k] == regs[k];
      if v.domainName != name then before
      else Registration(v.creationDate, v.expirationDate, if v.expirationDate != "" then daysOf(v.expirationDate) else before.daysUntilExpiry)
  }

  /** One zone in the common shape. */
  function ToDomain(account: Account, z: ZoneItem, dates: Registration): (d: Domain)
    ensures d.cloudProvider == account.cloudProvider && d.cloudName == account.cloudName
    ensures d.domainID == Decimal.NatText(z.domainId) && d.domainName == z.name && d.domainRemark == z.remark
    ensures d.domainStatus == OneStatus(z.status)
    ensures d.createdDate == dates.createdDate && d.expiryDate == dates.expiryDate
    ensures d.daysUntilExpiry == dates.daysUntilExpiry
  {
    Domain(account.cloudProvider, account.cloudName, Decimal.NatText(z.domainId), z.name, z.remark,
      OneStatus(z.status), dates.createdDate, dates.expiryDate, dates.daysUntilExpiry)
  }

  /** `ListDomains`: an error of either listing fails the call; otherwise one domain per
      zone, in zone order, dated from the registrations. */
  function ListDomains(account: Account, zones: Result<seq<ZoneItem>, string>,
                       registrations: Listing<RegistrationItem>, daysOf: string -> int): (r: Result<seq<Domain>, string>)
    ensures r.Ok? <==> zones.Ok? && GetDomainNameList(registrations).Ok?
    ensures zones.Err? ==> r == Err(zones.error)
    ensures r.Ok? ==> |r.value| == |zones.value|
    ensures r.Ok? ==> forall i :: 0 <= i < |zones.value| ==>
      r.value[i] == ToDomain(account, zones.value[i], DomainDates(registrations.items, zones.value[i].name, daysOf))
  {
    match zones
    case Err(e) => Err(e)
    case Ok(zs) =>
      match GetDomainNameList(registrations)
      case Err(e) => Err(e)
      case Ok(regs) =>
        Ok(seq(|zs|, i requires 0 <= i < |zs| => ToDomain(account, zs[i], DomainDates(regs, zs[i].name, daysOf))))
  }

  /** One record in the common shape: the full name is the record name, a dot and the zone. */
  function ToRecord(account: Account, domain: string, v: RecordItem): (r: Record)
    ensures r.cloudProvider == account.cloudProvider && r.cloudName == account.cloudName
    ensures r.domainName == domain && r.recordName == v.name && r.recordValue == v.value
    ensures r.fullRecord == v.name + "." + domain
    ensures r.recordStatus == OneStatus(v.status)
    ensures r.recordID == Decimal.NatText(v.recordId) && r.recordTTL == Decimal.NatText(v.ttl)
    ensures r.recordType == v.recordType && r.recordWeight == Decimal.NatText(v.weight)
    ensures r.recordRemark == v.remark && r.updateTime == v.updatedOn
  {
    Record(account.cloudProvider, account.cloudName, domain, Decimal.NatText(v.recordId), v.recordType,
      v.name, v.value, Decimal.NatText(v.ttl), Decimal.NatText(v.weight), OneStatus(v.status), v.remark,
      v.updatedOn, v.name + "." + domain)
  }

  /** What each goroutine stores: whatever `getRecordList` gathered, even on an error. */
  function Store(fetch: string -> Listing<RecordItem>): Domain -> Option<seq<RecordItem>> {
    (d: Domain) => Some(GetRecordList(fetch(d.domainName)).items)
  }

  /** `ListRecords`: fails only when the cached domain list is unavailable. */
  function ListRecords(account: Account, domains: Result<seq<Domain>, string>,
                       fetch: string -> Listing<RecordItem>): (r: Result<seq<Record>, string>)
    ensures domains.Err? ==> r == Err(domains.error)
    ensures domains.Ok? ==> r.Ok?
  {
    match domains
    case Err(e) => Err(e)
    case Ok(ds) => Ok(FanOut.Emit(ds, Store(fetch), (name: string, v: RecordItem) => ToRecord(account, name, v)))
  }

  /** The records are exactly the gathered items of the cached domains, each mapped onto the
      common shape under its domain's name. */
  lemma ListRecordsMembership(account: Account, ds: seq<Domain>, fetch: string -> Listing<RecordItem>, rec: Record)
    ensures rec in ListRecords(account, Ok(ds), fetch).value <==>
      exists i, v :: 0 <= i < |ds| && v in GetRecordList(fetch(ds[i].domainName)).items
                     && rec == ToRecord(account, ds[i].domainName, v)
  {
    var store := Store(fetch);
    var toItem := (name: string, v: RecordItem) => ToRecord(account, name, v);
    var fetched := (name: string) => Some(GetRecordList(fetch(name)).items);
    FanOut.EmitMembership(ds, store, toItem, rec);
    var m := FanOut.Gather(ds, store);
    if exists name, v :: name in m && v in m[name] && rec == toItem(name, v) {
      var name, v :| name in m && v in m[name] && rec == toItem(name, v);
      FanOut.GatherByName(ds, store, fetched, name);
      var i :| 0 <= i < |ds| && ds[i].domainName == name;
      assert v in GetRecordList(fetch(ds[i].domainName)).items;
    }
    if exists i, v :: 0 <= i < |ds| && v in GetRecordList(fetch(ds[i].domainName)).items
                      && rec == ToRecord(account, ds[i].domainName, v) {
      var i, v :| 0 <= i < |ds| && v in GetRecordList(fetch(ds[i].domainName)).items
                  && rec == ToRecord(account, ds[i].domainName, v);
      FanOut.GatherByName(ds, store, fetched, ds[i].domainName);
      assert ds[i].domainName in m && v in m[ds[i].domainName] && rec == toItem(ds[i].domainName, v);
    }
  }

  /** Record statuses come out already normalised: `oneStatus` leaves them as they are. */
  lemma RecordStatusNormalised(account: Account, domain: string, v: RecordItem)
    ensures OneStatus(ToRecord(account, domain, v).recordStatus) == ToRecord(account, domain, v).recordStatus
  {
    OneStatusIdempotent(v.status);
  }
}
