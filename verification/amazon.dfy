/** The Amazon Route 53 provider, pkg/provider/amazon.go: marker-driven listings of hosted
    zones and record sets, the registrar dates, and the expansion of every record set into
    one record per value. The API calls are oracles (`Responses`, a registrar function); the
    rendering of the weight and of the update time are inputs. */
module Amazon {
  import opened Wrappers
  import opened Public
  import opened Provider
  import opened Paging
  import opened Text
  import FanOut
  import Seqs
  import Decimal

  /** A hosted zone as `ListHostedZones` lists it: its id carries a "/hostedzone/" prefix and
      its name a trailing dot. */
  datatype HostedZone = HostedZone(id: string, name: string)

  /** A record set as `ListResourceRecordSets` lists it. `weightText` is the weight as the
      exporter prints it; a set with no `ResourceRecords` has no values. */
  datatype RecordSet = RecordSet(
    name: string, setIdentifier: string, rrType: string, weightText: string,
    ttl: Option<int>, values: seq<string>)

  const HostedZonePrefix: string := "/hostedzone/"

  /** The TTL reported when a record set has none (an alias). */
  const DefaultTTL: string := "300"

  /** One hosted zone in the common shape, dated by the registrar. */
  function ToDomain(account: Account, z: HostedZone, registrar: string -> Registration): (d: Domain)
    ensures d.cloudProvider == account.cloudProvider && d.cloudName == account.cloudName
    ensures d.domainName + "." == z.name || (d.domainName == z.name && !HasSuffix(z.name, "."))
    ensures HasPrefix(z.id, HostedZonePrefix) ==> HostedZonePrefix + d.domainID == z.id
    ensures !HasPrefix(z.id, HostedZonePrefix) ==> d.domainID == z.id
    ensures d.domainRemark == "" && d.domainStatus == "enable"
    ensures var reg := registrar(d.domainName);
      d.createdDate == reg.createdDate && d.expiryDate == reg.expiryDate && d.daysUntilExpiry == reg.daysUntilExpiry
  {
    var name := TrimSuffix(z.name, ".");
    var reg := registrar(name);
    Domain(account.cloudProvider, account.cloudName, TrimPrefix(z.id, HostedZonePrefix), name, "", "enable",
      reg.createdDate, reg.expiryDate, reg.daysUntilExpiry)
  }

  /** `ListDomains`: a failure anywhere in the zone listing fails the call; otherwise one
      domain per hosted zone, in listing order. */
  function ListDomains(account: Account, zones: Responses<HostedZone>, registrar: string -> Registration): (r: Result<seq<Domain>, string>)
    ensures r.Ok? <==> NoPageFails(zones)
    ensures r.Ok? ==> |r.value| == |Seqs.Flatten(zones.pages)|
    ensures r.Ok? ==> forall i :: 0 <= i < |r.value| ==>
      r.value[i] == ToDomain(account, Seqs.Flatten(zones.pages)[i], registrar)
  {
    var o := MarkerLoop(zones);
    match o.err
    case Some(e) => Err(e)
    case None => Ok(seq(|o.items|, i requires 0 <= i < |o.items| => ToDomain(account, o.items[i], registrar)))
  }

  /** The record name as the exporter derives it: a name of more than two labels has the
      first occurrence of the zone name cut out and a trailing dot trimmed; any other name is
      the apex "@". */
  function AsWrittenName(name: string, domain: string): (r: string)
    ensures CountChar(name, '.') < 2 ==> r == "@"
    ensures CountChar(name, '.') >= 2 && Contains(name, domain) ==> |r| <= |name| - |domain|
    ensures CountChar(name, '.') >= 2 && !Contains(name, domain) ==> r + "." == name || r == name
  {
    if |Split(name, '.')| > 2 then TrimSuffix(ReplaceFirst(name, domain, ""), ".") else "@"
  }

  /** The rule as written agrees with the relative name for every name inside a zone whose
      name has a dot, as long as the zone name does not occur in the name before its own
      suffix. */
  lemma AsWrittenAgreesOnPlainNames(host: string, domain: string)
    requires '.' in domain
    requires forall j :: 0 <= j <= |host| ==> !OccursAt(host + "." + domain, domain, j)
    ensures AsWrittenName(host + "." + domain, domain) == host
    ensures RelativeName(host + "." + domain, domain) == host
  {
    var name := host + "." + domain;
    InnerNameIsDeep(host, domain);
    ReplaceZoneSuffix(host, domain);
    TrimSuffixAppended(host, ".");
    assert AsWrittenName(name, domain) == TrimSuffix(host + ".", ".");
    assert name == host + ("." + domain);
    TrimSuffixAppended(host, "." + domain);
  }

  /** The rule as written names the apex of a two-label zone "@", as the relative name does. */
  lemma AsWrittenAgreesAtShallowApex(domain: string)
    requires CountChar(domain, '.') == 1
    ensures AsWrittenName(domain, domain) == RelativeName(domain, domain) == "@"
  {
  }

  /** Cutting out the zone name found at the suffix leaves the host and its dot. */
  lemma ReplaceZoneSuffix(host: string, domain: string)
    requires forall j :: 0 <= j <= |host| ==> !OccursAt(host + "." + domain, domain, j)
    ensures ReplaceFirst(host + "." + domain, domain, "") == host + "."
  {
    var name := host + "." + domain;
    ZoneFoundAtSuffix(host, domain);
    assert name[..|host| + 1] == host + ".";
    assert name[|host| + 1 + |domain|..] == [];
  }

  /** A name inside a zone whose name has a dot has at least two dots. */
  lemma InnerNameIsDeep(host: string, domain: string)
    requires '.' in domain
    ensures |Split(host + "." + domain, '.')| > 2
  {
    var k :| 0 <= k < |domain| && domain[k] == '.';
    CountCharPositive(domain, k);
    CountCharAppend(host, ".", '.');
    CountCharAppend(host + ".", domain, '.');
    assert host + "." + domain == (host + ".") + domain;
    assert CountChar(".", '.') == 1;
  }

  /** When the zone name does not occur earlier, its first occurrence is the suffix. */
  lemma ZoneFoundAtSuffix(host: string, domain: string)
    requires forall j :: 0 <= j <= |host| ==> !OccursAt(host + "." + domain, domain, j)
    ensures Index(host + "." + domain, domain) == Some(|host| + 1)
  {
    var name := host + "." + domain;
    var at := |host| + 1;
    assert OccursAt(name, domain, at) by {
      assert name[at..at + |domain|] == domain;
    }
    var found := IndexFrom(name, domain, 0);
    assert found.Some?;
    assert found.value == at;
  }

  /** The record name relative to its zone: "@" at the apex, otherwise the name with the
      zone suffix removed. */
  function RelativeName(name: string, domain: string): (r: string)
    ensures name == domain ==> r == "@"
    ensures name != domain && HasSuffix(name, "." + domain) ==> r + "." + domain == name
  {
    if name == domain then "@" else TrimSuffix(name, "." + domain)
  }

  /** The full name a relative name stands for. */
  function Absolute(relative: string, domain: string): string {
    if relative == "@" then domain else relative + "." + domain
  }

  /** Relative names round-trip: every name inside the zone (other than a host literally
      named "@") comes back from its relative name. */
  lemma RelativeNameRoundTrip(host: string, domain: string)
    requires host != "@"
    ensures RelativeName(host + "." + domain, domain) == host
    ensures Absolute(RelativeName(host + "." + domain, domain), domain) == host + "." + domain
    ensures Absolute(RelativeName(domain, domain), domain) == domain
  {
    assert |host + "." + domain| > |domain|;
    TrimSuffixAppended(host, "." + domain);
    assert host + "." + domain == host + ("." + domain);
  }

  /** As written, the apex record of a zone with three or more labels ("example.co.uk") is
      named "" instead of "@". */
  lemma ApexOfDeepZoneUnnamed(domain: string)
    requires CountChar(domain, '.') >= 2
    ensures AsWrittenName(domain, domain) == ""
    ensures RelativeName(domain, domain) == "@"
  {
    ReplaceSelf(domain, "");
    assert domain + "" == domain;
  }

  /** A concrete apex: zone "example.co.uk". */
  lemma ApexOfExampleCoUk()
    ensures AsWrittenName("example.co.uk", "example.co.uk") == ""
  {
    assert CountChar("example.co.uk", '.') == 2;
    ApexOfDeepZoneUnnamed("example.co.uk");
  }

  /** As written, a record whose own labels begin with the zone name ("example.com" inside
      zone "example.com") loses the wrong copy: the result starts with a dot. */
  lemma RepeatedZoneNameMisplaced(domain: string)
    requires '.' in domain && domain[|domain| - 1] != '.'
    ensures AsWrittenName(domain + "." + domain, domain) == "." + domain
    ensures RelativeName(domain + "." + domain, domain) == domain
  {
    DoubledNameIsDeep(domain);
    assert domain + "." + domain == domain + ("." + domain);
    ReplaceSelf(domain, "." + domain);
    assert !HasSuffix("." + domain, ".") by {
      assert ("." + domain)[|"." + domain| - 1] == domain[|domain| - 1];
    }
    RelativeNameRoundTrip(domain, domain);
  }

  /** A dotted name written twice, joined by a dot, has more than two labels. */
  lemma DoubledNameIsDeep(domain: string)
    requires '.' in domain
    ensures |Split(domain + "." + domain, '.')| > 2
  {
    var k :| 0 <= k < |domain| && domain[k] == '.';
    CountCharPositive(domain, k);
    CountCharAppend(domain, ".", '.');
    CountCharAppend(domain + ".", domain, '.');
  }

  /** One record for one value of a record set, named relative to its zone. */
  function ToRecord(account: Account, updateTime: string, domain: string, rs: RecordSet, value: string): (r: Record)
    ensures r.cloudProvider == account.cloudProvider && r.cloudName == account.cloudName
    ensures r.domainName == domain && r.recordID == rs.setIdentifier && r.recordType == rs.rrType
    ensures r.recordValue == value && r.recordWeight == rs.weightText
    ensures r.recordStatus == "enable" && r.recordRemark == "" && r.updateTime == updateTime
    ensures r.fullRecord + "." == rs.name || (r.fullRecord == rs.name && !HasSuffix(rs.name, "."))
    ensures r.recordName == RelativeName(r.fullRecord, domain)
    ensures rs.ttl.None? ==> r.recordTTL == DefaultTTL
    ensures rs.ttl.Some? ==> r.recordTTL == Decimal.IntText(rs.ttl.value)
  {
    OneStatusIdempotent("enable");
    var full := TrimSuffix(rs.name, ".");
    Record(account.cloudProvider, account.cloudName, domain, rs.setIdentifier, rs.rrType,
      RelativeName(full, domain), value,
      match rs.ttl case None => DefaultTTL case Some(t) => Decimal.IntText(t),
      rs.weightText, OneStatus("enable"), "", updateTime, full)
  }

  /** A record set expands into one record per value, in value order. */
  function RecordsOf(account: Account, updateTime: string, domain: string, rs: RecordSet): (out: seq<Record>)
    ensures |out| == |rs.values|
    ensures forall k :: 0 <= k < |out| ==> out[k] == ToRecord(account, updateTime, domain, rs, rs.values[k])
  {
    seq(|rs.values|, k requires 0 <= k < |rs.values| => ToRecord(account, updateTime, domain, rs, rs.values[k]))
  }

  /** The records of one record set differ only in their value. */
  lemma RecordsOfDifferOnlyInValue(account: Account, updateTime: string, domain: string, rs: RecordSet, a: nat, b: nat)
    requires a < |rs.values| && b < |rs.values|
    ensures var out := RecordsOf(account, updateTime, domain, rs);
      out[a].(recordValue := "") == out[b].(recordValue := "") && out[a].recordValue == rs.values[a]
  {
  }

  /** `getRecordList`: the record sets, or the nil list of a failed listing. */
  function RecordSets(p: Responses<RecordSet>): (sets: seq<RecordSet>)
    ensures NoPageFails(p) ==> sets == Seqs.Flatten(p.pages)
    ensures !NoPageFails(p) ==> sets == []
  {
    MarkerLoop(p).items
  }

  /** What each goroutine stores under the domain's name: the sets listed by zone id. */
  function Store(fetch: string -> Responses<RecordSet>): Domain -> Option<seq<RecordSet>> {
    (d: Domain) => Some(RecordSets(fetch(d.domainID)))
  }

  /** `ListRecords`: fails only when the cached domain list is unavailable. */
  function ListRecords(account: Account, updateTime: string, domains: Result<seq<Domain>, string>,
                       fetch: string -> Responses<RecordSet>): (r: Result<seq<Record>, string>)
    ensures domains.Err? ==> r == Err(domains.error)
    ensures domains.Ok? ==> r.Ok?
  {
    match domains
    case Err(e) => Err(e)
    case Ok(ds) =>
      Ok(Seqs.Flatten(FanOut.Emit(ds, Store(fetch), (name: string, rs: RecordSet) => RecordsOf(account, updateTime, name, rs))))
  }

  /** Every record comes from one value of one record set listed for a cached domain. */
  lemma ListRecordsSound(account: Account, updateTime: string, ds: seq<Domain>, fetch: string -> Responses<RecordSet>, rec: Record)
    requires rec in ListRecords(account, updateTime, Ok(ds), fetch).value
    ensures exists i, rs, k :: 0 <= i < |ds| && rs in RecordSets(fetch(ds[i].domainID)) && 0 <= k < |rs.values|
                               && rec == ToRecord(account, updateTime, ds[i].domainName, rs, rs.values[k])
  {
    var store := Store(fetch);
    var toItem := (name: string, rs: RecordSet) => RecordsOf(account, updateTime, name, rs);
    var emitted := FanOut.Emit(ds, store, toItem);
    Seqs.FlattenMembership(emitted, rec);
    var j :| 0 <= j < |emitted| && rec in emitted[j];
    FanOut.EmitMembership(ds, store, toItem, emitted[j]);
    var m := FanOut.Gather(ds, store);
    var name, rs :| name in m && rs in m[name] && emitted[j] == toItem(name, rs);
    var batch := RecordsOf(account, updateTime, name, rs);
    assert emitted[j] == batch;
    FanOut.GatherSpec(ds, store, name);
    var i :| 0 <= i < |ds| && ds[i].domainName == name && store(ds[i]) == Some(m[name]);
    assert m[name] == RecordSets(fetch(ds[i].domainID));
    var k :| 0 <= k < |batch| && batch[k] == rec;
    assert k < |rs.values| && rec == ToRecord(account, updateTime, name, rs, rs.values[k]);
  }

  /** Every value of every record set of the last cached domain of each name is exported. */
  lemma ListRecordsComplete(account: Account, updateTime: string, ds: seq<Domain>, fetch: string -> Responses<RecordSet>,
                            i: nat, rs: RecordSet, k: nat)
    requires i < |ds| && forall j :: i < j < |ds| ==> ds[j].domainName != ds[i].domainName
    requires rs in RecordSets(fetch(ds[i].domainID)) && k < |rs.values|
    ensures ToRecord(account, updateTime, ds[i].domainName, rs, rs.values[k]) in ListRecords(account, updateTime, Ok(ds), fetch).value
  {
    var store := Store(fetch);
    var toItem := (name: string, rs: RecordSet) => RecordsOf(account, updateTime, name, rs);
    var emitted := FanOut.Emit(ds, store, toItem);
    var batch := toItem(ds[i].domainName, rs);
    FanOut.EmitComplete(ds, store, toItem, i, rs);
    var rec := ToRecord(account, updateTime, ds[i].domainName, rs, rs.values[k]);
    assert batch[k] == rec;
    Seqs.FlattenMembership(emitted, rec);
  }
}
