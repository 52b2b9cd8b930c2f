/** The provider-agnostic inventory entities, the provider registry and status
    normalisation (pkg/provider/provider.go). */
module Provider {
  import opened Wrappers
  import opened Public
  import Text

  /** One DNS zone of one account, normalised across vendors. */
  datatype Domain = Domain(
    cloudProvider: string,
    cloudName: string,
    domainID: string,
    domainName: string,
    domainRemark: string,
    domainStatus: string,
    createdDate: string,
    expiryDate: string,
    daysUntilExpiry: int)

  /** A zone's registration dates as a registrar lookup reports them; all empty when the
      lookup fails or finds nothing. */
  datatype Registration = Registration(createdDate: string, expiryDate: string, daysUntilExpiry: int)

  /** One DNS resource record, normalised across vendors. */
  datatype Record = Record(
    cloudProvider: string,
    cloudName: string,
    domainName: string,
    recordID: string,
    recordType: string,
    recordName: string,
    recordValue: string,
    recordTTL: string,
    recordWeight: string,
    recordStatus: string,
    recordRemark: string,
    updateTime: string,
    fullRecord: string)

  /** The minimal input of one certificate probe. */
  datatype GetRecordCertReq = GetRecordCertReq(
    cloudProvider: string,
    cloudName: string,
    domainName: string,
    fullRecord: string,
    recordID: string)

  /** The result of probing one hostname. */
  datatype RecordCert = RecordCert(
    cloudProvider: string,
    cloudName: string,
    domainName: string,
    fullRecord: string,
    recordID: string,
    subjectCommonName: string,
    subjectOrganization: string,
    subjectOrganizationalUnit: string,
    issuerCommonName: string,
    issuerOrganization: string,
    issuerOrganizationalUnit: string,
    createdDate: string,
    expiryDate: string,
    daysUntilExpiry: int,
    certMatched: bool,
    errorMsg: string)

  /** Go's zero `RecordCert{}`. */
  const EmptyCert: RecordCert := RecordCert("", "", "", "", "", "", "", "", "", "", "", "", "", 0, false, "")

  /** Go's zero `Record{}`. */
  const EmptyRecord: Record := Record("", "", "", "", "", "", "", "", "", "", "", "", "")

  /** The vendor implementations of the `DNSProvider` interface. */
  datatype Vendor = Tencent | Aliyun | Godaddy | Amazon | Cloudflare | DnsLa

  /** The provider identifier each implementation stamps on its account. */
  function VendorID(v: Vendor): string {
    match v
    case Tencent => TencentDnsProvider
    case Aliyun => AliyunDnsProvider
    case Godaddy => GodaddyDnsProvider
    case Amazon => AmazonDnsProvider
    case Cloudflare => CloudflareDnsProvider
    case DnsLa => DnsLaDnsProvider
  }

  /** A `DNSProvider` value: an implementation bound to one account. */
  datatype Handle = Handle(vendor: Vendor, account: Account)

  /** Go's map index: the stored value, or "" when the key is absent. */
  function Lookup(m: map<string, string>, key: string): (r: string)
    ensures key in m ==> r == m[key]
    ensures key !in m ==> r == ""
  {
    if key in m then m[key] else ""
  }

  /** One of the constructors registered at start-up: it fixes the provider to its own
      identifier and takes name and credentials from the account's configuration map. */
  function Construct(v: Vendor, config: map<string, string>): (h: Handle)
    ensures h.vendor == v
    ensures h.account.cloudProvider == VendorID(v)
    ensures h.account.cloudName == Lookup(config, "name")
    ensures h.account.secretID == Lookup(config, "secretId")
    ensures h.account.secretKey == Lookup(config, "secretKey")
  {
    Handle(v, Account(VendorID(v), Lookup(config, "name"), Lookup(config, "secretId"), Lookup(config, "secretKey")))
  }

  /** `DNSProviderFactory`: lower-cased provider identifier to constructor. */
  type Factory = map<string, Vendor>

  /** `Register`: stores the constructor under the lower-cased identifier, replacing only that entry. */
  function Register(f: Factory, cloudProvider: string, v: Vendor): (r: Factory)
    ensures r.Keys == f.Keys + {Text.ToLower(cloudProvider)}
    ensures r[Text.ToLower(cloudProvider)] == v
    ensures forall id :: id in f && id != Text.ToLower(cloudProvider) ==> r[id] == f[id]
  {
    f[Text.ToLower(cloudProvider) := v]
  }

  /** The error text of `Create` for an unknown identifier, in the caller's spelling. */
  function UnsupportedProvider(cloudProvider: string): string {
    "unsupported cloud provider: " + cloudProvider
  }

  /** `Create`: looks the lower-cased identifier up and builds a handle for the account. */
  function Create(f: Factory, cloudProvider: string, config: map<string, string>): (r: Result<Handle, string>)
    ensures r.Ok? <==> Text.ToLower(cloudProvider) in f
    ensures r.Ok? ==> r.value == Construct(f[Text.ToLower(cloudProvider)], config)
    ensures r.Err? ==> r.error == UnsupportedProvider(cloudProvider)
  {
    var id := Text.ToLower(cloudProvider);
    if id in f then Ok(Construct(f[id], config)) else Err(UnsupportedProvider(cloudProvider))
  }

  /** The provider identifiers are already in lower case. */
  lemma IdentifiersAreLower()
    ensures Text.ToLower(TencentDnsProvider) == TencentDnsProvider
    ensures Text.ToLower(AliyunDnsProvider) == AliyunDnsProvider
    ensures Text.ToLower(GodaddyDnsProvider) == GodaddyDnsProvider
    ensures Text.ToLower(AmazonDnsProvider) == AmazonDnsProvider
    ensures Text.ToLower(CloudflareDnsProvider) == CloudflareDnsProvider
    ensures Text.ToLower(DnsLaDnsProvider) == DnsLaDnsProvider
  {
    Text.ToLowerFixed(TencentDnsProvider);
    Text.ToLowerFixed(AliyunDnsProvider);
    Text.ToLowerFixed(GodaddyDnsProvider);
    Text.ToLowerFixed(AmazonDnsProvider);
    Text.ToLowerFixed(CloudflareDnsProvider);
    Text.ToLowerFixed(DnsLaDnsProvider);
  }

  /** The factory after the package `init`: four constructors, none for Cloudflare or DNS.LA. */
  function InitFactory(): (f: Factory)
    ensures f.Keys == {"tencent", "aliyun", "godaddy", "amazon"}
  {
    var empty: Factory := map[];
    IdentifiersAreLower();
    var f1 := Register(empty, TencentDnsProvider, Tencent);
    assert f1.Keys == {"tencent"};
    var f2 := Register(f1, AliyunDnsProvider, Aliyun);
    assert f2.Keys == {"tencent", "aliyun"};
    var f3 := Register(f2, GodaddyDnsProvider, Godaddy);
    assert f3.Keys == {"tencent", "aliyun", "godaddy"};
    Register(f3, AmazonDnsProvider, Amazon)
  }

  /** `Create` on the start-up factory succeeds exactly for the four registered vendors,
      whatever the letter case, and the handle carries the vendor's own identifier. */
  lemma InitFactoryCreate(cloudProvider: string, config: map<string, string>)
    ensures Create(InitFactory(), cloudProvider, config).Ok? <==>
      Text.ToLower(cloudProvider) in {"tencent", "aliyun", "godaddy", "amazon"}
    ensures Create(InitFactory(), cloudProvider, config).Ok? ==>
      Create(InitFactory(), cloudProvider, config).value.account.cloudProvider == Text.ToLower(cloudProvider)
  {
    var f := InitFactory();
    IdentifiersAreLower();
    assert f == map["tencent" := Tencent, "aliyun" := Aliyun, "godaddy" := Godaddy, "amazon" := Amazon];
  }

  /** Cloudflare and DNS.LA are implemented but never registered. */
  lemma CloudflareAndDnsLaUnregistered(config: map<string, string>)
    ensures Create(InitFactory(), CloudflareDnsProvider, config) == Err(UnsupportedProvider("cloudflare"))
    ensures Create(InitFactory(), DnsLaDnsProvider, config) == Err(UnsupportedProvider("dnsla"))
  {
    IdentifiersAreLower();
  }

  /** Identifiers that differ only in letter case create the same handle. */
  lemma CreateIgnoresCase(f: Factory, a: string, b: string, config: map<string, string>)
    requires Text.ToLower(a) == Text.ToLower(b)
    ensures Create(f, a, config).Ok? == Create(f, b, config).Ok?
    ensures Create(f, a, config).Ok? ==> Create(f, a, config).value == Create(f, b, config).value
  {
  }

  /** Re-registering an identifier in another spelling replaces its constructor; every
      identifier with a different lower-case form creates what it created before. */
  lemma RegisterThenCreate(f: Factory, id: string, v: Vendor, other: string, config: map<string, string>)
    ensures Text.ToLower(other) == Text.ToLower(id) ==> Create(Register(f, id, v), other, config) == Ok(Construct(v, config))
    ensures Text.ToLower(other) != Text.ToLower(id) ==> Create(Register(f, id, v), other, config) == Create(f, other, config)
  {
  }

  /** `oneStatus`: Tencent's `ENABLE`/`DISABLE` and `ACTIVE` become `enable`/`disable`;
      any other status passes through unchanged. */
  function OneStatus(status: string): (r: string)
    ensures r == "enable" <==> status in {"ENABLE", "ACTIVE", "enable"}
    ensures r == "disable" <==> status in {"DISABLE", "disable"}
    ensures status !in {"ENABLE", "ACTIVE", "DISABLE"} ==> r == status
    ensures r !in {"ENABLE", "ACTIVE", "DISABLE"}
  {
    if status == "ENABLE" || status == "ACTIVE" then "enable"
    else if status == "DISABLE" then "disable"
    else status
  }

  /** Normalising a status twice is normalising it once. */
  lemma OneStatusIdempotent(status: string)
    ensures OneStatus(OneStatus(status)) == OneStatus(status)
  {
  }
}
