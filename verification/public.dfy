/** Process-wide names: provider identifiers, metric kinds, the account record and
    the cache-key format shared by the writers and the readers of both caches. */
module Public {
  import Text
  import opened Wrappers

  // Provider identifiers. Only "tencent" and "aliyun" are declared by public/public.go;
  // the others are referenced by the providers but not declared there, so the model
  // gives them distinct lower-case values of its own.
  const TencentDnsProvider: string := "tencent"
  const AliyunDnsProvider: string := "aliyun"
  const GodaddyDnsProvider: string := "godaddy"
  const AmazonDnsProvider: string := "amazon"
  const CloudflareDnsProvider: string := "cloudflare"
  const DnsLaDnsProvider: string := "dnsla"

  /** Provider and account name of the pseudo-account that probes operator-listed hostnames. */
  const CustomRecords: string := "custom"

  // Metric kinds, which double as cache-key prefixes.
  const DomainList: string := "domain_list"
  const RecordList: string := "record_list"
  const RecordCertInfo: string := "record_cert_info"

  /** One credential set of one provider. */
  datatype Account = Account(cloudProvider: string, cloudName: string, secretID: string, secretKey: string)

  /** `kind + "_" + cloudProvider + "_" + cloudName`, the key of every per-account cache entry. */
  function CacheKey(kind: string, cloudProvider: string, cloudName: string): (key: string)
    ensures |key| == |kind| + |cloudProvider| + |cloudName| + 2
    ensures key[..|kind|] == kind && key[|kind|] == '_'
  {
    kind + "_" + cloudProvider + "_" + cloudName
  }

  /** The inventory-cache key that a provider's `ListRecords` reads for its account. */
  function DomainListKeyOf(account: Account): string {
    CacheKey(DomainList, account.cloudProvider, account.cloudName)
  }

  /** The single certificate-cache key of the custom pseudo-account. */
  function CustomCertKey(): (key: string)
    ensures key == RecordCertInfo + "_" + CustomRecords
  {
    RecordCertInfo + "_" + CustomRecords
  }

  /** Domain-list and record-list keys never collide, whatever the provider and account names. */
  lemma DomainAndRecordKeysDiffer(p: string, n: string, p': string, n': string)
    ensures CacheKey(DomainList, p, n) != CacheKey(RecordList, p', n')
  {
    assert CacheKey(DomainList, p, n)[0] == 'd';
    assert CacheKey(RecordList, p', n')[0] == 'r';
  }

  /** The custom pseudo-account's certificate key collides with an account's key exactly
      when `CustomRecords` spells `provider_name`; so it never does when `CustomRecords` has
      no '_'. */
  lemma CustomCertKeyIsNotAnAccountKey(p: string, n: string)
    ensures CustomCertKey() == CacheKey(RecordCertInfo, p, n) <==> CustomRecords == p + "_" + n
    ensures '_' !in CustomRecords ==> CustomCertKey() != CacheKey(RecordCertInfo, p, n)
  {
    var prefix := RecordCertInfo + "_";
    var k := CacheKey(RecordCertInfo, p, n);
    var c := CustomCertKey();
    assert k == prefix + (p + "_" + n);
    assert c == prefix + CustomRecords;
    if c == k {
      assert CustomRecords == c[|prefix|..] == k[|prefix|..] == p + "_" + n;
    }
    assert (p + "_" + n)[|p|] == '_';
  }

  /** In `prefix + "_" + rest`, the first '_' is the one after `prefix` when `prefix` has none. */
  lemma FirstSeparator(prefix: string, rest: string)
    requires '_' !in prefix
    ensures Text.Index(prefix + "_" + rest, "_") == Some(|prefix|)
  {
    var t := prefix + "_" + rest;
    assert Text.OccursAt(t, "_", |prefix|);
    forall j | 0 <= j < |prefix|
      ensures !Text.OccursAt(t, "_", j)
    {
      assert t[j] == prefix[j];
    }
  }

  /** When provider identifiers contain no '_', a cache key determines its provider and account. */
  lemma CacheKeyInjective(kind: string, p: string, n: string, p': string, n': string)
    requires '_' !in p && '_' !in p'
    requires CacheKey(kind, p, n) == CacheKey(kind, p', n')
    ensures p == p' && n == n'
  {
    var t := CacheKey(kind, p, n)[|kind| + 1..];
    assert t == p + "_" + n;
    assert t == p' + "_" + n';
    FirstSeparator(p, n);
    FirstSeparator(p', n');
    assert p == t[..|p|];
    assert p' == t[..|p'|];
    assert n == t[|p| + 1..];
    assert n' == t[|p'| + 1..];
  }
}
