/** The two refresh cycles of pkg/export/cron_cache.go as transitions over the two caches.
    Each account's goroutine becomes one step applied to the cache; a cycle applies the
    steps one after another, and `LoadAccountsCommute` shows that the order does not matter
    for accounts that touch different keys. */
module CronCache {
  import opened Wrappers
  import opened Public
  import opened Provider
  import opened Caches
  import opened CertProbe
  import Text

  /** One entry of a provider's `accounts` list in the configuration. */
  datatype AccountConfig = AccountConfig(provider: string, account: map<string, string>)

  /** The account name, `account["name"]`, "" when the key is missing. */
  function NameOf(a: AccountConfig): string {
    Lookup(a.account, "name")
  }

  function DomainKey(a: AccountConfig): string {
    CacheKey(DomainList, a.provider, NameOf(a))
  }

  function RecordKey(a: AccountConfig): string {
    CacheKey(RecordList, a.provider, NameOf(a))
  }

  function CertKey(a: AccountConfig): string {
    CacheKey(RecordCertInfo, a.provider, NameOf(a))
  }

  /** `c1` and `c2` hold the same thing (or nothing) at `key`. */
  predicate SameAt(c1: Cache, c2: Cache, key: string) {
    (key in c1 <==> key in c2) && (key in c1 ==> c1[key] == c2[key])
  }

  /** The vendor side of an inventory cycle. `listDomains` is a network call; `listRecords`
      receives what the inventory cache holds under the handle's own domain-list key. */
  datatype Inventory = Inventory(
    listDomains: Handle -> Result<seq<Domain>, string>,
    listRecords: (Handle, Result<seq<Domain>, string>) -> Result<seq<Record>, string>)

  /** An account's handle, when its provider is registered. */
  function HandleOf(f: Factory, a: AccountConfig): Result<Handle, string> {
    Create(f, a.provider, a.account)
  }

  /** The account fails before writing anything: unknown provider or `ListDomains` error. */
  predicate FailsEarly(f: Factory, inv: Inventory, a: AccountConfig) {
    HandleOf(f, a).Err? || inv.listDomains(HandleOf(f, a).value).Err?
  }

  /** The cache key the account's `ListRecords` reads, when it gets that far. */
  function ReadKeys(f: Factory, a: AccountConfig): set<string> {
    if HandleOf(f, a).Ok? then {DomainListKeyOf(HandleOf(f, a).value.account)} else {}
  }

  /** The keys the account's inventory goroutine may write. */
  function WriteKeys(a: AccountConfig): set<string> {
    {DomainKey(a), RecordKey(a)}
  }

  /** The entries one account's inventory goroutine writes, given the cache it starts from. */
  function InventoryWrites(f: Factory, inv: Inventory, a: AccountConfig, cache: Cache): (w: map<string, Blob>)
    ensures w.Keys <= WriteKeys(a)
    ensures FailsEarly(f, inv, a) ==> w == map[]
    ensures !FailsEarly(f, inv, a) ==> DomainKey(a) in w
  {
    match HandleOf(f, a)
    case Err(_) => map[]
    case Ok(h) =>
      match inv.listDomains(h)
      case Err(_) => map[]
      case Ok(ds) =>
        var withDomains := cache[DomainKey(a) := DomainBlob(ds)];
        match inv.listRecords(h, GetDomains(withDomains, DomainListKeyOf(h.account)))
        case Err(_) => map[DomainKey(a) := DomainBlob(ds)]
        case Ok(rs) => map[DomainKey(a) := DomainBlob(ds), RecordKey(a) := RecordBlob(rs)]
  }

  /** The domain list an account's `ListRecords` sees: the cache after its own domain write. */
  function RecordsInput(f: Factory, inv: Inventory, a: AccountConfig, cache: Cache): Result<seq<Domain>, string>
    requires !FailsEarly(f, inv, a)
  {
    var h := HandleOf(f, a).value;
    GetDomains(cache[DomainKey(a) := DomainBlob(inv.listDomains(h).value)], DomainListKeyOf(h.account))
  }

  /** One account's goroutine of `loading`. Only the account's two keys can change; a failure
      of `Create` or `ListDomains` writes nothing; the domain list is written before
      `ListRecords` runs, so a `ListRecords` failure keeps the new domain entry and the old
      record entry. */
  function LoadAccount(f: Factory, inv: Inventory, a: AccountConfig, cache: Cache): (r: Cache)
    ensures cache.Keys <= r.Keys
    ensures forall k :: k !in WriteKeys(a) ==> SameAt(r, cache, k)
    ensures FailsEarly(f, inv, a) ==> r == cache
    ensures !FailsEarly(f, inv, a) ==>
      GetDomains(r, DomainKey(a)) == Ok(inv.listDomains(HandleOf(f, a).value).value)
    ensures !FailsEarly(f, inv, a) && inv.listRecords(HandleOf(f, a).value, RecordsInput(f, inv, a, cache)).Err? ==>
      SameAt(r, cache, RecordKey(a))
    ensures !FailsEarly(f, inv, a) && inv.listRecords(HandleOf(f, a).value, RecordsInput(f, inv, a, cache)).Ok? ==>
      GetRecords(r, RecordKey(a)) == Ok(inv.listRecords(HandleOf(f, a).value, RecordsInput(f, inv, a, cache)).value)
  {
    DomainAndRecordKeysDiffer(a.provider, NameOf(a), a.provider, NameOf(a));
    cache + InventoryWrites(f, inv, a, cache)
  }

  /** `loading`: every configured account, one after another. No entry is ever removed, and
      every new entry is a key of some configured account. */
  function Loading(f: Factory, inv: Inventory, accounts: seq<AccountConfig>, cache: Cache): (r: Cache)
    ensures cache.Keys <= r.Keys
    ensures forall k :: k in r && k !in cache ==> exists i :: 0 <= i < |accounts| && k in WriteKeys(accounts[i])
    decreases |accounts|
  {
    if |accounts| == 0 then cache
    else
      assert forall i :: 0 <= i < |accounts| - 1 ==> accounts[1..][i] == accounts[i + 1];
      Loading(f, inv, accounts[1..], LoadAccount(f, inv, accounts[0], cache))
  }

  /** Running two lists of accounts in turn is running their concatenation. */
  lemma {:induction false} LoadingAppend(f: Factory, inv: Inventory, xs: seq<AccountConfig>, ys: seq<AccountConfig>, cache: Cache)
    ensures Loading(f, inv, xs + ys, cache) == Loading(f, inv, ys, Loading(f, inv, xs, cache))
    decreases |xs|
  {
    if |xs| > 0 {
      assert (xs + ys)[1..] == xs[1..] + ys;
      LoadingAppend(f, inv, xs[1..], ys, LoadAccount(f, inv, xs[0], cache));
    } else {
      assert xs + ys == ys;
    }
  }

  /** An inventory cycle leaves every key that belongs to no configured account as it was. */
  lemma {:induction false} LoadingFrame(f: Factory, inv: Inventory, accounts: seq<AccountConfig>, cache: Cache, k: string)
    requires forall i :: 0 <= i < |accounts| ==> k !in WriteKeys(accounts[i])
    ensures SameAt(Loading(f, inv, accounts, cache), cache, k)
    decreases |accounts|
  {
    if |accounts| > 0 {
      LoadingFrame(f, inv, accounts[1..], LoadAccount(f, inv, accounts[0], cache), k);
    }
  }

  /** An account that fails early is invisible: the cycle ends in the same cache without it. */
  lemma {:induction false} FailedAccountIsInvisible(f: Factory, inv: Inventory, accounts: seq<AccountConfig>, i: nat, cache: Cache)
    requires i < |accounts|
    requires FailsEarly(f, inv, accounts[i])
    ensures Loading(f, inv, accounts[..i] + accounts[i + 1..], cache) == Loading(f, inv, accounts, cache)
    decreases i
  {
    var rest := accounts[..i] + accounts[i + 1..];
    if i == 0 {
      assert rest == accounts[1..];
    } else {
      var tail := accounts[1..];
      assert rest[0] == accounts[0];
      assert rest[1..] == tail[..i - 1] + tail[i..];
      FailedAccountIsInvisible(f, inv, tail, i - 1, LoadAccount(f, inv, accounts[0], cache));
    }
  }

  /** What an account writes depends on the cache only through the key its `ListRecords` reads. */
  lemma WritesDependOnReadKeyOnly(f: Factory, inv: Inventory, a: AccountConfig, c1: Cache, c2: Cache)
    requires forall k :: k in ReadKeys(f, a) && k != DomainKey(a) ==> SameAt(c1, c2, k)
    ensures InventoryWrites(f, inv, a, c1) == InventoryWrites(f, inv, a, c2)
  {
    if !FailsEarly(f, inv, a) {
      var h := HandleOf(f, a).value;
      var ds := inv.listDomains(h).value;
      var k := DomainListKeyOf(h.account);
      assert k in ReadKeys(f, a);
      assert GetDomains(c1[DomainKey(a) := DomainBlob(ds)], k) == GetDomains(c2[DomainKey(a) := DomainBlob(ds)], k);
    }
  }

  /** Two accounts are independent when neither writes a key the other writes or reads. */
  predicate Independent(f: Factory, a: AccountConfig, b: AccountConfig) {
    && WriteKeys(a) !! WriteKeys(b)
    && ReadKeys(f, a) !! WriteKeys(b)
    && ReadKeys(f, b) !! WriteKeys(a)
  }

  /** The goroutines of independent accounts commute, so the interleaving chosen by the
      scheduler does not change the cache a cycle ends in. */
  lemma LoadAccountsCommute(f: Factory, inv: Inventory, a: AccountConfig, b: AccountConfig, cache: Cache)
    requires Independent(f, a, b)
    ensures LoadAccount(f, inv, b, LoadAccount(f, inv, a, cache)) == LoadAccount(f, inv, a, LoadAccount(f, inv, b, cache))
  {
    var ca := LoadAccount(f, inv, a, cache);
    var cb := LoadAccount(f, inv, b, cache);
    WritesDependOnReadKeyOnly(f, inv, b, ca, cache);
    WritesDependOnReadKeyOnly(f, inv, a, cb, cache);
    var wa := InventoryWrites(f, inv, a, cache);
    var wb := InventoryWrites(f, inv, b, cache);
    assert wa.Keys !! wb.Keys;
    assert (cache + wa) + wb == (cache + wb) + wa;
  }

  /** Swapping two adjacent independent accounts anywhere in the configuration leaves the
      result of the whole cycle unchanged. */
  lemma LoadingSwapAdjacent(f: Factory, inv: Inventory, xs: seq<AccountConfig>, a: AccountConfig, b: AccountConfig,
                            ys: seq<AccountConfig>, cache: Cache)
    requires Independent(f, a, b)
    ensures Loading(f, inv, xs + [a, b] + ys, cache) == Loading(f, inv, xs + [b, a] + ys, cache)
  {
    LoadingAppend(f, inv, xs + [a, b], ys, cache);
    LoadingAppend(f, inv, xs + [b, a], ys, cache);
    LoadingAppend(f, inv, xs, [a, b], cache);
    LoadingAppend(f, inv, xs, [b, a], cache);
    var c := Loading(f, inv, xs, cache);
    assert [a, b][1..] == [b];
    assert [b, a][1..] == [a];
    LoadAccountsCommute(f, inv, a, b, c);
  }

  /** The probe side of a certificate cycle: port 443 reachability, and what happened to
      request i of the batch written under a given certificate-cache key. */
  datatype Prober = Prober(portOpen: string -> bool, attempt: (string, nat) -> Attempt)

  /** The results `GetMultipleCertInfo` yields for the candidates among `records`. */
  function BatchFor(p: Prober, batchKey: string, records: seq<Record>): (results: seq<RecordCert>)
    ensures |results| == |Candidates(records, p.portOpen)|
  {
    CertBatch(ProbeRequests(records, p.portOpen), (i: nat) => p.attempt(batchKey, i))
  }

  /** The records `loadingCert` starts from: a miss or a decoding error only logs, leaving none. */
  function CachedRecords(cache: Cache, a: AccountConfig): (rs: seq<Record>)
    ensures GetRecords(cache, RecordKey(a)).Ok? ==> rs == GetRecords(cache, RecordKey(a)).value
    ensures GetRecords(cache, RecordKey(a)).Err? ==> rs == []
  {
    match GetRecords(cache, RecordKey(a))
    case Ok(rs) => rs
    case Err(_) => []
  }

  /** One account's goroutine of `loadingCert`: it always writes its certificate entry,
      even an empty one, and touches no other key. */
  function LoadCertAccount(a: AccountConfig, cache: Cache, certCache: Cache, p: Prober): (r: Cache)
    ensures r.Keys == certCache.Keys + {CertKey(a)}
    ensures forall k :: k != CertKey(a) ==> SameAt(r, certCache, k)
    ensures GetCerts(r, CertKey(a)) == Ok(BatchFor(p, CertKey(a), CachedRecords(cache, a)))
    ensures GetRecords(cache, RecordKey(a)).Err? ==> GetCerts(r, CertKey(a)) == Ok([])
  {
    certCache[CertKey(a) := CertBlob(BatchFor(p, CertKey(a), CachedRecords(cache, a)))]
  }

  /** `loadingCert`: every configured account, one after another; the inventory cache is only
      read. No entry is removed, and every configured account ends with an entry. */
  function LoadingCert(accounts: seq<AccountConfig>, cache: Cache, certCache: Cache, p: Prober): (r: Cache)
    ensures certCache.Keys <= r.Keys
    ensures forall i :: 0 <= i < |accounts| ==> CertKey(accounts[i]) in r
    decreases |accounts|
  {
    if |accounts| == 0 then certCache
    else
      assert forall i :: 1 <= i < |accounts| ==> accounts[1..][i - 1] == accounts[i];
      LoadingCert(accounts[1..], cache, LoadCertAccount(accounts[0], cache, certCache, p), p)
  }

  /** After a certificate cycle every configured account has a certificate entry, and every
      other key of the certificate cache is as it was. */
  lemma {:induction false} LoadingCertCoversAccounts(accounts: seq<AccountConfig>, cache: Cache, certCache: Cache, p: Prober)
    ensures forall i :: 0 <= i < |accounts| ==> CertKey(accounts[i]) in LoadingCert(accounts, cache, certCache, p)
    ensures forall k :: (forall i :: 0 <= i < |accounts| ==> k != CertKey(accounts[i])) ==>
      SameAt(LoadingCert(accounts, cache, certCache, p), certCache, k)
    ensures certCache.Keys <= LoadingCert(accounts, cache, certCache, p).Keys
    decreases |accounts|
  {
    if |accounts| > 0 {
      var next := LoadCertAccount(accounts[0], cache, certCache, p);
      LoadingCertCoversAccounts(accounts[1..], cache, next, p);
      var r := LoadingCert(accounts, cache, certCache, p);
      forall i | 0 <= i < |accounts|
        ensures CertKey(accounts[i]) in r
      {
        if i > 0 {
          assert accounts[i] == accounts[1..][i - 1];
        }
      }
      forall k | (forall i :: 0 <= i < |accounts| ==> k != CertKey(accounts[i]))
        ensures SameAt(r, certCache, k)
      {
        assert forall i :: 0 <= i < |accounts[1..]| ==> k != CertKey(accounts[1..][i]) by {
          forall i | 0 <= i < |accounts[1..]|
            ensures k != CertKey(accounts[1..][i])
          {
            assert accounts[1..][i] == accounts[i + 1];
          }
        }
        assert SameAt(r, next, k);
        assert k != CertKey(accounts[0]);
      }
    }
  }

  /** The record built for one operator-listed hostname: it passes the type and status tests. */
  function CustomRecord(host: string, domainOf: string -> Option<string>, id: string): (r: Record)
    ensures r.fullRecord == host && r.recordValue == host
    ensures r.recordType == "CNAME" && r.recordStatus == "enable" && r.recordName == ""
    ensures r.cloudProvider == CustomRecords && r.cloudName == CustomRecords
    ensures r.domainName == domainOf(host).GetOr("") && r.recordID == id
  {
    EmptyRecord.(
      cloudProvider := CustomRecords, cloudName := CustomRecords,
      domainName := domainOf(host).GetOr(""),
      fullRecord := host, recordValue := host, recordID := id,
      recordType := "CNAME", recordStatus := "enable")
  }

  /** One custom record per hostname, in order; `ids(i)` is the id drawn for hostname i. */
  function CustomRecordList(hosts: seq<string>, domainOf: string -> Option<string>, ids: nat -> string): (rs: seq<Record>)
    ensures |rs| == |hosts|
    ensures forall i :: 0 <= i < |hosts| ==> rs[i] == CustomRecord(hosts[i], domainOf, ids(i))
  {
    seq(|hosts|, i requires 0 <= i < |hosts| => CustomRecord(hosts[i], domainOf, ids(i)))
  }

  /** A custom hostname is probed exactly when port 443 answers on it (wildcards replaced). */
  lemma CustomRecordEligible(host: string, domainOf: string -> Option<string>, id: string, portOpen: string -> bool)
    ensures Eligible(Normalise(CustomRecord(host, domainOf, id)), portOpen) <==> portOpen(Text.ReplaceChar(host, '*', 'a'))
    ensures '*' !in host ==> Normalise(CustomRecord(host, domainOf, id)).fullRecord == host
  {
  }

  /** `loadingCustomRecordCert`: nothing for an empty list, otherwise the whole batch under
      the single custom key, leaving alone the entry of every account whose `provider_name`
      is not spelled `CustomRecords`. */
  function LoadingCustomRecordCert(hosts: seq<string>, domainOf: string -> Option<string>, ids: nat -> string,
                                   certCache: Cache, p: Prober): (r: Cache)
    ensures |hosts| == 0 ==> r == certCache
    ensures |hosts| > 0 ==> r.Keys == certCache.Keys + {CustomCertKey()}
    ensures |hosts| > 0 ==>
      GetCerts(r, CustomCertKey()) == Ok(BatchFor(p, CustomCertKey(), CustomRecordList(hosts, domainOf, ids)))
    ensures forall prov, name :: prov + "_" + name != CustomRecords ==>
      SameAt(r, certCache, CacheKey(RecordCertInfo, prov, name))
  {
    if |hosts| == 0 then certCache
    else
      var key := CustomCertKey();
      assert forall prov, name :: prov + "_" + name != CustomRecords ==> key != CacheKey(RecordCertInfo, prov, name) by {
        forall prov, name | prov + "_" + name != CustomRecords
          ensures key != CacheKey(RecordCertInfo, prov, name)
        {
          CustomCertKeyIsNotAnAccountKey(prov, name);
        }
      }
      certCache[key := CertBlob(BatchFor(p, key, CustomRecordList(hosts, domainOf, ids)))]
  }

  /** The eager start of `InitCron`: an inventory cycle, then a certificate cycle and the
      custom pseudo-account, giving the two caches. */
  function Startup(f: Factory, inv: Inventory, accounts: seq<AccountConfig>, hosts: seq<string>,
                   domainOf: string -> Option<string>, ids: nat -> string, p: Prober,
                   cache: Cache, certCache: Cache): (r: (Cache, Cache))
    ensures cache.Keys <= r.0.Keys && certCache.Keys <= r.1.Keys
    ensures forall i :: 0 <= i < |accounts| ==> CertKey(accounts[i]) in r.1
    ensures |hosts| > 0 ==>
      GetCerts(r.1, CustomCertKey()) == Ok(BatchFor(p, CustomCertKey(), CustomRecordList(hosts, domainOf, ids)))
  {
    var inventory := Loading(f, inv, accounts, cache);
    var certs := LoadingCert(accounts, inventory, certCache, p);
    (inventory, LoadingCustomRecordCert(hosts, domainOf, ids, certs, p))
  }

  /** An apex record whose domain does not answer on port 443 yields no candidate. */
  lemma ClosedApexIsNoCandidate(rec: Record, portOpen: string -> bool)
    requires rec.recordName == "@" && '*' !in rec.domainName && !portOpen(rec.domainName)
    ensures Candidates([rec], portOpen) == []
  {
    assert Normalise(rec).fullRecord == rec.domainName;
    assert [rec][1..] == [];
  }

  /** The account of the scenario below: Tencent, named "prod". */
  const ScenarioAccount: AccountConfig := AccountConfig("tencent", map["name" := "prod"])

  lemma ScenarioKeys()
    ensures DomainKey(ScenarioAccount) == "domain_list_tencent_prod"
    ensures RecordKey(ScenarioAccount) == "record_list_tencent_prod"
    ensures CertKey(ScenarioAccount) == "record_cert_info_tencent_prod"
  {
    assert NameOf(ScenarioAccount) == "prod";
  }

  lemma ScenarioHandle(inv: Inventory, d: Domain)
    requires forall h :: inv.listDomains(h) == Ok([d])
    ensures !FailsEarly(InitFactory(), inv, ScenarioAccount)
  {
    InitFactoryCreate("tencent", ScenarioAccount.account);
    Text.ToLowerFixed("tencent");
  }

  /** The account of the scenario spelled with a capital: "Tencent", named "prod". */
  const MixedAccount: AccountConfig := AccountConfig("Tencent", map["name" := "prod"])

  /** The provider identifier in the configuration is matched case-insensitively, but the
      domain-list key is written under the configured spelling while `ListRecords` reads it
      under the handle's lower-case identifier: spelled "tencent" the account sees the list it
      has just written, spelled "Tencent" it sees a cache miss. */
  lemma ReadKeyFollowsSpelling(inv: Inventory, d: Domain)
    requires forall h :: inv.listDomains(h) == Ok([d])
    ensures RecordsInput(InitFactory(), inv, ScenarioAccount, map[]) == Ok([d])
    ensures !FailsEarly(InitFactory(), inv, MixedAccount)
    ensures RecordsInput(InitFactory(), inv, MixedAccount, map[]) == Err(EntryNotFound)
  {
    ScenarioKeys();
    ScenarioHandle(inv, d);
    MixedCaseKeys();
    MixedCaseHandle();
    var h := HandleOf(InitFactory(), MixedAccount).value;
    var written := map[][DomainKey(MixedAccount) := DomainBlob(inv.listDomains(h).value)];
    assert DomainListKeyOf(h.account) !in written;
  }

  /** The capitalised account writes its domain list under its own spelling. */
  lemma MixedCaseKeys()
    ensures DomainKey(MixedAccount) == "domain_list_Tencent_prod"
  {
    assert NameOf(MixedAccount) == "prod";
  }

  /** "Tencent" creates a handle for the vendor whose identifier is "tencent", which reads
      its domain list under the lower-case spelling. */
  lemma MixedCaseHandle()
    ensures HandleOf(InitFactory(), MixedAccount).Ok?
    ensures HandleOf(InitFactory(), MixedAccount).value.account.cloudProvider == "tencent"
    ensures DomainListKeyOf(HandleOf(InitFactory(), MixedAccount).value.account) == "domain_list_tencent_prod"
  {
    LowerTencent();
    InitFactoryCreate("Tencent", MixedAccount.account);
    var h := HandleOf(InitFactory(), MixedAccount).value;
    assert Lookup(MixedAccount.account, "name") == "prod";
    assert h.account.cloudName == "prod";
  }

  /** Lower-casing "Tencent" gives the vendor identifier. */
  lemma LowerTencent()
    ensures Text.ToLower("Tencent") == "tencent"
  {
    var r := Text.ToLower("Tencent");
    assert r[0] == 't';
    assert r[1..] == "encent";
  }

  /** One account whose provider lists one domain and one enabled apex A record: after the
      inventory cycle the cache holds both lists; when port 443 on the domain is closed, the
      certificate cycle stores an empty list for the account. */
  lemma EndToEndScenario(inv: Inventory, d: Domain, rec: Record, p: Prober)
    requires forall h :: inv.listDomains(h) == Ok([d])
    requires forall h, ds :: inv.listRecords(h, ds) == Ok([rec])
    requires rec.domainName == "example.com" && rec.recordName == "@" && rec.recordType == "A"
    requires rec.recordStatus == "enable"
    requires !p.portOpen("example.com")
    ensures var (inventory, certs) := Startup(InitFactory(), inv, [ScenarioAccount], [], d => None, i => "", p, map[], map[]);
      && GetDomains(inventory, "domain_list_tencent_prod") == Ok([d])
      && GetRecords(inventory, "record_list_tencent_prod") == Ok([rec])
      && GetCerts(certs, "record_cert_info_tencent_prod") == Ok([])
  {
    var a := ScenarioAccount;
    var f := InitFactory();
    ScenarioKeys();
    ScenarioHandle(inv, d);
    var inventory := LoadAccount(f, inv, a, map[]);
    assert [a][1..] == [];
    assert Loading(f, inv, [a], map[]) == inventory;
    assert GetRecords(inventory, RecordKey(a)) == Ok([rec]);
    assert CachedRecords(inventory, a) == [rec];
    ClosedApexIsNoCandidate(rec, p.portOpen);
    var certs := LoadCertAccount(a, inventory, map[], p);
    assert LoadingCert([a], inventory, map[], p) == certs;
    assert GetCerts(certs, CertKey(a)) == Ok([]);
  }
}
