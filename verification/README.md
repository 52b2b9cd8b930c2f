# cloud_dns_exporter, modelled in Dafny

cloud_dns_exporter is a Prometheus exporter. It copies the DNS zones and records of the
configured cloud accounts into an in-memory cache. Its start-up registry holds Tencent
DNSPod, Alibaba Cloud DNS, GoDaddy and Amazon Route 53. Cloudflare and DNS.LA providers
exist in the code but nothing registers them, so their accounts are rejected
(`Provider.CloudflareAndDnsLaUnregistered`). It probes the TLS certificate served on port 443 of
each eligible record. On every scrape it turns both caches into three gauges:
`domain_list`, `record_list` and `record_cert_info`.

This project models that core as pure functions over immutable data:

- `Provider`, `Public`, `Caches` hold the entities, the provider registry and its
  case-insensitive lookup, the cache keys and the two caches (as maps from key to stored
  list).
- `Paging` models the four page loops the vendors use. Tencent's loop steps an offset
  until it gets an empty page. Aliyun's steps a page number until it gets a short page.
  Cloudflare's steps a page number until the reported total is reached. Route 53's
  follows a marker from page to page. The server side is a finite item list plus a
  per-request failure oracle. Each loop has a closed-form characterisation and a
  completeness lemma.
- `FanOut` models the shape every `ListRecords` shares. One goroutine per cached domain
  writes into a map keyed by domain name, and the map is then walked.
- `Tencent`, `Aliyun`, `Cloudflare`, `Amazon`, `DnsLa` and `DnsLaLib` model each
  vendor's conversion from its SDK types to the common `Domain`/`Record` shape, and its
  listing loops.
- `CertProbe` models certificate probing (`GetCertInfo`, `GetMultipleCertInfo`) and
  candidate selection (`getNewRecord`).
- `CronCache` models the inventory cycle, the certificate cycle and the custom-hostname
  cycle as transitions over the caches.
- `ExportGauge` models exposition: which cached entries become which samples.
- `Text`, `Decimal`, `Seqs` and `Wrappers` are helpers. They model the Go `strings` and
  `strconv` functions the code uses, plus sequences and `Option`/`Result`.

Network calls, clocks and the SDKs are parameters:

- A vendor listing is a `Paging.Listing`: the items, plus which request numbers fail.
- A marker-driven listing is a `Paging.Responses`.
- A TLS dial is a `CertProbe.DialResult`.
- Port reachability is a `portOpen` predicate.
- Time rendering is `timeText`.
- Days until expiry is `daysOf`.
- Registrar lookups are `registrar`.

The goroutines of one cycle are taken to run one after another in configuration order.
`CronCache.LoadAccountsCommute` and `CronCache.LoadingSwapAdjacent` show that for
accounts whose keys do not overlap, the order does not matter.

`CronCache.ReadKeyFollowsSpelling` records a consequence of the code as written.
`Create` lower-cases the configured provider name. The domain list, however, is written
under the key with the name as configured, and `ListRecords` reads it under the
lower-cased identifier. So an account configured as `Tencent` never finds its own domain
list.

## Model

| member | source | states |
|---|---|---|
| Public.CacheKey | public/public.go:20-29 | a cache key starts with its kind followed by '_' and has the length of its three parts plus two separators |
| Public.CustomCertKey | pkg/export/cron_cache.go:174 | the custom pseudo-account's certificate key is `record_cert_info_custom` |
| Public.DomainAndRecordKeysDiffer | pkg/export/cron_cache.go:42-64 | no domain-list key equals any record-list key, whatever the provider and account names |
| Public.CustomCertKeyIsNotAnAccountKey | pkg/export/cron_cache.go:174-179 | whatever value `CustomRecords` has, the custom pseudo-account's certificate key equals a cloud account's key exactly when `CustomRecords` spells that account's `provider_name`; a `CustomRecords` without '_' collides with no account |
| Public.FirstSeparator | pkg/export/export_gauge.go:103 | in `prefix_rest`, the first '_' is the one right after a prefix that has no '_' |
| Public.CacheKeyInjective | pkg/export/export_gauge.go:103-140 | when provider identifiers contain no '_', a cache key determines its provider and account name |
| Provider.Lookup | pkg/provider/provider.go:15-24 | a Go map index gives the stored value, or "" for a missing key |
| Provider.Construct | pkg/provider/provider.go:12-55 | each registered constructor fixes its own provider identifier and takes the name, secretId and secretKey fields from the account map |
| Provider.Register | pkg/provider/provider.go:131-133 | registration adds exactly the lower-cased identifier, maps it to the constructor and leaves every other entry as it was |
| Provider.Create | pkg/provider/provider.go:136-141 | creation succeeds exactly when the lower-cased identifier is registered, builds that constructor's handle, and otherwise reports the identifier as the caller spelled it |
| Provider.InitFactory | pkg/provider/provider.go:12-55 | the start-up registry holds exactly tencent, aliyun, godaddy and amazon |
| Provider.InitFactoryCreate | pkg/provider/provider.go:12-55 | creation on the start-up registry succeeds exactly for identifiers that lower-case to one of those four vendors |
| Provider.CloudflareAndDnsLaUnregistered | pkg/provider/provider.go:12-55 | Cloudflare and DNS.LA accounts are rejected as unsupported, since nothing registers them |
| Provider.CreateIgnoresCase | pkg/provider/provider.go:136-141 | identifiers that differ only in letter case create the same handle or fail together |
| Provider.RegisterThenCreate | pkg/provider/provider.go:131-141 | after a registration, creation under any spelling of that identifier uses the new constructor, and creation under every other identifier is unchanged |
| Provider.OneStatus | pkg/provider/provider.go:144-153 | ENABLE and ACTIVE become enable and DISABLE becomes disable; every other status passes through, and no result is an upper-case spelling |
| Provider.OneStatusIdempotent | pkg/provider/provider.go:144-153 | normalising a status twice is normalising it once |
| Caches.GetDomains | pkg/export/export_gauge.go:105-114 | a domain-list read misses exactly when the key is absent, fails to decode on any other stored shape, and otherwise returns what was stored |
| Caches.GetRecords | pkg/export/export_gauge.go:122-131 | a record-list read misses on an absent key, fails to decode on another shape, and otherwise returns what was stored |
| Caches.GetCerts | pkg/export/export_gauge.go:142-151 | a certificate-list read misses on an absent key, fails to decode on another shape, and otherwise returns what was stored |
| Caches.DomainsRoundTrip | pkg/export/cron_cache.go:54-62 | reading a domain list just written returns it unchanged |
| Caches.RecordsRoundTrip | pkg/export/cron_cache.go:64-78 | reading a record list just written returns it unchanged |
| Caches.CertsRoundTrip | pkg/export/cron_cache.go:121-130 | reading a certificate list just written returns it unchanged |
| CertProbe.TruncDiv | pkg/export/record_cert.go:118 | Go's integer conversion of a quotient truncates toward zero, for negative numerators too |
| CertProbe.FirstOrEmpty | pkg/export/record_cert.go:100-113 | an organisation field is the first listed name, or "" when there is none |
| CertProbe.GetCertInfo | pkg/export/record_cert.go:69-121 | a failed dial gives an empty result with the dial error, no peer certificate gives an empty result with the not-found error, and otherwise the leaf's identity, organisations, dates and days are copied, with a match exactly when the subject common name contains the domain |
| CertProbe.EmptyDomainAlwaysMatches | pkg/export/record_cert.go:94-99 | a request with an empty domain name matches every certificate |
| CertProbe.WildcardSubjectMatches | pkg/export/record_cert.go:94-99 | a certificate issued for `*.domain` matches the domain |
| CertProbe.SlotResult | pkg/export/record_cert.go:42-59 | a timed-out slot holds only the timeout message, a failed probe holds only its error, and a reached certificate holds the probe's result |
| CertProbe.FailedSlotsHaveNoRecordID | pkg/export/record_cert.go:46-58 | a slot carries the request's record id exactly when its request reached a certificate |
| CertProbe.CertBatch | pkg/export/record_cert.go:20-66 | a batch has one slot per request, and slot i depends only on request i and what happened to it |
| CertProbe.GetMultipleCertInfo | pkg/export/record_cert.go:20-66 | the pre-sized result is filled slot by slot with each request's result, and the returned error is always nil |
| CertProbe.Normalise | pkg/export/record_cert.go:131-136 | only the full name changes: it is the domain name for an apex record and the full name otherwise, with each '*' replaced by 'a' and every other character kept in place |
| CertProbe.NormaliseIdempotent | pkg/export/record_cert.go:131-136 | normalising twice is normalising once |
| CertProbe.Candidates | pkg/export/record_cert.go:124-151 | every candidate is the normalisation of an input record, is A or CNAME, is enabled, answers on 443 and has no '*' |
| CertProbe.CandidatesMembership | pkg/export/record_cert.go:124-151 | a record is a candidate if and only if it is eligible and normalises some input record |
| CertProbe.CandidatesMultiset | pkg/export/record_cert.go:124-151 | each eligible normalised record occurs as often as the input records that normalise to it, so the output is a permutation of the eligible records, whatever order the goroutines deliver them in |
| CertProbe.ToRequest | pkg/export/cron_cache.go:104-114 | a probe request copies the record's provider, account, domain, full name and id |
| CertProbe.ProbeRequests | pkg/export/cron_cache.go:104-114 | one probe request per candidate, in candidate order |
| CronCache.InventoryWrites | pkg/export/cron_cache.go:33-83 | an account writes only its own two keys; an unknown provider or a failed domain listing writes nothing, and otherwise the domain list is always written |
| CronCache.LoadAccount | pkg/export/cron_cache.go:33-83 | every other key keeps its value; an early failure leaves the cache unchanged; otherwise the domain list is stored, and the record list is stored on success and left as it was on failure |
| CronCache.Loading | pkg/export/cron_cache.go:33-83 | an inventory cycle never removes an entry, and every entry it adds is a domain-list or record-list key of a configured account |
| CronCache.LoadingAppend | pkg/export/cron_cache.go:36-40 | running two lists of accounts one after the other is running their concatenation |
| CronCache.LoadingFrame | pkg/export/cron_cache.go:33-83 | an inventory cycle leaves every key that belongs to no configured account as it was |
| CronCache.FailedAccountIsInvisible | pkg/export/cron_cache.go:43-52 | an account that fails early gives the same cache as a configuration without it |
| CronCache.WritesDependOnReadKeyOnly | pkg/export/cron_cache.go:54-78 | what an account writes depends on the cache only through the domain-list key its records listing reads |
| CronCache.LoadAccountsCommute | pkg/export/cron_cache.go:36-80 | the goroutines of two independent accounts commute |
| CronCache.LoadingSwapAdjacent | pkg/export/cron_cache.go:36-80 | swapping two adjacent independent accounts anywhere in the configuration gives the same cache |
| CronCache.ReadKeyFollowsSpelling | pkg/export/cron_cache.go:42-64 | an account configured as "tencent" sees the domain list it has just written, while one configured as "Tencent" passes creation but sees a cache miss |
| CronCache.BatchFor | pkg/export/cron_cache.go:104-120 | the certificate batch of an account has one result per candidate record |
| CronCache.CachedRecords | pkg/export/cron_cache.go:94-103 | a certificate cycle starts from the cached record list, or from none on a miss or a decoding error |
| CronCache.LoadCertAccount | pkg/export/cron_cache.go:85-135 | an account's certificate entry is always written with the batch for its cached records (empty when there are none), and no other key changes |
| CronCache.LoadingCert | pkg/export/cron_cache.go:85-135 | a certificate cycle never removes an entry and leaves every configured account with a certificate entry |
| CronCache.LoadingCertCoversAccounts | pkg/export/cron_cache.go:85-135 | after a certificate cycle every configured account has a certificate entry, every other key is unchanged, and no key disappears |
| CronCache.CustomRecord | pkg/export/cron_cache.go:141-157 | a custom hostname becomes an enabled CNAME record of the custom pseudo-account, whose domain is the hostname's registrable domain or "" |
| CronCache.CustomRecordList | pkg/export/cron_cache.go:141-157 | one custom record per hostname, in order |
| CronCache.CustomRecordEligible | pkg/export/cron_cache.go:141-157 | a custom hostname is probed exactly when port 443 answers on it with wildcards replaced |
| CronCache.LoadingCustomRecordCert | pkg/export/cron_cache.go:137-182 | an empty hostname list changes nothing; otherwise the batch is stored under the custom key alone, and the certificate entry of every account whose `provider_name` is not spelled `CustomRecords` is unchanged, for any value of `CustomRecords` |
| CronCache.Startup | pkg/export/cron_cache.go:17-31 | the eager start of `InitCron` never removes an entry, leaves every configured account with a certificate entry, and stores the probed custom hostnames under the custom key when there are any |
| CronCache.ClosedApexIsNoCandidate | pkg/export/record_cert.go:131-139 | an apex record whose domain does not answer on 443 yields no candidate |
| CronCache.ScenarioKeys | pkg/export/cron_cache.go:42-64 | the keys of the Tencent account named prod are domain_list_tencent_prod, record_list_tencent_prod and record_cert_info_tencent_prod |
| CronCache.ScenarioHandle | pkg/export/cron_cache.go:43-52 | a lower-case tencent account whose domain listing succeeds does not fail early |
| CronCache.EndToEndScenario | pkg/export/cron_cache.go:17-31 | after start-up, one account with one domain and one enabled apex A record has both lists cached, and an empty certificate list when 443 is closed |
| ExportGauge.MetricName | pkg/export/export_gauge.go:22-28 | the gauge name is the bare metric name without a namespace, and `namespace_metric` otherwise |
| ExportGauge.MetricNameInjective | pkg/export/export_gauge.go:22-28 | under one namespace, different metric names give different gauge names |
| ExportGauge.MetricNamesDistinct | pkg/export/export_gauge.go:31-86 | the three gauges have distinct names under every namespace |
| ExportGauge.DomainRow | pkg/export/export_gauge.go:115-118 | a domain sample has value 1, and under each of the six domain labels it carries the domain field that label names, in descriptor order |
| ExportGauge.DomainRowRoundTrip | pkg/export/export_gauge.go:115-118 | a domain is recovered from its sample together with its unexported registrar dates |
| ExportGauge.RecordRow | pkg/export/export_gauge.go:136-137 | a record sample has value 1 and the thirteen record fields as labels, in descriptor order |
| ExportGauge.RecordRowRoundTrip | pkg/export/export_gauge.go:46-63 | the record can be read back from its sample, so no field is lost or swapped |
| ExportGauge.CertRow | pkg/export/export_gauge.go:156 | a certificate sample's value is the days until expiry, and its labels include the match flag rendered as true or false |
| ExportGauge.CertRowRoundTrip | pkg/export/export_gauge.go:64-83 | the certificate result can be read back from its sample |
| ExportGauge.DomainRows | pkg/export/export_gauge.go:115-118 | one sample per cached domain, in order |
| ExportGauge.RecordRows | pkg/export/export_gauge.go:132-138 | the record samples are those of the cached records, apex NS records skipped |
| ExportGauge.RecordRowsMembership | pkg/export/export_gauge.go:132-138 | a record is exported if and only if it is cached and is not an apex NS record |
| ExportGauge.CertRows | pkg/export/export_gauge.go:152-157 | the certificate samples are those of the cached results, results without a record id skipped |
| ExportGauge.CertRowsMembership | pkg/export/export_gauge.go:152-157 | a certificate result is exported if and only if it is cached and has a record id |
| ExportGauge.AccountRows | pkg/export/export_gauge.go:100-158 | a domain-list miss or decoding error exports nothing for the account; a record-list miss exports only its domains; a certificate-list miss exports only its domains and records |
| ExportGauge.CollectAppend | pkg/export/export_gauge.go:96-159 | scraping two account lists gives the samples of the first list followed by those of the second, so accounts contribute independently and in order |
| ExportGauge.CollectMembership | pkg/export/export_gauge.go:96-159 | a sample is in a scrape if and only if it is a sample of one configured account |
| ExportGauge.AccountRowsShape | pkg/export/export_gauge.go:100-158 | every sample of an account is a cached domain, an exported cached record or an exported cached certificate result of that account's keys |
| ExportGauge.NothingSuppressedIsExported | pkg/export/export_gauge.go:132-155 | no scrape exports an apex NS record, and no certificate sample lacks a record id |
| ExportGauge.SourceAccount | pkg/export/export_gauge.go:99-101 | every sample of a scrape comes from the account at some position of the configuration |
| ExportGauge.OnlyReachedCertificatesExported | pkg/export/export_gauge.go:152-155 | of a probe batch, exactly the requests that reached a certificate with a non-empty record id are exported, with their probe result |
| ExportGauge.CustomCertsNeverCollected | pkg/export/export_gauge.go:140-142 | a scrape reads the custom pseudo-account's entry for an account exactly when that account's `provider_name` spells `CustomRecords`, so never when `CustomRecords` has no '_' |
| Paging.Slice | pkg/provider/tencent.go:171-198 | a clipped slice has the clipped length, is empty past the end, and is the ordinary slice within bounds |
| Paging.SlicePrefix | pkg/provider/tencent.go:171-198 | a slice from the start is a prefix of the listing |
| Paging.SliceConcat | pkg/provider/aliyun.go:149-167 | adjacent pages join into one slice |
| Paging.OffsetFrom | pkg/provider/tencent.go:171-198 | the offset loop makes at least one request |
| Paging.OffsetFromSpec | pkg/provider/tencent.go:171-198 | every request before the last succeeded with a non-empty page; the last failed or returned an empty page; the gathered items are the items before the last offset |
| Paging.ShortPageFrom | pkg/provider/aliyun.go:149-167 | the page-number loop makes at least one request |
| Paging.ShortPageFromSpec | pkg/provider/aliyun.go:149-167 | every page before the last was full; the last failed or was short; the gathered items are the pages before it plus the short page |
| Paging.TotalStopIsShortPage | pkg/provider/cloudflare.go:170-194 | with a truthful total, stopping once `page * size > total` makes the same requests and gathers the same items as the short-page loop |
| Paging.ShortPageComplete | pkg/provider/aliyun.go:149-167 | without failures the page-number loop gathers everything in floor(n / size) + 1 requests |
| Paging.OffsetComplete | pkg/provider/tencent.go:171-198 | without failures the offset loop gathers everything in ceil(n / limit) + 1 requests |
| Paging.MarkerFrom | pkg/provider/amazon.go:177-194 | the marker loop makes between one request and the number of remaining pages |
| Paging.MarkerFromSpec | pkg/provider/amazon.go:177-194 | every request before the last succeeded; the last either failed, keeping the pages before it, or was the final page, and then every page is gathered |
| Paging.MarkerFromStart | pkg/provider/amazon.go:177-194 | started at the first page, the marker loop fails exactly when some page fails, reporting the error of the first failing page after successful earlier requests, and otherwise reads every page in one request each |
| Paging.MarkerLoop | pkg/provider/amazon.go:177-194 | the listing succeeds exactly when no page fails, and then returns every page's items in order; otherwise it returns nothing, with the error of the first failing page |
| FanOut.Gather | pkg/provider/tencent.go:118-131 | every key of the result map is the name of a domain whose goroutine stored something |
| FanOut.Emit | pkg/provider/tencent.go:136-153 | every emitted item is built from a value stored in the result map under its key |
| FanOut.GatherKeys | pkg/provider/tencent.go:118-131 | every domain whose goroutine stored something leaves its name as a key of the result map |
| FanOut.GatherLastWriter | pkg/provider/tencent.go:118-131 | the value under a key is what the last domain of that name stored, and no later domain of that name stored anything |
| FanOut.EmitComplete | pkg/provider/tencent.go:118-153 | every value stored by the last domain of its name is emitted |
| FanOut.GatherSpec | pkg/provider/tencent.go:118-131 | a name is in the result map exactly when a domain of that name stored something, and it holds what the last such domain stored |
| FanOut.StoredNames | pkg/provider/tencent.go:133-151 | the walked names are exactly the names of domains that stored something |
| FanOut.Walk | pkg/provider/tencent.go:133-151 | the walk produces a record for exactly each stored item of each walked name |
| FanOut.EmitMembership | pkg/provider/tencent.go:118-151 | a record is built exactly when it comes from an item stored in the map |
| FanOut.GatherByName | pkg/provider/aliyun.go:110-123 | when each domain stores what is fetched for its name, the map holds exactly the successful fetches of the cached names |
| Tencent.GetRecordList | pkg/provider/tencent.go:171-198 | the gathered records are a prefix of the zone's records; the "no records" error is swallowed; a returned error is the last request's; success means everything was gathered or the zone reported no records |
| Tencent.GetRecordListComplete | pkg/provider/tencent.go:171-198 | without failures every record is gathered in ceil(n / 3000) + 1 requests |
| Tencent.GetDomainNameList | pkg/provider/tencent.go:202-233 | the registrations are all listed, or the error of some failing request is returned and nothing gathered is kept |
| Tencent.LastMatch | pkg/provider/tencent.go:236-247 | the last registration with the zone's name, or none when no registration has it |
| Tencent.DomainDates | pkg/provider/tencent.go:236-247 | the dates come from the last registration with the zone's name; days are computed only when its expiry date is non-empty |
| Tencent.ToDomain | pkg/provider/tencent.go:74-84 | a zone keeps its id, name and remark, takes the normalised status and the registration dates |
| Tencent.ListDomains | pkg/provider/tencent.go:51-87 | a failure of either listing fails the call; otherwise one domain per zone, in order, dated by its registration |
| Tencent.ToRecord | pkg/provider/tencent.go:133-151 | a record's full name is its name, a dot and the zone; the status is normalised; id, TTL and weight are rendered in decimal; type, value, remark and update time are copied from the item |
| Tencent.ListRecords | pkg/provider/tencent.go:90-153 | listing fails exactly when the cached domain list is unavailable |
| Tencent.ListRecordsMembership | pkg/provider/tencent.go:90-153 | the records are exactly the mapped items gathered for the last cached domain of each name, including those gathered before a failing request |
| Tencent.RecordStatusNormalised | pkg/provider/tencent.go:133-151 | exported record statuses are already normalised |
| Aliyun.PagedList | pkg/provider/aliyun.go:149-192 | a listing returns all items or the error of some failing request, discarding what was gathered |
| Aliyun.PagedListComplete | pkg/provider/aliyun.go:149-192 | without failures the listing is complete after floor(n / size) + 1 requests |
| Aliyun.PagedListIgnoresLaterFailures | pkg/provider/aliyun.go:149-192 | a failure beyond the short page is never requested, so it cannot fail the listing |
| Aliyun.ToDomain | pkg/provider/aliyun.go:68-78 | a zone keeps its id, name and remark, is always enabled, and has no dates |
| Aliyun.ListDomains | pkg/provider/aliyun.go:51-80 | the zones in listing order, or the listing's error |
| Aliyun.ToRecord | pkg/provider/aliyun.go:125-143 | a record's full name is the host record, a dot and the zone; TTL and weight in decimal; status normalised; update time rendered from its timestamp; id, type, value and remark copied from the item |
| Aliyun.ListRecords | pkg/provider/aliyun.go:83-145 | listing fails exactly when the cached domain list is unavailable |
| Aliyun.ListRecordsMembership | pkg/provider/aliyun.go:83-145 | the records are exactly the mapped items of the last cached domain of each name whose listing succeeded |
| Cloudflare.ToDomain | pkg/provider/cloudflare.go:63-73 | the zone's name is both cloud name and domain name; the status is not normalised; the dates come from the registrar |
| Cloudflare.ListDomains | pkg/provider/cloudflare.go:38-79 | a failed zone listing fails the call; otherwise one domain per zone, in order |
| Cloudflare.GetRecordList | pkg/provider/cloudflare.go:170-194 | a failed zone lookup is returned; success returns every record; a failure returns some failing request's error |
| Cloudflare.GetRecordListComplete | pkg/provider/cloudflare.go:170-194 | without failures every record is gathered in floor(n / 2) + 1 requests |
| Cloudflare.ToRecord | pkg/provider/cloudflare.go:121-135 | the record's name is its full name, it is always enabled, and value, weight, remark and update time are empty |
| Cloudflare.Fetched | pkg/provider/cloudflare.go:107-118 | a zone's records are stored exactly when its listing succeeds |
| Cloudflare.ListRecords | pkg/provider/cloudflare.go:81-138 | listing fails exactly when the cached domain list is unavailable |
| Cloudflare.ListRecordsMembership | pkg/provider/cloudflare.go:81-138 | the records are exactly the mapped records of the last cached domain of each name whose listing succeeded |
| Amazon.ToDomain | pkg/provider/amazon.go:74-87 | the trailing dot and the "/hostedzone/" prefix are removed, the zone is always enabled, and the dates come from the registrar |
| Amazon.ListDomains | pkg/provider/amazon.go:51-93 | the call succeeds exactly when no page of the zone listing fails, with one domain per listed zone in order |
| Amazon.AsWrittenName | pkg/provider/amazon.go:150-156 | a name with fewer than two dots is the apex "@"; a deeper name containing the zone name loses at least the zone name's length, and one not containing it only loses a trailing dot |
| Amazon.AsWrittenAgreesOnPlainNames | pkg/provider/amazon.go:150-156 | for a zone whose name has a dot, the rule as written gives the relative name of every name inside the zone in which the zone name does not occur before its suffix |
| Amazon.AsWrittenAgreesAtShallowApex | pkg/provider/amazon.go:150-156 | in a zone of two labels the rule as written names the apex "@", as the relative name does |
| Amazon.RelativeName | pkg/provider/amazon.go:150-156 | the apex is "@", and any other name inside the zone is the relative part that, with the zone appended, gives the name back |
| Amazon.RelativeNameRoundTrip | pkg/provider/amazon.go:150-156 | every host inside the zone round-trips through its relative name, and so does the apex |
| Amazon.ApexOfDeepZoneUnnamed | pkg/provider/amazon.go:150-156 | as written, the apex of a zone with three or more labels gets an empty name instead of "@" |
| Amazon.ApexOfExampleCoUk | pkg/provider/amazon.go:150-156 | as written, the apex of example.co.uk gets an empty name |
| Amazon.RepeatedZoneNameMisplaced | pkg/provider/amazon.go:153 | as written, the record example.com.example.com in zone example.com is named ".example.com" instead of "example.com" |
| Amazon.ToRecord | pkg/provider/amazon.go:136-170 | a record loses its trailing dot, is named relative to its zone by the corrected rule, defaults its TTL to 300, and is always enabled |
| Amazon.RecordsOf | pkg/provider/amazon.go:162-169 | a record set expands into one record per value, in value order |
| Amazon.RecordsOfDifferOnlyInValue | pkg/provider/amazon.go:162-169 | the records of one set agree on everything except their value |
| Amazon.RecordSets | pkg/provider/amazon.go:198-223 | a record-set listing returns every page's sets, or nothing when some page fails |
| Amazon.ListRecords | pkg/provider/amazon.go:95-173 | listing fails exactly when the cached domain list is unavailable (records named by the corrected rule) |
| Amazon.ListRecordsSound | pkg/provider/amazon.go:95-173 | every record comes from one value of one set listed for a cached domain |
| Amazon.ListRecordsComplete | pkg/provider/amazon.go:95-173 | every value of every set of the last cached domain of each name is exported |
| DnsLaLib.NewPageOption | dnslib/dnsla/public.go:9-20 | an acceptable page request is kept, any other is replaced by page 1 of 1000, and the result is always acceptable |
| DnsLaLib.NewPageOptionIdempotent | dnslib/dnsla/public.go:9-20 | clamping twice is clamping once |
| DnsLaLib.Set | dnslib/dnsla/domain.go:15-16 | setting a query key makes it hold exactly one value and changes no other key |
| DnsLaLib.SetUnlessEmpty | dnslib/dnsla/models.go:79-85 | an empty value leaves the query alone, and any other value is set under its key alone |
| DnsLaLib.ApplyDomainOption | dnslib/dnsla/models.go:79-118 | each domain-list option writes only its own keys: string options skip "", the state is always written, and each end of the expiry range is written only when it is non-zero |
| DnsLaLib.ApplyDomainOptionIdempotent | dnslib/dnsla/models.go:79-118 | applying a domain-list option twice is applying it once |
| DnsLaLib.ApplyRecordOption | dnslib/dnsla/models.go:123-177 | each record-list option writes only its own key: the type and the three flags always, the string options unless they are "" |
| DnsLaLib.ApplyRecordOptionIdempotent | dnslib/dnsla/models.go:123-177 | applying a record-list option twice is applying it once |
| DnsLaLib.DomainOptionsKeep | dnslib/dnsla/domain.go:17-19 | a key no domain-list option writes keeps its value through any list of options |
| DnsLaLib.RecordOptionsKeep | dnslib/dnsla/record.go:18-20 | a key no record-list option writes keeps its value through any list of options |
| DnsLaLib.DomainListQuery | dnslib/dnsla/domain.go:13-19 | the page index and size survive any options |
| DnsLaLib.RecordListQuery | dnslib/dnsla/record.go:13-20 | the page index, page size and domain id survive any options |
| DnsLa.RecordTypeName | pkg/provider/dnsla.go:181-204 | a code is named by the table exactly when it is not "Unknown" |
| DnsLa.KnownCodesNamed | pkg/provider/dnsla.go:168-204 | every code of the table gets its table name, never "Unknown" |
| DnsLa.RecordTypeNameInjective | pkg/provider/dnsla.go:181-204 | two known codes never share a name |
| DnsLa.NumericStatePassesThrough | pkg/provider/dnsla.go:59-71 | DNS.LA's numeric states pass unchanged through status normalisation |
| DnsLa.ToDomain | pkg/provider/dnsla.go:59-71 | the domain name is also the remark, the state is rendered in decimal, and the millisecond times are rendered as dates |
| DnsLa.RequestPages | pkg/provider/dnsla.go:144-162 | the requests ask for page 1 of 500 zones and page 1 of 1000 records, and the record query carries the zone id |
| DnsLa.ListDomains | pkg/provider/dnsla.go:43-73 | a failed domain list fails the call; otherwise one domain per zone, in order |
| DnsLa.GetRecordList | pkg/provider/dnsla.go:155-162 | a failed request gives no records and its error instead of a crash |
| DnsLa.FailedRecordRequestPanics | pkg/provider/dnsla.go:155-162 | as written, a failed record request dereferences a nil response, and the corrected version agrees with it on every successful request |
| DnsLa.ToRecord | pkg/provider/dnsla.go:121-137 | the data is both id and value, the host both name and remark, the type is named from its code, and the record is always enabled |
| DnsLa.ListRecords | pkg/provider/dnsla.go:76-140 | with the corrected record fetch, listing fails exactly when the cached domain list is unavailable |
| DnsLa.ListRecordsSound | pkg/provider/dnsla.go:76-140 | every record comes from a record fetched successfully for a cached domain |
| DnsLa.ListRecordsComplete | pkg/provider/dnsla.go:76-140 | every fetched record of the last cached domain of each name is exported |

## Left out

- Network and SDK calls are not modelled: the vendor APIs, the TLS dial, the port check and the registrar lookups. They are inputs to the model: listings with a failure oracle, dial results, and `portOpen`, `registrar` and `daysOf` functions.
- Concurrency is not modelled: goroutines, the semaphore, the wait group, the mutex around a scrape and the result channel. Goroutines are taken to finish in domain or configuration order. Go map iteration is taken to be in order of first storage. Independent accounts are proved to commute.
- The tickers, cron schedules and cache expiry are left out. Configuration loading and logging are left out too.
- JSON encoding is the identity: a cache entry holds the list itself, tagged with its kind.
- Time rendering (`time.DateOnly`, the millisecond and Unix conversions) is a `timeText` input. `time.Until(...).Hours()` is a nanosecond count, truncated toward zero by `CertProbe.TruncDiv`; floating point is not modelled.
- Text.ToLower: lower-cases ASCII letters only, while Go's `strings.ToLower` also folds non-ASCII letters.
- The GoDaddy provider (pkg/provider/godaddy.go) is not part of this model. It is registered at start-up, and the registry models that.
- The creation time of a domain is left out. pkg/provider/aliyun.go:76 and pkg/export/export_gauge.go:117 use a `CreateTime` field that the `Domain` struct at pkg/provider/provider.go:58-68 does not declare. The model follows the struct: Aliyun's zone creation time is dropped, and a domain sample carries the six labels before `create_time`.
- `GetRecordCertReq.RecordValue` is not modelled; nothing in the probe reads it.
- Amazon.ToRecord: names records with the corrected rule `RelativeName`, not the code's rule `AsWrittenName` (see Findings). For zones whose name has a dot, the two agree on every name in which the zone name does not occur before its suffix (`Amazon.AsWrittenAgreesOnPlainNames`). They differ at the apex of zones of three or more labels and for names that repeat the zone name. Amazon.ListRecords, Amazon.ListRecordsSound and Amazon.ListRecordsComplete inherit this.
- Amazon.ToRecord: the weight is the `weightText` input. The code formats a pointer with `%d`, which prints an address rather than the weight. The update time is one input string for the whole call.
- Cloudflare.GetRecordList: the reported result total is taken to be the true record count, so the loop is the short-page loop. Client initialisation errors are not modelled.
- Creating a vendor client can fail (Tencent, Aliyun, DNS.LA). That first step of `ListDomains`/`ListRecords` is not modelled; only the listing errors are.
- Provider identifiers: public/public.go:20-29 declares only `TencentDnsProvider` ("tencent"), `AliyunDnsProvider` ("aliyun") and `HuaweiDnsProvider`. The values of `GodaddyDnsProvider`, `AmazonDnsProvider`, `CloudflareDnsProvider`, `DnsLaDnsProvider` and `CustomRecords` are not declared in any file of this model. The model gives them distinct lower-case values without '_'. Every property about the custom key is stated for any value of `CustomRecords`. The registrable domain of a custom hostname (`publicsuffix`) is a `domainOf` input. The record id drawn for each hostname is an `ids` input.
- DnsLa.ListRecords: is built on the corrected `GetRecordList`, which returns no records and the error. As written, a failed record request dereferences a nil response at pkg/provider/dnsla.go:161 and panics (see Findings). So its contract describes the code only for runs in which every record request succeeds; `DnsLa.FailedRecordRequestPanics` shows that the two fetches agree on success.
- DnsLa.ListRecords: only one page of at most 1000 records per zone is requested, as in the code; later pages are not fetched.
- Paging.MarkerLoop: a marker-driven listing always has at least one response, by its type `Responses`.

## Findings

| source | as written | input that shows it | evidently intended | confidence | as-written member | corrected member |
|---|---|---|---|---|---|---|
| pkg/provider/amazon.go:150-156 | a record name with more than one dot has the zone name replaced by "" and the trailing '.' trimmed, so a zone's own apex in a zone of three or more labels becomes "" | zone `example.co.uk`, record `example.co.uk` | "@" for the apex, as for two-label zones | high, not executed | Amazon.ApexOfDeepZoneUnnamed | Amazon.RelativeNameRoundTrip |
| pkg/provider/amazon.go:153 | `strings.Replace(..., 1)` removes the first occurrence of the zone name, not the suffix | zone `example.com`, record `example.com.example.com` gives `.example.com` | `example.com`, the name relative to the zone | high, not executed | Amazon.RepeatedZoneNameMisplaced | Amazon.RelativeName |
| pkg/provider/dnsla.go:155-162 | after a failed `Records.List` the nil response is dereferenced, which panics and stops the exporter | any record request that fails (network error or non-2xx status) | return no records and the error, as the other vendors do | high, not executed | DnsLa.FailedRecordRequestPanics | DnsLa.GetRecordList |
