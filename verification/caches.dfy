/** The two snapshot caches of public/public.go, as maps from key to stored bytes.
    Serialisation is an identity round trip, so a stored value is the list it encoded;
    `Undecodable` stands for bytes that `json.Unmarshal` rejects. Expiry is not modelled. */
module Caches {
  import opened Wrappers
  import opened Provider

  datatype Blob =
    | DomainBlob(domains: seq<Domain>)
    | RecordBlob(records: seq<Record>)
    | CertBlob(certs: seq<RecordCert>)
    | Undecodable

  /** `Cache` (inventory, 5 minutes) and `CertCache` (certificates, 25 hours) share this shape. */
  type Cache = map<string, Blob>

  /** bigcache's error for an absent or expired key. */
  const EntryNotFound: string := "Entry not found"

  /** The error `json.Unmarshal` reports for bytes that are not the expected list. */
  const DecodeError: string := "json: cannot unmarshal"

  /** `Cache.Get` followed by `json.Unmarshal` into a domain list. */
  function GetDomains(c: Cache, key: string): (r: Result<seq<Domain>, string>)
    ensures key !in c ==> r == Err(EntryNotFound)
    ensures r.Ok? <==> key in c && c[key].DomainBlob?
    ensures r.Ok? ==> c[key] == DomainBlob(r.value)
  {
    if key !in c then Err(EntryNotFound)
    else match c[key]
      case DomainBlob(ds) => Ok(ds)
      case _ => Err(DecodeError)
  }

  /** `Cache.Get` followed by `json.Unmarshal` into a record list. */
  function GetRecords(c: Cache, key: string): (r: Result<seq<Record>, string>)
    ensures key !in c ==> r == Err(EntryNotFound)
    ensures r.Ok? <==> key in c && c[key].RecordBlob?
    ensures r.Ok? ==> c[key] == RecordBlob(r.value)
  {
    if key !in c then Err(EntryNotFound)
    else match c[key]
      case RecordBlob(rs) => Ok(rs)
      case _ => Err(DecodeError)
  }

  /** `CertCache.Get` followed by `json.Unmarshal` into a certificate list. */
  function GetCerts(c: Cache, key: string): (r: Result<seq<RecordCert>, string>)
    ensures key !in c ==> r == Err(EntryNotFound)
    ensures r.Ok? <==> key in c && c[key].CertBlob?
    ensures r.Ok? ==> c[key] == CertBlob(r.value)
  {
    if key !in c then Err(EntryNotFound)
    else match c[key]
      case CertBlob(cs) => Ok(cs)
      case _ => Err(DecodeError)
  }

  /** Writing then reading a domain list returns it unchanged. */
  lemma DomainsRoundTrip(c: Cache, key: string, ds: seq<Domain>)
    ensures GetDomains(c[key := DomainBlob(ds)], key) == Ok(ds)
  {
  }

  /** Writing then reading a record list returns it unchanged. */
  lemma RecordsRoundTrip(c: Cache, key: string, rs: seq<Record>)
    ensures GetRecords(c[key := RecordBlob(rs)], key) == Ok(rs)
  {
  }

  /** Writing then reading a certificate list returns it unchanged. */
  lemma CertsRoundTrip(c: Cache, key: string, cs: seq<RecordCert>)
    ensures GetCerts(c[key := CertBlob(cs)], key) == Ok(cs)
  {
  }
}
