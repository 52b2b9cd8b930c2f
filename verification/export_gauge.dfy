/** Exposition (pkg/export/export_gauge.go): which cached entries become gauge samples.
    A scrape is a pure function of the two caches and the configured accounts; the
    Prometheus descriptors and the sample channel are left out, a sample is a `Row`. */
module ExportGauge {
  import opened Wrappers
  import opened Public
  import opened Provider
  import opened Caches
  import Text
  import Decimal
  import CronCache
  import CertProbe

  /** `newGlobalMetric`'s fully qualified name: the namespace, when there is one, joined by '_'. */
  function MetricName(namespace: string, metricName: string): (name: string)
    ensures Text.HasSuffix(name, metricName)
    ensures namespace == "" ==> |name| == |metricName|
    ensures namespace != "" ==>
      |name| == |namespace| + 1 + |metricName| && Text.HasPrefix(name, namespace) && name[|namespace|] == '_'
  {
    if namespace == "" then metricName else namespace + "_" + metricName
  }

  /** Under one namespace, different metric kinds get different names. */
  lemma MetricNameInjective(namespace: string, a: string, b: string)
    requires MetricName(namespace, a) == MetricName(namespace, b)
    ensures a == b
  {
    if namespace != "" {
      var n := MetricName(namespace, a);
      assert a == n[|namespace| + 1..];
      assert b == n[|namespace| + 1..];
    }
  }

  /** The three gauges have distinct names under every namespace. */
  lemma MetricNamesDistinct(namespace: string)
    ensures MetricName(namespace, DomainList) != MetricName(namespace, RecordList)
    ensures MetricName(namespace, DomainList) != MetricName(namespace, RecordCertInfo)
    ensures MetricName(namespace, RecordList) != MetricName(namespace, RecordCertInfo)
  {
    if MetricName(namespace, DomainList) == MetricName(namespace, RecordList) {
      MetricNameInjective(namespace, DomainList, RecordList);
    }
    if MetricName(namespace, DomainList) == MetricName(namespace, RecordCertInfo) {
      MetricNameInjective(namespace, DomainList, RecordCertInfo);
    }
    if MetricName(namespace, RecordList) == MetricName(namespace, RecordCertInfo) {
      MetricNameInjective(namespace, RecordList, RecordCertInfo);
    }
  }

  /** One gauge sample: metric name, value and label values in descriptor order. */
  datatype Row = Row(metric: string, value: int, labels: seq<string>)

  /** The label names of the domain gauge that the `Domain` type can fill. */
  const DomainLabels: seq<string> :=
    ["cloud_provider", "cloud_name", "domain_id", "domain_name", "domain_remark", "domain_status"]

  const RecordLabels: seq<string> :=
    ["cloud_provider", "cloud_name", "domain_name", "record_id", "record_type", "record_name",
     "record_value", "record_ttl", "record_weight", "record_status", "record_remark", "update_time",
     "full_record"]

  const CertLabels: seq<string> :=
    ["cloud_provider", "cloud_name", "domain_name", "record_id", "full_record",
     "subject_common_name", "subject_organization", "subject_organizational_unit",
     "issuer_common_name", "issuer_organization", "issuer_organizational_unit",
     "created_date", "expiry_date", "cert_matched", "error_msg"]

  /** The domain field a domain label names. */
  function DomainField(d: Domain, labelName: string): string {
    if labelName == "cloud_provider" then d.cloudProvider
    else if labelName == "cloud_name" then d.cloudName
    else if labelName == "domain_id" then d.domainID
    else if labelName == "domain_name" then d.domainName
    else if labelName == "domain_remark" then d.domainRemark
    else if labelName == "domain_status" then d.domainStatus
    else ""
  }

  /** The sample of one cached domain: value 1, and under each domain label the field it
      names, in descriptor order. */
  function DomainRow(namespace: string, d: Domain): (row: Row)
    ensures row.metric == MetricName(namespace, DomainList) && row.value == 1
    ensures |row.labels| == |DomainLabels|
    ensures forall k :: 0 <= k < |DomainLabels| ==> row.labels[k] == DomainField(d, DomainLabels[k])
  {
    Row(MetricName(namespace, DomainList), 1,
      [d.cloudProvider, d.cloudName, d.domainID, d.domainName, d.domainRemark, d.domainStatus])
  }

  /** Reads a domain back from its sample; the registrar dates, which are not exported, come
      from `dates`. */
  function DomainOfRow(row: Row, dates: Domain): Domain
    requires |row.labels| == |DomainLabels|
  {
    var l := row.labels;
    Domain(l[0], l[1], l[2], l[3], l[4], l[5], dates.createdDate, dates.expiryDate, dates.daysUntilExpiry)
  }

  /** A domain sample carries every exported field of the domain. */
  lemma DomainRowRoundTrip(namespace: string, d: Domain)
    ensures DomainOfRow(DomainRow(namespace, d), d) == d
  {
  }

  /** The sample of one cached record: value 1, every record field as a label. */
  function RecordRow(namespace: string, r: Record): (row: Row)
    ensures row.metric == MetricName(namespace, RecordList) && row.value == 1
    ensures |row.labels| == |RecordLabels|
  {
    Row(MetricName(namespace, RecordList), 1,
      [r.cloudProvider, r.cloudName, r.domainName, r.recordID, r.recordType, r.recordName,
       r.recordValue, r.recordTTL, r.recordWeight, r.recordStatus, r.recordRemark, r.updateTime,
       r.fullRecord])
  }

  /** Reads a record back from its sample's labels. */
  function RecordOfRow(row: Row): Record
    requires |row.labels| == |RecordLabels|
  {
    var l := row.labels;
    Record(l[0], l[1], l[2], l[3], l[4], l[5], l[6], l[7], l[8], l[9], l[10], l[11], l[12])
  }

  /** A record sample carries the whole record. */
  lemma RecordRowRoundTrip(namespace: string, r: Record)
    ensures RecordOfRow(RecordRow(namespace, r)) == r
  {
  }

  /** The sample of one cached certificate result: its value is the days until expiry and
      `cert_matched` is rendered "true" or "false". */
  function CertRow(namespace: string, c: RecordCert): (row: Row)
    ensures row.metric == MetricName(namespace, RecordCertInfo) && row.value == c.daysUntilExpiry
    ensures |row.labels| == |CertLabels|
    ensures row.labels[13] == "true" || row.labels[13] == "false"
  {
    Row(MetricName(namespace, RecordCertInfo), c.daysUntilExpiry,
      [c.cloudProvider, c.cloudName, c.domainName, c.recordID, c.fullRecord,
       c.subjectCommonName, c.subjectOrganization, c.subjectOrganizationalUnit,
       c.issuerCommonName, c.issuerOrganization, c.issuerOrganizationalUnit,
       c.createdDate, c.expiryDate, Decimal.BoolText(c.certMatched), c.errorMsg])
  }

  /** Reads a certificate result back from its sample. */
  function CertOfRow(row: Row): RecordCert
    requires |row.labels| == |CertLabels|
  {
    var l := row.labels;
    RecordCert(l[0], l[1], l[2], l[4], l[3], l[5], l[6], l[7], l[8], l[9], l[10], l[11], l[12],
      row.value, l[13] == "true", l[14])
  }

  /** A certificate sample carries the whole result. */
  lemma CertRowRoundTrip(namespace: string, c: RecordCert)
    ensures CertOfRow(CertRow(namespace, c)) == c
  {
  }

  /** The one record shape that is never exported: the zone's own NS set. */
  predicate RecordExported(r: Record) {
    !(r.recordName == "@" && r.recordType == "NS")
  }

  /** Certificate results without a record id are never exported. */
  predicate CertExported(c: RecordCert) {
    c.recordID != ""
  }

  function DomainRows(namespace: string, ds: seq<Domain>): (rows: seq<Row>)
    ensures |rows| == |ds|
    ensures forall i :: 0 <= i < |ds| ==> rows[i] == DomainRow(namespace, ds[i])
  {
    seq(|ds|, i requires 0 <= i < |ds| => DomainRow(namespace, ds[i]))
  }

  /** The record samples, in cached order, skipping apex NS records. */
  function RecordRows(namespace: string, rs: seq<Record>): (rows: seq<Row>)
    ensures |rows| <= |rs|
    ensures forall row :: row in rows ==> row.metric == MetricName(namespace, RecordList) && row.value == 1
    ensures forall row :: row in rows ==> |row.labels| == |RecordLabels| && RecordExported(RecordOfRow(row))
    decreases |rs|
  {
    if |rs| == 0 then []
    else
      var rest := RecordRows(namespace, rs[1..]);
      if RecordExported(rs[0]) then [RecordRow(namespace, rs[0])] + rest else rest
  }

  /** A record sample is exported exactly for the cached records that are not apex NS records. */
  lemma {:induction false} RecordRowsMembership(namespace: string, rs: seq<Record>, r: Record)
    ensures RecordRow(namespace, r) in RecordRows(namespace, rs) <==> r in rs && RecordExported(r)
    decreases |rs|
  {
    if |rs| > 0 {
      RecordRowsMembership(namespace, rs[1..], r);
      RecordRowRoundTrip(namespace, r);
      RecordRowRoundTrip(namespace, rs[0]);
      if r in rs && r != rs[0] {
        assert r in rs[1..];
      }
    }
  }

  /** The certificate samples, in cached order, skipping results without a record id. */
  function CertRows(namespace: string, cs: seq<RecordCert>): (rows: seq<Row>)
    ensures |rows| <= |cs|
    ensures forall row :: row in rows ==> row.metric == MetricName(namespace, RecordCertInfo)
    ensures forall row :: row in rows ==> |row.labels| == |CertLabels| && CertExported(CertOfRow(row))
    decreases |cs|
  {
    if |cs| == 0 then []
    else
      var rest := CertRows(namespace, cs[1..]);
      if CertExported(cs[0]) then [CertRow(namespace, cs[0])] + rest else rest
  }

  /** A certificate sample is exported exactly for the cached results that carry a record id. */
  lemma {:induction false} CertRowsMembership(namespace: string, cs: seq<RecordCert>, c: RecordCert)
    ensures CertRow(namespace, c) in CertRows(namespace, cs) <==> c in cs && CertExported(c)
    decreases |cs|
  {
    if |cs| > 0 {
      CertRowsMembership(namespace, cs[1..], c);
      CertRowRoundTrip(namespace, c);
      CertRowRoundTrip(namespace, cs[0]);
      if c in cs && c != cs[0] {
        assert c in cs[1..];
      }
    }
  }

  /** The samples of one configured account. A domain-list miss or decoding error skips
      everything; a record-list one skips records and certificates; a certificate one skips
      only certificates. Within the account: domains, then records, then certificates. */
  function AccountRows(namespace: string, cache: Cache, certCache: Cache, a: CronCache.AccountConfig): (rows: seq<Row>)
    ensures GetDomains(cache, CronCache.DomainKey(a)).Err? ==> rows == []
    ensures GetDomains(cache, CronCache.DomainKey(a)).Ok? && GetRecords(cache, CronCache.RecordKey(a)).Err? ==>
      rows == DomainRows(namespace, GetDomains(cache, CronCache.DomainKey(a)).value)
    ensures GetDomains(cache, CronCache.DomainKey(a)).Ok? && GetRecords(cache, CronCache.RecordKey(a)).Ok?
            && GetCerts(certCache, CronCache.CertKey(a)).Err? ==>
      rows == DomainRows(namespace, GetDomains(cache, CronCache.DomainKey(a)).value)
              + RecordRows(namespace, GetRecords(cache, CronCache.RecordKey(a)).value)
    ensures GetDomains(cache, CronCache.DomainKey(a)).Ok? && GetRecords(cache, CronCache.RecordKey(a)).Ok?
            && GetCerts(certCache, CronCache.CertKey(a)).Ok? ==>
      rows == DomainRows(namespace, GetDomains(cache, CronCache.DomainKey(a)).value)
              + RecordRows(namespace, GetRecords(cache, CronCache.RecordKey(a)).value)
              + CertRows(namespace, GetCerts(certCache, CronCache.CertKey(a)).value)
  {
    var domains := GetDomains(cache, CronCache.DomainKey(a));
    var records := GetRecords(cache, CronCache.RecordKey(a));
    var certs := GetCerts(certCache, CronCache.CertKey(a));
    if domains.Err? then []
    else if records.Err? then DomainRows(namespace, domains.value)
    else if certs.Err? then DomainRows(namespace, domains.value) + RecordRows(namespace, records.value)
    else DomainRows(namespace, domains.value) + RecordRows(namespace, records.value) + CertRows(namespace, certs.value)
  }

  /** `Collect`: the samples of every configured account, account after account. */
  function Collect(namespace: string, cache: Cache, certCache: Cache, accounts: seq<CronCache.AccountConfig>): seq<Row>
    decreases |accounts|
  {
    if |accounts| == 0 then []
    else AccountRows(namespace, cache, certCache, accounts[0]) + Collect(namespace, cache, certCache, accounts[1..])
  }

  /** A scrape of two account lists is the scrape of the first followed by that of the second. */
  lemma {:induction false} CollectAppend(namespace: string, cache: Cache, certCache: Cache,
                                         xs: seq<CronCache.AccountConfig>, ys: seq<CronCache.AccountConfig>)
    ensures Collect(namespace, cache, certCache, xs + ys) ==
      Collect(namespace, cache, certCache, xs) + Collect(namespace, cache, certCache, ys)
    decreases |xs|
  {
    if |xs| == 0 {
      assert xs + ys == ys;
    } else {
      assert (xs + ys)[1..] == xs[1..] + ys;
      CollectAppend(namespace, cache, certCache, xs[1..], ys);
    }
  }

  /** Every sample of a scrape comes from one configured account. */
  lemma {:induction false} CollectMembership(namespace: string, cache: Cache, certCache: Cache,
                                             accounts: seq<CronCache.AccountConfig>, row: Row)
    ensures row in Collect(namespace, cache, certCache, accounts) <==>
      exists i :: 0 <= i < |accounts| && row in AccountRows(namespace, cache, certCache, accounts[i])
    decreases |accounts|
  {
    if |accounts| > 0 {
      CollectMembership(namespace, cache, certCache, accounts[1..], row);
      if exists i :: 0 <= i < |accounts| && row in AccountRows(namespace, cache, certCache, accounts[i]) {
        var i :| 0 <= i < |accounts| && row in AccountRows(namespace, cache, certCache, accounts[i]);
        if i > 0 {
          assert accounts[1..][i - 1] == accounts[i];
        }
      }
      if exists i :: 0 <= i < |accounts[1..]| && row in AccountRows(namespace, cache, certCache, accounts[1..][i]) {
        var i :| 0 <= i < |accounts[1..]| && row in AccountRows(namespace, cache, certCache, accounts[1..][i]);
        assert accounts[1..][i] == accounts[i + 1];
      }
    }
  }

  /** Every sample of one account is a domain, an exported record or an exported certificate. */
  lemma AccountRowsShape(namespace: string, cache: Cache, certCache: Cache, a: CronCache.AccountConfig, row: Row)
    requires row in AccountRows(namespace, cache, certCache, a)
    ensures row.metric == MetricName(namespace, DomainList) ||
            (row.metric == MetricName(namespace, RecordList) && |row.labels| == |RecordLabels| && RecordExported(RecordOfRow(row))) ||
            (row.metric == MetricName(namespace, RecordCertInfo) && |row.labels| == |CertLabels| && CertExported(CertOfRow(row)))
  {
    var ds := GetDomains(cache, CronCache.DomainKey(a));
    var rs := GetRecords(cache, CronCache.RecordKey(a));
    var cs := GetCerts(certCache, CronCache.CertKey(a));
    var drows := DomainRows(namespace, ds.value);
    if row !in drows {
      var rrows := RecordRows(namespace, rs.value);
      if row !in rrows {
        assert row in CertRows(namespace, cs.value);
      }
    }
  }

  /** No scrape exports an apex NS record, and no certificate sample lacks a record id. */
  lemma NothingSuppressedIsExported(namespace: string, cache: Cache, certCache: Cache,
                                    accounts: seq<CronCache.AccountConfig>, row: Row)
    requires row in Collect(namespace, cache, certCache, accounts)
    ensures row.metric == MetricName(namespace, RecordList) ==>
      |row.labels| == |RecordLabels| && RecordExported(RecordOfRow(row))
    ensures row.metric == MetricName(namespace, RecordCertInfo) ==>
      |row.labels| == |CertLabels| && CertOfRow(row).recordID != ""
  {
    var i := SourceAccount(namespace, cache, certCache, accounts, row);
    AccountRowsShape(namespace, cache, certCache, accounts[i], row);
    MetricNamesDistinct(namespace);
  }

  /** The position of the account a sample of a scrape comes from. */
  lemma {:induction false} SourceAccount(namespace: string, cache: Cache, certCache: Cache,
                                         accounts: seq<CronCache.AccountConfig>, row: Row) returns (i: nat)
    requires row in Collect(namespace, cache, certCache, accounts)
    ensures i < |accounts| && row in AccountRows(namespace, cache, certCache, accounts[i])
    decreases |accounts|
  {
    if row in AccountRows(namespace, cache, certCache, accounts[0]) {
      i := 0;
    } else {
      var j := SourceAccount(namespace, cache, certCache, accounts[1..], row);
      i := j + 1;
    }
  }

  /** Timed-out, undialled and certificate-less requests never reach exposition: the samples
      of a batch are exactly those of the requests that reached a certificate and had a
      record id. */
  lemma {:induction false} OnlyReachedCertificatesExported(namespace: string, reqs: seq<GetRecordCertReq>,
                                                          attempt: nat -> CertProbe.Attempt, c: RecordCert)
    ensures CertRow(namespace, c) in CertRows(namespace, CertProbe.CertBatch(reqs, attempt)) <==>
      exists i :: 0 <= i < |reqs| && CertProbe.ReachedCertificate(attempt(i)) && reqs[i].recordID != ""
                  && c == CertProbe.SlotResult(reqs[i], attempt(i))
  {
    var batch := CertProbe.CertBatch(reqs, attempt);
    CertRowsMembership(namespace, batch, c);
    if c in batch && CertExported(c) {
      var i :| 0 <= i < |batch| && batch[i] == c;
      CertProbe.FailedSlotsHaveNoRecordID(reqs[i], attempt(i));
    }
    if exists i :: 0 <= i < |reqs| && CertProbe.ReachedCertificate(attempt(i)) && reqs[i].recordID != ""
                   && c == CertProbe.SlotResult(reqs[i], attempt(i)) {
      var i :| 0 <= i < |reqs| && CertProbe.ReachedCertificate(attempt(i)) && reqs[i].recordID != ""
               && c == CertProbe.SlotResult(reqs[i], attempt(i));
      CertProbe.FailedSlotsHaveNoRecordID(reqs[i], attempt(i));
      assert batch[i] == c;
    }
  }

  /** The custom pseudo-account's certificates are scraped for an account only when that
      account's `provider_name` spells `CustomRecords`; never when `CustomRecords` has no '_'. */
  lemma CustomCertsNeverCollected(a: CronCache.AccountConfig)
    ensures CronCache.CertKey(a) == CustomCertKey() <==> CustomRecords == a.provider + "_" + CronCache.NameOf(a)
    ensures '_' !in CustomRecords ==> CronCache.CertKey(a) != CustomCertKey()
  {
    CustomCertKeyIsNotAnAccountKey(a.provider, CronCache.NameOf(a));
  }
}
