/** Certificate probing and candidate selection (pkg/export/record_cert.go).
    The network is replaced by oracles: the outcome of the TLS dial, the clock reading
    taken when the expiry is computed, whether the batch deadline beat the semaphore,
    and whether TCP port 443 answered. */
module CertProbe {
  import opened Wrappers
  import opened Provider
  import Text

  /** A distinguished name as far as the probe reads it. */
  datatype Name = Name(commonName: string, organization: seq<string>, organizationalUnit: seq<string>)

  /** A point in time: nanoseconds since the epoch, with its `time.DateOnly` rendering. */
  datatype Instant = Instant(unixNanos: int, dateOnly: string)

  /** The fields of an X.509 leaf certificate that the probe reads. */
  datatype Certificate = Certificate(subject: Name, issuer: Name, notBefore: Instant, notAfter: Instant)

  /** Outcome of `tls.DialWithDialer` against `fullRecord:443`. */
  datatype DialResult = DialFailed(message: string) | Connected(peerCertificates: seq<Certificate>)

  /** What happened to one request of a batch: either the deadline fired before a
      semaphore slot was free, or the request was dialled and the clock read `now`. */
  datatype Attempt = TimedOut | Probed(dial: DialResult, now: int)

  const NoCertificateMsg: string := "未找到证书"
  const MismatchMsg: string := "证书不匹配"
  const TimeoutMsg: string := "operation timed out"

  /** Nanoseconds in 24 hours. */
  const NanosPerDay: int := 24 * 3600 * 1000000000

  /** Go's integer conversion of a quotient: division truncated toward zero. */
  function TruncDiv(a: int, b: int): (q: int)
    requires b > 0
    ensures a >= 0 ==> 0 <= q && q * b <= a < q * b + b
    ensures a < 0 ==> q <= 0 && q * b - b < a <= q * b
  {
    if a >= 0 then DivBounds(a, b); a / b else DivBounds(-a, b); -((-a) / b)
  }

  /** The Euclidean quotient of a non-negative numerator brackets it. */
  lemma DivBounds(a: int, b: int)
    requires a >= 0 && b > 0
    ensures 0 <= a / b && (a / b) * b <= a < (a / b) * b + b
  {
    assert a == (a / b) * b + a % b;
    assert 0 <= a % b < b;
  }

  /** Element 0 of a name list, or "" when the list is empty. */
  function FirstOrEmpty(xs: seq<string>): (r: string)
    ensures |xs| > 0 ==> r == xs[0]
    ensures |xs| == 0 ==> r == ""
  {
    if |xs| > 0 then xs[0] else ""
  }

  /** Whole days from `now` until `notAfter`, truncated toward zero. */
  function DaysUntil(notAfter: Instant, now: int): int {
    TruncDiv(notAfter.unixNanos - now, NanosPerDay)
  }

  /** The `(certInfo, err)` pair returned by `GetCertInfo`. */
  datatype CertInfo = CertInfo(cert: RecordCert, err: Option<string>)

  /** The identity fields of a probe result, as a request. */
  function IdentityOf(c: RecordCert): GetRecordCertReq {
    GetRecordCertReq(c.cloudProvider, c.cloudName, c.domainName, c.fullRecord, c.recordID)
  }

  /** `GetCertInfo`: reads the leaf certificate presented for the request's hostname. */
  function GetCertInfo(req: GetRecordCertReq, dial: DialResult, now: int): (r: CertInfo)
    ensures dial.DialFailed? ==> r == CertInfo(EmptyCert, Some(dial.message))
    ensures dial.Connected? && |dial.peerCertificates| == 0 ==> r == CertInfo(EmptyCert, Some(NoCertificateMsg))
    ensures dial.Connected? && |dial.peerCertificates| > 0 ==>
      var leaf := dial.peerCertificates[0];
      && r.err == None
      && IdentityOf(r.cert) == req
      && r.cert.subjectCommonName == leaf.subject.commonName
      && r.cert.issuerCommonName == leaf.issuer.commonName
      && (r.cert.certMatched <==> Text.Contains(leaf.subject.commonName, req.domainName))
      && (r.cert.certMatched <==> r.cert.errorMsg == "")
      && (!r.cert.certMatched ==> r.cert.errorMsg == MismatchMsg)
      && r.cert.subjectOrganization == FirstOrEmpty(leaf.subject.organization)
      && r.cert.subjectOrganizationalUnit == FirstOrEmpty(leaf.subject.organizationalUnit)
      && r.cert.issuerOrganization == FirstOrEmpty(leaf.issuer.organization)
      && r.cert.issuerOrganizationalUnit == FirstOrEmpty(leaf.issuer.organizationalUnit)
      && r.cert.createdDate == leaf.notBefore.dateOnly
      && r.cert.expiryDate == leaf.notAfter.dateOnly
      && r.cert.daysUntilExpiry == DaysUntil(leaf.notAfter, now)
  {
    match dial
    case DialFailed(message) => CertInfo(EmptyCert, Some(message))
    case Connected(certs) =>
      if |certs| == 0 then CertInfo(EmptyCert, Some(NoCertificateMsg))
      else
        var leaf := certs[0];
        var matched := Text.Contains(leaf.subject.commonName, req.domainName);
        CertInfo(RecordCert(
          req.cloudProvider, req.cloudName, req.domainName, req.fullRecord, req.recordID,
          leaf.subject.commonName,
          FirstOrEmpty(leaf.subject.organization),
          FirstOrEmpty(leaf.subject.organizationalUnit),
          leaf.issuer.commonName,
          FirstOrEmpty(leaf.issuer.organization),
          FirstOrEmpty(leaf.issuer.organizationalUnit),
          leaf.notBefore.dateOnly,
          leaf.notAfter.dateOnly,
          DaysUntil(leaf.notAfter, now),
          matched,
          if matched then "" else MismatchMsg), None)
  }

  /** A request whose domain name is empty always matches, whatever the certificate. */
  lemma EmptyDomainAlwaysMatches(req: GetRecordCertReq, leaf: Certificate, rest: seq<Certificate>, now: int)
    requires req.domainName == ""
    ensures GetCertInfo(req, Connected([leaf] + rest), now).cert.certMatched
  {
    Text.ContainsEmpty(leaf.subject.commonName);
  }

  /** A certificate issued for a wildcard of the domain still matches, because the rule is
      substring containment of the domain in the subject common name, not hostname matching. */
  lemma WildcardSubjectMatches(req: GetRecordCertReq, leaf: Certificate, now: int)
    requires leaf.subject.commonName == "*." + req.domainName
    ensures GetCertInfo(req, Connected([leaf]), now).cert.certMatched
  {
    var cn := leaf.subject.commonName;
    assert Text.OccursAt(cn, req.domainName, 2);
    Text.ContainsIff(cn, req.domainName);
  }

  /** The result stored in slot i of a batch for request i and what happened to it. */
  function SlotResult(req: GetRecordCertReq, attempt: Attempt): (c: RecordCert)
    ensures attempt.TimedOut? ==> c == EmptyCert.(errorMsg := TimeoutMsg)
    ensures attempt.Probed? && attempt.dial.DialFailed? ==> c == EmptyCert.(errorMsg := attempt.dial.message)
    ensures attempt.Probed? && attempt.dial.Connected? && |attempt.dial.peerCertificates| == 0 ==>
      c == EmptyCert.(errorMsg := NoCertificateMsg)
    ensures attempt.Probed? && attempt.dial.Connected? && |attempt.dial.peerCertificates| > 0 ==>
      IdentityOf(c) == req && c == GetCertInfo(req, attempt.dial, attempt.now).cert
  {
    match attempt
    case TimedOut => EmptyCert.(errorMsg := TimeoutMsg)
    case Probed(dial, now) =>
      var info := GetCertInfo(req, dial, now);
      if info.err.Some? then info.cert.(errorMsg := info.err.value) else info.cert
  }

  /** Whether a request reached a certificate. */
  predicate ReachedCertificate(attempt: Attempt) {
    attempt.Probed? && attempt.dial.Connected? && |attempt.dial.peerCertificates| > 0
  }

  /** Only a request that reached a certificate yields a result with identity fields;
      every other result carries an empty record id. */
  lemma FailedSlotsHaveNoRecordID(req: GetRecordCertReq, attempt: Attempt)
    ensures !ReachedCertificate(attempt) ==> SlotResult(req, attempt).recordID == ""
    ensures ReachedCertificate(attempt) ==> SlotResult(req, attempt).recordID == req.recordID
  {
  }

  /** The batch result as a whole: one slot per request, slot i computed from request i alone. */
  function CertBatch(reqs: seq<GetRecordCertReq>, attempt: nat -> Attempt): (results: seq<RecordCert>)
    ensures |results| == |reqs|
    ensures forall i :: 0 <= i < |reqs| ==> results[i] == SlotResult(reqs[i], attempt(i))
  {
    seq(|reqs|, i requires 0 <= i < |reqs| => SlotResult(reqs[i], attempt(i)))
  }

  /** `GetMultipleCertInfo`: a pre-sized result slice filled slot by slot; the error is always nil. */
  method GetMultipleCertInfo(reqs: seq<GetRecordCertReq>, attempt: nat -> Attempt)
    returns (results: seq<RecordCert>, err: Option<string>)
    ensures |results| == |reqs|
    ensures forall i :: 0 <= i < |reqs| ==> results[i] == SlotResult(reqs[i], attempt(i))
    ensures results == CertBatch(reqs, attempt)
    ensures err == None
  {
    results := seq(|reqs|, _ => EmptyCert);
    var i := 0;
    while i < |reqs|
      invariant 0 <= i <= |reqs|
      invariant |results| == |reqs|
      invariant forall j :: 0 <= j < i ==> results[j] == SlotResult(reqs[j], attempt(j))
    {
      results := results[i := SlotResult(reqs[i], attempt(i))];
      i := i + 1;
    }
    err := None;
  }

  /** Step one of candidate selection: the apex takes the domain name, then every '*' becomes 'a'.
      No other field changes. */
  function Normalise(rec: Record): (r: Record)
    ensures r == rec.(fullRecord := r.fullRecord)
    ensures var host := if rec.recordName == "@" then rec.domainName else rec.fullRecord;
      |r.fullRecord| == |host| &&
      forall i :: 0 <= i < |host| ==> r.fullRecord[i] == (if host[i] == '*' then 'a' else host[i])
    ensures '*' !in r.fullRecord
    ensures rec.recordName == "@" ==> |r.fullRecord| == |rec.domainName|
    ensures rec.recordName == "@" && '*' !in rec.domainName ==> r.fullRecord == rec.domainName
    ensures rec.recordName != "@" ==> |r.fullRecord| == |rec.fullRecord|
    ensures rec.recordName != "@" && '*' !in rec.fullRecord ==> r.fullRecord == rec.fullRecord
  {
    var host := if rec.recordName == "@" then rec.domainName else rec.fullRecord;
    rec.(fullRecord := Text.ReplaceChar(host, '*', 'a'))
  }

  /** Normalising an already normalised record changes nothing. */
  lemma NormaliseIdempotent(rec: Record)
    ensures Normalise(Normalise(rec)) == Normalise(rec)
  {
    if rec.recordName != "@" {
      Text.ReplaceCharIdempotent(rec.fullRecord, '*', 'a');
    }
  }

  /** Step two: type A or CNAME, status "enable", and port 443 answers. */
  predicate Eligible(rec: Record, portOpen: string -> bool) {
    (rec.recordType == "A" || rec.recordType == "CNAME") && rec.recordStatus == "enable" && portOpen(rec.fullRecord)
  }

  /** `getNewRecord`, in input order: the normalised records that are eligible. */
  function Candidates(records: seq<Record>, portOpen: string -> bool): (out: seq<Record>)
    ensures |out| <= |records|
    ensures forall c :: c in out ==> Eligible(c, portOpen) && '*' !in c.fullRecord
    ensures forall c :: c in out ==> exists r :: r in records && c == Normalise(r)
    decreases |records|
  {
    if |records| == 0 then []
    else
      var c := Normalise(records[0]);
      var rest := Candidates(records[1..], portOpen);
      assert forall x :: x in rest ==> exists r :: r in records && x == Normalise(r) by {
        forall x | x in rest
          ensures exists r :: r in records && x == Normalise(r)
        {
          var r :| r in records[1..] && x == Normalise(r);
          assert r in records;
        }
      }
      if Eligible(c, portOpen) then [c] + rest else rest
  }

  /** A record is a candidate exactly when it is the normalisation of an input record and eligible. */
  lemma {:induction false} CandidatesMembership(records: seq<Record>, portOpen: string -> bool, c: Record)
    ensures c in Candidates(records, portOpen) <==> Eligible(c, portOpen) && exists r :: r in records && c == Normalise(r)
    decreases |records|
  {
    if |records| > 0 {
      CandidatesMembership(records[1..], portOpen, c);
      if Eligible(c, portOpen) && exists r :: r in records && c == Normalise(r) {
        var r :| r in records && c == Normalise(r);
        if r != records[0] {
          assert r in records[1..];
        }
      }
    }
  }

  /** Number of input records whose normalisation is `c`. */
  function NormalisedCount(records: seq<Record>, c: Record): nat
    decreases |records|
  {
    if |records| == 0 then 0
    else (if Normalise(records[0]) == c then 1 else 0) + NormalisedCount(records[1..], c)
  }

  /** As a multiset, the output is exactly the eligible normalised records, with multiplicity:
      this is what every arrival order of the concurrent filter produces. */
  lemma {:induction false} CandidatesMultiset(records: seq<Record>, portOpen: string -> bool, c: Record)
    ensures multiset(Candidates(records, portOpen))[c] == if Eligible(c, portOpen) then NormalisedCount(records, c) else 0
    decreases |records|
  {
    if |records| > 0 {
      CandidatesMultiset(records[1..], portOpen, c);
      var n := Normalise(records[0]);
      var rest := Candidates(records[1..], portOpen);
      if Eligible(n, portOpen) {
        assert Candidates(records, portOpen) == [n] + rest;
        assert multiset([n] + rest) == multiset([n]) + multiset(rest);
      }
    }
  }

  /** A probe request copies provider, account, domain, hostname and record id. */
  function ToRequest(rec: Record): (req: GetRecordCertReq)
    ensures req.fullRecord == rec.fullRecord && req.recordID == rec.recordID
    ensures req.domainName == rec.domainName
    ensures req.cloudProvider == rec.cloudProvider && req.cloudName == rec.cloudName
  {
    GetRecordCertReq(rec.cloudProvider, rec.cloudName, rec.domainName, rec.fullRecord, rec.recordID)
  }

  /** One probe request per candidate, in candidate order. */
  function ProbeRequests(records: seq<Record>, portOpen: string -> bool): (reqs: seq<GetRecordCertReq>)
    ensures |reqs| == |Candidates(records, portOpen)|
    ensures forall i :: 0 <= i < |reqs| ==> reqs[i] == ToRequest(Candidates(records, portOpen)[i])
  {
    var cs := Candidates(records, portOpen);
    seq(|cs|, i requires 0 <= i < |cs| => ToRequest(cs[i]))
  }
}
