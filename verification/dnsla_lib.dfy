/** The DNS.LA client's query helpers (dnslib/dnsla): page-option clamping and the option
    functions that fill a request's `url.Values`. The HTTP client itself is not modelled. */
module DnsLaLib {
  import Decimal

  /** A page request. */
  datatype PageOption = PageOption(pageIndex: int, pageSize: int)

  const MaxPageSize: int := 1000

  /** What any out-of-range request is replaced by. */
  const DefaultPageOption: PageOption := PageOption(1, MaxPageSize)

  /** A page request the API accepts: a non-negative index and 1 to 1000 items. */
  predicate Acceptable(p: PageOption) {
    0 <= p.pageIndex && 1 <= p.pageSize <= MaxPageSize
  }

  /** `NewPageOption`: keeps an acceptable request and replaces any other by the default. */
  function NewPageOption(pageIndex: int, pageSize: int): (p: PageOption)
    ensures Acceptable(p)
    ensures Acceptable(PageOption(pageIndex, pageSize)) ==> p == PageOption(pageIndex, pageSize)
    ensures !Acceptable(PageOption(pageIndex, pageSize)) ==> p == DefaultPageOption
  {
    if !(pageSize > 0 && pageSize <= 1000) || pageIndex < 0 || pageSize <= 0 then PageOption(1, 1000)
    else PageOption(pageIndex, pageSize)
  }

  /** Clamping twice is clamping once. */
  lemma NewPageOptionIdempotent(pageIndex: int, pageSize: int)
    ensures var p := NewPageOption(pageIndex, pageSize);
      NewPageOption(p.pageIndex, p.pageSize) == p
  {
  }

  /** `url.Values`: every key maps to a list of values. */
  type Values = map<string, seq<string>>

  /** `Values.Set`: the key now holds exactly this one value; no other key changes. */
  function Set(v: Values, key: string, value: string): (w: Values)
    ensures key in w && w[key] == [value]
    ensures forall k :: k != key ==> (k in w <==> k in v)
    ensures forall k :: k != key && k in v ==> w[k] == v[k]
  {
    v[key := [value]]
  }

  /** `Values.Get`: the first value of the key, or "" when it has none. */
  function Get(v: Values, key: string): string {
    if key in v && |v[key]| > 0 then v[key][0] else ""
  }

  /** `w` agrees with `v` on every key outside `keys`. */
  ghost predicate SameOutside(v: Values, w: Values, keys: set<string>) {
    forall k :: k !in keys ==> (k in w <==> k in v) && (k in v ==> w[k] == v[k])
  }

  /** The options of a domain-list request. */
  datatype DomainListOption =
    | DLWithGroupID(groupID: string)
    | DLWithState(state: int)
    | DLWithProductCode(productCode: string)
    | DLWithQuoteDomainID(quoteDomainID: string)
    | DLWithExpiredAtRange(begin: int, end: int)

  /** The keys a domain-list option may write. */
  function DomainOptionKeys(o: DomainListOption): set<string> {
    match o
    case DLWithGroupID(_) => {"groupId"}
    case DLWithState(_) => {"state"}
    case DLWithProductCode(_) => {"productCode"}
    case DLWithQuoteDomainID(_) => {"quoteDomainId"}
    case DLWithExpiredAtRange(_, _) => {"expiredAtBegin", "expiredAtEnd"}
  }

  /** Sets a key unless the value is empty, the rule every string option follows. */
  function SetUnlessEmpty(v: Values, key: string, value: string): (w: Values)
    ensures value == "" ==> w == v
    ensures value != "" ==> key in w && w[key] == [value]
    ensures SameOutside(v, w, {key})
  {
    if value != "" then Set(v, key, value) else v
  }

  /** One domain-list option applied to the query. String options skip "", the state is
      always written, and each end of the expiry range only when it is non-zero. */
  function ApplyDomainOption(o: DomainListOption, v: Values): (w: Values)
    ensures SameOutside(v, w, DomainOptionKeys(o))
    ensures o.DLWithGroupID? ==> w == SetUnlessEmpty(v, "groupId", o.groupID)
    ensures o.DLWithState? ==> "state" in w && w["state"] == [Decimal.IntText(o.state)]
    ensures o.DLWithProductCode? ==> w == SetUnlessEmpty(v, "productCode", o.productCode)
    ensures o.DLWithQuoteDomainID? ==> w == SetUnlessEmpty(v, "quoteDomainId", o.quoteDomainID)
    ensures o.DLWithExpiredAtRange? && o.begin == 0 ==> SameOutside(v, w, {"expiredAtEnd"})
    ensures o.DLWithExpiredAtRange? && o.end == 0 ==> SameOutside(v, w, {"expiredAtBegin"})
    ensures o.DLWithExpiredAtRange? && o.begin != 0 ==> "expiredAtBegin" in w && w["expiredAtBegin"] == [Decimal.IntText(o.begin)]
    ensures o.DLWithExpiredAtRange? && o.end != 0 ==> "expiredAtEnd" in w && w["expiredAtEnd"] == [Decimal.IntText(o.end)]
  {
    match o
    case DLWithGroupID(g) => SetUnlessEmpty(v, "groupId", g)
    case DLWithState(s) => Set(v, "state", Decimal.IntText(s))
    case DLWithProductCode(c) => SetUnlessEmpty(v, "productCode", c)
    case DLWithQuoteDomainID(q) => SetUnlessEmpty(v, "quoteDomainId", q)
    case DLWithExpiredAtRange(b, e) =>
      var v1 := if b != 0 then Set(v, "expiredAtBegin", Decimal.IntText(b)) else v;
      if e != 0 then Set(v1, "expiredAtEnd", Decimal.IntText(e)) else v1
  }

  /** Applying a domain-list option twice is applying it once. */
  lemma ApplyDomainOptionIdempotent(o: DomainListOption, v: Values)
    ensures ApplyDomainOption(o, ApplyDomainOption(o, v)) == ApplyDomainOption(o, v)
  {
  }

  /** The options of a record-list request. */
  datatype RecordListOption =
    | RLWithRecordType(recordType: int)
    | RLWithGroupID(groupID: string)
    | RLWithLineID(lineID: string)
    | RLWithHost(host: string)
    | RLWithData(data: string)
    | RLWithDisable(disable: bool)
    | RLWithSystem(system: bool)
    | RLWithDominant(dominant: bool)

  /** The key a record-list option may write. */
  function RecordOptionKey(o: RecordListOption): string {
    match o
    case RLWithRecordType(_) => "type"
    case RLWithGroupID(_) => "groupId"
    case RLWithLineID(_) => "lineId"
    case RLWithHost(_) => "host"
    case RLWithData(_) => "data"
    case RLWithDisable(_) => "disable"
    case RLWithSystem(_) => "system"
    case RLWithDominant(_) => "dominant"
  }

  /** One record-list option applied to the query. The record type and the three flags are
      always written; the string options skip "". */
  function ApplyRecordOption(o: RecordListOption, v: Values): (w: Values)
    ensures SameOutside(v, w, {RecordOptionKey(o)})
    ensures o.RLWithRecordType? ==> "type" in w && w["type"] == [Decimal.IntText(o.recordType)]
    ensures o.RLWithGroupID? ==> w == SetUnlessEmpty(v, "groupId", o.groupID)
    ensures o.RLWithLineID? ==> w == SetUnlessEmpty(v, "lineId", o.lineID)
    ensures o.RLWithHost? ==> w == SetUnlessEmpty(v, "host", o.host)
    ensures o.RLWithData? ==> w == SetUnlessEmpty(v, "data", o.data)
    ensures o.RLWithDisable? ==> "disable" in w && w["disable"] == [Decimal.BoolText(o.disable)]
    ensures o.RLWithSystem? ==> "system" in w && w["system"] == [Decimal.BoolText(o.system)]
    ensures o.RLWithDominant? ==> "dominant" in w && w["dominant"] == [Decimal.BoolText(o.dominant)]
  {
    match o
    case RLWithRecordType(t) => Set(v, "type", Decimal.IntText(t))
    case RLWithGroupID(g) => SetUnlessEmpty(v, "groupId", g)
    case RLWithLineID(l) => SetUnlessEmpty(v, "lineId", l)
    case RLWithHost(h) => SetUnlessEmpty(v, "host", h)
    case RLWithData(d) => SetUnlessEmpty(v, "data", d)
    case RLWithDisable(b) => Set(v, "disable", Decimal.BoolText(b))
    case RLWithSystem(b) => Set(v, "system", Decimal.BoolText(b))
    case RLWithDominant(b) => Set(v, "dominant", Decimal.BoolText(b))
  }

  /** Applying a record-list option twice is applying it once. */
  lemma ApplyRecordOptionIdempotent(o: RecordListOption, v: Values)
    ensures ApplyRecordOption(o, ApplyRecordOption(o, v)) == ApplyRecordOption(o, v)
  {
  }

  /** The domain-list options applied in order. */
  function ApplyDomainOptions(options: seq<DomainListOption>, v: Values): Values
    decreases |options|
  {
    if |options| == 0 then v else ApplyDomainOptions(options[1..], ApplyDomainOption(options[0], v))
  }

  /** The record-list options applied in order. */
  function ApplyRecordOptions(options: seq<RecordListOption>, v: Values): Values
    decreases |options|
  {
    if |options| == 0 then v else ApplyRecordOptions(options[1..], ApplyRecordOption(options[0], v))
  }

  /** A key no domain-list option writes keeps its value through any list of options. */
  lemma {:induction false} DomainOptionsKeep(options: seq<DomainListOption>, v: Values, key: string)
    requires forall o: DomainListOption :: key !in DomainOptionKeys(o)
    ensures key in ApplyDomainOptions(options, v) <==> key in v
    ensures key in v ==> ApplyDomainOptions(options, v)[key] == v[key]
    decreases |options|
  {
    if |options| > 0 {
      DomainOptionsKeep(options[1..], ApplyDomainOption(options[0], v), key);
    }
  }

  /** A key no record-list option writes keeps its value through any list of options. */
  lemma {:induction false} RecordOptionsKeep(options: seq<RecordListOption>, v: Values, key: string)
    requires forall o: RecordListOption :: key != RecordOptionKey(o)
    ensures key in ApplyRecordOptions(options, v) <==> key in v
    ensures key in v ==> ApplyRecordOptions(options, v)[key] == v[key]
    decreases |options|
  {
    if |options| > 0 {
      RecordOptionsKeep(options[1..], ApplyRecordOption(options[0], v), key);
    }
  }

  /** The query of `DomainService.List`: the page, then the options in order. The page keys
      are never overwritten by an option. */
  function DomainListQuery(page: PageOption, options: seq<DomainListOption>): (q: Values)
    ensures Get(q, "pageIndex") == Decimal.IntText(page.pageIndex)
    ensures Get(q, "pageSize") == Decimal.IntText(page.pageSize)
  {
    var base := Set(Set(map[], "pageIndex", Decimal.IntText(page.pageIndex)), "pageSize", Decimal.IntText(page.pageSize));
    DomainOptionsKeep(options, base, "pageIndex");
    DomainOptionsKeep(options, base, "pageSize");
    ApplyDomainOptions(options, base)
  }

  /** The query of `RecordService.List`: the page and the domain id, then the options in
      order. None of the three is ever overwritten by an option. */
  function RecordListQuery(page: PageOption, domainID: string, options: seq<RecordListOption>): (q: Values)
    ensures Get(q, "pageIndex") == Decimal.IntText(page.pageIndex)
    ensures Get(q, "pageSize") == Decimal.IntText(page.pageSize)
    ensures Get(q, "domainId") == domainID
  {
    var base := Set(Set(Set(map[], "pageIndex", Decimal.IntText(page.pageIndex)), "pageSize", Decimal.IntText(page.pageSize)), "domainId", domainID);
    RecordOptionsKeep(options, base, "pageIndex");
    RecordOptionsKeep(options, base, "pageSize");
    RecordOptionsKeep(options, base, "domainId");
    ApplyRecordOptions(options, base)
  }
}
