/** The page loops of the vendor listings. The server side is a finite list of items and,
    for each request number (0, 1, 2, ...), whether that request fails. Each loop is a
    recursive function from a request number on, and its contract says in closed form
    which requests succeeded, where it stopped and what it gathered. */
module Paging {
  import opened Wrappers
  import Seqs

  /** A listing as the server holds it. */
  datatype Listing<T> = Listing(items: seq<T>, failure: nat -> Option<string>)

  /** What a loop ends with: the items gathered, the error it returns, the requests it made. */
  datatype Outcome<T> = Outcome(items: seq<T>, err: Option<string>, requests: nat)

  function Min(a: nat, b: nat): nat {
    if a <= b then a else b
  }

  /** `items[a..b]` with both ends clipped to the list. */
  function Slice<T>(items: seq<T>, a: nat, b: nat): (s: seq<T>)
    ensures a <= b ==> |s| == Min(b, |items|) - Min(a, |items|)
    ensures a >= |items| ==> s == []
    ensures b <= |items| && a <= b ==> s == items[a..b]
  {
    var lo := Min(a, |items|);
    var hi := Min(b, |items|);
    if lo <= hi then items[lo..hi] else []
  }

  /** A slice from the start is a prefix. */
  lemma SlicePrefix<T>(items: seq<T>, b: nat)
    ensures Slice(items, 0, b) <= items
  {
  }

  /** Adjacent slices join up. */
  lemma SliceConcat<T>(items: seq<T>, a: nat, b: nat, c: nat)
    requires a <= b
    requires b <= c || (b >= |items| && c >= |items|)
    ensures Slice(items, a, b) + Slice(items, b, c) == Slice(items, a, if b <= c then c else b)
  {
  }

  /** A request number whose request did not fail, for every number in `[from, to)`. */
  predicate NoFailure<T>(l: Listing<T>, from: nat, to: nat) {
    forall j :: from <= j < to ==> l.failure(j).None?
  }

  /** Tencent's offset loop from request k on: request j asks for `limit` items at offset
      `j * limit`; the loop stops at the first empty page or at the first failure, and keeps
      what it gathered before a failure. */
  function OffsetFrom<T>(l: Listing<T>, limit: nat, k: nat): (o: Outcome<T>)
    requires limit > 0
    ensures o.requests >= 1
    decreases |l.items| - k * limit
  {
    if l.failure(k).Some? then Outcome([], l.failure(k), 1)
    else
      var page := Slice(l.items, k * limit, k * limit + limit);
      if |page| == 0 then Outcome([], None, 1)
      else
        var rest := OffsetFrom(l, limit, k + 1);
        Outcome(page + rest.items, rest.err, rest.requests + 1)
  }

  /** What the offset loop from request k on ends with: the requests before the last
      succeeded and each found a non-empty page; the last one failed, keeping what was
      gathered, or found the end. */
  ghost predicate OffsetShape<T>(l: Listing<T>, limit: nat, k: nat, o: Outcome<T>) {
    var last := k + o.requests - 1;
    && o.requests >= 1
    && NoFailure(l, k, last)
    && (last > k ==> (last - 1) * limit < |l.items|)
    && (l.failure(last).Some? ==> o.err == l.failure(last) && o.items == Slice(l.items, k * limit, last * limit))
    && (l.failure(last).None? ==> o.err == None && last * limit >= |l.items| && o.items == Slice(l.items, k * limit, |l.items|))
  }

  /** A non-empty page in front of a loop of that shape from request k + 1 gives that shape from k. */
  lemma OffsetExtend<T>(l: Listing<T>, limit: nat, k: nat, rest: Outcome<T>)
    requires limit > 0
    requires l.failure(k).None? && k * limit < |l.items|
    requires OffsetShape(l, limit, k + 1, rest)
    ensures OffsetShape(l, limit, k, Outcome(Slice(l.items, k * limit, k * limit + limit) + rest.items, rest.err, rest.requests + 1))
  {
    var start := k * limit;
    var next := start + limit;
    assert (k + 1) * limit == next;
    var last := k + rest.requests;
    Seqs.MulMono(k + 1, last, limit);
    SliceConcat(l.items, start, next, last * limit);
    SliceConcat(l.items, start, next, |l.items|);
  }

  /** The offset loop in closed form: every run ends in the shape `OffsetShape` describes. */
  lemma {:induction false} OffsetFromSpec<T>(l: Listing<T>, limit: nat, k: nat)
    requires limit > 0
    ensures OffsetShape(l, limit, k, OffsetFrom(l, limit, k))
    decreases |l.items| - k * limit
  {
    var start := k * limit;
    var page := Slice(l.items, start, start + limit);
    if l.failure(k).Some? {
      assert OffsetFrom(l, limit, k) == Outcome([], l.failure(k), 1);
      assert Slice(l.items, start, start) == [];
    } else if |page| == 0 {
      assert OffsetFrom(l, limit, k) == Outcome([], None, 1);
      assert start >= |l.items|;
    } else {
      assert (k + 1) * limit == start + limit;
      OffsetFromSpec(l, limit, k + 1);
      OffsetExtend(l, limit, k, OffsetFrom(l, limit, k + 1));
    }
  }

  /** Aliyun's page-number loop from request k on: request j asks for page j + 1 of `size`
      items; the loop stops after the first short page or at the first failure. */
  function ShortPageFrom<T>(l: Listing<T>, size: nat, k: nat): (o: Outcome<T>)
    requires size > 0
    ensures o.requests >= 1
    decreases |l.items| - k * size
  {
    if l.failure(k).Some? then Outcome([], l.failure(k), 1)
    else
      var page := Slice(l.items, k * size, k * size + size);
      if |page| < size then Outcome(page, None, 1)
      else
        var rest := ShortPageFrom(l, size, k + 1);
        Outcome(page + rest.items, rest.err, rest.requests + 1)
  }

  /** What the short-page loop from request k on ends with: the pages before the last were
      full; the last request failed, keeping what was gathered, or found a short page. */
  ghost predicate ShortPageShape<T>(l: Listing<T>, size: nat, k: nat, o: Outcome<T>) {
    var last := k + o.requests - 1;
    && o.requests >= 1
    && NoFailure(l, k, last)
    && (last > k ==> last * size <= |l.items|)
    && (l.failure(last).Some? ==> o.err == l.failure(last) && o.items == Slice(l.items, k * size, last * size))
    && (l.failure(last).None? ==> o.err == None && |l.items| < last * size + size && o.items == Slice(l.items, k * size, |l.items|))
  }

  /** A full page in front of a loop of that shape from request k + 1 gives that shape from k. */
  lemma ShortPageExtend<T>(l: Listing<T>, size: nat, k: nat, rest: Outcome<T>)
    requires size > 0
    requires l.failure(k).None? && k * size + size <= |l.items|
    requires ShortPageShape(l, size, k + 1, rest)
    ensures ShortPageShape(l, size, k, Outcome(Slice(l.items, k * size, k * size + size) + rest.items, rest.err, rest.requests + 1))
  {
    var start := k * size;
    var next := start + size;
    assert (k + 1) * size == next;
    var last := k + rest.requests;
    Seqs.MulMono(k + 1, last, size);
    SliceConcat(l.items, start, next, last * size);
    SliceConcat(l.items, start, next, |l.items|);
  }

  /** The short-page loop in closed form: every run ends in the shape `ShortPageShape` describes. */
  lemma {:induction false} ShortPageFromSpec<T>(l: Listing<T>, size: nat, k: nat)
    requires size > 0
    ensures ShortPageShape(l, size, k, ShortPageFrom(l, size, k))
    decreases |l.items| - k * size
  {
    var start := k * size;
    var next := start + size;
    assert (k + 1) * size == next;
    var page := Slice(l.items, start, next);
    if l.failure(k).Some? {
      assert ShortPageFrom(l, size, k) == Outcome([], l.failure(k), 1);
      assert Slice(l.items, start, start) == [];
    } else if |page| < size {
      assert ShortPageFrom(l, size, k) == Outcome(page, None, 1);
      assert |l.items| < next;
      assert page == Slice(l.items, start, |l.items|);
    } else {
      ShortPageFromSpec(l, size, k + 1);
      ShortPageExtend(l, size, k, ShortPageFrom(l, size, k + 1));
    }
  }

  /** Cloudflare's loop from request k on: request j asks for page j + 1 of `size` items and
      the loop stops once `(j + 1) * size` exceeds the total the server reports. */
  function TotalStopFrom<T>(l: Listing<T>, size: nat, k: nat): Outcome<T>
    requires size > 0
    decreases |l.items| - k * size
  {
    if l.failure(k).Some? then Outcome([], l.failure(k), 1)
    else
      var start := k * size;
      var page := Slice(l.items, start, start + size);
      if (k + 1) * size > |l.items| then Outcome(page, None, 1)
      else
        var rest := TotalStopFrom(l, size, k + 1);
        Outcome(page + rest.items, rest.err, rest.requests + 1)
  }

  /** When the reported total is the true item count, stopping on `page * size > total` is
      stopping on the first short page: the two loops make the same requests. */
  lemma {:induction false} TotalStopIsShortPage<T>(l: Listing<T>, size: nat, k: nat)
    requires size > 0
    ensures TotalStopFrom(l, size, k) == ShortPageFrom(l, size, k)
    decreases |l.items| - k * size
  {
    if l.failure(k).None? {
      var start := k * size;
      assert (k + 1) * size == start + size;
      if (k + 1) * size <= |l.items| {
        TotalStopIsShortPage(l, size, k + 1);
      }
    }
  }

  /** With `r * size <= n < (r + 1) * size`, r is the quotient of n by size. */
  lemma QuotientUnique(n: nat, size: nat, r: nat)
    requires size > 0
    requires r * size <= n < (r + 1) * size
    ensures r == n / size
  {
    var q := n / size;
    assert q * size <= n < (q + 1) * size;
    if r < q {
      Seqs.MulMono(r + 1, q, size);
    } else if q < r {
      Seqs.MulMono(q + 1, r, size);
    }
  }

  /** A multiple of `size` that fits in n has a factor of at most n / size. */
  lemma AtMostQuotient(n: nat, size: nat, m: nat)
    requires size > 0
    requires m * size <= n
    ensures m <= n / size
  {
    var q := n / size;
    assert q * size <= n < (q + 1) * size;
    if q < m {
      Seqs.MulMono(q + 1, m, size);
    }
  }

  /** Without failures the short-page loop gathers everything in `n / size + 1` requests. */
  lemma ShortPageComplete<T>(l: Listing<T>, size: nat)
    requires size > 0
    requires forall j :: l.failure(j).None?
    ensures ShortPageFrom(l, size, 0).items == l.items
    ensures ShortPageFrom(l, size, 0).err == None
    ensures ShortPageFrom(l, size, 0).requests == |l.items| / size + 1
  {
    ShortPageFromSpec(l, size, 0);
    var o := ShortPageFrom(l, size, 0);
    var r := o.requests - 1;
    if r == 0 {
      assert |l.items| < size;
    }
    QuotientUnique(|l.items|, size, r);
  }

  /** Without failures the offset loop gathers everything, and its last request is the
      first whose offset reaches the end: `ceil(n / limit) + 1` requests. */
  lemma OffsetComplete<T>(l: Listing<T>, limit: nat)
    requires limit > 0
    requires forall j :: l.failure(j).None?
    ensures OffsetFrom(l, limit, 0).items == l.items
    ensures OffsetFrom(l, limit, 0).err == None
    ensures OffsetFrom(l, limit, 0).requests == (|l.items| + limit - 1) / limit + 1
  {
    OffsetFromSpec(l, limit, 0);
    var o := OffsetFrom(l, limit, 0);
    var r := o.requests - 1;
    var n := |l.items|;
    if r == 0 {
      assert n == 0;
      assert (n + limit - 1) / limit == 0;
    } else {
      assert (r - 1) * limit < n <= r * limit;
      assert (r - 1) * limit + 1 <= n;
      assert r * limit <= n + limit - 1 < (r + 1) * limit;
      QuotientUnique(n + limit - 1, limit, r);
    }
  }

  /** A marker-driven listing (Route 53): one response per page, the last without a marker. */
  datatype Pages<T> = Pages(pages: seq<seq<T>>, failure: nat -> Option<string>)

  /** The marker loop from request k on: it follows the markers to the last page and stops
      at the first failure. */
  function MarkerFrom<T>(p: Pages<T>, k: nat): (o: Outcome<T>)
    requires k < |p.pages|
    ensures o.requests >= 1 && k + o.requests <= |p.pages|
    decreases |p.pages| - k
  {
    if p.failure(k).Some? then Outcome([], p.failure(k), 1)
    else if k + 1 == |p.pages| then Outcome(p.pages[k], None, 1)
    else
      var rest := MarkerFrom(p, k + 1);
      Outcome(p.pages[k] + rest.items, rest.err, rest.requests + 1)
  }

  /** The marker loop in closed form: the requests before the last succeeded; the last one
      failed, with the pages before it gathered, or was the final page. */
  lemma {:induction false} MarkerFromSpec<T>(p: Pages<T>, k: nat)
    requires k < |p.pages|
    ensures var o := MarkerFrom(p, k);
      var last := k + o.requests - 1;
      && (forall j :: k <= j < last ==> p.failure(j).None?)
      && (p.failure(last).Some? ==> o.err == p.failure(last) && o.items == Seqs.Flatten(p.pages[k..last]))
      && (p.failure(last).None? ==> o.err == None && last == |p.pages| - 1 && o.items == Seqs.Flatten(p.pages[k..]))
    decreases |p.pages| - k
  {
    if p.failure(k).Some? {
      assert p.pages[k..k] == [];
    } else if k + 1 == |p.pages| {
      assert p.pages[k..][1..] == [];
    } else {
      MarkerFromSpec(p, k + 1);
      var rest := MarkerFrom(p, k + 1);
      var last := k + 1 + rest.requests - 1;
      assert p.pages[k..][1..] == p.pages[k + 1..];
      assert p.pages[k..last][1..] == p.pages[k + 1..last];
    }
  }

  /** A marker-driven listing always has a first response. */
  type Responses<T> = p: Pages<T> | |p.pages| > 0 witness Pages([[]], (j: nat) => None)

  predicate NoPageFails<T>(p: Pages<T>) {
    forall j :: 0 <= j < |p.pages| ==> p.failure(j).None?
  }

  /** Route 53's listings: the concatenated pages, or nothing with the error of the first
      failing request. */
  function MarkerLoop<T>(p: Pages<T>): (o: Outcome<T>)
    requires |p.pages| > 0
    ensures 1 <= o.requests <= |p.pages|
    ensures o.err == None <==> NoPageFails(p)
    ensures forall j :: 0 <= j < o.requests - 1 ==> p.failure(j).None?
    ensures o.err == None ==> o.items == Seqs.Flatten(p.pages) && o.requests == |p.pages|
    ensures o.err != None ==> o.items == [] && p.failure(o.requests - 1) == o.err
  {
    MarkerFromStart(p);
    var o := MarkerFrom(p, 0);
    if o.err.Some? then o.(items := []) else o
  }

  /** The marker loop from the first request: it fails exactly when some page fails, at the
      first failing page, and otherwise reads every page. */
  lemma MarkerFromStart<T>(p: Pages<T>)
    requires |p.pages| > 0
    ensures var o := MarkerFrom(p, 0);
      && (o.err == None <==> NoPageFails(p))
      && (forall j :: 0 <= j < o.requests - 1 ==> p.failure(j).None?)
      && (o.err == None ==> o.items == Seqs.Flatten(p.pages) && o.requests == |p.pages|)
      && (o.err != None ==> p.failure(o.requests - 1) == o.err)
  {
    MarkerFromSpec(p, 0);
    var o := MarkerFrom(p, 0);
    var last := o.requests - 1;
    assert p.pages[0..] == p.pages;
    if p.failure(last).None? {
      assert forall j :: 0 <= j < |p.pages| ==> p.failure(j).None? by {
        forall j | 0 <= j < |p.pages|
          ensures p.failure(j).None?
        {
          if j < last {
          }
        }
      }
    }
  }
}
