/** The certificate-transparency client: one lookup, per-certificate flags
    and day counts, a newest-first ordering, first-occurrence deduplication of
    issuers and subdomains, capped slices, and a month histogram. The clock
    (`now`), the 30-days-ago instant and the month of a timestamp are
    parameters; times are integer milliseconds. */
module CrtSh {
  import opened Wrappers
  import opened Text
  import opened Seqs

  const DayMs: int := 1000 * 60 * 60 * 24
  const MaxIssuers: nat := 10
  const MaxSubdomains: nat := 20
  const MaxActive: nat := 10
  const MaxRecent: nat := 10
  const MaxAll: nat := 50
  const MaxMonths: nat := 12
  const TimeoutMessage: string := "Certificate transparency lookup timeout"
  const ErrorPrefix: string := "Certificate transparency API error: "

  /** One record as returned by the log search service. */
  datatype Entry = Entry(id: int, entryTimestamp: int, notBefore: int, notAfter: int,
                         commonName: Option<string>, nameValue: Option<string>,
                         issuerCaId: Option<int>, issuerName: Option<string>,
                         serialNumber: Option<string>, resultCount: Option<int>)

  /** A record with its derived fields. */
  datatype CtCert = CtCert(id: int, loggedAt: int, notBefore: int, notAfter: int,
                           commonName: Option<string>, nameValue: Option<string>,
                           issuerCaId: Option<int>, issuerName: Option<string>,
                           serialNumber: Option<string>, resultCount: Option<int>,
                           isExpired: bool, isActive: bool,
                           daysUntilExpiry: int, validityPeriod: int,
                           subdomains: seq<string>)

  datatype Summary = Summary(totalCertificates: nat, activeCertificates: nat,
                             expiredCertificates: nat, recentCertificates: nat,
                             uniqueIssuers: nat, discoveredSubdomains: nat)

  datatype MonthCount = MonthCount(month: int, count: nat)

  datatype CtReport = CtReport(domain: string, summary: Summary,
                               issuers: seq<Option<string>>, subdomains: seq<string>,
                               certificatesByMonth: seq<MonthCount>,
                               active: seq<CtCert>, recent: seq<CtCert>, all: seq<CtCert>)

  /** Outcome of the single lookup: the client's timeout fired, another
      failure, or a body (possibly `null`). */
  datatype Lookup = Aborted | LookupFailed(message: string) | Received(data: Option<seq<Entry>>)

  // ---------------------------------------------------------------------------
  // Per-certificate processing

  /** `Math.ceil(a / d)` for a positive divisor. */
  function CeilDiv(a: int, d: int): (q: int)
    requires d > 0
    ensures d * (q - 1) < a <= d * q
  {
    -((-a) / d)
  }

  /** A piece of the name field that names a subdomain: not blank, and holding
      the queried domain. */
  predicate IsSubdomainPiece(piece: string, domain: string) {
    Trim(piece) != "" && Contains(piece, domain)
  }

  /** The newline-separated pieces of `name_value` that are not blank and
      contain `domain`, in order; none when the field is absent or empty. */
  function Subdomains(nameValue: Option<string>, domain: string): (r: seq<string>)
    ensures nameValue.None? || nameValue.value == "" ==> r == []
    ensures forall i :: 0 <= i < |r| ==> '\n' !in r[i] && !AllWhitespace(r[i]) && Contains(r[i], domain)
    ensures nameValue.Some? ==> forall p :: p in Split(nameValue.value, '\n') && IsSubdomainPiece(p, domain) ==> p in r
    ensures nameValue.Some? ==> forall p :: p in r ==> p in Split(nameValue.value, '\n')
    ensures nameValue.Some? ==> IsSubsequence(r, Split(nameValue.value, '\n'))
    ensures nameValue.Some? ==>
              forall p :: multiset(r)[p] ==
                (if IsSubdomainPiece(p, domain) then multiset(Split(nameValue.value, '\n'))[p] else 0)
  {
    if nameValue.None? then []
    else if nameValue.value == "" then
      EmptyHasNoPiece(domain);
      []
    else
      PiecesKept(nameValue.value, domain);
      PiecesInOrder(nameValue.value, domain);
      Filter(Split(nameValue.value, '\n'), p => IsSubdomainPiece(p, domain))
  }

  /** An empty field splits into one blank piece, which is not kept. */
  lemma EmptyHasNoPiece(domain: string)
    ensures Split("", '\n') == [""]
    ensures !IsSubdomainPiece("", domain)
  {
    assert Trim("") == "";
  }

  /** The kept pieces of a field are exactly its pieces that name a subdomain. */
  lemma PiecesKept(value: string, domain: string)
    ensures var r := Filter(Split(value, '\n'), p => IsSubdomainPiece(p, domain));
      && (forall i :: 0 <= i < |r| ==> '\n' !in r[i] && !AllWhitespace(r[i]) && Contains(r[i], domain))
      && (forall p :: p in Split(value, '\n') && IsSubdomainPiece(p, domain) ==> p in r)
      && (forall p :: p in r ==> p in Split(value, '\n'))
  {
    var pieces := Split(value, '\n');
    var r := Filter(pieces, p => IsSubdomainPiece(p, domain));
    FilterMembers(pieces, p => IsSubdomainPiece(p, domain));
    forall i | 0 <= i < |r|
      ensures '\n' !in r[i]
    {
      assert r[i] in pieces;
      var j :| 0 <= j < |pieces| && pieces[j] == r[i];
    }
  }

  /** The kept pieces keep the order of the field. */
  lemma PiecesInOrder(value: string, domain: string)
    ensures IsSubsequence(Filter(Split(value, '\n'), p => IsSubdomainPiece(p, domain)), Split(value, '\n'))
  {
    FilterSubsequence(Split(value, '\n'), p => IsSubdomainPiece(p, domain));
  }

  /** The derived fields of one record. */
  function Process(e: Entry, domain: string, now: int): (c: CtCert)
    ensures c.loggedAt == e.entryTimestamp && c.notBefore == e.notBefore && c.notAfter == e.notAfter
    ensures c.id == e.id && c.commonName == e.commonName && c.nameValue == e.nameValue
    ensures c.issuerCaId == e.issuerCaId && c.issuerName == e.issuerName
    ensures c.serialNumber == e.serialNumber && c.resultCount == e.resultCount
    ensures c.isActive <==> e.notBefore <= now <= e.notAfter
    ensures c.isExpired <==> now > e.notAfter
    ensures !(c.isActive && c.isExpired)
    ensures DayMs * (c.daysUntilExpiry - 1) < e.notAfter - now <= DayMs * c.daysUntilExpiry
    ensures c.isExpired ==> c.daysUntilExpiry <= 0
    ensures c.isActive ==> c.daysUntilExpiry >= 0
    ensures DayMs * (c.validityPeriod - 1) < e.notAfter - e.notBefore <= DayMs * c.validityPeriod
    ensures c.subdomains == Subdomains(e.nameValue, domain)
  {
    CtCert(e.id, e.entryTimestamp, e.notBefore, e.notAfter, e.commonName, e.nameValue,
           e.issuerCaId, e.issuerName, e.serialNumber, e.resultCount,
           now > e.notAfter,
           now >= e.notBefore && now <= e.notAfter,
           CeilDiv(e.notAfter - now, DayMs),
           CeilDiv(e.notAfter - e.notBefore, DayMs),
           Subdomains(e.nameValue, domain))
  }

  function ProcessAll(entries: seq<Entry>, domain: string, now: int): (r: seq<CtCert>)
    ensures |r| == |entries|
    ensures forall i :: 0 <= i < |r| ==> r[i] == Process(entries[i], domain, now)
  {
    seq(|entries|, i requires 0 <= i < |entries| => Process(entries[i], domain, now))
  }

  // ---------------------------------------------------------------------------
  // Ordering and aggregation

  predicate NewerOrSame(a: CtCert, b: CtCert) {
    a.loggedAt >= b.loggedAt
  }

  /** `sort((a, b) => b.loggedAt - a.loggedAt)`: a stable newest-first sort. */
  function NewestFirst(certs: seq<CtCert>): (r: seq<CtCert>)
    ensures multiset(r) == multiset(certs)
    ensures forall i, j :: 0 <= i < j < |r| ==> r[i].loggedAt >= r[j].loggedAt
  {
    SortBy(certs, NewerOrSame)
  }

  /** Counting is blind to order. */
  lemma CountPermutation<T(!new)>(a: seq<T>, b: seq<T>, p: T -> bool)
    requires multiset(a) == multiset(b)
    ensures Count(a, p) == Count(b, p)
  {
    assert multiset(Filter(a, p)) == multiset(Filter(b, p));
    assert |multiset(Filter(a, p))| == |Filter(a, p)|;
    assert |multiset(Filter(b, p))| == |Filter(b, p)|;
  }

  function IssuerNames(certs: seq<CtCert>): (r: seq<Option<string>>)
    ensures |r| == |certs|
    ensures forall i :: 0 <= i < |r| ==> r[i] == certs[i].issuerName
  {
    seq(|certs|, i requires 0 <= i < |certs| => certs[i].issuerName)
  }

  /** `certs.flatMap(c => c.subdomains)`. */
  function AllSubdomains(certs: seq<CtCert>): (r: seq<string>)
    ensures forall s :: s in r <==> exists c :: c in certs && s in c.subdomains
  {
    if |certs| == 0 then []
    else
      assert forall c :: c in certs <==> c == certs[0] || c in certs[1..];
      certs[0].subdomains + AllSubdomains(certs[1..])
  }

  /** The flattening goes certificate by certificate: the subdomains of a
      concatenation are those of each part in turn. */
  lemma {:induction false} AllSubdomainsAppend(a: seq<CtCert>, b: seq<CtCert>)
    ensures AllSubdomains(a + b) == AllSubdomains(a) + AllSubdomains(b)
    decreases |a|
  {
    if |a| == 0 {
      assert a + b == b;
    } else {
      var c := a + b;
      assert c[0] == a[0] && c[1..] == a[1..] + b;
      AllSubdomainsAppend(a[1..], b);
      calc {
        AllSubdomains(c);
        a[0].subdomains + AllSubdomains(a[1..] + b);
        a[0].subdomains + (AllSubdomains(a[1..]) + AllSubdomains(b));
        (a[0].subdomains + AllSubdomains(a[1..])) + AllSubdomains(b);
        AllSubdomains(a) + AllSubdomains(b);
      }
    }
  }

  /** One certificate contributes exactly its own list. */
  lemma AllSubdomainsOne(c: CtCert)
    ensures AllSubdomains([c]) == c.subdomains
  {
    assert [c][1..] == [];
    assert AllSubdomains([c]) == c.subdomains + [];
  }

  predicate NonEmpty(s: string) {
    |s| > 0
  }

  // ---------------------------------------------------------------------------
  // Month histogram

  function MonthOfCert(c: CtCert, monthOf: int -> int): int {
    monthOf(c.loggedAt)
  }

  function MonthsOf(certs: seq<CtCert>, monthOf: int -> int): (r: seq<int>)
    ensures |r| == |certs|
    ensures forall i :: 0 <= i < |r| ==> r[i] == monthOf(certs[i].loggedAt)
  {
    seq(|certs|, i requires 0 <= i < |certs| => monthOf(certs[i].loggedAt))
  }

  /** Number of certificates logged in month `m`. */
  function InMonth(certs: seq<CtCert>, monthOf: int -> int, m: int): nat {
    Count(certs, (c: CtCert) => monthOf(c.loggedAt) == m)
  }

  /** The distinct months present, latest first. */
  function MonthsLatestFirst(certs: seq<CtCert>, monthOf: int -> int): (r: seq<int>)
    ensures forall i, j :: 0 <= i < j < |r| ==> r[i] > r[j]
    ensures forall m :: m in r <==> m in MonthsOf(certs, monthOf)
  {
    var distinct := Dedup(MonthsOf(certs, monthOf));
    var sorted := SortBy(distinct, (a: int, b: int) => a >= b);
    PermutationNoDuplicates(distinct, sorted);
    assert forall m :: m in sorted <==> m in multiset(sorted);
    assert forall m :: m in distinct <==> m in multiset(distinct);
    sorted
  }

  /** `getCertificatesByMonth`: the twelve latest months that have
      certificates, latest first, each with its certificate count. */
  function ByMonth(certs: seq<CtCert>, monthOf: int -> int): (r: seq<MonthCount>)
    ensures |r| <= MaxMonths
    ensures forall i, j :: 0 <= i < j < |r| ==> r[i].month > r[j].month
    ensures forall i :: 0 <= i < |r| ==> r[i].count == InMonth(certs, monthOf, r[i].month) && r[i].count > 0
    ensures forall k :: 0 <= k < |certs| ==>
      (exists i :: 0 <= i < |r| && r[i].month == monthOf(certs[k].loggedAt))
      || (|r| == MaxMonths && monthOf(certs[k].loggedAt) < r[MaxMonths - 1].month)
  {
    var months := MonthsLatestFirst(certs, monthOf);
    var r := CountMonths(certs, monthOf, months, Min(MaxMonths, |months|));
    TopMonths(certs, monthOf, months, r);
    r
  }

  lemma TopMonths(certs: seq<CtCert>, monthOf: int -> int, months: seq<int>, r: seq<MonthCount>)
    requires months == MonthsLatestFirst(certs, monthOf)
    requires r == CountMonths(certs, monthOf, months, Min(MaxMonths, |months|))
    ensures |r| <= MaxMonths
    ensures forall i, j :: 0 <= i < j < |r| ==> r[i].month > r[j].month
    ensures forall i :: 0 <= i < |r| ==> r[i].count == InMonth(certs, monthOf, r[i].month) && r[i].count > 0
    ensures forall k :: 0 <= k < |certs| ==>
      (exists i :: 0 <= i < |r| && r[i].month == monthOf(certs[k].loggedAt))
      || (|r| == MaxMonths && monthOf(certs[k].loggedAt) < r[MaxMonths - 1].month)
  {
    TopMonthsOrdered(months, r);
    TopMonthsCounted(certs, monthOf, months, r);
    TopMonthsComplete(certs, monthOf, months, r);
  }

  lemma TopMonthsOrdered(months: seq<int>, r: seq<MonthCount>)
    requires forall i, j :: 0 <= i < j < |months| ==> months[i] > months[j]
    requires |r| <= |months|
    requires forall i :: 0 <= i < |r| ==> r[i].month == months[i]
    ensures forall i, j :: 0 <= i < j < |r| ==> r[i].month > r[j].month
  {
  }

  /** The first `k` months of `months`, each paired with its certificate
      count. */
  function CountMonths(certs: seq<CtCert>, monthOf: int -> int, months: seq<int>, k: nat): (r: seq<MonthCount>)
    requires k <= |months|
    ensures |r| == k
    ensures forall i :: 0 <= i < k ==> r[i] == MonthCount(months[i], InMonth(certs, monthOf, months[i]))
  {
    seq(k, i requires 0 <= i < k => MonthCount(months[i], InMonth(certs, monthOf, months[i])))
  }

  lemma TopMonthsCounted(certs: seq<CtCert>, monthOf: int -> int, months: seq<int>, r: seq<MonthCount>)
    requires months == MonthsLatestFirst(certs, monthOf)
    requires |r| == Min(MaxMonths, |months|)
    requires forall i :: 0 <= i < |r| ==> r[i] == MonthCount(months[i], InMonth(certs, monthOf, months[i]))
    ensures forall i :: 0 <= i < |r| ==> r[i].count > 0
  {
    forall i | 0 <= i < |r|
      ensures r[i].count > 0
    {
      assert months[i] in months;
      MonthPresent(certs, monthOf, months[i]);
    }
  }

  lemma TopMonthsComplete(certs: seq<CtCert>, monthOf: int -> int, months: seq<int>, r: seq<MonthCount>)
    requires months == MonthsLatestFirst(certs, monthOf)
    requires |r| == Min(MaxMonths, |months|)
    requires forall i :: 0 <= i < |r| ==> r[i].month == months[i]
    ensures forall k :: 0 <= k < |certs| ==>
      (exists i :: 0 <= i < |r| && r[i].month == monthOf(certs[k].loggedAt))
      || (|r| == MaxMonths && monthOf(certs[k].loggedAt) < r[MaxMonths - 1].month)
  {
    forall k | 0 <= k < |certs|
      ensures (exists i :: 0 <= i < |r| && r[i].month == monthOf(certs[k].loggedAt))
              || (|r| == MaxMonths && monthOf(certs[k].loggedAt) < r[MaxMonths - 1].month)
    {
      var m := monthOf(certs[k].loggedAt);
      assert MonthsOf(certs, monthOf)[k] == m;
      assert m in months;
      var j :| 0 <= j < |months| && months[j] == m;
      if j < MaxMonths {
        assert r[j].month == m;
      } else {
        assert months[MaxMonths - 1] > months[j];
      }
    }
  }

  /** A month that occurs among the certificates has a positive count. */
  lemma MonthPresent(certs: seq<CtCert>, monthOf: int -> int, m: int)
    requires m in MonthsOf(certs, monthOf)
    ensures InMonth(certs, monthOf, m) > 0
  {
    var ms := MonthsOf(certs, monthOf);
    var k :| 0 <= k < |ms| && ms[k] == m;
    var p := (c: CtCert) => monthOf(c.loggedAt) == m;
    assert certs[k] in multiset(certs);
    assert multiset(Filter(certs, p))[certs[k]] > 0;
  }

  // ---------------------------------------------------------------------------
  // The report

  /** The processed records, newest first. */
  function SortedCerts(entries: seq<Entry>, domain: string, now: int): seq<CtCert> {
    NewestFirst(ProcessAll(entries, domain, now))
  }

  /** `[...new Set(issuer names)]` over the sorted records. */
  function UniqueIssuers(sorted: seq<CtCert>): (r: seq<Option<string>>)
    ensures NoDuplicates(r)
    ensures forall x :: x in r <==> exists c :: c in sorted && c.issuerName == x
    ensures FirstSeenOrder(r, IssuerNames(sorted))
  {
    var names := IssuerNames(sorted);
    var r := Dedup(names);
    DedupFirstSeen(names);
    forall x
      ensures x in r <==> exists c :: c in sorted && c.issuerName == x
    {
      if exists c :: c in sorted && c.issuerName == x {
        var c :| c in sorted && c.issuerName == x;
        var i :| 0 <= i < |sorted| && sorted[i] == c;
        assert names[i] == x;
      }
    }
    r
  }

  /** `[...new Set(all subdomains)].filter(s => s && s.length > 0)`. */
  function UniqueSubdomains(sorted: seq<CtCert>): (r: seq<string>)
    ensures NoDuplicates(r)
    ensures forall s :: s in r <==> |s| > 0 && exists c :: c in sorted && s in c.subdomains
    ensures FirstSeenOrder(r, AllSubdomains(sorted))
  {
    var all := Dedup(AllSubdomains(sorted));
    var r := Filter(all, NonEmpty);
    FilterNoDuplicates(all, NonEmpty);
    DedupFirstSeen(AllSubdomains(sorted));
    FilterFirstSeen(all, AllSubdomains(sorted), NonEmpty);
    assert forall s :: s in r <==> s in multiset(r);
    assert forall s :: s in all <==> s in multiset(all);
    r
  }

  /** The summary counters. */
  function SummaryOf(entries: seq<Entry>, domain: string, now: int, recentCutoff: int): (s: Summary)
    ensures s.totalCertificates == |entries|
    ensures s.activeCertificates == Count(entries, (e: Entry) => e.notBefore <= now <= e.notAfter)
    ensures s.expiredCertificates == Count(entries, (e: Entry) => now > e.notAfter)
    ensures s.recentCertificates == Count(entries, (e: Entry) => e.entryTimestamp > recentCutoff)
    ensures s.activeCertificates + s.expiredCertificates <= s.totalCertificates
    ensures s.uniqueIssuers == |set e | e in entries :: e.issuerName|
    ensures s.discoveredSubdomains == |UniqueSubdomains(SortedCerts(entries, domain, now))|
  {
    var processed := ProcessAll(entries, domain, now);
    var sorted := SortedCerts(entries, domain, now);
    var active := Filter(sorted, (c: CtCert) => c.isActive);
    var expired := Filter(sorted, (c: CtCert) => c.isExpired);
    var recent := Filter(sorted, (c: CtCert) => c.loggedAt > recentCutoff);
    var issuers := UniqueIssuers(sorted);
    SummaryCounts(entries, domain, now, recentCutoff);
    IssuerCount(entries, domain, now);
    Summary(|entries|, |active|, |expired|, |recent|, |issuers|,
            |UniqueSubdomains(sorted)|)
  }

  lemma SummaryCounts(entries: seq<Entry>, domain: string, now: int, recentCutoff: int)
    ensures Count(SortedCerts(entries, domain, now), (c: CtCert) => c.isActive)
            == Count(entries, (e: Entry) => e.notBefore <= now <= e.notAfter)
    ensures Count(SortedCerts(entries, domain, now), (c: CtCert) => c.isExpired)
            == Count(entries, (e: Entry) => now > e.notAfter)
    ensures Count(SortedCerts(entries, domain, now), (c: CtCert) => c.loggedAt > recentCutoff)
            == Count(entries, (e: Entry) => e.entryTimestamp > recentCutoff)
    ensures Count(entries, (e: Entry) => e.notBefore <= now <= e.notAfter)
            + Count(entries, (e: Entry) => now > e.notAfter) <= |entries|
  {
    var processed := ProcessAll(entries, domain, now);
    var sorted := SortedCerts(entries, domain, now);
    CountPermutation(sorted, processed, (c: CtCert) => c.isActive);
    CountPermutation(sorted, processed, (c: CtCert) => c.isExpired);
    CountPermutation(sorted, processed, (c: CtCert) => c.loggedAt > recentCutoff);
    CountCorresponding(processed, entries, (c: CtCert) => c.isActive, (e: Entry) => e.notBefore <= now <= e.notAfter);
    CountCorresponding(processed, entries, (c: CtCert) => c.isExpired, (e: Entry) => now > e.notAfter);
    CountCorresponding(processed, entries, (c: CtCert) => c.loggedAt > recentCutoff, (e: Entry) => e.entryTimestamp > recentCutoff);
    ActivePlusExpired(processed);
  }

  lemma IssuerCount(entries: seq<Entry>, domain: string, now: int)
    ensures |UniqueIssuers(SortedCerts(entries, domain, now))| == |set e | e in entries :: e.issuerName|
  {
    var issuers := UniqueIssuers(SortedCerts(entries, domain, now));
    DistinctCard(issuers);
    forall x
      ensures x in issuers <==> x in (set e | e in entries :: e.issuerName)
    {
      IssuerListed(entries, domain, now, x);
    }
    assert (set x | x in issuers) == (set e | e in entries :: e.issuerName);
  }

  /** An issuer is listed exactly when some entry names it. */
  lemma IssuerListed(entries: seq<Entry>, domain: string, now: int, x: Option<string>)
    ensures x in UniqueIssuers(SortedCerts(entries, domain, now)) <==> exists e :: e in entries && e.issuerName == x
  {
    var processed := ProcessAll(entries, domain, now);
    var sorted := SortedCerts(entries, domain, now);
    if x in UniqueIssuers(sorted) {
      var c :| c in sorted && c.issuerName == x;
      assert c in multiset(processed);
      var j :| 0 <= j < |processed| && processed[j] == c;
      assert entries[j] in entries && entries[j].issuerName == x;
    }
    if exists e :: e in entries && e.issuerName == x {
      var e :| e in entries && e.issuerName == x;
      var j :| 0 <= j < |entries| && entries[j] == e;
      assert processed[j] in multiset(sorted);
      assert processed[j] in sorted;
    }
  }

  /** `p` holds of the i-th element of `t` exactly when `q` holds of the i-th
      element of `s`, so both count the same. */
  lemma {:induction false} CountCorresponding<A(!new), B(!new)>(t: seq<A>, s: seq<B>, p: A -> bool, q: B -> bool)
    requires |t| == |s|
    requires forall i :: 0 <= i < |s| ==> (p(t[i]) <==> q(s[i]))
    ensures Count(t, p) == Count(s, q)
    decreases |s|
  {
    if |s| > 0 {
      CountCorresponding(t[1..], s[1..], p, q);
    }
  }

  /** A duplicate-free sequence has as many elements as its set. */
  lemma {:induction false} DistinctCard<T>(r: seq<T>)
    requires NoDuplicates(r)
    ensures |set x | x in r| == |r|
    decreases |r|
  {
    if |r| > 0 {
      DistinctCard(r[1..]);
      assert (set x | x in r) == {r[0]} + (set x | x in r[1..]);
      assert r[0] !in r[1..];
    }
  }

  /** The report built from the returned records (`getCertLogs` after the
      lookup succeeded). */
  function BuildReport(domain: string, entries: seq<Entry>, now: int, recentCutoff: int,
                       monthOf: int -> int): (r: CtReport)
    ensures r.domain == domain
    ensures r.summary == SummaryOf(entries, domain, now, recentCutoff)
    ensures r.all <= SortedCerts(entries, domain, now)
    ensures |r.all| == Min(MaxAll, |entries|)
    ensures |r.active| == Min(MaxActive, |Filter(SortedCerts(entries, domain, now), (c: CtCert) => c.isActive)|)
    ensures |r.recent| == Min(MaxRecent, |Filter(SortedCerts(entries, domain, now), (c: CtCert) => c.loggedAt > recentCutoff)|)
    ensures r.active <= Filter(SortedCerts(entries, domain, now), (c: CtCert) => c.isActive)
    ensures r.recent <= Filter(SortedCerts(entries, domain, now), (c: CtCert) => c.loggedAt > recentCutoff)
    ensures r.issuers <= UniqueIssuers(SortedCerts(entries, domain, now))
    ensures |r.issuers| == Min(MaxIssuers, r.summary.uniqueIssuers)
    ensures r.subdomains <= UniqueSubdomains(SortedCerts(entries, domain, now))
    ensures |r.subdomains| == Min(MaxSubdomains, r.summary.discoveredSubdomains)
    ensures r.certificatesByMonth == ByMonth(ProcessAll(entries, domain, now), monthOf)
  {
    var sorted := SortedCerts(entries, domain, now);
    var summary := SummaryOf(entries, domain, now, recentCutoff);
    IssuerCount(entries, domain, now);
    ByMonthPermutation(sorted, ProcessAll(entries, domain, now), monthOf);
    CtReport(domain,
             summary,
             Take(UniqueIssuers(sorted), MaxIssuers),
             Take(UniqueSubdomains(sorted), MaxSubdomains),
             ByMonth(sorted, monthOf),
             Take(Filter(sorted, (c: CtCert) => c.isActive), MaxActive),
             Take(Filter(sorted, (c: CtCert) => c.loggedAt > recentCutoff), MaxRecent),
             Take(sorted, MaxAll))
  }

  /** Active and expired certificates are disjoint, so together they never
      outnumber the whole list. */
  lemma {:induction false} ActivePlusExpired(certs: seq<CtCert>)
    requires forall c :: c in certs ==> !(c.isActive && c.isExpired)
    ensures Count(certs, (c: CtCert) => c.isActive) + Count(certs, (c: CtCert) => c.isExpired) <= |certs|
    decreases |certs|
  {
    if |certs| > 0 {
      ActivePlusExpired(certs[1..]);
    }
  }

  lemma ByMonthPermutation(a: seq<CtCert>, b: seq<CtCert>, monthOf: int -> int)
    requires multiset(a) == multiset(b)
    ensures ByMonth(a, monthOf) == ByMonth(b, monthOf)
  {
    MonthsCovered(a, b, monthOf);
    MonthsCovered(b, a, monthOf);
    var ma := MonthsLatestFirst(a, monthOf);
    var mb := MonthsLatestFirst(b, monthOf);
    StrictlyDescendingUnique(ma, mb);
    var k := Min(MaxMonths, |ma|);
    var ra := CountMonths(a, monthOf, ma, k);
    var rb := CountMonths(b, monthOf, ma, k);
    forall i | 0 <= i < k
      ensures ra[i] == rb[i]
    {
      CountPermutation(a, b, (c: CtCert) => monthOf(c.loggedAt) == ma[i]);
    }
    assert ra == rb;
  }

  /** Every month of `a` is a month of any permutation of it. */
  lemma MonthsCovered(a: seq<CtCert>, b: seq<CtCert>, monthOf: int -> int)
    requires multiset(a) == multiset(b)
    ensures forall m :: m in MonthsOf(a, monthOf) ==> m in MonthsOf(b, monthOf)
  {
    forall m | m in MonthsOf(a, monthOf)
      ensures m in MonthsOf(b, monthOf)
    {
      var k :| 0 <= k < |a| && MonthsOf(a, monthOf)[k] == m;
      assert a[k] in multiset(b);
      var j :| 0 <= j < |b| && b[j] == a[k];
      assert MonthsOf(b, monthOf)[j] == m;
    }
  }

  /** Two strictly descending sequences with the same elements are equal. */
  lemma {:induction false} StrictlyDescendingUnique(a: seq<int>, b: seq<int>)
    requires forall i, j :: 0 <= i < j < |a| ==> a[i] > a[j]
    requires forall i, j :: 0 <= i < j < |b| ==> b[i] > b[j]
    requires forall m :: m in a <==> m in b
    ensures a == b
    decreases |a|
  {
    SameElementsBothEmpty(a, b);
    if |a| > 0 {
      assert a[0] in a && b[0] in b;
      assert a[0] == b[0];
      forall m
        ensures m in a[1..] <==> m in b[1..]
      {
        if m in a[1..] { assert m < a[0]; assert m in b; assert m != b[0]; }
        if m in b[1..] { assert m < b[0]; assert m in a; assert m != a[0]; }
      }
      StrictlyDescendingUnique(a[1..], b[1..]);
      assert a == [a[0]] + a[1..];
      assert b == [b[0]] + b[1..];
    }
  }

  lemma SameElementsBothEmpty(a: seq<int>, b: seq<int>)
    requires forall m :: m in a ==> m in b
    requires forall m :: m in b ==> m in a
    ensures |a| == 0 <==> |b| == 0
  {
    if |a| > 0 { var x := a[0]; assert x in a; assert x in b; }
    if |b| > 0 { var x := b[0]; assert x in b; assert x in a; }
  }

  /** `getCertLogs`: the lookup's outcome mapped to a report or an error. */
  function GetCertLogs(domain: string, lookup: Lookup, now: int, recentCutoff: int,
                       monthOf: int -> int): (r: Result<CtReport, string>)
    ensures lookup.Aborted? ==> r == Err(TimeoutMessage)
    ensures lookup.LookupFailed? ==> r == Err(ErrorPrefix + lookup.message)
    ensures lookup.Received? ==> r.Ok? && r.value.summary.totalCertificates == |lookup.data.GetOr([])|
    ensures lookup.Received? ==> r == Ok(BuildReport(domain, lookup.data.GetOr([]), now, recentCutoff, monthOf))
  {
    match lookup
    case Aborted => Err(TimeoutMessage)
    case LookupFailed(m) => Err(ErrorPrefix + m)
    case Received(data) => Ok(BuildReport(domain, data.GetOr([]), now, recentCutoff, monthOf))
  }
}
