/** The `/analyze/:domain` route: domain validation, the merge of the two
    settled analyses, and the security summary computed from them. */
module Analysis {
  import opened Wrappers
  import opened Text
  import opened Seqs
  import opened DomainRegex
  import SslLabs
  import CrtSh

  const DomainRequired: string := "Domain parameter is required"
  const InvalidFormat: string := "Invalid domain format"

  const NoGrade: string := "N/A"
  const UnknownGrade: string := "Unknown"
  const ActiveStatus: string := "Active"
  const NoActiveStatus: string := "No active certificates"
  const UnknownStatus: string := "Unknown"

  const PfsAdvice: string := "Enable Perfect Forward Secrecy"
  const OcspAdvice: string := "Enable OCSP Stapling"
  const SubdomainAdvice: string := "Review exposed subdomains for security"
  /** More discovered subdomains than this trigger the review advice. */
  const SubdomainThreshold: int := 10

  /** The issue messages, in the order the checks run. */
  const IssueMessages: seq<string> := [
    "Heartbleed vulnerability detected",
    "POODLE vulnerability detected",
    "FREAK vulnerability detected",
    "Logjam vulnerability detected",
    "DROWN vulnerability detected",
    "RC4 cipher support detected"
  ]

  // ---------------------------------------------------------------------------
  // Domain validation

  /** `validateDomain`: `domain` is the route parameter (`None` when absent). */
  function ValidateDomain(domain: Option<string>): (r: Result<string, string>)
    ensures r.Ok? <==> domain.Some? && IsValidDomain(domain.value)
    ensures r.Ok? ==> r.value == domain.value
    ensures domain == None || domain == Some("") ==> r == Err(DomainRequired)
    ensures domain.Some? && domain.value != "" && !IsValidDomain(domain.value) ==> r == Err(InvalidFormat)
  {
    match domain
    case None => Err(DomainRequired)
    case Some(d) =>
      if d == "" then Err(DomainRequired)
      else if !IsValidDomain(d) then Err(InvalidFormat)
      else Ok(d)
  }

  // ---------------------------------------------------------------------------
  // Merging the settled analyses

  /** One slot of `result.data`: the analysis' value, or
      `{ error: message, status: "failed" }`. */
  datatype Slot<+T> = Filled(value: T) | Failed(error: string)

  function ToSlot<T>(r: Result<T, string>): (s: Slot<T>)
    ensures s.Filled? <==> r.Ok?
    ensures r.Ok? ==> s.value == r.value
    ensures r.Err? ==> s.error == r.error
  {
    match r
    case Ok(v) => Filled(v)
    case Err(e) => Failed(e)
  }

  datatype Data = Data(sslSecurity: Slot<SslLabs.GradeReport>,
                       certificateTransparency: Slot<CrtSh.CtReport>)

  datatype SecuritySummary = SecuritySummary(overallGrade: string,
                                             securityIssues: seq<string>,
                                             recommendations: seq<string>,
                                             certificateStatus: string)

  /** The route's answer: a 400 rejection, or `success: true` with both slots
      and the summary. */
  datatype Response =
    | Rejected(error: string, requested: Option<string>)
    | Analyzed(domain: string, data: Data, summary: SecuritySummary)

  // ---------------------------------------------------------------------------
  // The security summary

  /** JavaScript truthiness of an optional string. */
  predicate NonEmptyString(o: Option<string>) {
    o.Some? && |o.value| > 0
  }

  /** A grade that takes part in the overall grade: truthy and not `"N/A"`. */
  predicate Rated(o: Option<string>) {
    NonEmptyString(o) && o.value != NoGrade
  }

  /** `endpoints.map(ep => ep.grade).filter(g => g && g !== "N/A")`. */
  function RatedGrades(eps: seq<SslLabs.Endpoint>): (r: seq<string>)
    ensures |r| <= |eps|
    ensures forall g :: g in r <==> exists ep :: ep in eps && Rated(ep.grade) && ep.grade.value == g
  {
    if |eps| == 0 then []
    else
      var rest := RatedGrades(eps[1..]);
      assert forall ep :: ep in eps[1..] ==> ep in eps;
      assert forall ep :: ep in eps ==> ep == eps[0] || ep in eps[1..];
      if Rated(eps[0].grade) then [eps[0].grade.value] + rest else rest
  }

  /** The least grade in JavaScript string order (what `grades.sort()[0]`
      picks). */
  function BestGrade(grades: seq<string>): (g: string)
    requires |grades| > 0
    ensures g in grades
    ensures forall h :: h in grades ==> StrLe(g, h)
  {
    if |grades| == 1 then
      StrLeTotal(grades[0], grades[0]);
      assert forall h :: h in grades ==> h == grades[0];
      grades[0]
    else
      var rest := BestGrade(grades[1..]);
      StrLeTotal(grades[0], rest);
      StrLeTotal(grades[0], grades[0]);
      forall h | h in grades
        ensures StrLe(grades[0], rest) ==> StrLe(grades[0], h)
        ensures !StrLe(grades[0], rest) ==> StrLe(rest, h)
      {
        if h != grades[0] {
          assert h in grades[1..];
          if StrLe(grades[0], rest) { StrLeTrans(grades[0], rest, h); }
        }
      }
      if StrLe(grades[0], rest) then grades[0] else rest
  }

  /** Whatever order a sort leaves equal grades in, its first element is the
      least grade. */
  lemma SortedFirstIsBest(grades: seq<string>, sorted: seq<string>)
    requires |grades| > 0
    requires multiset(sorted) == multiset(grades)
    requires Sorted(sorted, (a: string, b: string) => StrLe(a, b))
    ensures |sorted| > 0 && sorted[0] == BestGrade(grades)
  {
    assert |sorted| == |grades|;
    var best := BestGrade(grades);
    assert sorted[0] in multiset(grades);
    assert best in multiset(sorted);
    var j :| 0 <= j < |sorted| && sorted[j] == best;
    if j > 0 {
      assert StrLe(sorted[0], sorted[j]);
    }
    StrLeAntisym(sorted[0], best);
  }

  /** An extra `+` or `-` ranks a grade after its plain letter. */
  lemma PlainLetterFirst()
    ensures BestGrade(["A+", "A"]) == "A"
    ensures BestGrade(["A-", "A"]) == "A"
    ensures BestGrade(["B", "A+"]) == "A+"
  {
    assert StrLe("A", "A+");
    assert StrLe("A", "A-");
    assert StrLe("A+", "B");
  }

  predicate HasDetails(ep: SslLabs.Endpoint) {
    ep.details.Some?
  }

  /** The issue conditions in check order. */
  function IssueFlags(d: SslLabs.Details): (flags: seq<bool>)
    ensures |flags| == |IssueMessages|
  {
    [d.heartbleed, d.poodle, d.freak, d.logjam, d.drownVulnerable, d.supportsRc4]
  }

  /** The elements of `xs` whose flag in `bs` is set, in order. */
  function Pick<T>(xs: seq<T>, bs: seq<bool>): (r: seq<T>)
    requires |xs| == |bs|
    ensures |r| <= |xs|
    ensures forall x :: x in r ==> x in xs
  {
    if |xs| == 0 then []
    else (if bs[0] then [xs[0]] else []) + Pick(xs[1..], bs[1..])
  }

  /** The issues one endpoint with details contributes: each check in turn
      appends its message when its condition holds. */
  function EndpointIssues(d: SslLabs.Details): (r: seq<string>)
    ensures forall m :: m in r ==> m in IssueMessages
    ensures forall k :: 0 <= k < |IssueMessages| ==>
      multiset(r)[IssueMessages[k]] == if IssueFlags(d)[k] then 1 else 0
    ensures IsSubsequence(r, IssueMessages)
  {
    IssueMessagesDistinct();
    PickSubsequence(IssueMessages, IssueFlags(d));
    forall k | 0 <= k < |IssueMessages|
      ensures multiset(Pick(IssueMessages, IssueFlags(d)))[IssueMessages[k]] == if IssueFlags(d)[k] then 1 else 0
    {
      PickCount(IssueMessages, IssueFlags(d), k);
    }
    Pick(IssueMessages, IssueFlags(d))
  }

  /** `!details.forwardSecrecy`: absent or zero. */
  predicate LacksForwardSecrecy(d: SslLabs.Details) {
    d.forwardSecrecy == None || d.forwardSecrecy == Some(0)
  }

  /** The recommendations one endpoint with details contributes. */
  function EndpointAdvice(d: SslLabs.Details): (r: seq<string>)
    ensures PfsAdvice in r <==> LacksForwardSecrecy(d)
    ensures OcspAdvice in r <==> !d.ocspStapling
    ensures |r| <= 2 && SubdomainAdvice !in r
    ensures forall m :: m in r ==> m == PfsAdvice || m == OcspAdvice
    ensures NoDuplicates(r)
    ensures |r| == 2 ==> r == [PfsAdvice, OcspAdvice]
  {
    (if LacksForwardSecrecy(d) then [PfsAdvice] else [])
    + (if !d.ocspStapling then [OcspAdvice] else [])
  }

  /** The issues of all endpoints, endpoint by endpoint. */
  function SecurityIssues(eps: seq<SslLabs.Endpoint>): (r: seq<string>)
    ensures |r| <= |IssueMessages| * |eps|
    ensures forall m :: m in r ==> m in IssueMessages
  {
    if |eps| == 0 then []
    else
      (if HasDetails(eps[0]) then EndpointIssues(eps[0].details.value) else [])
      + SecurityIssues(eps[1..])
  }

  /** The endpoint recommendations, endpoint by endpoint. */
  function EndpointsAdvice(eps: seq<SslLabs.Endpoint>): (r: seq<string>)
    ensures |r| <= 2 * |eps|
    ensures SubdomainAdvice !in r
  {
    if |eps| == 0 then []
    else
      (if HasDetails(eps[0]) then EndpointAdvice(eps[0].details.value) else [])
      + EndpointsAdvice(eps[1..])
  }

  /** `generateSecuritySummary`. A filled grading slot always has an
      endpoint list (possibly empty), and a filled transparency slot always
      has a summary. */
  function GenerateSecuritySummary(data: Data): (s: SecuritySummary)
    ensures data.sslSecurity.Failed? ==> s.overallGrade == UnknownGrade && s.securityIssues == []
    ensures data.sslSecurity.Filled? ==>
      var grades := RatedGrades(data.sslSecurity.value.endpoints);
      && (|grades| == 0 ==> s.overallGrade == UnknownGrade)
      && (|grades| > 0 ==> s.overallGrade in grades && forall g :: g in grades ==> StrLe(s.overallGrade, g))
    ensures data.sslSecurity.Filled? ==> s.securityIssues == SecurityIssues(data.sslSecurity.value.endpoints)
    ensures s.certificateStatus ==
      (if data.certificateTransparency.Failed? then UnknownStatus
       else if data.certificateTransparency.value.summary.activeCertificates > 0 then ActiveStatus
       else NoActiveStatus)
    ensures s.recommendations ==
      (if data.sslSecurity.Filled? then EndpointsAdvice(data.sslSecurity.value.endpoints) else [])
      + (if SubdomainsExposed(data) then [SubdomainAdvice] else [])
    ensures multiset(s.recommendations)[SubdomainAdvice] == if SubdomainsExposed(data) then 1 else 0
  {
    var (grade, issues, advice) :=
      match data.sslSecurity
      case Failed(_) => (UnknownGrade, [], [])
      case Filled(report) =>
        var grades := RatedGrades(report.endpoints);
        (if |grades| > 0 then BestGrade(grades) else UnknownGrade,
         SecurityIssues(report.endpoints),
         EndpointsAdvice(report.endpoints));
    var status :=
      match data.certificateTransparency
      case Failed(_) => UnknownStatus
      case Filled(report) => if report.summary.activeCertificates > 0 then ActiveStatus else NoActiveStatus;
    var extra := if SubdomainsExposed(data) then [SubdomainAdvice] else [];
    assert multiset(advice)[SubdomainAdvice] == 0;
    SecuritySummary(grade, issues, advice + extra, status)
  }

  /** The transparency slot reports more than ten discovered subdomains. */
  predicate SubdomainsExposed(data: Data) {
    data.certificateTransparency.Filled?
    && data.certificateTransparency.value.summary.discoveredSubdomains > SubdomainThreshold
  }

  /** Picking keeps the order of `xs`. */
  lemma {:induction false} PickSubsequence<T>(xs: seq<T>, bs: seq<bool>)
    requires |xs| == |bs|
    ensures IsSubsequence(Pick(xs, bs), xs)
    decreases |xs|
  {
    if |xs| > 0 {
      PickSubsequence(xs[1..], bs[1..]);
      var r, t := Pick(xs, bs), Pick(xs[1..], bs[1..]);
      if bs[0] {
        assert r == [xs[0]] + t;
        assert r[0] == xs[0] && r[1..] == t;
      } else {
        assert r == t;
      }
    }
  }

  /** The issues are gathered endpoint by endpoint: those of a concatenation
      are those of each part in turn, and one endpoint contributes exactly
      its own checks' messages (none without details). */
  lemma {:induction false} SecurityIssuesAppend(a: seq<SslLabs.Endpoint>, b: seq<SslLabs.Endpoint>)
    ensures SecurityIssues(a + b) == SecurityIssues(a) + SecurityIssues(b)
    ensures |a| == 1 ==>
              SecurityIssues(a) == (if HasDetails(a[0]) then EndpointIssues(a[0].details.value) else [])
    decreases |a|
  {
    if |a| == 0 {
      assert a + b == b;
    } else {
      var c := a + b;
      assert c[0] == a[0] && c[1..] == a[1..] + b;
      SecurityIssuesAppend(a[1..], b);
      var head := if HasDetails(a[0]) then EndpointIssues(a[0].details.value) else [];
      calc {
        SecurityIssues(c);
        head + SecurityIssues(a[1..] + b);
        head + (SecurityIssues(a[1..]) + SecurityIssues(b));
        (head + SecurityIssues(a[1..])) + SecurityIssues(b);
        SecurityIssues(a) + SecurityIssues(b);
      }
      if |a| == 1 {
        assert a[1..] == [];
        assert SecurityIssues(a) == head + [];
      }
    }
  }

  /** The recommendations are gathered endpoint by endpoint, in the same way. */
  lemma {:induction false} EndpointsAdviceAppend(a: seq<SslLabs.Endpoint>, b: seq<SslLabs.Endpoint>)
    ensures EndpointsAdvice(a + b) == EndpointsAdvice(a) + EndpointsAdvice(b)
    ensures |a| == 1 ==>
              EndpointsAdvice(a) == (if HasDetails(a[0]) then EndpointAdvice(a[0].details.value) else [])
    decreases |a|
  {
    if |a| == 0 {
      assert a + b == b;
    } else {
      var c := a + b;
      assert c[0] == a[0] && c[1..] == a[1..] + b;
      EndpointsAdviceAppend(a[1..], b);
      var head := if HasDetails(a[0]) then EndpointAdvice(a[0].details.value) else [];
      calc {
        EndpointsAdvice(c);
        head + EndpointsAdvice(a[1..] + b);
        head + (EndpointsAdvice(a[1..]) + EndpointsAdvice(b));
        (head + EndpointsAdvice(a[1..])) + EndpointsAdvice(b);
        EndpointsAdvice(a) + EndpointsAdvice(b);
      }
      if |a| == 1 {
        assert a[1..] == [];
        assert EndpointsAdvice(a) == head + [];
      }
    }
  }

  /** The issue messages are pairwise different. */
  lemma IssueMessagesDistinct()
    ensures NoDuplicates(IssueMessages)
  {
    var initials := "HPFLDR";
    assert forall k :: 0 <= k < |IssueMessages| ==> IssueMessages[k][0] == initials[k];
  }

  /** Picking from a duplicate-free list yields a message exactly once when
      its flag is set. */
  lemma {:induction false} PickCount<T>(xs: seq<T>, bs: seq<bool>, k: nat)
    requires |xs| == |bs| && k < |xs|
    requires NoDuplicates(xs)
    ensures multiset(Pick(xs, bs))[xs[k]] == if bs[k] then 1 else 0
    decreases |xs|
  {
    if k == 0 {
      assert xs[0] !in xs[1..];
      assert xs[0] !in Pick(xs[1..], bs[1..]);
    } else {
      PickCount(xs[1..], bs[1..], k - 1);
      assert xs[0] != xs[k];
    }
  }

  /** Each issue message occurs once per endpoint with details whose
      condition holds: nothing is merged across endpoints. */
  lemma {:induction false} IssueTally(eps: seq<SslLabs.Endpoint>, k: nat)
    requires k < |IssueMessages|
    ensures multiset(SecurityIssues(eps))[IssueMessages[k]]
            == Count(eps, (ep: SslLabs.Endpoint) => HasDetails(ep) && IssueFlags(ep.details.value)[k])
    decreases |eps|
  {
    if |eps| > 0 {
      var p := (ep: SslLabs.Endpoint) => HasDetails(ep) && IssueFlags(ep.details.value)[k];
      IssueTally(eps[1..], k);
      CountCons(eps, p);
      var head := if HasDetails(eps[0]) then EndpointIssues(eps[0].details.value) else [];
      assert SecurityIssues(eps) == head + SecurityIssues(eps[1..]);
      assert multiset(head)[IssueMessages[k]] == if p(eps[0]) then 1 else 0;
    }
  }

  /** The forward-secrecy advice occurs once per endpoint with details that
      lacks forward secrecy. */
  lemma {:induction false} PfsTally(eps: seq<SslLabs.Endpoint>)
    ensures multiset(EndpointsAdvice(eps))[PfsAdvice]
            == Count(eps, (ep: SslLabs.Endpoint) => HasDetails(ep) && LacksForwardSecrecy(ep.details.value))
    decreases |eps|
  {
    if |eps| > 0 {
      var p := (ep: SslLabs.Endpoint) => HasDetails(ep) && LacksForwardSecrecy(ep.details.value);
      PfsTally(eps[1..]);
      CountCons(eps, p);
      var head := if HasDetails(eps[0]) then EndpointAdvice(eps[0].details.value) else [];
      assert EndpointsAdvice(eps) == head + EndpointsAdvice(eps[1..]);
      AdviceOnce(head, eps[0], PfsAdvice, p(eps[0]));
    }
  }

  /** The stapling advice occurs once per endpoint with details that does
      not staple. */
  lemma {:induction false} OcspTally(eps: seq<SslLabs.Endpoint>)
    ensures multiset(EndpointsAdvice(eps))[OcspAdvice]
            == Count(eps, (ep: SslLabs.Endpoint) => HasDetails(ep) && !ep.details.value.ocspStapling)
    decreases |eps|
  {
    if |eps| > 0 {
      var p := (ep: SslLabs.Endpoint) => HasDetails(ep) && !ep.details.value.ocspStapling;
      OcspTally(eps[1..]);
      CountCons(eps, p);
      var head := if HasDetails(eps[0]) then EndpointAdvice(eps[0].details.value) else [];
      assert EndpointsAdvice(eps) == head + EndpointsAdvice(eps[1..]);
      AdviceOnce(head, eps[0], OcspAdvice, p(eps[0]));
    }
  }

  /** One endpoint's advice holds each piece at most once. */
  lemma AdviceOnce(head: seq<string>, ep: SslLabs.Endpoint, m: string, holds: bool)
    requires head == if HasDetails(ep) then EndpointAdvice(ep.details.value) else []
    requires m == PfsAdvice || m == OcspAdvice
    requires holds <==> m in head
    ensures multiset(head)[m] == if holds then 1 else 0
  {
    assert PfsAdvice != OcspAdvice;
  }

  /** The grading slot alone decides grade and issues; the transparency slot
      alone decides the certificate status. */
  lemma SummaryIndependence(a: Data, b: Data)
    ensures a.sslSecurity == b.sslSecurity ==>
      GenerateSecuritySummary(a).overallGrade == GenerateSecuritySummary(b).overallGrade
      && GenerateSecuritySummary(a).securityIssues == GenerateSecuritySummary(b).securityIssues
    ensures a.certificateTransparency == b.certificateTransparency ==>
      GenerateSecuritySummary(a).certificateStatus == GenerateSecuritySummary(b).certificateStatus
  {
    var sa, sb := GenerateSecuritySummary(a), GenerateSecuritySummary(b);
    if a.sslSecurity == b.sslSecurity && a.sslSecurity.Filled? {
      var grades := RatedGrades(a.sslSecurity.value.endpoints);
      if |grades| > 0 {
        StrLeAntisym(sa.overallGrade, sb.overallGrade);
      }
    }
  }

  // ---------------------------------------------------------------------------
  // The route

  /** `GET /analyze/:domain`. The two analyses run on their own inputs: the
      grading provider's replies and the transparency lookup's outcome.
      Returns the response and how many calls each service received. */
  method Analyze(domain: Option<string>, sslCall: nat -> SslLabs.Reply, lookup: CrtSh.Lookup,
                 now: int, recentCutoff: int, monthOf: int -> int)
    returns (resp: Response, sslCalls: nat, lookups: nat)
    ensures resp.Rejected? <==> ValidateDomain(domain).Err?
    ensures resp.Rejected? ==> resp.error == ValidateDomain(domain).error && sslCalls == 0 && lookups == 0
    ensures resp.Analyzed? ==> domain == Some(resp.domain)
    ensures resp.Analyzed? ==> 1 <= sslCalls <= SslLabs.MaxAttempts && lookups == 1
    ensures resp.Analyzed? ==> forall i :: 0 <= i < sslCalls - 1 ==> SslLabs.StillRunning(sslCall(i))
    ensures resp.Analyzed? && SslLabs.StillRunning(sslCall(sslCalls - 1)) ==> sslCalls == SslLabs.MaxAttempts
    ensures resp.Analyzed? ==>
              && sslCalls >= 1
              && resp.data == Data(SslSlot(sslCall, sslCalls),
                                   CtSlot(resp.domain, lookup, now, recentCutoff, monthOf))
    ensures resp.Analyzed? ==> resp.summary == GenerateSecuritySummary(resp.data)
  {
    var v := ValidateDomain(domain);
    if v.Err? {
      resp, sslCalls, lookups := Rejected(v.error, domain), 0, 0;
    } else {
      var data;
      data, sslCalls := RunAnalyses(v.value, sslCall, lookup, now, recentCutoff, monthOf);
      resp, lookups := Analyzed(v.value, data, GenerateSecuritySummary(data)), 1;
    }
  }

  /** The grading slot when the `n`-th reply ended the polling. */
  function SslSlot(sslCall: nat -> SslLabs.Reply, n: nat): Slot<SslLabs.GradeReport>
    requires n >= 1
  {
    ToSlot(SslLabs.Settle(sslCall(n - 1)))
  }

  /** The transparency slot for `domain`. */
  function CtSlot(domain: string, lookup: CrtSh.Lookup, now: int, recentCutoff: int,
                  monthOf: int -> int): Slot<CrtSh.CtReport>
  {
    ToSlot(CrtSh.GetCertLogs(domain, lookup, now, recentCutoff, monthOf))
  }

  /** Both analyses of a validated domain, each settled into its slot. */
  method RunAnalyses(d: string, sslCall: nat -> SslLabs.Reply, lookup: CrtSh.Lookup,
                     now: int, recentCutoff: int, monthOf: int -> int)
    returns (data: Data, sslCalls: nat)
    ensures 1 <= sslCalls <= SslLabs.MaxAttempts
    ensures forall i :: 0 <= i < sslCalls - 1 ==> SslLabs.StillRunning(sslCall(i))
    ensures SslLabs.StillRunning(sslCall(sslCalls - 1)) ==> sslCalls == SslLabs.MaxAttempts
    ensures data == Data(SslSlot(sslCall, sslCalls),
                         CtSlot(d, lookup, now, recentCutoff, monthOf))
  {
    var ssl;
    ssl, sslCalls := SslLabs.AnalyzeSsl(sslCall);
    var ct := CrtSh.GetCertLogs(d, lookup, now, recentCutoff, monthOf);
    data := Data(ToSlot(ssl), ToSlot(ct));
  }

  /** Whatever the transparency lookup does, the grade and the issues are
      those the grading replies alone give. */
  lemma LookupCannotChangeGrade(domain: string, sslCall: nat -> SslLabs.Reply, n: nat,
                                lookup: CrtSh.Lookup, lookup': CrtSh.Lookup,
                                now: int, recentCutoff: int, monthOf: int -> int)
    requires 1 <= n
    ensures var a := GenerateSecuritySummary(Data(SslSlot(sslCall, n), CtSlot(domain, lookup, now, recentCutoff, monthOf)));
            var b := GenerateSecuritySummary(Data(SslSlot(sslCall, n), CtSlot(domain, lookup', now, recentCutoff, monthOf)));
            a.overallGrade == b.overallGrade && a.securityIssues == b.securityIssues
  {
    var ssl := SslSlot(sslCall, n);
    SummaryIndependence(Data(ssl, CtSlot(domain, lookup, now, recentCutoff, monthOf)),
                        Data(ssl, CtSlot(domain, lookup', now, recentCutoff, monthOf)));
  }

  /** Whatever the grading provider answers, the certificate status is the
      one the transparency lookup alone gives. */
  lemma GradingCannotChangeStatus(domain: string, sslCall: nat -> SslLabs.Reply, sslCall': nat -> SslLabs.Reply,
                                  n: nat, n': nat, lookup: CrtSh.Lookup,
                                  now: int, recentCutoff: int, monthOf: int -> int)
    requires 1 <= n && 1 <= n'
    ensures var a := GenerateSecuritySummary(Data(SslSlot(sslCall, n), CtSlot(domain, lookup, now, recentCutoff, monthOf)));
            var b := GenerateSecuritySummary(Data(SslSlot(sslCall', n'), CtSlot(domain, lookup, now, recentCutoff, monthOf)));
            a.certificateStatus == b.certificateStatus
  {
    var ct := CtSlot(domain, lookup, now, recentCutoff, monthOf);
    SummaryIndependence(Data(SslSlot(sslCall, n), ct), Data(SslSlot(sslCall', n'), ct));
  }
}
