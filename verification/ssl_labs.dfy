/** The grading-provider client: the bounded polling loop that drives an
    analysis until the provider stops reporting `IN_PROGRESS`, and the
    normaliser that turns the provider's loosely-shaped payload into a report
    with defaults filled in and lists capped. */
module SslLabs {
  import opened Wrappers
  import opened Seqs

  const MaxAttempts: nat := 24
  const InProgress: string := "IN_PROGRESS"
  const ErrorStatus: string := "ERROR"
  const ErrorPrefix: string := "SSL Labs API error: "
  const TimeoutMessage: string := "SSL analysis timeout - analysis taking too long"
  const FailedPrefix: string := "SSL Labs analysis failed: "
  const DefaultPort: int := 443
  const DefaultProtocol: string := "HTTP"
  const MaxSuites: nat := 10
  const MaxSims: nat := 5

  // ---------------------------------------------------------------------------
  // JavaScript `x || default` on optional fields: absent, `false`, `0` and
  // `""` are falsy and give the default.

  function FlagOr(o: Option<bool>): (b: bool)
    ensures b <==> o == Some(true)
  {
    o.Some? && o.value
  }

  function IntOr(o: Option<int>, default: int): (n: int)
    ensures o.Some? && o.value != 0 ==> n == o.value
    ensures (o.None? || o.value == 0) ==> n == default
  {
    if o.Some? && o.value != 0 then o.value else default
  }

  function StrOr(o: Option<string>, default: string): (s: string)
    ensures o.Some? && o.value != "" ==> s == o.value
    ensures (o.None? || o.value == "") ==> s == default
  {
    if o.Some? && o.value != "" then o.value else default
  }

  // ---------------------------------------------------------------------------
  // Payload shapes. Objects whose fields are copied verbatim use one datatype
  // for both the raw and the normalised form.

  datatype CertChain = CertChain(id: Option<string>, certIds: Option<seq<string>>, noSni: Option<bool>)

  datatype Protocol = Protocol(id: Option<int>, name: Option<string>, version: Option<string>)

  datatype Suite = Suite(id: Option<int>, name: Option<string>, cipherStrength: Option<int>,
                         kxType: Option<string>, kxStrength: Option<int>)

  datatype RawSuites = RawSuites(preference: Option<bool>, protocol: Option<int>, list: Option<seq<Suite>>)
  datatype Suites = Suites(preference: Option<bool>, protocol: Option<int>, list: seq<Suite>)

  datatype RawSim = RawSim(client: Option<string>, version: Option<string>, isReference: Option<bool>)
  datatype Sim = Sim(client: Option<string>, version: Option<string>, isReference: bool)

  datatype RawSims = RawSims(results: Option<seq<RawSim>>)
  datatype Sims = Sims(results: seq<Sim>)

  datatype RawDetails = RawDetails(
    certChains: Option<seq<CertChain>>,
    protocols: Option<seq<Protocol>>,
    suites: Option<RawSuites>,
    sims: Option<RawSims>,
    forwardSecrecy: Option<int>,
    vulnBeast: Option<bool>,
    supportsNpn: Option<bool>,
    supportsAlpn: Option<bool>,
    ocspStapling: Option<bool>,
    sniRequired: Option<bool>,
    supportsRc4: Option<bool>,
    rc4WithModern: Option<bool>,
    rc4Only: Option<bool>,
    heartbleed: Option<bool>,
    heartbeat: Option<bool>,
    poodle: Option<bool>,
    fallbackScsv: Option<bool>,
    freak: Option<bool>,
    dhYsReuse: Option<bool>,
    logjam: Option<bool>,
    chaCha20Preference: Option<bool>,
    drownErrors: Option<bool>,
    drownVulnerable: Option<bool>)

  datatype Details = Details(
    certChains: seq<CertChain>,
    protocols: seq<Protocol>,
    suites: Option<Suites>,
    sims: Option<Sims>,
    forwardSecrecy: Option<int>,
    vulnBeast: bool,
    supportsNpn: bool,
    supportsAlpn: bool,
    ocspStapling: bool,
    sniRequired: bool,
    supportsRc4: bool,
    rc4WithModern: bool,
    rc4Only: bool,
    heartbleed: bool,
    heartbeat: bool,
    poodle: bool,
    fallbackScsv: bool,
    freak: bool,
    dhYsReuse: bool,
    logjam: bool,
    chaCha20Preference: bool,
    drownErrors: bool,
    drownVulnerable: bool)

  datatype RawEndpoint = RawEndpoint(ipAddress: Option<string>, grade: Option<string>,
                                     hasWarnings: Option<bool>, isExceptional: Option<bool>,
                                     details: Option<RawDetails>)
  datatype Endpoint = Endpoint(ipAddress: Option<string>, grade: Option<string>,
                               hasWarnings: bool, isExceptional: bool,
                               details: Option<Details>)

  datatype RawCert = RawCert(subject: Option<string>, notBefore: Option<int>, notAfter: Option<int>,
                             issuerSubject: Option<string>, issuerLabel: Option<string>,
                             keyAlg: Option<string>, keySize: Option<int>,
                             altNames: Option<seq<string>>, keyKnownDebianInsecure: Option<bool>)
  datatype Cert = Cert(subject: Option<string>, notBefore: Option<int>, notAfter: Option<int>,
                       issuerSubject: Option<string>, issuerLabel: Option<string>,
                       keyAlg: Option<string>, keySize: Option<int>,
                       altNames: Option<seq<string>>, keyKnownDebianInsecure: bool)

  /** The provider's answer to one `analyze` call. */
  datatype RawReport = RawReport(host: Option<string>, port: Option<int>, protocol: Option<string>,
                                 isPublic: Option<bool>, status: Option<string>,
                                 statusMessage: Option<string>,
                                 endpoints: Option<seq<RawEndpoint>>, certs: Option<seq<RawCert>>)

  /** The normalised report handed to the rest of the system. */
  datatype GradeReport = GradeReport(host: Option<string>, port: int, protocol: string,
                                     isPublic: bool, status: Option<string>,
                                     endpoints: seq<Endpoint>, certs: seq<Cert>)

  // ---------------------------------------------------------------------------
  // Normaliser

  function NormalizeSuites(s: RawSuites): (r: Suites)
    ensures r.preference == s.preference && r.protocol == s.protocol
    ensures |r.list| == Min(MaxSuites, |s.list.GetOr([])|)
    ensures r.list <= s.list.GetOr([])
  {
    Suites(s.preference, s.protocol, Take(s.list.GetOr([]), MaxSuites))
  }

  function NormalizeSim(s: RawSim): (r: Sim)
    ensures r.client == s.client && r.version == s.version
    ensures r.isReference <==> s.isReference == Some(true)
  {
    Sim(s.client, s.version, FlagOr(s.isReference))
  }

  function NormalizeSims(s: RawSims): (r: Sims)
    ensures |r.results| == Min(MaxSims, |s.results.GetOr([])|)
    ensures forall i :: 0 <= i < |r.results| ==> r.results[i] == NormalizeSim(s.results.value[i])
  {
    var kept := Take(s.results.GetOr([]), MaxSims);
    Sims(seq(|kept|, i requires 0 <= i < |kept| => NormalizeSim(kept[i])))
  }

  function NormalizeDetails(d: RawDetails): (r: Details)
    ensures r.certChains == d.certChains.GetOr([])
    ensures r.protocols == d.protocols.GetOr([])
    ensures d.suites.None? <==> r.suites.None?
    ensures d.suites.Some? ==> r.suites == Some(NormalizeSuites(d.suites.value))
    ensures d.sims.None? <==> r.sims.None?
    ensures d.sims.Some? ==> r.sims == Some(NormalizeSims(d.sims.value))
    ensures r.forwardSecrecy == d.forwardSecrecy
    ensures r.heartbleed <==> d.heartbleed == Some(true)
    ensures r.poodle <==> d.poodle == Some(true)
    ensures r.freak <==> d.freak == Some(true)
    ensures r.logjam <==> d.logjam == Some(true)
    ensures r.drownVulnerable <==> d.drownVulnerable == Some(true)
    ensures r.supportsRc4 <==> d.supportsRc4 == Some(true)
    ensures r.ocspStapling <==> d.ocspStapling == Some(true)
    ensures r.vulnBeast <==> d.vulnBeast == Some(true)
    ensures r.supportsNpn <==> d.supportsNpn == Some(true)
    ensures r.supportsAlpn <==> d.supportsAlpn == Some(true)
    ensures r.sniRequired <==> d.sniRequired == Some(true)
    ensures r.rc4WithModern <==> d.rc4WithModern == Some(true)
    ensures r.rc4Only <==> d.rc4Only == Some(true)
    ensures r.heartbeat <==> d.heartbeat == Some(true)
    ensures r.fallbackScsv <==> d.fallbackScsv == Some(true)
    ensures r.dhYsReuse <==> d.dhYsReuse == Some(true)
    ensures r.chaCha20Preference <==> d.chaCha20Preference == Some(true)
    ensures r.drownErrors <==> d.drownErrors == Some(true)
  {
    Details(
      d.certChains.GetOr([]),
      d.protocols.GetOr([]),
      if d.suites.Some? then Some(NormalizeSuites(d.suites.value)) else None,
      if d.sims.Some? then Some(NormalizeSims(d.sims.value)) else None,
      d.forwardSecrecy,
      FlagOr(d.vulnBeast),
      FlagOr(d.supportsNpn),
      FlagOr(d.supportsAlpn),
      FlagOr(d.ocspStapling),
      FlagOr(d.sniRequired),
      FlagOr(d.supportsRc4),
      FlagOr(d.rc4WithModern),
      FlagOr(d.rc4Only),
      FlagOr(d.heartbleed),
      FlagOr(d.heartbeat),
      FlagOr(d.poodle),
      FlagOr(d.fallbackScsv),
      FlagOr(d.freak),
      FlagOr(d.dhYsReuse),
      FlagOr(d.logjam),
      FlagOr(d.chaCha20Preference),
      FlagOr(d.drownErrors),
      FlagOr(d.drownVulnerable))
  }

  function NormalizeEndpoint(e: RawEndpoint): (r: Endpoint)
    ensures r.ipAddress == e.ipAddress && r.grade == e.grade
    ensures r.hasWarnings <==> e.hasWarnings == Some(true)
    ensures r.isExceptional <==> e.isExceptional == Some(true)
    ensures e.details.None? <==> r.details.None?
    ensures e.details.Some? ==> r.details == Some(NormalizeDetails(e.details.value))
  {
    Endpoint(e.ipAddress, e.grade, FlagOr(e.hasWarnings), FlagOr(e.isExceptional),
             if e.details.Some? then Some(NormalizeDetails(e.details.value)) else None)
  }

  function NormalizeCert(c: RawCert): (r: Cert)
    ensures r.subject == c.subject && r.notBefore == c.notBefore && r.notAfter == c.notAfter
    ensures r.issuerSubject == c.issuerSubject && r.issuerLabel == c.issuerLabel
    ensures r.keyAlg == c.keyAlg && r.keySize == c.keySize && r.altNames == c.altNames
    ensures r.keyKnownDebianInsecure <==> c.keyKnownDebianInsecure == Some(true)
  {
    Cert(c.subject, c.notBefore, c.notAfter, c.issuerSubject, c.issuerLabel,
         c.keyAlg, c.keySize, c.altNames, FlagOr(c.keyKnownDebianInsecure))
  }

  /** The payload normaliser applied to the provider's final answer. */
  function Normalize(data: RawReport): (r: GradeReport)
    ensures r.host == data.host && r.status == data.status
    ensures data.port.Some? && data.port.value != 0 ==> r.port == data.port.value
    ensures (data.port.None? || data.port.value == 0) ==> r.port == DefaultPort
    ensures data.protocol.Some? && data.protocol.value != "" ==> r.protocol == data.protocol.value
    ensures (data.protocol.None? || data.protocol.value == "") ==> r.protocol == DefaultProtocol
    ensures r.isPublic <==> data.isPublic == Some(true)
    ensures |r.endpoints| == |data.endpoints.GetOr([])|
    ensures forall i :: 0 <= i < |r.endpoints| ==> r.endpoints[i] == NormalizeEndpoint(data.endpoints.value[i])
    ensures |r.certs| == |data.certs.GetOr([])|
    ensures forall i :: 0 <= i < |r.certs| ==> r.certs[i] == NormalizeCert(data.certs.value[i])
  {
    var eps := data.endpoints.GetOr([]);
    var certs := data.certs.GetOr([]);
    GradeReport(
      data.host,
      IntOr(data.port, DefaultPort),
      StrOr(data.protocol, DefaultProtocol),
      FlagOr(data.isPublic),
      data.status,
      seq(|eps|, i requires 0 <= i < |eps| => NormalizeEndpoint(eps[i])),
      seq(|certs|, i requires 0 <= i < |certs| => NormalizeCert(certs[i])))
  }

  // ---------------------------------------------------------------------------
  // Polling

  /** What one provider call yields: a transport failure (connection error,
      non-2xx answer) or a payload. */
  datatype Reply = TransportFailure(message: string) | Answer(data: RawReport)

  predicate StillRunning(reply: Reply) {
    reply.Answer? && reply.data.status == Some(InProgress)
  }

  /** The outcome once `reply` ends the loop, every error already carrying the
      outer prefix. A reply still `IN_PROGRESS` here means the attempts ran
      out. */
  function Settle(reply: Reply): (r: Result<GradeReport, string>)
    ensures r.Err? ==> ErrorPrefix <= r.error
    ensures r.Ok? <==> reply.Answer? && reply.data.status != Some(InProgress) && reply.data.status != Some(ErrorStatus)
    ensures r.Ok? ==> r.value == Normalize(reply.data)
    ensures reply.TransportFailure? ==> r == Err(ErrorPrefix + reply.message)
    ensures StillRunning(reply) ==> r == Err(ErrorPrefix + TimeoutMessage)
    ensures reply.Answer? && reply.data.status == Some(ErrorStatus) ==>
      r == Err(ErrorPrefix + FailedPrefix + StrOr(reply.data.statusMessage, "Unknown error"))
  {
    match reply
    case TransportFailure(m) => Err(ErrorPrefix + m)
    case Answer(data) =>
      if data.status == Some(InProgress) then Err(ErrorPrefix + TimeoutMessage)
      else if data.status == Some(ErrorStatus) then
        Err(ErrorPrefix + FailedPrefix + StrOr(data.statusMessage, "Unknown error"))
      else Ok(Normalize(data))
  }

  /** `analyzeSSL`: `call(i)` is the provider's reply to the (i+1)-th call.
      Returns the outcome and the number of calls made. */
  method AnalyzeSsl(call: nat -> Reply) returns (r: Result<GradeReport, string>, calls: nat)
    ensures 1 <= calls <= MaxAttempts
    ensures forall i :: 0 <= i < calls - 1 ==> StillRunning(call(i))
    ensures StillRunning(call(calls - 1)) ==> calls == MaxAttempts
    ensures r == Settle(call(calls - 1))
  {
    var reply := call(0);
    calls := 1;
    var attempts := 0;
    while StillRunning(reply)
      invariant 1 <= calls <= MaxAttempts
      invariant attempts == calls - 1
      invariant reply == call(calls - 1)
      invariant forall i :: 0 <= i < calls - 1 ==> StillRunning(call(i))
      decreases MaxAttempts - attempts
    {
      attempts := attempts + 1;
      if attempts >= MaxAttempts {
        r := Err(ErrorPrefix + TimeoutMessage);
        return;
      }
      reply := call(calls);
      calls := calls + 1;
    }
    r := Settle(reply);
  }
}
