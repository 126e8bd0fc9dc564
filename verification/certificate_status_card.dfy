/** The certificate status card: the first served certificate's days until
    expiry, the status word, colour and icon derived from it, and the two
    warning banners. */
module CertificateStatusCard {
  import opened Wrappers
  import SslLabs
  import CrtSh

  const DayMs: int := 1000 * 60 * 60 * 24
  const UnknownStatus: string := "Unknown"
  const ValidStatus: string := "Valid"
  const ExpiredStatus: string := "Expired"
  /** The threshold of the "expires soon" colour and banner. */
  const SoonDays: int := 30

  /** `daysUntilExpiry`: `null` when there is no certificate, `NaN` when the
      certificate has no usable `notAfter`, otherwise a whole number of days. */
  datatype Days = Null | NaN | Finite(n: int)

  /** JavaScript's `d <= k`: `null` compares as 0 and `NaN` compares false. */
  predicate AtMost(d: Days, k: int) {
    match d
    case Null => 0 <= k
    case NaN => false
    case Finite(n) => n <= k
  }

  /** JavaScript's `d > k`, with the same conversions. */
  predicate Above(d: Days, k: int) {
    match d
    case Null => 0 > k
    case NaN => false
    case Finite(n) => n > k
  }

  /** `Math.ceil((new Date(notAfter) - now) / DayMs)`. */
  function DaysUntil(notAfter: Option<int>, now: int): (d: Days)
    ensures d.NaN? <==> notAfter.None?
    ensures d.Finite? ==> DayMs * (d.n - 1) < notAfter.value - now <= DayMs * d.n
  {
    match notAfter
    case None => NaN
    case Some(t) => Finite(CrtSh.CeilDiv(t - now, DayMs))
  }

  datatype CertInfo = CertInfo(status: string, daysUntilExpiry: Days, issuer: Option<string>)

  /** The certificate the card describes, when there is one. */
  predicate HasCertificate(certificates: Option<seq<SslLabs.Cert>>) {
    certificates.Some? && |certificates.value| > 0
  }

  /** The first certificate's expiry lies strictly after `now`. */
  predicate ExpiresAfter(certificates: Option<seq<SslLabs.Cert>>, now: int) {
    HasCertificate(certificates)
    && certificates.value[0].notAfter.Some? && certificates.value[0].notAfter.value > now
  }

  /** `getCertificateInfo` at time `now`. */
  function CertificateInfo(certificates: Option<seq<SslLabs.Cert>>, now: int): (r: CertInfo)
    ensures !HasCertificate(certificates) ==> r == CertInfo(UnknownStatus, Null, None)
    ensures HasCertificate(certificates) ==>
      && r.daysUntilExpiry == DaysUntil(certificates.value[0].notAfter, now)
      && (r.status == ValidStatus <==> ExpiresAfter(certificates, now))
      && (r.status == ExpiredStatus <==> !ExpiresAfter(certificates, now))
    ensures HasCertificate(certificates) ==>
      var c := certificates.value[0];
      r.issuer == if c.issuerLabel.Some? && |c.issuerLabel.value| > 0 then c.issuerLabel else c.issuerSubject
  {
    if !HasCertificate(certificates) then CertInfo(UnknownStatus, Null, None)
    else
      var c := certificates.value[0];
      var days := DaysUntil(c.notAfter, now);
      var issuer := if c.issuerLabel.Some? && |c.issuerLabel.value| > 0 then c.issuerLabel else c.issuerSubject;
      CertInfo(if Above(days, 0) then ValidStatus else ExpiredStatus, days, issuer)
  }

  datatype Tone = Red | Yellow | Green
  datatype Icon = Warning | Check

  /** `getStatusColor`. */
  function StatusColor(info: CertInfo): (t: Tone)
    ensures t == Red <==> info.status == ExpiredStatus
    ensures t == Green <==> info.status != ExpiredStatus && !AtMost(info.daysUntilExpiry, SoonDays)
  {
    if info.status == ExpiredStatus then Red
    else if AtMost(info.daysUntilExpiry, SoonDays) then Yellow
    else Green
  }

  /** `getStatusIcon`. */
  function StatusIcon(info: CertInfo): (i: Icon)
    ensures i == Warning <==> info.status == ExpiredStatus || AtMost(info.daysUntilExpiry, SoonDays)
  {
    if info.status == ExpiredStatus || AtMost(info.daysUntilExpiry, SoonDays) then Warning else Check
  }

  /** The icon warns exactly when the colour is not green. */
  lemma IconFollowsColor(info: CertInfo)
    ensures StatusIcon(info) == Warning <==> StatusColor(info) != Green
  {
  }

  /** The "expires soon" banner. */
  predicate SoonBanner(info: CertInfo) {
    AtMost(info.daysUntilExpiry, SoonDays) && Above(info.daysUntilExpiry, 0)
  }

  /** The "has expired" banner. */
  predicate ExpiredBanner(info: CertInfo) {
    info.status == ExpiredStatus
  }

  /** The banners in terms of the certificate: "soon" iff it expires within
      thirty days from now, "expired" iff it is present and not valid after
      now, and never both. */
  lemma Banners(certificates: Option<seq<SslLabs.Cert>>, now: int)
    ensures var info := CertificateInfo(certificates, now);
      && (SoonBanner(info) <==>
            ExpiresAfter(certificates, now) && certificates.value[0].notAfter.value - now <= SoonDays * DayMs)
      && (ExpiredBanner(info) <==> HasCertificate(certificates) && !ExpiresAfter(certificates, now))
      && !(SoonBanner(info) && ExpiredBanner(info))
  {
    var info := CertificateInfo(certificates, now);
    if HasCertificate(certificates) && certificates.value[0].notAfter.Some? {
      var d := info.daysUntilExpiry.n;
      var x := certificates.value[0].notAfter.value - now;
      assert DayMs * (d - 1) < x <= DayMs * d;
      if d <= SoonDays {
        assert DayMs * d <= DayMs * SoonDays;
      } else {
        assert DayMs * (d - 1) >= DayMs * SoonDays;
      }
    }
  }

  /** With no certificate the card is yellow with a warning icon, the colour
      it uses for "expires soon", although no banner shows. */
  lemma NoCertificateLooksSoon(now: int)
    ensures var info := CertificateInfo(None, now);
      StatusColor(info) == Yellow && StatusIcon(info) == Warning
      && !SoonBanner(info) && !ExpiredBanner(info)
  {
  }

  /** The day count shown under "Expires in": nothing when the count is
      `null`, otherwise the count when positive and 0 when not (also for
      `NaN`). */
  function DisplayedDays(info: CertInfo): (r: Option<nat>)
    ensures r.None? <==> info.daysUntilExpiry.Null?
    ensures r.Some? && r.value > 0 <==> Above(info.daysUntilExpiry, 0)
    ensures r.Some? && r.value > 0 ==> info.daysUntilExpiry == Finite(r.value)
  {
    match info.daysUntilExpiry
    case Null => None
    case NaN => Some(0)
    case Finite(n) => Some(if n > 0 then n else 0)
  }

  /** The unit under the count: singular only for exactly one day. */
  function DayWord(info: CertInfo): (w: string)
    ensures w == "day" <==> info.daysUntilExpiry == Finite(1)
  {
    if info.daysUntilExpiry == Finite(1) then "day" else "days"
  }
}
