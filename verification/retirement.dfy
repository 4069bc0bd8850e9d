// What the timing of a rotation guarantees, proved over the whole history of
// the CA Secret: the retirement veto, how long a lagging replica's leaves
// live, who trusts a new signer by the time it signs, and the runway.

module Retirement {
  import opened Wrappers
  import opened Pki
  import opened Rotation
  import opened Versions

  // --- one move at a time ----------------------------------------------

  // Neither signer nor outgoing root nor the phase clock changes.
  predicate Quiet(a: Version, b: Version) {
    && b.st.Phase() == a.st.Phase() && b.st.since == a.st.since && b.st.cert == a.st.cert && b.st.nextCert == a.st.nextCert
    && b.st.prevCert == a.st.prevCert && b.st.retireAfter == a.st.retireAfter
    && (b.st.holdout == a.st.holdout || Because(b, SessionsHeld))
  }

  predicate Began(a: Version, b: Version) {
    && Because(b, RotationIsDue) && a.at <= b.write.plannedAt <= b.write.stampedAt <= b.at
    && a.st.Phase() == Steady && b.st.Phase() == Publishing
    && b.st.cert == a.st.cert && b.st.since == At(b.write.stampedAt)
    && SignerCert(a.st.cert) == Success(b.write.ctx.authority)
    && RotationDue(a.st, b.write.ctx, b.write.plannedAt)
  }

  predicate Promoted(a: Version, b: Version) {
    var w := b.write;
    && Because(b, SuccessorPublished) && a.at <= w.plannedAt <= w.stampedAt <= b.at
    && a.st.Phase() == Publishing && b.st.Phase() == Signing
    && b.st.cert == a.st.nextCert && b.st.prevCert == a.st.cert && b.st.holdout == Missing
    && b.st.since == At(w.stampedAt) && b.st.retireAfter == At(w.plannedAt + RetirementHold(w.ctx.cfg))
    && a.st.since.At? && SignerCert(a.st.cert) == Success(w.ctx.authority)
    && (w.plannedAt - a.st.since.time >= w.ctx.cfg.spokeTTL || w.plannedAt >= w.ctx.authority.notAfter)
  }

  predicate Retired(a: Version, b: Version) {
    var w := b.write;
    && Because(b, RootRetired) && a.at <= w.plannedAt <= b.at
    && a.st.Phase() == Signing && b.st.Phase() == Steady && b.st.cert == a.st.cert
    && a.st.since.At? && w.plannedAt >= RetirementGate(a.st, w.ctx.cfg)
    && w.plannedAt - w.ctx.startedAt >= HoldoutQuiet(w.ctx.cfg)
    && Holdouts(w.ctx.sightings, Outgoing(a.st)) == {}
    && (a.st.holdout.At? ==> w.plannedAt - a.st.holdout.time >= HoldoutQuiet(w.ctx.cfg))
  }

  predicate Sighted(a: Version, b: Version) {
    && Because(b, SessionsHeld) && a.st.Phase() == Signing
    && b.st.holdout == At(b.write.plannedAt) && a.at <= b.write.plannedAt <= b.at
  }

  lemma KindOf(a: Version, b: Version)
    requires Coherent(a.st, a.at) && Moves(a, b)
    ensures Quiet(a, b) || Began(a, b) || Promoted(a, b) || Retired(a, b)
    ensures Because(b, RotationIsDue) ==> Began(a, b)
    ensures Because(b, SuccessorPublished) ==> Promoted(a, b)
    ensures Because(b, RootRetired) ==> Retired(a, b)
    ensures Because(b, SessionsHeld) ==> Quiet(a, b) && Sighted(a, b)
  {
    if b.write.Planned? {
      OnlyForward(a, b);
    }
  }

  lemma MovesForward(a: Version, b: Version)
    requires Moves(a, b)
    ensures a.at <= b.at
  {
  }

  // Every commit is one of these, and only these.
  lemma Kinds(log: seq<Version>, k: nat)
    requires Chain(log) && 0 < k < |log|
    ensures log[k - 1].at <= log[k].at
    ensures Coherent(log[k - 1].st, log[k - 1].at) && Coherent(log[k].st, log[k].at)
    ensures var a := log[k - 1]; var b := log[k];
      && (Quiet(a, b) || Began(a, b) || Promoted(a, b) || Retired(a, b))
      && (Because(b, RotationIsDue) ==> Began(a, b))
      && (Because(b, SuccessorPublished) ==> Promoted(a, b))
      && (Because(b, RootRetired) ==> Retired(a, b))
      && (Because(b, SessionsHeld) ==> Quiet(a, b) && Sighted(a, b))
  {
    hide Coherent, Moves, Quiet, Began, Promoted, Retired, Sighted, Because;
    AlwaysCoherent(log, k - 1);
    AlwaysCoherent(log, k);
    assert MovesAt(log, k);
    MovesForward(log[k - 1], log[k]);
    KindOf(log[k - 1], log[k]);
  }

  // --- the veto ---------------------------------------------------------

  // Versions i..j belong to one signing phase.
  predicate SigningThroughout(log: seq<Version>, i: nat, j: nat) {
    i <= j < |log| && forall k :: i <= k <= j ==> log[k].st.Phase() == Signing
  }

  lemma {:induction false} HorizonKept(log: seq<Version>, i: nat, j: nat)
    requires Chain(log) && SigningThroughout(log, i, j)
    ensures log[j].st.retireAfter == log[i].st.retireAfter && log[j].st.since == log[i].st.since
    ensures log[j].st.prevCert == log[i].st.prevCert && log[j].st.cert == log[i].st.cert
  {
    if i < j {
      HorizonKept(log, i, j - 1);
      Kinds(log, j);
    }
  }

  // The sighting in version k is never lost: the recorded time only grows.
  lemma {:induction false} SightingsKept(log: seq<Version>, k: nat, j: nat)
    requires Chain(log) && 0 < k && SigningThroughout(log, k, j) && Because(log[k], SessionsHeld)
    ensures log[j].st.holdout.At? && log[j].st.holdout.time >= log[k].write.plannedAt
  {
    Kinds(log, k);
    if k < j {
      SightingsKept(log, k, j - 1);
      Kinds(log, j);
      AlwaysCoherent(log, j - 1);
    }
  }

  // The outgoing root is the one certificate kept beside the signer.
  lemma OutgoingIs(st: State)
    requires st.Phase() == Signing && SoleRoot(st.prevCert)
    ensures Outgoing(st) == Some(SignerCert(st.prevCert).value)
  {
  }

  // No retirement before the horizon fixed at promotion, whatever settings the
  // retiring replica runs with; none within two of its polls of any sighting
  // any replica committed; none on a replica that itself sees a live session
  // under the outgoing root, or that started less than two polls ago.
  lemma FleetWideVeto(log: seq<Version>, p: nat, r: nat)
    requires Chain(log) && 0 < p < r < |log|
    requires Because(log[p], SuccessorPublished) && SigningThroughout(log, p, r - 1) && log[r].st.Phase() == Steady
    ensures log[p].st.retireAfter == At(log[p].write.plannedAt + RetirementHold(log[p].write.ctx.cfg))
    ensures log[r].write.Planned? && log[r].at >= log[r].write.plannedAt >= log[p].st.retireAfter.time
    ensures log[r].write.plannedAt >= log[p].write.stampedAt + RetirementHold(log[r].write.ctx.cfg)
    ensures forall k :: p < k < r && Because(log[k], SessionsHeld) ==>
              log[r].write.plannedAt >= log[k].write.plannedAt + 2 * log[r].write.ctx.cfg.poll
    ensures forall serial :: serial in log[r].write.ctx.sightings.live && serial in log[r].write.ctx.sightings.issuer ==>
              SignerCert(log[p - 1].st.cert) != Success(log[r].write.ctx.sightings.issuer[serial])
    ensures log[r].write.plannedAt >= log[r].write.ctx.startedAt + 2 * log[r].write.ctx.cfg.poll
  {
    Kinds(log, p);
    Kinds(log, r);
    HorizonKept(log, p, r - 1);
    forall k | p < k < r && Because(log[k], SessionsHeld)
      ensures log[r].write.plannedAt >= log[k].write.plannedAt + 2 * log[r].write.ctx.cfg.poll
    {
      SightingsKept(log, k, r - 1);
    }
    forall serial | serial in log[r].write.ctx.sightings.live && serial in log[r].write.ctx.sightings.issuer
      ensures SignerCert(log[p - 1].st.cert) != Success(log[r].write.ctx.sightings.issuer[serial])
    {
      OutgoingIs(log[r - 1].st);
      assert serial !in Holdouts(log[r].write.ctx.sightings, Outgoing(log[r - 1].st));
    }
  }

  // --- the life of a leaf ------------------------------------------------

  // Every write reaches the API server within latency of its time stamp.
  predicate Prompt(log: seq<Version>, latency: int) {
    forall k :: 0 < k < |log| && log[k].write.Planned? ==> log[k].at <= log[k].write.stampedAt + latency
  }

  // Every replica that ever wrote ran with these settings.
  predicate Uniform(log: seq<Version>, cfg: Config) {
    ValidConfig(cfg) &&
    forall k :: 0 < k < |log| && log[k].write.Planned? ==>
      var c := log[k].write.ctx.cfg;
      c.spokeTTL == cfg.spokeTTL && c.renewGrace == cfg.renewGrace && c.poll == cfg.poll
  }

  function SignerOf(st: State): Certificate
    requires SignerCert(st.cert).Success?
  {
    SignerCert(st.cert).value
  }

  // Version p promotes a successor over the signer of version ver.
  predicate Displaces(log: seq<Version>, ver: nat, p: nat) {
    ver < p < |log| && Because(log[p], SuccessorPublished) && log[p].st.prevCert == log[ver].st.cert
  }

  datatype Standing = StillSigner | StillTrusted(p: nat) | Replaced(p: nat, r: nat)

  // Where the signer of version ver stands at version n: signing, displaced by
  // promotion p and still trusted, or retired by version r after that.
  predicate Stands(log: seq<Version>, ver: nat, n: nat, s: Standing)
    requires ver < |log| && n < |log|
  {
    match s
    case StillSigner => log[n].st.cert == log[ver].st.cert
    case StillTrusted(p) => Displaces(log, ver, p) && SigningThroughout(log, p, n)
    case Replaced(p, r) =>
      && Displaces(log, ver, p) && p < r <= n
      && SigningThroughout(log, p, r - 1) && log[r].st.Phase() == Steady
  }

  // A root that has signed stays trusted until its own retirement, whatever the
  // timing and the settings: nothing else ever takes it out of the bundle.
  lemma {:induction false} SignerStanding(log: seq<Version>, ver: nat, n: nat) returns (s: Standing)
    requires Chain(log) && ver <= n < |log|
    ensures Stands(log, ver, n, s)
  {
    if ver == n { return StillSigner; }
    s := SignerStanding(log, ver, n - 1);
    Kinds(log, n);
    if Promoted(log[n - 1], log[n]) && s == StillSigner { s := StillTrusted(n); }
    else if Retired(log[n - 1], log[n]) && s.StillTrusted? { s := Replaced(s.p, n); }
  }

  // So if version n does not trust it, a promotion over it and its retirement
  // are in the log, the second no earlier than the first allows.
  lemma UntrustedIsRetired(log: seq<Version>, ver: nat, n: nat) returns (p: nat, r: nat)
    requires Chain(log) && ver <= n < |log| && SignerCert(log[ver].st.cert).Success?
    requires !Trusts(log[n].st, SignerOf(log[ver].st))
    ensures Displaces(log, ver, p) && p < r <= n && Because(log[r], RootRetired)
    ensures log[n].at >= log[p].write.plannedAt + RetirementHold(log[p].write.ctx.cfg)
    ensures log[n].at >= log[p].write.stampedAt + RetirementHold(log[r].write.ctx.cfg)
  {
    hide SignerCert;
    var s := SignerStanding(log, ver, n);
    if s.StillTrusted? { HorizonKept(log, s.p, n); }
    assert s.Replaced?;
    p, r := s.p, s.r;
    FleetWideVeto(log, p, r);
    Kinds(log, r);
    TimesGrow(log, r, n);
  }

  // --- trust before signing ----------------------------------------------

  function OtherRoot(st: State): Option<Certificate> {
    match st.Phase()
    case Steady => None
    case Publishing => if SignerCert(st.nextCert).Success? then Some(SignerCert(st.nextCert).value) else None
    case Signing => if SignerCert(st.prevCert).Success? then Some(SignerCert(st.prevCert).value) else None
  }

  predicate Trusts(st: State, c: Certificate) { SignerCert(st.cert) == Success(c) || OtherRoot(st) == Some(c) }

  // No promotion was let through early because its signer had expired.
  predicate FullLifetimes(log: seq<Version>) {
    forall k :: 0 < k < |log| && Because(log[k], SuccessorPublished) && log[k].write.plannedAt >= log[k].write.ctx.authority.notAfter ==>
      log[k - 1].st.since.At? && log[k].write.plannedAt - log[k - 1].st.since.time >= log[k].write.ctx.cfg.spokeTTL
  }

  // Every promoting replica ran with a leaf lifetime of at least ttl.
  predicate LongLived(log: seq<Version>, ttl: int) {
    forall k :: 0 < k < |log| && Because(log[k], SuccessorPublished) ==> log[k].write.ctx.cfg.spokeTTL >= ttl
  }

  // Version i either trusts the signer of a later version n, or was replaced
  // almost a full certificate lifetime before n was written.
  lemma {:induction false} TrustedInAdvance(log: seq<Version>, i: nat, n: nat, ttl: int, latency: int)
    requires Chain(log) && Prompt(log, latency) && LongLived(log, ttl) && FullLifetimes(log)
    requires i < n < |log|
    ensures SignerCert(log[n].st.cert).Success?
    ensures Trusts(log[i].st, SignerOf(log[n].st)) || log[n].at >= log[i + 1].at + ttl - latency
    ensures log[n].st.Phase() == Publishing && log[n].st.since.At? ==>
              || (SignerCert(log[n].st.nextCert).Success? && Trusts(log[i].st, SignerCert(log[n].st.nextCert).value))
              || log[n].st.since.time >= log[i + 1].at - latency
  {
    hide SignerCert, SignerKey, Usable, RotationDue, RetirementGate, Holdouts, Chain;
    Kinds(log, n);
    TimesGrow(log, i + 1, n);
    if i + 1 < n {
      TrustedInAdvance(log, i, n - 1, ttl, latency);
    }
  }

  // --- the runway ---------------------------------------------------------

  predicate PublishingThroughout(log: seq<Version>, i: nat, j: nat) {
    i <= j < |log| && forall k :: i <= k <= j ==> log[k].st.Phase() == Publishing
  }

  lemma {:induction false} PublishingKept(log: seq<Version>, i: nat, j: nat)
    requires Chain(log) && PublishingThroughout(log, i, j)
    ensures log[j].st.since == log[i].st.since && log[j].st.cert == log[i].st.cert
  {
    if i < j {
      PublishingKept(log, i, j - 1);
      Kinds(log, j);
    }
  }

  // An unforced rotation of root c, begun in version b and promoted in version
  // p. late is how long after remaining life crossed the threshold the phase
  // began, over how long after its gate opened the promotion was planned. The
  // horizon fits inside the root's life exactly when the two delays together
  // fit in the two polls of overshoot the runway allows for, plus whatever the
  // configured fraction adds to it; so one poll each is enough, and tight.
  lemma RunwaySuffices(log: seq<Version>, b: nat, p: nat, cfg: Config)
    requires Chain(log) && Uniform(log, cfg) && 0 < b < p < |log|
    requires Because(log[b], RotationIsDue) && log[b - 1].st.force == ""
    requires Because(log[p], SuccessorPublished) && PublishingThroughout(log, b, p - 1)
    ensures var c := log[b].write.ctx.authority;
            var threshold := Threshold(log[b].write.ctx.cfg, c);
            var late := log[b].write.stampedAt - (c.notAfter - threshold);
            var over := log[p].write.plannedAt - (log[b].write.stampedAt + cfg.spokeTTL);
            && 0 <= late && log[p].st.retireAfter.At?
            && (log[p].st.retireAfter.time <= c.notAfter <==> late + over <= 2 * cfg.poll + (threshold - Runway(cfg)))
            && (late <= cfg.poll && over <= cfg.poll ==> log[p].st.retireAfter.time <= c.notAfter)
            && SignerCert(log[p].st.prevCert) == Success(c)
  {
    Kinds(log, b);
    Kinds(log, p);
    PublishingKept(log, b, p - 1);
    assert log[b].write.ctx.cfg.poll == cfg.poll && log[p].write.ctx.cfg.poll == cfg.poll;
  }
}
