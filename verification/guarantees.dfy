// What the fleet promises in every state of every run.

module Guarantees {
  import opened Wrappers
  import opened Pki
  import opened Rotation
  import opened Versions
  import opened Retirement
  import opened Fleet

  // --- the Secret -----------------------------------------------------------

  // Whatever the interleaving of stale reads and lost races, the history of
  // the Secret is a chain of legitimate writes, so everything proved of such
  // chains holds of it; and what it holds now is coherent.
  lemma SecretInvariant(tr: seq<World>, steps: seq<Step>, n: nat)
    requires IsRun(tr, steps) && n < |tr|
    ensures Chain(tr[n].log) && FreshMints(tr[n].log)
    ensures Coherent(Last(tr[n].log).st, tr[n].now)
    ensures Last(tr[n].log).st == Read(Last(tr[n].log).secret)
  {
    AlwaysInv(tr, steps, n);
    var s := tr[n];
    assert LogOk(s.log, s.now) by { hide LogOk, RepOk, MintsOk, IssuedOk, IsRun; }
    HistoryFacts(s.log, s.now);
    CoherentLater(Last(s.log).st, Last(s.log).at, s.now);
  }

  lemma HistoryFacts(log: seq<Version>, now: Time)
    requires LogOk(log, now)
    ensures Chain(log) && FreshMints(log) && Last(log).at <= now
    ensures Coherent(Last(log).st, Last(log).at) && Last(log).st == Read(Last(log).secret)
  {
    hide Coherent, Read;
    AlwaysCoherent(log, |log| - 1);
  }

  lemma CoherentLater(st: State, t: Time, later: Time)
    requires Coherent(st, t) && t <= later
    ensures Coherent(st, later)
  {
  }

  // No step rewrites history: a version, once committed, stays.
  lemma {:induction false} HistoryOnlyGrows(tr: seq<World>, steps: seq<Step>, i: nat, j: nat)
    requires IsRun(tr, steps) && i <= j < |tr|
    ensures tr[i].log <= tr[j].log
  {
    if i < j {
      HistoryOnlyGrows(tr, steps, i, j - 1);
      assert Enabled(tr[j - 1], steps[j - 1]) && tr[j - 1 + 1] == Do(tr[j - 1], steps[j - 1]);
      StepGrows(tr[j - 1], steps[j - 1]);
    }
  }

  lemma StepGrows(s: World, step: Step)
    requires Enabled(s, step)
    ensures s.log <= Do(s, step).log
  {
    hide SyncTo, MakePlan, Apply, Read, Sign;
  }

  // --- snapshots --------------------------------------------------------------

  function BaseRoots(base: Pem): seq<Certificate>
    requires GoodBase(base)
  {
    AdditionalRoots(base).value
  }

  lemma JoinedRoots(base: Pem, extra: Pem, c: Certificate)
    requires GoodBase(base) && SoleRoot(extra) && SignerCert(extra).value == c
    ensures AdditionalRoots(JoinRoots(base, extra)) == Success(BaseRoots(base) + [c])
  {
    assert Blocks(extra) == [CertBlock(c)];
    assert !IsBlankPem(extra) by {
      if IsBlankPem(extra) { BlankHasNoBlocks(extra); }
    }
    if IsBlankPem(base) {
      assert Certs(Blocks(extra)) == [c] == BaseRoots(base) + [c];
    } else {
      BlocksConcat(base, extra);
      assert !IsBlankPem(base + extra) by {
        if IsBlankPem(base + extra) { BlankHasNoBlocks(base + extra); }
      }
      assert Certs(Blocks(base + extra)) == Certs(Blocks(base)) + [c];
    }
  }

  // The material of a coherent version always validates; its bundle has the
  // signer first, no duplicates, and is as a set the signer, the operator's
  // roots and the other root of the phase.
  lemma BundleOf(st: State, t: Time, base: Pem)
    requires Coherent(st, t) && GoodBase(base)
    ensures AdoptionOf(st, base).Success?
    ensures var m := AdoptionOf(st, base).value;
            && SignerCert(st.cert) == Success(m.cert) && [m.cert] <= m.roots && Distinct(m.roots)
            && forall c :: c in m.roots <==> Trusts(st, c) || c in BaseRoots(base)
  {
    var signer := SignerCert(st.cert).value;
    match st.Phase()
    case Steady => AppendRootsProperties([signer], BaseRoots(base));
    case Publishing =>
      JoinedRoots(base, st.nextCert, SignerCert(st.nextCert).value);
      AppendRootsProperties([signer], BaseRoots(base) + [SignerCert(st.nextCert).value]);
    case Signing =>
      JoinedRoots(base, st.prevCert, SignerCert(st.prevCert).value);
      AppendRootsProperties([signer], BaseRoots(base) + [SignerCert(st.prevCert).value]);
  }

  // Every snapshot any replica ever published, by adoption or by the fast
  // path that skips it, agrees with a version that was current at its asOf.
  lemma SnapshotAgreement(tr: seq<World>, steps: seq<Step>, n: nat, r: nat, k: nat)
    requires IsRun(tr, steps) && n < |tr| && r in tr[n].replicas && k < |tr[n].replicas[r].snaps|
    ensures var s := tr[n]; var rep := s.replicas[r]; var snap := rep.snaps[k];
            && CurrentAt(s.log, s.now, snap.ver, snap.asOf) && GoodBase(rep.base)
            && SignerCert(s.log[snap.ver].st.cert) == Success(snap.material.cert)
            && [snap.material.cert] <= snap.material.roots && Distinct(snap.material.roots)
            && forall c :: c in snap.material.roots <==> Trusts(s.log[snap.ver].st, c) || c in BaseRoots(rep.base)
  {
    hide IsRun, LogOk, MintsOk, PcOk, Coherent, Adopted, ExtraRoots, SignerCert, Trusts, Distinct, GoodBase;
    AlwaysInv(tr, steps, n);
    var s := tr[n];
    var rep := s.replicas[r];
    assert RepOk(s.log, s.now, rep);
    assert SnapOk(s.log, s.now, rep.base, rep.snaps[k]);
    HistoryFacts(s.log, s.now);
    AlwaysCoherent(s.log, rep.snaps[k].ver);
    BundleOf(s.log[rep.snaps[k].ver].st, s.log[rep.snaps[k].ver].at, rep.base);
  }

  // Promotion moves the signer and nothing else: what is trusted is the same
  // set before and after, whatever the operator configured.
  lemma PromotionKeepsTrust(log: seq<Version>, p: nat, c: Certificate)
    requires Chain(log) && 0 < p < |log| && Because(log[p], SuccessorPublished)
    ensures Trusts(log[p].st, c) <==> Trusts(log[p - 1].st, c)
  {
    Kinds(log, p);
  }

  // --- what is known of an issued leaf ------------------------------------------

  lemma LeafFacts(tr: seq<World>, steps: seq<Step>, n: nat, i: Issued)
    requires IsRun(tr, steps) && n < |tr| && i in tr[n].issued
    ensures var s := tr[n];
            && Chain(s.log) && Last(s.log).at <= s.now
            && CurrentAt(s.log, s.now, i.from.ver, i.from.asOf) && i.from.asOf <= i.at <= s.now
            && i.ttl > 0 && i.leaf.notAfter <= i.at + i.ttl && Sign(i.from.material, i.at, i.ttl, i.leaf.serial) == Success(i.leaf)
            && SignerCert(s.log[i.from.ver].st.cert) == Success(i.from.material.cert)
            && Usable(i.from.material.cert, i.from.material.key) && i.from.material.cert.notBefore <= i.at
  {
    hide IsRun, LogOk, MintsOk, RepOk, SignerCert, Usable;
    AlwaysInv(tr, steps, n);
    var s := tr[n];
    assert IssuedOk(s.log, s.now, i);
    HistoryFacts(s.log, s.now);
    AlwaysCoherent(s.log, i.from.ver);
    CoherentBackdated(s.log[i.from.ver].st, s.log[i.from.ver].at);
  }

  lemma CoherentBackdated(st: State, t: Time)
    requires Coherent(st, t)
    ensures SignerCert(st.cert).Success? && SignerCert(st.cert).value.notBefore <= t
  {
  }

  // --- retirement strands nothing -----------------------------------------------

  // By the time retirement r may follow promotion p, leaf i has been expired for
  // longer than g: the horizon the promoter persisted, or the hold of the retirer
  // counted from the recorded promotion, lies beyond that.
  predicate Outlives(log: seq<Version>, i: Issued, g: int, p: nat, r: nat)
    requires p < |log| && r < |log| && log[p].write.Planned? && log[r].write.Planned?
  {
    var promoted, retired, end := log[p].write, log[r].write, i.at + i.ttl + g;
    end < promoted.plannedAt + RetirementHold(promoted.ctx.cfg) || end < promoted.stampedAt + RetirementHold(retired.ctx.cfg)
  }

  ghost predicate Protected(log: seq<Version>, i: Issued, g: int) {
    forall p: nat, r: nat :: Displaces(log, i.from.ver, p) && p < r < |log| && Because(log[r], RootRetired) ==> Outlives(log, i, g, p, r)
  }

  // A version of the Secret still trusts a protected leaf's root, or was written
  // when the leaf had been expired for longer than g.
  lemma ProtectedLeaf(tr: seq<World>, steps: seq<Step>, n: nat, i: Issued, g: int, ver: nat)
    requires IsRun(tr, steps) && n < |tr| && i in tr[n].issued && Protected(tr[n].log, i, g)
    requires i.from.ver <= ver < |tr[n].log|
    ensures Trusts(tr[n].log[ver].st, i.from.material.cert) || tr[n].log[ver].at > i.leaf.notAfter + g
  {
    hide IsRun, Chain, SignerCert, Trusts;
    var log := tr[n].log;
    LeafFacts(tr, steps, n, i);
    if !Trusts(log[ver].st, i.from.material.cert) {
      var p, r := UntrustedIsRetired(log, i.from.ver, ver);
      assert Outlives(log, i, g, p, r);
    }
  }

  // The replica that signed leaf i did so no later than d after the time recorded
  // for any promotion over its signer. Nothing is asked of a replica away from a
  // promotion: it may have been cut off for as long as it likes.
  ghost predicate StoppedWithin(log: seq<Version>, i: Issued, d: int) {
    forall p: nat :: Displaces(log, i.from.ver, p) ==> i.at <= log[p].write.stampedAt + d
  }

  lemma StoppedIsProtected(log: seq<Version>, i: Issued, cfg: Config, d: int, g: int)
    requires Uniform(log, cfg) && i.ttl <= cfg.spokeTTL && StoppedWithin(log, i, d) && d + g < cfg.renewGrace + 2 * cfg.poll
    ensures Protected(log, i, g)
  {
  }

  // In every state, a leaf whose root the Secret no longer trusts is past its
  // own expiry and past the renewal grace: nothing still renewable is cut off.
  lemma StrandsNothing(tr: seq<World>, steps: seq<Step>, n: nat, i: Issued, cfg: Config, d: int)
    requires IsRun(tr, steps) && n < |tr| && i in tr[n].issued
    requires Uniform(tr[n].log, cfg) && i.ttl <= cfg.spokeTTL && StoppedWithin(tr[n].log, i, d) && d < 2 * cfg.poll
    ensures |tr[n].log| > 0
    ensures Trusts(Last(tr[n].log).st, i.from.material.cert) || tr[n].now > i.leaf.notAfter + cfg.renewGrace
  {
    hide IsRun, Chain, SignerCert, Trusts, Protected, Uniform, StoppedWithin;
    LeafFacts(tr, steps, n, i);
    StoppedIsProtected(tr[n].log, i, cfg, d, cfg.renewGrace);
    ProtectedLeaf(tr, steps, n, i, cfg.renewGrace, |tr[n].log| - 1);
  }

  // Whatever settings every other replica runs with, the one that retires the root
  // included: the horizon persisted at a promotion protects every leaf that has
  // been expired for the grace by then. A leaf with a longer lifetime than the
  // promoter's own need not be one of them.
  lemma HorizonProtects(tr: seq<World>, steps: seq<Step>, n: nat, i: Issued, grace: int)
    requires IsRun(tr, steps) && n < |tr| && i in tr[n].issued
    requires forall p: nat :: Displaces(tr[n].log, i.from.ver, p) ==>
               i.at + i.ttl + grace < tr[n].log[p].write.plannedAt + RetirementHold(tr[n].log[p].write.ctx.cfg)
    ensures |tr[n].log| > 0
    ensures Trusts(Last(tr[n].log).st, i.from.material.cert) || tr[n].now > i.leaf.notAfter + grace
  {
    hide IsRun, Chain, SignerCert, Trusts;
    LeafFacts(tr, steps, n, i);
    assert Protected(tr[n].log, i, grace);
    ProtectedLeaf(tr, steps, n, i, grace, |tr[n].log| - 1);
  }

  // At the instant a root is retired, and from then on, no renewal that the
  // wider bundle would have accepted is refused by the narrower one.
  lemma NoRenewalLost(tr: seq<World>, steps: seq<Step>, n: nat, i: Issued, grace: int, base: Pem, t: Time)
    requires IsRun(tr, steps) && n < |tr| && i in tr[n].issued && Protected(tr[n].log, i, grace) && grace >= 0
    requires GoodBase(base) && |tr[n].log| > 1 && Because(Last(tr[n].log), RootRetired) && t >= tr[n].now
    ensures var log := tr[n].log; var before := AdoptionOf(log[|log| - 2].st, base); var after := AdoptionOf(Last(log).st, base);
            && before.Success? && after.Success?
            && (RenewalVerdict(before.value.roots, i.leaf, t, grace).Accepted? ==>
                  RenewalVerdict(after.value.roots, i.leaf, t, grace).Accepted?)
  {
    hide IsRun, Chain, SignerCert, AdoptionOf, ChainsAt, Sign, Usable, Coherent, Trusts, Protected;
    var log := tr[n].log;
    LeafFacts(tr, steps, n, i);
    Kinds(log, |log| - 1);
    BundleOf(log[|log| - 2].st, log[|log| - 2].at, base);
    BundleOf(Last(log).st, Last(log).at, base);
    ProtectedLeaf(tr, steps, n, i, grace, |log| - 1);
    var before := AdoptionOf(log[|log| - 2].st, base).value.roots;
    var after := AdoptionOf(Last(log).st, base).value.roots;
    if RenewalVerdict(before, i.leaf, t, grace).Accepted? {
      IssuerAccepts(after, i.from.material, i.leaf, i.at, i.ttl, t, grace);
    }
  }

  // --- punctual runs ---------------------------------------------------------------

  // Every leaf was signed with a snapshot at most lag old.
  predicate Punctual(s: World, lag: int) { forall i :: i in s.issued ==> i.at <= i.from.asOf + lag }

  predicate SameTTL(s: World, cfg: Config) { forall i :: i in s.issued ==> i.ttl == cfg.spokeTTL }

  predicate Assumed(s: World, cfg: Config, latency: int, lag: int) {
    |s.log| > 0 && Uniform(s.log, cfg) && Prompt(s.log, latency) && Punctual(s, lag) && SameTTL(s, cfg)
  }

  // A replica whose snapshots are at most lag old has stopped within the write
  // latency and its lag.
  lemma PunctualStops(tr: seq<World>, steps: seq<Step>, n: nat, i: Issued, latency: int, lag: int)
    requires IsRun(tr, steps) && n < |tr| && i in tr[n].issued && Prompt(tr[n].log, latency) && i.at <= i.from.asOf + lag
    ensures StoppedWithin(tr[n].log, i, latency + lag)
  {
    hide IsRun, Chain, SignerCert, Usable, Sign;
    var log := tr[n].log;
    LeafFacts(tr, steps, n, i);
    forall p: nat | Displaces(log, i.from.ver, p) ensures i.at <= log[p].write.stampedAt + latency + lag {
      TimesGrow(log, i.from.ver + 1, p);
    }
  }

  // --- accepted everywhere, from before it is signed ---------------------------------

  // What a leaf needs: every write prompt, no promotion early or by a replica with
  // a lifetime under ttl, its own snapshot at most lag old, and protection through g.
  // Settings may differ from replica to replica and from leaf to leaf.
  ghost predicate WellTimed(log: seq<Version>, i: Issued, ttl: int, latency: int, lag: int, g: int) {
    && Prompt(log, latency) && FullLifetimes(log) && LongLived(log, ttl) && latency + lag < ttl
    && i.at <= i.from.asOf + lag && Protected(log, i, g)
  }

  // The version behind any snapshot at most lag old trusts the root of any leaf
  // that has not been expired for longer than g: also one signed by a replica that
  // has not yet heard of a promotion, and also on a replica that has not.
  lemma TrustedBySnapshot(
      tr: seq<World>, steps: seq<Step>, n: nat, i: Issued, r: nat, k: nat, ttl: int, latency: int, lag: int, g: int)
    requires IsRun(tr, steps) && n < |tr| && i in tr[n].issued && WellTimed(tr[n].log, i, ttl, latency, lag, g)
    requires tr[n].now <= i.leaf.notAfter + g
    requires r in tr[n].replicas && k < |tr[n].replicas[r].snaps| && tr[n].now <= tr[n].replicas[r].snaps[k].asOf + lag
    ensures tr[n].replicas[r].snaps[k].ver < |tr[n].log|
    ensures Trusts(tr[n].log[tr[n].replicas[r].snaps[k].ver].st, i.from.material.cert)
  {
    hide IsRun, Chain, Prompt, SignerCert, Sign, Usable, FullLifetimes, LongLived, Protected, Trusts, Distinct;
    var log := tr[n].log;
    var snap := tr[n].replicas[r].snaps[k];
    LeafFacts(tr, steps, n, i);
    SnapshotAgreement(tr, steps, n, r, k);
    if i.from.ver > snap.ver {
      TrustedInAdvance(log, snap.ver, i.from.ver, ttl, latency);
    } else {
      ProtectedLeaf(tr, steps, n, i, g, snap.ver);
    }
  }

  // So every such leaf, expired for no longer than g, is accepted with a grace of g
  // on every replica whose snapshot is at most lag old. With g zero this is service;
  // with the renewal grace, renewal.
  lemma AcceptedEverywhere(
      tr: seq<World>, steps: seq<Step>, n: nat, i: Issued, r: nat, k: nat, ttl: int, latency: int, lag: int, g: int)
    requires IsRun(tr, steps) && n < |tr| && i in tr[n].issued && WellTimed(tr[n].log, i, ttl, latency, lag, g)
    requires g >= 0 && tr[n].now <= i.leaf.notAfter + g
    requires r in tr[n].replicas && k < |tr[n].replicas[r].snaps| && tr[n].now <= tr[n].replicas[r].snaps[k].asOf + lag
    ensures RenewalVerdict(tr[n].replicas[r].snaps[k].material.roots, i.leaf, tr[n].now, g).Accepted?
    ensures tr[n].now <= i.leaf.notAfter ==> ChainsAt(tr[n].replicas[r].snaps[k].material.roots, i.leaf, tr[n].now)
  {
    hide IsRun, Chain, WellTimed, SignerCert, ChainsAt, Sign, Usable, Trusts, Distinct;
    LeafFacts(tr, steps, n, i);
    SnapshotAgreement(tr, steps, n, r, k);
    TrustedBySnapshot(tr, steps, n, i, r, k, ttl, latency, lag, g);
    IssuerAccepts(tr[n].replicas[r].snaps[k].material.roots, i.from.material, i.leaf, i.at, i.ttl, tr[n].now, g);
  }

  // Runs with one set of settings, where both come down to the delays.
  lemma PunctualIsWellTimed(tr: seq<World>, steps: seq<Step>, n: nat, i: Issued, cfg: Config, latency: int, lag: int, g: int)
    requires IsRun(tr, steps) && n < |tr| && i in tr[n].issued
    requires Assumed(tr[n], cfg, latency, lag) && FullLifetimes(tr[n].log)
    requires latency + lag < cfg.spokeTTL && latency + lag + g < cfg.renewGrace + 2 * cfg.poll
    ensures WellTimed(tr[n].log, i, cfg.spokeTTL, latency, lag, g)
  {
    hide IsRun, Prompt, FullLifetimes, Protected, StoppedWithin;
    PunctualStops(tr, steps, n, i, latency, lag);
    StoppedIsProtected(tr[n].log, i, cfg, latency + lag, g);
  }

  // --- the runway ------------------------------------------------------------------

  // In a rotation that keeps to the overshoot the runway allows, no leaf the
  // outgoing root signs is shortened by the clamp to its issuer's expiry.
  lemma NoLeafShortened(tr: seq<World>, steps: seq<Step>, n: nat, i: Issued, b: nat, p: nat, cfg: Config, lag: int)
    requires IsRun(tr, steps) && n < |tr| && i in tr[n].issued
    requires Uniform(tr[n].log, cfg) && i.ttl == cfg.spokeTTL && i.at <= i.from.asOf + lag
    requires 0 < b < p < |tr[n].log| && b - 1 <= i.from.ver < p
    requires Because(tr[n].log[b], RotationIsDue) && tr[n].log[b - 1].st.force == ""
    requires Because(tr[n].log[p], SuccessorPublished) && PublishingThroughout(tr[n].log, b, p - 1)
    requires var log := tr[n].log; var c := log[b].write.ctx.authority;
             && log[b].write.stampedAt <= c.notAfter - Threshold(log[b].write.ctx.cfg, c) + cfg.poll
             && log[p].write.plannedAt <= log[b].write.stampedAt + cfg.spokeTTL + cfg.poll
             && log[p].at + lag <= log[p].write.plannedAt + cfg.renewGrace + 2 * cfg.poll
    ensures i.leaf.notAfter == i.at + cfg.spokeTTL
  {
    hide IsRun, Chain, SignerCert, Threshold;
    var log := tr[n].log;
    LeafFacts(tr, steps, n, i);
    RunwaySuffices(log, b, p, cfg);
    TimesGrow(log, i.from.ver + 1, p);
    SignerDuring(log, b, p, i.from.ver);
    Kinds(log, p);
    assert log[p].write.ctx.cfg.spokeTTL == cfg.spokeTTL;
  }

  lemma SignerDuring(log: seq<Version>, b: nat, p: nat, ver: nat)
    requires Chain(log) && 0 < b < p < |log| && b - 1 <= ver < p
    requires Because(log[b], RotationIsDue) && PublishingThroughout(log, b, p - 1)
    ensures SignerCert(log[ver].st.cert) == Success(log[b].write.ctx.authority)
  {
    Kinds(log, b);
    if b <= ver {
      PublishingKept(log, b, ver);
    }
  }
}
