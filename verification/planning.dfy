// When a poll plans what, in the settings' own numbers, and what that makes of polls in
// sequence (internal/hub/carotation.go).

module Planning {
  import opened Wrappers
  import opened Pki
  import opened Rotation
  import opened Versions
  import opened Retirement
  import opened Repair

  predicate Plans(st: State, ctx: Context, now: Time, reason: Reason) {
    MakePlan(st, ctx, now).Some? && MakePlan(st, ctx, now).value.reason == reason
  }

  // --- beginning ----------------------------------------------------------------------

  predicate CleanSteady(st: State) {
    && !st.Frozen() && st.Phase() == Steady && st.nextCert == [] && st.nextKey == [] && st.prevCert == []
    && st.holdout == Missing && st.retireAfter == Missing
  }

  // When an unforced rotation is due. The life then left is the larger of the configured
  // fraction of the root's life, in whole seconds, and two leaf lifetimes, the grace and
  // four poll intervals.
  function DueAt(cfg: Config, root: Certificate): (t: Time)
    ensures var left := root.notAfter - t; var fraction := ((root.notAfter - root.notBefore) as real * cfg.rotateFraction).Floor;
            && left >= fraction && left >= 2 * cfg.spokeTTL + cfg.renewGrace + 4 * cfg.poll
            && (left == fraction || left == 2 * cfg.spokeTTL + cfg.renewGrace + 4 * cfg.poll)
  {
    root.notAfter - Threshold(cfg, root)
  }

  // A clean Secret begins a rotation exactly when it is ordered to or the root is due, as
  // long as a successor can be minted; and otherwise plans nothing.
  lemma BeginsExactly(st: State, ctx: Context, now: Time)
    requires CleanSteady(st)
    ensures Plans(st, ctx, now, RotationIsDue) <==> ctx.mint.Some? && (st.force != "" || now >= DueAt(ctx.cfg, ctx.authority))
    ensures MakePlan(st, ctx, now).Some? ==> Plans(st, ctx, now, RotationIsDue)
  {
    assert StrayKeys(st) == {};
  }

  // A steady Secret with anything of a rotation in it is cleaned, in one write, of all of
  // that and of nothing else.
  lemma StrayIsCleared(sec: Secret, v: Visit)
    requires var st := Read(sec); !st.Frozen() && st.Phase() == Steady && !CleanSteady(st)
    ensures var (st, st') := (Read(sec), Read(PollOnce(sec, v)));
            && Plans(st, v.ctx, v.now, StrayMaterial) && CleanSteady(st')
            && st'.cert == st.cert && st'.key == st.key && st'.since == st.since && st'.force == st.force
  {
    hide Read, PollOnce;
    var st := Read(sec);
    var stray :=
      if st.nextCert != [] then NextCert else if st.nextKey != [] then NextKey else if st.prevCert != [] then PrevCert
      else if st.holdout != Missing then HoldoutSlot else RetireAfterSlot;
    assert stray in StrayKeys(st);
    PollEffect(sec, v);
  }

  // The polls of replicas with these settings and this root, none more than a poll
  // interval after the one before, the first no later than that after the root fell due.
  predicate Regular(vs: seq<Visit>, cfg: Config, root: Certificate) {
    && (forall k :: 0 <= k < |vs| ==> vs[k].ctx.cfg == cfg && vs[k].ctx.authority == root && vs[k].ctx.mint.Some?)
    && (|vs| > 0 ==> vs[0].now <= DueAt(cfg, root) + cfg.poll)
    && forall k :: 0 < k < |vs| ==> vs[k].now <= vs[k - 1].now + cfg.poll
  }

  lemma {:induction false} NothingBeforeDue(sec: Secret, vs: seq<Visit>, cfg: Config, root: Certificate, k: nat)
    requires CleanSteady(Read(sec)) && Read(sec).force == "" && Regular(vs, cfg, root) && k <= |vs|
    requires forall j :: 0 <= j < k ==> vs[j].now < DueAt(cfg, root)
    ensures Polls(sec, vs[..k]) == sec
  {
    hide MakePlan, Read, CleanSteady, DueAt;
    if k > 0 {
      assert vs[..k][..k - 1] == vs[..k - 1];
      NothingBeforeDue(sec, vs, cfg, root, k - 1);
      BeginsExactly(Read(sec), vs[k - 1].ctx, vs[k - 1].now);
    }
  }

  // Such polls, once one of them falls at or after the due time, begin the rotation with
  // the first that does, within one interval of it.
  lemma {:induction false} BeginsInTime(sec: Secret, vs: seq<Visit>, cfg: Config, root: Certificate, n: nat) returns (k: nat)
    requires CleanSteady(Read(sec)) && Read(sec).force == "" && Regular(vs, cfg, root) && cfg.poll >= 0
    requires n < |vs| && vs[n].now >= DueAt(cfg, root)
    ensures k <= n && Polls(sec, vs[..k]) == sec && DueAt(cfg, root) <= vs[k].now <= DueAt(cfg, root) + cfg.poll
    ensures var st := Read(Polls(sec, vs[..k + 1])); var m := vs[k].ctx.mint.value;
            && !st.Frozen() && st.Phase() == Publishing && st.since == At(vs[k].stamp) && st.cert == Read(sec).cert && st.key == Read(sec).key
            && st.nextCert == [CertBlock(m.cert)] && st.nextKey == [KeyBlock(m.key)]
  {
    k := FirstDue(vs, DueAt(cfg, root), n);
    NothingBeforeDue(sec, vs, cfg, root, k);
    assert vs[..k + 1][..k] == vs[..k];
    DueBegins(sec, vs[k]);
  }

  lemma {:induction false} FirstDue(vs: seq<Visit>, due: Time, n: nat) returns (k: nat)
    requires n < |vs| && vs[n].now >= due
    ensures k <= n && vs[k].now >= due && forall j :: 0 <= j < k ==> vs[j].now < due
  {
    if forall j :: 0 <= j < n ==> vs[j].now < due { return n; }
    var j: nat :| j < n && vs[j].now >= due;
    k := FirstDue(vs, due, j);
  }

  lemma DueBegins(sec: Secret, v: Visit)
    requires CleanSteady(Read(sec)) && v.ctx.mint.Some? && v.now >= DueAt(v.ctx.cfg, v.ctx.authority)
    ensures var st := Read(PollOnce(sec, v)); var m := v.ctx.mint.value;
            && !st.Frozen() && st.Phase() == Publishing && st.since == At(v.stamp) && st.cert == Read(sec).cert && st.key == Read(sec).key
            && st.nextCert == [CertBlock(m.cert)] && st.nextKey == [KeyBlock(m.key)]
  {
    hide MakePlan, Read, PollOnce, DueAt;
    BeginsExactly(Read(sec), v.ctx, v.now);
    PollEffect(sec, v);
  }

  // --- promoting ----------------------------------------------------------------------

  // A published successor is promoted exactly when a leaf lifetime has run since, or the
  // signer has expired; until then nothing is planned.
  lemma PromotesExactly(st: State, ctx: Context, now: Time)
    requires !st.Frozen() && st.Phase() == Publishing && st.force == "" && st.since.At?
    requires st.nextCert != [] && st.nextKey != []
    ensures Plans(st, ctx, now, SuccessorPublished) <==> now >= st.since.time + ctx.cfg.spokeTTL || now >= ctx.authority.notAfter
    ensures MakePlan(st, ctx, now).Some? ==> Plans(st, ctx, now, SuccessorPublished)
  {
  }

  // The successor signs, the signer is kept to be trusted, its key is gone, the horizon is
  // a leaf lifetime, the grace and two polls away, and no sighting is carried over.
  lemma PromotionWrites(sec: Secret, v: Visit)
    requires Plans(Read(sec), v.ctx, v.now, SuccessorPublished)
    ensures var (st, st', cfg) := (Read(sec), Read(PollOnce(sec, v)), v.ctx.cfg);
            && !st'.Frozen() && st'.Phase() == Signing && st'.since == At(v.stamp) && st'.force == st.force
            && st'.cert == st.nextCert && st'.key == st.nextKey && st'.prevCert == st.cert && st'.nextCert == [] && st'.nextKey == []
            && st'.holdout == Missing && st'.retireAfter == At(v.now + cfg.spokeTTL + cfg.renewGrace + 2 * cfg.poll)
  {
    hide MakePlan, Read, PollOnce;
    PollEffect(sec, v);
  }

  // --- retiring -----------------------------------------------------------------------

  // Both horizons have passed, and this replica has been up for two polls.
  predicate GateOpen(st: State, ctx: Context, now: Time)
    requires st.since.At?
  {
    && now >= st.since.time + ctx.cfg.spokeTTL + ctx.cfg.renewGrace + 2 * ctx.cfg.poll
    && (st.retireAfter.At? ==> now >= st.retireAfter.time)
    && now >= ctx.startedAt + 2 * ctx.cfg.poll
  }

  // Some live session was last verified under root.
  predicate LiveOn(t: Sightings, root: Certificate) { exists serial :: serial in t.live && serial in t.issuer && t.issuer[serial] == root }

  // No sighting has been recorded for d.
  predicate QuietFor(st: State, now: Time, d: int) { st.holdout.At? ==> now >= st.holdout.time + d }

  // Past the gate, a live session on the outgoing root is recorded, again once the record
  // is a poll old; without one the root goes, once the record is two polls old. In every
  // other case nothing is planned.
  lemma RetiresExactly(st: State, ctx: Context, now: Time)
    requires !st.Frozen() && st.Phase() == Signing && st.force == "" && st.since.At? && SoleRoot(st.prevCert)
    ensures var live := LiveOn(ctx.sightings, SignerCert(st.prevCert).value);
            && (Plans(st, ctx, now, SessionsHeld) <==> GateOpen(st, ctx, now) && live && QuietFor(st, now, ctx.cfg.poll))
            && (Plans(st, ctx, now, RootRetired) <==> GateOpen(st, ctx, now) && !live && QuietFor(st, now, 2 * ctx.cfg.poll))
            && (MakePlan(st, ctx, now).Some? ==> Plans(st, ctx, now, SessionsHeld) || Plans(st, ctx, now, RootRetired))
  {
    hide SignerCert;
    OutgoingIs(st);
    var c := SignerCert(st.prevCert).value;
    assert st.prevCert != [] by { SomeRoot(st.prevCert); }
    assert Holdouts(ctx.sightings, Some(c)) == {} <==> !LiveOn(ctx.sightings, c) by {
      if LiveOn(ctx.sightings, c) {
        var serial :| serial in ctx.sightings.live && serial in ctx.sightings.issuer && ctx.sightings.issuer[serial] == c;
        assert serial in Holdouts(ctx.sightings, Some(c));
      }
    }
  }

  lemma SomeRoot(p: Pem)
    requires SoleRoot(p)
    ensures p != []
  {
  }

  // A session seen past the gate holds the root and is recorded; two polls after the last
  // record, with no session left, the root is retired.
  lemma SightedThenRetired(sec: Secret, a: Visit, b: Visit)
    requires var st := Read(sec); !st.Frozen() && st.Phase() == Signing && st.force == "" && st.since.At? && SoleRoot(st.prevCert)
    requires var st := Read(sec);
             && GateOpen(st, a.ctx, a.now) && LiveOn(a.ctx.sightings, SignerCert(st.prevCert).value) && QuietFor(st, a.now, a.ctx.cfg.poll)
             && GateOpen(st, b.ctx, b.now) && !LiveOn(b.ctx.sightings, SignerCert(st.prevCert).value)
             && b.now >= a.now + 2 * b.ctx.cfg.poll
    ensures var (st, st1, st2) := (Read(sec), Read(PollOnce(sec, a)), Read(PollOnce(PollOnce(sec, a), b)));
            && st1.Phase() == Signing && st1.holdout == At(a.now) && st1.prevCert == st.prevCert
            && !st2.Frozen() && st2.Phase() == Steady && st2.prevCert == [] && st2.holdout == Missing && st2.retireAfter == Missing
            && st2.cert == st.cert && st2.key == st.key && st2.since == At(b.stamp)
  {
    hide MakePlan, Read, PollOnce, SoleRoot, SignerCert, LiveOn;
    RetiresExactly(Read(sec), a.ctx, a.now);
    PollEffect(sec, a);
    RetiresExactly(Read(PollOnce(sec, a)), b.ctx, b.now);
    PollEffect(PollOnce(sec, a), b);
  }

  // --- holding ------------------------------------------------------------------------

  // A Secret whose phase is some other word is never written, by any poll.
  lemma {:induction false} UnknownPhaseUntouched(sec: Secret, text: string, vs: seq<Visit>)
    requires PhaseSlot in sec.data && sec.data[PhaseSlot] == OtherText(text) && text != ""
    ensures Polls(sec, vs) == sec
  {
    if vs != [] { UnknownPhaseUntouched(sec, text, vs[..|vs| - 1]); }
  }
}
