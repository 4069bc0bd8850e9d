// The history of the CA Secret. Every successful write is a version; a
// version's index is the resource version a compare-and-swap names.
//
// Each version records who wrote it and the clock readings that went into it.
// What holds of every version of every history is proved here by following
// the writes, for any number of replicas with any mixture of settings.

module Versions {
  import opened Wrappers
  import opened Pki
  import opened Rotation

  datatype Write =
    | Initial
    | Annotated(reason: string)  // an operator sets or clears rotate-now
    | Planned(ctx: Context, plan: Plan, plannedAt: Time, stampedAt: Time)

  datatype Version = Version(secret: Secret, st: State, at: Time, write: Write)

  predicate Because(v: Version, reason: Reason) { v.write.Planned? && v.write.plan.reason == reason }

  // v is what one write leaves behind prev.
  predicate Legit(prev: Version, v: Version) {
    && prev.at <= v.at && v.st == Read(v.secret)
    && match v.write
       case Initial => false
       case Annotated(reason) => v.secret == prev.secret.(rotateNow := reason)
       case Planned(ctx, plan, plannedAt, stampedAt) =>
         && prev.at <= plannedAt <= stampedAt <= v.at
         && v.secret == Apply(prev.secret, plan, stampedAt)
         && PlannedFrom(prev.st, ctx, plan, plannedAt)
  }

  // A plan made by a replica that had adopted prev.
  predicate PlannedFrom(st: State, ctx: Context, plan: Plan, plannedAt: Time) {
    && MakePlan(st, ctx, plannedAt) == Some(plan)
    && SignerCert(st.cert) == Success(ctx.authority)
    && ValidConfig(ctx.cfg)
    && (ctx.mint.Some? ==> WellMinted(ctx.mint.value, plannedAt))
  }

  // The same, as the readers of the Secret see it.
  predicate Moves(prev: Version, v: Version) {
    && prev.at <= v.at
    && match v.write
       case Initial => false
       case Annotated(reason) => v.st == prev.st.(force := reason)
       case Planned(ctx, plan, plannedAt, stampedAt) =>
         && prev.at <= plannedAt <= stampedAt <= v.at
         && v.st == Effect(prev.st, ctx, plan.reason, plannedAt, stampedAt)
         && PlannedFrom(prev.st, ctx, plan, plannedAt)
  }

  lemma LegitMoves(prev: Version, v: Version)
    requires prev.st == Read(prev.secret) && Legit(prev, v)
    ensures Moves(prev, v)
  {
    if v.write.Planned? {
      var w := v.write;
      ApplyWrites(prev.secret, w.plan, w.stampedAt);
      WrittenEffect(prev.secret, v.secret, w.ctx, w.plannedAt, w.plan, w.stampedAt);
    }
  }

  predicate Keypair(cert: Pem, key: Pem) {
    SignerCert(cert).Success? && SignerKey(key).Success? && Usable(SignerCert(cert).value, SignerKey(key).value)
  }

  predicate SoleRoot(p: Pem) { SignerCert(p).Success? && SigningCapable(SignerCert(p).value) }

  predicate NoneAfter(s: Stamp, t: Time) { s.At? ==> s.time <= t }

  // Phase, signer, successor, outgoing root, start time and horizon fit
  // together, and no recorded time lies in the future.
  predicate Coherent(st: State, t: Time) {
    && !st.Frozen() && Keypair(st.cert, st.key)
    && NoneAfter(st.since, t) && NoneAfter(st.holdout, t)
    && SignerCert(st.cert).value.notBefore <= t
    && match st.Phase()
       case Steady =>
         st.nextCert == [] && st.nextKey == [] && st.prevCert == [] && st.holdout == Missing && st.retireAfter == Missing
       case Publishing =>
         && Keypair(st.nextCert, st.nextKey) && st.since.At? && SignerCert(st.nextCert).value.notBefore <= t
         && st.prevCert == [] && st.holdout == Missing && st.retireAfter == Missing
       case Signing =>
         SoleRoot(st.prevCert) && st.since.At? && st.retireAfter.At? && st.nextCert == [] && st.nextKey == []
  }

  // From a coherent version only five plans can be made: the repairs never fire.
  lemma OnlyForward(prev: Version, v: Version)
    requires Coherent(prev.st, prev.at) && Moves(prev, v) && v.write.Planned?
    ensures Because(v, AlreadyRotating) || Because(v, RotationIsDue) || Because(v, SuccessorPublished)
            || Because(v, SessionsHeld) || Because(v, RootRetired)
    ensures Because(v, RotationIsDue) ==> prev.st.Phase() == Steady
    ensures Because(v, SuccessorPublished) ==> prev.st.Phase() == Publishing
    ensures Because(v, SessionsHeld) || Because(v, RootRetired) ==> prev.st.Phase() == Signing
    ensures Because(v, AlreadyRotating) ==> prev.st.Phase() != Steady
  {
  }

  lemma StaysCoherent(prev: Version, v: Version)
    requires Coherent(prev.st, prev.at) && Moves(prev, v)
    ensures Coherent(v.st, v.at)
  {
    if v.write.Planned? {
      OnlyForward(prev, v);
      if Because(v, RotationIsDue) {
        assert v.write.ctx.mint.Some?;
        var m := v.write.ctx.mint.value;
        assert Blocks([CertBlock(m.cert)]) == [CertBlock(m.cert)] + Blocks([]);
        assert Blocks([KeyBlock(m.key)]) == [KeyBlock(m.key)] + Blocks([]);
      }
    }
  }

  predicate FirstVersion(v: Version) {
    v.write.Initial? && v.st.Phase() == Steady && Coherent(v.st, v.at)
  }

  predicate MovesAt(log: seq<Version>, i: nat) { 0 < i < |log| && Moves(log[i - 1], log[i]) }

  predicate Chain(log: seq<Version>) {
    && |log| > 0 && FirstVersion(log[0])
    && forall i :: 0 < i < |log| ==> MovesAt(log, i)
  }

  // The Secret is coherent in every version of every history.
  lemma {:induction false} AlwaysCoherent(log: seq<Version>, i: nat)
    requires Chain(log) && i < |log|
    ensures Coherent(log[i].st, log[i].at)
  {
    if i > 0 {
      AlwaysCoherent(log, i - 1);
      assert MovesAt(log, i);
      StaysCoherent(log[i - 1], log[i]);
    }
  }

  lemma {:induction false} TimesGrow(log: seq<Version>, i: nat, j: nat)
    requires Chain(log) && i <= j < |log|
    ensures log[i].at <= log[j].at
  {
    if i < j {
      TimesGrow(log, i, j - 1);
      assert MovesAt(log, j);
    }
  }

  function Successor(p: Phase): Phase {
    match p case Steady => Publishing case Publishing => Signing case Signing => Steady
  }

  // One commit moves the phase at most one place round the cycle, and the
  // signer changes only on the step from publishing to signing, where the
  // successor takes over and the outgoing signer's certificate is kept.
  lemma OnePhaseForward(log: seq<Version>, i: nat)
    requires Chain(log) && i + 1 < |log|
    ensures var from := log[i].st; var to := log[i + 1].st;
            && (to.Phase() == from.Phase() || to.Phase() == Successor(from.Phase()))
            && ((to.cert, to.key) != (from.cert, from.key) ==>
                  from.Phase() == Publishing && to.Phase() == Signing)
            && (from.Phase() == Publishing && to.Phase() == Signing ==>
                  to.cert == from.nextCert && to.key == from.nextKey && to.prevCert == from.cert)
  {
    AlwaysCoherent(log, i);
    assert MovesAt(log, i + 1);
    if log[i + 1].write.Planned? {
      OnlyForward(log[i], log[i + 1]);
    }
  }

  // --- private keys ----------------------------------------------------

  predicate HoldsKey(p: Pem, x: nat) { exists i :: 0 <= i < |p| && p[i].KeyBlock? && p[i].key.id == x }

  // Key x is somewhere in the Secret's rotation material.
  predicate Stored(st: State, x: nat) {
    HoldsKey(st.cert, x) || HoldsKey(st.key, x) || HoldsKey(st.nextCert, x) || HoldsKey(st.nextKey, x) || HoldsKey(st.prevCert, x)
  }

  predicate FreshAt(log: seq<Version>, i: nat) {
    0 < i < |log| && (Because(log[i], RotationIsDue) && log[i].write.ctx.mint.Some? ==>
      forall j :: 0 <= j < i ==> !Stored(log[j].st, log[i].write.ctx.mint.value.key.id))
  }

  // No mint repeats a key that was ever in the Secret.
  predicate FreshMints(log: seq<Version>) { forall i :: 0 < i < |log| ==> FreshAt(log, i) }

  lemma NewKeysAreMinted(prev: Version, v: Version, x: nat)
    requires Coherent(prev.st, prev.at) && Moves(prev, v)
    requires Stored(v.st, x) && !Stored(prev.st, x)
    ensures Because(v, RotationIsDue) && v.write.ctx.mint.Some? && v.write.ctx.mint.value.key.id == x
  {
    if v.write.Planned? {
      OnlyForward(prev, v);
    }
  }

  lemma NewKeysAt(log: seq<Version>, k: nat, x: nat)
    requires Chain(log) && 0 < k < |log| && Stored(log[k].st, x) && !Stored(log[k - 1].st, x)
    ensures Because(log[k], RotationIsDue) && log[k].write.ctx.mint.Some? && log[k].write.ctx.mint.value.key.id == x
  {
    hide Coherent, Moves, Stored;
    AlwaysCoherent(log, k - 1);
    assert MovesAt(log, k);
    NewKeysAreMinted(log[k - 1], log[k], x);
  }

  // A private key that has left the Secret never comes back.
  lemma {:induction false} GoneForGood(log: seq<Version>, i: nat, j: nat, k: nat, x: nat)
    requires Chain(log) && FreshMints(log) && i <= j <= k < |log|
    requires Stored(log[i].st, x) && !Stored(log[j].st, x)
    ensures !Stored(log[k].st, x)
  {
    if j < k {
      GoneForGood(log, i, j, k - 1, x);
      assert FreshAt(log, k);
      if Stored(log[k].st, x) {
        NewKeysAt(log, k, x);
      }
    }
  }

  lemma {:induction false} BlockStays(p: Pem, i: nat)
    requires i < |p| && IsBlock(p[i])
    ensures p[i] in Blocks(p)
  {
    if i > 0 { BlockStays(p[1..], i - 1); }
  }

  lemma CertHoldsNoKey(p: Pem, x: nat)
    requires SignerCert(p).Success?
    ensures !HoldsKey(p, x)
  {
    if HoldsKey(p, x) {
      var i :| 0 <= i < |p| && p[i].KeyBlock? && p[i].key.id == x;
      BlockStays(p, i);
    }
  }

  // While a successor is published its key is not one the signer's file holds.
  lemma {:induction false} SuccessorKeyApart(log: seq<Version>, k: nat, x: nat)
    requires Chain(log) && FreshMints(log) && k < |log| && log[k].st.Phase() == Publishing && HoldsKey(log[k].st.key, x)
    ensures !HoldsKey(log[k].st.nextKey, x)
  {
    hide Coherent, SignerCert;
    assert k > 0;
    AlwaysCoherent(log, k - 1);
    assert MovesAt(log, k) && FreshAt(log, k);
    if log[k].write.Planned? { OnlyForward(log[k - 1], log[k]); }
    if log[k - 1].st.Phase() == Publishing { SuccessorKeyApart(log, k - 1, x); }
  }

  // Promotion takes the demoted root's private key out of the Secret, and it is in
  // no version from then on.
  lemma DemotedKeyIsGone(log: seq<Version>, p: nat, k: nat, x: nat)
    requires Chain(log) && FreshMints(log) && 0 < p <= k < |log| && Because(log[p], SuccessorPublished)
    requires HoldsKey(log[p - 1].st.key, x)
    ensures !Stored(log[k].st, x)
  {
    hide Coherent, Moves, Stored, HoldsKey;
    AlwaysCoherent(log, p - 1);
    assert MovesAt(log, p);
    if log[p - 1].st.Phase() == Publishing { SuccessorKeyApart(log, p - 1, x); }
    PromotionDropsKey(log[p - 1], log[p], x);
    GoneForGood(log, p - 1, p, k, x);
  }

  lemma PromotionDropsKey(prev: Version, v: Version, x: nat)
    requires Coherent(prev.st, prev.at) && Moves(prev, v) && Because(v, SuccessorPublished) && HoldsKey(prev.st.key, x)
    requires prev.st.Phase() == Publishing ==> !HoldsKey(prev.st.nextKey, x)
    ensures Stored(prev.st, x) && !Stored(v.st, x)
  {
    hide HoldsKey, SignerCert;
    OnlyForward(prev, v);
    CertHoldsNoKey(prev.st.cert, x);
    CertHoldsNoKey(prev.st.nextCert, x);
    EmptyHoldsNoKey(x);
  }

  lemma EmptyHoldsNoKey(x: nat)
    ensures !HoldsKey([], x)
  {
  }
}
