// A CA Secret left in any inconsistent state repairs itself.

module Repair {
  import opened Wrappers
  import opened Pki
  import opened Rotation

  predicate IsRepair(r: Reason) {
    r == AlreadyRotating || r == StrayMaterial || r == NoSuccessor || r == OutgoingMissing || r == ClockRestart
  }

  // How many repairs a Secret needs: an order to rotate during a rotation, a
  // phase whose root is missing and what that leaves stray, an unreadable
  // start time.
  function Repairs(st: State): (n: nat)
    ensures n <= 3
  {
    (if st.force != "" && st.Phase() != Steady then 1 else 0) +
    match st.Phase()
    case Steady => if StrayKeys(st) != {} then 1 else 0
    case Publishing =>
      if st.nextCert == [] || st.nextKey == [] then (if st.prevCert != [] then 2 else 1)
      else if st.since.At? then 0 else 1
    case Signing =>
      if st.prevCert == [] then 1 else if st.since.At? then 0 else 1
  }

  // A repair is planned exactly when one is needed, whatever the replica, its
  // settings and the time; and it leaves exactly one fewer.
  lemma OneRepair(st: State, ctx: Context, now: Time, stamp: Time)
    requires !st.Frozen()
    ensures Repairs(st) > 0 <==> MakePlan(st, ctx, now).Some? && IsRepair(MakePlan(st, ctx, now).value.reason)
    ensures Repairs(st) > 0 ==>
              var st' := Effect(st, ctx, MakePlan(st, ctx, now).value.reason, now, stamp);
              !st'.Frozen() && Repairs(st') == Repairs(st) - 1
  {
    if Repairs(st) > 0 {
      var reason := MakePlan(st, ctx, now).value.reason;
      var st' := Effect(st, ctx, reason, now, stamp);
      assert reason == StrayMaterial ==> StrayKeys(st') == {};
      assert reason == NoSuccessor && st.prevCert == [] ==> StrayKeys(st') == {};
      assert reason == NoSuccessor && st.prevCert != [] ==> PrevCert in StrayKeys(st');
      assert reason == OutgoingMissing ==> StrayKeys(st') == {};
    }
  }

  datatype Visit = Visit(ctx: Context, now: Time, stamp: Time)

  // One uncontested poll, and a sequence of them.
  function PollOnce(sec: Secret, v: Visit): Secret {
    var p := MakePlan(Read(sec), v.ctx, v.now);
    if p.None? then sec else Apply(sec, p.value, v.stamp)
  }

  function Polls(sec: Secret, vs: seq<Visit>): Secret {
    if vs == [] then sec else PollOnce(Polls(sec, vs[..|vs| - 1]), vs[|vs| - 1])
  }

  lemma PollEffect(sec: Secret, v: Visit)
    ensures var p := MakePlan(Read(sec), v.ctx, v.now);
            Read(PollOnce(sec, v)) == if p.None? then Read(sec) else Effect(Read(sec), v.ctx, p.value.reason, v.now, v.stamp)
  {
    hide Read, MakePlan, Effect, Written, Apply;
    var p := MakePlan(Read(sec), v.ctx, v.now);
    if p.Some? {
      ApplyWrites(sec, p.value, v.stamp);
      WrittenEffect(sec, Apply(sec, p.value, v.stamp), v.ctx, v.now, p.value, v.stamp);
    }
  }

  lemma PollRepairs(sec: Secret, v: Visit)
    requires !Read(sec).Frozen() && Repairs(Read(sec)) > 0
    ensures !Read(PollOnce(sec, v)).Frozen() && Repairs(Read(PollOnce(sec, v))) == Repairs(Read(sec)) - 1
  {
    hide Read, MakePlan, Effect, Repairs, PollOnce;
    OneRepair(Read(sec), v.ctx, v.now, v.stamp);
    PollEffect(sec, v);
  }

  // From any Secret with a readable phase, any polls by any replicas at any
  // times: the first Repairs of them are repair writes, at most three, and the
  // next plans no repair.
  lemma {:induction false} SelfRepair(sec: Secret, vs: seq<Visit>, next: Visit)
    requires !Read(sec).Frozen() && |vs| <= Repairs(Read(sec))
    ensures var st := Read(Polls(sec, vs));
            && !st.Frozen() && Repairs(st) == Repairs(Read(sec)) - |vs|
            && (|vs| == Repairs(Read(sec)) <==>
                  !(MakePlan(st, next.ctx, next.now).Some? && IsRepair(MakePlan(st, next.ctx, next.now).value.reason)))
  {
    hide Read, MakePlan, Repairs, PollOnce;
    if vs != [] {
      SelfRepair(sec, vs[..|vs| - 1], next);
      PollRepairs(Polls(sec, vs[..|vs| - 1]), vs[|vs| - 1]);
    }
    OneRepair(Read(Polls(sec, vs)), next.ctx, next.now, next.stamp);
  }

  // --- over polls without end -----------------------------------------------------

  // Repairs still to come, now or after a later transition: a stray successor turns
  // up once the root beside it is retired, and a Secret without a signer comes to
  // lack an outgoing root.
  function Debt(st: State): (n: nat)
    ensures n <= if st.cert != [] then 3 else 4
  {
    Repairs(st)
    + (if st.Phase() == Signing && st.prevCert != [] && (st.nextCert != [] || st.nextKey != []) then 1 else 0)
    + (if st.cert == [] then 1 else 0)
  }

  predicate RepairPlanned(sec: Secret, v: Visit) {
    var p := MakePlan(Read(sec), v.ctx, v.now);
    p.Some? && IsRepair(p.value.reason)
  }

  lemma DebtFalls(st: State, ctx: Context, now: Time, stamp: Time)
    requires !st.Frozen() && MakePlan(st, ctx, now).Some?
    ensures var reason := MakePlan(st, ctx, now).value.reason;
            var st' := Effect(st, ctx, reason, now, stamp);
            !st'.Frozen() && Debt(st') + (if IsRepair(reason) then 1 else 0) <= Debt(st)
  {
    OneRepair(st, ctx, now, stamp);
  }

  lemma PollPays(sec: Secret, v: Visit)
    requires !Read(sec).Frozen()
    ensures !Read(PollOnce(sec, v)).Frozen()
    ensures Debt(Read(PollOnce(sec, v))) + (if RepairPlanned(sec, v) then 1 else 0) <= Debt(Read(sec))
  {
    hide Read, MakePlan, Effect, Debt, PollOnce;
    PollEffect(sec, v);
    if MakePlan(Read(sec), v.ctx, v.now).Some? { DebtFalls(Read(sec), v.ctx, v.now, v.stamp); }
  }

  // How many of these polls wrote a repair.
  function RepairWrites(sec: Secret, vs: seq<Visit>): nat {
    if vs == [] then 0
    else
      var before := vs[..|vs| - 1];
      RepairWrites(sec, before) + if RepairPlanned(Polls(sec, before), vs[|vs| - 1]) then 1 else 0
  }

  // However many polls there are, through however many rotations: never more repair
  // writes in all than the Secret's debt at the start, three if it names a signer.
  lemma {:induction false} RepairsInAll(sec: Secret, vs: seq<Visit>)
    requires !Read(sec).Frozen()
    ensures !Read(Polls(sec, vs)).Frozen()
    ensures RepairWrites(sec, vs) + Debt(Read(Polls(sec, vs))) <= Debt(Read(sec)) <= if Read(sec).cert != [] then 3 else 4
  {
    hide Read, Debt, PollOnce, RepairPlanned;
    if vs != [] {
      RepairsInAll(sec, vs[..|vs| - 1]);
      PollPays(Polls(sec, vs[..|vs| - 1]), vs[|vs| - 1]);
    }
  }

  // --- a rotation gets to its end ---------------------------------------------

  function FirstRoot(p: Pem): Option<Certificate> {
    if TrustBundle(p).Failure? then None else Some(TrustBundle(p).value[0])
  }

  // Three polls, by any replicas: one when a rotation is due, one a certificate
  // lifetime later, one past the horizon with no live session left on the old
  // root. The Secret then names the root the first of them minted, alone.
  lemma RotationCompletes(sec: Secret, a: Visit, b: Visit, c: Visit)
    requires var st := Read(sec); !st.Frozen() && st.Phase() == Steady && StrayKeys(st) == {} && st.cert != []
    requires RotationDue(Read(sec), a.ctx, a.now) && a.ctx.mint.Some?
    requires b.now - a.stamp >= b.ctx.cfg.spokeTTL
    requires c.now >= b.stamp + RetirementHold(c.ctx.cfg) && c.now >= b.now + RetirementHold(b.ctx.cfg)
    requires c.now - c.ctx.startedAt >= HoldoutQuiet(c.ctx.cfg)
    requires Holdouts(c.ctx.sightings, FirstRoot(Read(sec).cert)) == {}
    ensures var st := Read(PollOnce(PollOnce(PollOnce(sec, a), b), c));
            && !st.Frozen() && st.Phase() == Steady && StrayKeys(st) == {} && st.force == ""
            && st.cert == [CertBlock(a.ctx.mint.value.cert)] && st.key == [KeyBlock(a.ctx.mint.value.key)]
  {
    hide Read, PollOnce, TrustBundle, RotationDue, RetirementHold;
    var s1 := PollOnce(sec, a);
    var s2 := PollOnce(s1, b);
    PollEffect(sec, a);
    PollEffect(s1, b);
    PollEffect(s2, c);
    assert Read(s1).Phase() == Publishing && Read(s1).since == At(a.stamp) && Read(s1).cert == Read(sec).cert;
    assert Read(s2).Phase() == Signing && Read(s2).since == At(b.stamp) && Read(s2).prevCert == Read(sec).cert;
    assert Outgoing(Read(s2)) == FirstRoot(Read(sec).cert);
  }

  // --- a phase this build does not know --------------------------------------

  predicate Parses(p: Pem) { AdditionalRoots(p).Success? }

  predicate Holds(p: Pem, c: Certificate)
    requires Parses(p)
  {
    c in AdditionalRoots(p).value
  }

  lemma JoinHolds(a: Pem, b: Pem)
    requires Parses(a) && Parses(b)
    ensures Parses(JoinRoots(a, b))
    ensures forall c :: Holds(JoinRoots(a, b), c) <==> Holds(a, c) || Holds(b, c)
  {
    if !IsBlankPem(a) && !IsBlankPem(b) {
      BlocksConcat(a, b);
      assert !IsBlankPem(a + b) by {
        if IsBlankPem(a + b) { BlankHasNoBlocks(a + b); }
      }
      assert Certs(Blocks(a + b)) == Certs(Blocks(a)) + Certs(Blocks(b));
    }
  }

  // It is never written over, and it is trusted at least as widely as every
  // phase it could have been.
  lemma UnknownPhaseHoldsWide(st: State, base: Pem, ctx: Context, now: Time, was: Phase, c: Certificate)
    requires st.Frozen() && Parses(base) && Parses(st.nextCert) && Parses(st.prevCert)
    ensures MakePlan(st, ctx, now).None?
    ensures Parses(ExtraRoots(st, base)) && Parses(ExtraRoots(st.(rawPhase := Known(was)), base))
    ensures Holds(ExtraRoots(st.(rawPhase := Known(was)), base), c) ==> Holds(ExtraRoots(st, base), c)
  {
    JoinHolds(base, st.nextCert);
    JoinHolds(base, st.prevCert);
    JoinHolds(JoinRoots(base, st.nextCert), st.prevCert);
  }
}
