// Any number of hub replicas around one CA Secret: every interleaving of
// polls, adoptions, plans, clock readings, compare-and-swaps that win, lose or
// succeed unheard, restarts, operator annotations and certificate signing.

module Fleet {
  import opened Wrappers
  import opened Pki
  import opened Rotation
  import opened Versions
  import opened Retirement

  // What a replica signs and verifies with: the material it adopted, the
  // version it came from, and an instant at which that version was current.
  datatype Snapshot = Snapshot(material: Material, ver: nat, asOf: Time)

  // Where a replica is inside caRotator.step.
  datatype Pc =
    | Idle
    | HasRead(ver: nat, at: Time)
    | Synced(ver: nat)
    | HasPlan(ver: nat, ctx: Context, plan: Plan, plannedAt: Time)
    | Stamped(ver: nat, ctx: Context, plan: Plan, plannedAt: Time, next: Secret, stampedAt: Time)
    | Wrote(ver: nat, at: Time)

  // snaps holds every snapshot since the replica started, current last: a
  // request that read the snapshot before a swap finishes with the old one.
  datatype Replica = Replica(
    cfg: Config, base: Pem, startedAt: Time,
    appliedCert: Pem, appliedRoots: Pem, snaps: seq<Snapshot>, pc: Pc)

  datatype Issued = Issued(leaf: Leaf, from: Snapshot, at: Time, ttl: int)

  datatype World = World(
    log: seq<Version>, replicas: map<nat, Replica>, now: Time, issued: set<Issued>, minted: set<nat>)

  datatype Step =
    | Tick(to: Time)
    | Start(r: nat, cfg: Config, base: Pem)  // also a restart
    | Poll(r: nat)
    | Sync(r: nat)
    | Decide(r: nat, sightings: Sightings, mint: Option<Root>)
    | StampTime(r: nat)
    | Commit(r: nat, heard: bool)            // heard: the response comes back
    | Resync(r: nat)
    | Issue(r: nat, snap: nat, serial: nat)
    | Annotate(reason: string)

  function Last(log: seq<Version>): Version
    requires |log| > 0
  {
    log[|log| - 1]
  }

  // Operator roots are validated at startup: blank, or a usable bundle.
  predicate GoodBase(base: Pem) { AdditionalRoots(base).Success? }

  function AdoptionOf(st: State, base: Pem): Result<Material> { Adopted(st.cert, st.key, ExtraRoots(st, base)) }

  // caRotator.sync: skipped when the bytes behind the material are unchanged,
  // abandoned when the material does not validate.
  function SyncTo(rep: Replica, st: State, ver: nat, asOf: Time, pc: Pc): Replica
    requires |rep.snaps| > 0
  {
    var roots := ExtraRoots(st, rep.base);
    if st.cert == rep.appliedCert && roots == rep.appliedRoots then
      rep.(snaps := rep.snaps + [Snapshot(rep.snaps[|rep.snaps| - 1].material, ver, asOf)], pc := pc)
    else if Adopted(st.cert, st.key, roots).Failure? then
      rep.(pc := Idle)
    else
      rep.(snaps := rep.snaps + [Snapshot(Adopted(st.cert, st.key, roots).value, ver, asOf)],
           appliedCert := st.cert, appliedRoots := roots, pc := pc)
  }

  predicate Running(s: World, r: nat) { r in s.replicas && |s.replicas[r].snaps| > 0 }

  predicate Enabled(s: World, step: Step) {
    |s.log| > 0 &&
    match step
    case Tick(to) => s.now <= to
    case Start(r, cfg, base) => ValidConfig(cfg) && GoodBase(base) && AdoptionOf(Last(s.log).st, base).Success?
    case Poll(r) => Running(s, r) && s.replicas[r].pc.Idle?
    case Sync(r) => Running(s, r) && s.replicas[r].pc.HasRead? && s.replicas[r].pc.ver < |s.log|
    case Decide(r, sightings, mint) =>
      && Running(s, r) && s.replicas[r].pc.Synced? && s.replicas[r].pc.ver < |s.log|
      && (mint.Some? ==> WellMinted(mint.value, s.now) && mint.value.key.id !in s.minted)
    case StampTime(r) => Running(s, r) && s.replicas[r].pc.HasPlan? && s.replicas[r].pc.ver < |s.log|
    case Commit(r, heard) => Running(s, r) && s.replicas[r].pc.Stamped?
    case Resync(r) => Running(s, r) && s.replicas[r].pc.Wrote? && s.replicas[r].pc.ver < |s.log|
    case Issue(r, snap, serial) =>
      && Running(s, r) && snap < |s.replicas[r].snaps|
      && s.now < s.replicas[r].snaps[snap].material.cert.notAfter
    case Annotate(reason) => true
  }

  function Put(s: World, r: nat, rep: Replica): World { s.(replicas := s.replicas[r := rep]) }

  function Do(s: World, step: Step): World
    requires Enabled(s, step)
  {
    match step
    case Tick(to) => s.(now := to)
    case Start(r, cfg, base) =>
      var m := AdoptionOf(Last(s.log).st, base).value;
      Put(s, r, Replica(cfg, base, s.now, [], [], [Snapshot(m, |s.log| - 1, s.now)], Idle))
    case Poll(r) => Put(s, r, s.replicas[r].(pc := HasRead(|s.log| - 1, s.now)))
    case Sync(r) =>
      var pc := s.replicas[r].pc;
      Put(s, r, SyncTo(s.replicas[r], s.log[pc.ver].st, pc.ver, pc.at, Synced(pc.ver)))
    case Decide(r, sightings, mint) =>
      var rep := s.replicas[r];
      var ctx := Context(rep.cfg, rep.snaps[|rep.snaps| - 1].material.cert, rep.startedAt, sightings, mint);
      var plan := MakePlan(s.log[rep.pc.ver].st, ctx, s.now);
      var pc := if plan.None? then Idle else HasPlan(rep.pc.ver, ctx, plan.value, s.now);
      Put(s, r, rep.(pc := pc)).(minted := s.minted + if mint.Some? then {mint.value.key.id} else {})
    case StampTime(r) =>
      var pc := s.replicas[r].pc;
      Put(s, r, s.replicas[r].(
        pc := Stamped(pc.ver, pc.ctx, pc.plan, pc.plannedAt, Apply(s.log[pc.ver].secret, pc.plan, s.now), s.now)))
    case Commit(r, heard) =>
      var pc := s.replicas[r].pc;
      if pc.ver == |s.log| - 1 then
        var v := Version(pc.next, Read(pc.next), s.now, Planned(pc.ctx, pc.plan, pc.plannedAt, pc.stampedAt));
        Put(s, r, s.replicas[r].(pc := if heard then Wrote(|s.log|, s.now) else Idle)).(log := s.log + [v])
      else Put(s, r, s.replicas[r].(pc := Idle))
    case Resync(r) =>
      var pc := s.replicas[r].pc;
      Put(s, r, SyncTo(s.replicas[r], s.log[pc.ver].st, pc.ver, pc.at, Idle))
    case Issue(r, snap, serial) =>
      var from := s.replicas[r].snaps[snap];
      var ttl := s.replicas[r].cfg.spokeTTL;
      s.(issued := s.issued + {Issued(Sign(from.material, s.now, ttl, serial).value, from, s.now, ttl)})
    case Annotate(reason) =>
      var sec := Last(s.log).secret.(rotateNow := reason);
      s.(log := s.log + [Version(sec, Read(sec), s.now, Annotated(reason))])
  }

  ghost predicate Init(s: World) {
    && |s.log| == 1 && FirstVersion(s.log[0]) && s.log[0].st == Read(s.log[0].secret)
    && s.log[0].at <= s.now && s.replicas == map[] && s.issued == {}
    && forall x :: Stored(s.log[0].st, x) ==> x in s.minted
  }

  ghost predicate IsRun(tr: seq<World>, steps: seq<Step>) {
    && |tr| == |steps| + 1 && Init(tr[0])
    && forall i :: 0 <= i < |steps| ==> Enabled(tr[i], steps[i]) && tr[i + 1] == Do(tr[i], steps[i])
  }

  // --- the invariant ------------------------------------------------------

  // Version ver was the current one at asOf.
  predicate CurrentAt(log: seq<Version>, now: Time, ver: nat, asOf: Time) {
    && ver < |log| && log[ver].at <= asOf <= now
    && (ver + 1 < |log| ==> asOf <= log[ver + 1].at)
  }

  predicate SnapOk(log: seq<Version>, now: Time, base: Pem, snap: Snapshot) {
    && CurrentAt(log, now, snap.ver, snap.asOf)
    && AdoptionOf(log[snap.ver].st, base) == Success(snap.material)
  }

  predicate FreshKey(log: seq<Version>, x: nat) { forall i :: 0 <= i < |log| ==> !Stored(log[i].st, x) }

  function MintOf(pc: Pc): Option<nat> {
    if (pc.HasPlan? || pc.Stamped?) && pc.ctx.mint.Some? then Some(pc.ctx.mint.value.key.id) else None
  }

  predicate PcOk(log: seq<Version>, now: Time, rep: Replica)
    requires |rep.snaps| > 0
  {
    match rep.pc
    case Idle => true
    case HasRead(ver, at) => CurrentAt(log, now, ver, at)
    case Wrote(ver, at) => CurrentAt(log, now, ver, at)
    case Synced(ver) =>
      ver < |log| && log[ver].at <= now && SignerCert(log[ver].st.cert) == Success(rep.snaps[|rep.snaps| - 1].material.cert)
    case HasPlan(ver, ctx, plan, plannedAt) =>
      ver < |log| && log[ver].at <= plannedAt <= now && PlannedFrom(log[ver].st, ctx, plan, plannedAt)
    case Stamped(ver, ctx, plan, plannedAt, next, stampedAt) =>
      && ver < |log| && log[ver].at <= plannedAt <= stampedAt <= now && PlannedFrom(log[ver].st, ctx, plan, plannedAt)
      && next == Apply(log[ver].secret, plan, stampedAt)
  }

  predicate RepOk(log: seq<Version>, now: Time, rep: Replica)
  {
    && ValidConfig(rep.cfg) && GoodBase(rep.base) && |rep.snaps| > 0
    && (forall k :: 0 <= k < |rep.snaps| ==> SnapOk(log, now, rep.base, rep.snaps[k]))
    && (rep.appliedCert != [] ==>
          var st := log[rep.snaps[|rep.snaps| - 1].ver].st;
          rep.appliedCert == st.cert && rep.appliedRoots == ExtraRoots(st, rep.base))
    && PcOk(log, now, rep)
  }

  predicate IssuedOk(log: seq<Version>, now: Time, i: Issued) {
    && CurrentAt(log, now, i.from.ver, i.from.asOf) && i.from.asOf <= i.at <= now
    && i.ttl > 0 && Sign(i.from.material, i.at, i.ttl, i.leaf.serial) == Success(i.leaf)
    && SignerCert(log[i.from.ver].st.cert) == Success(i.from.material.cert)
    && Usable(i.from.material.cert, i.from.material.key)
  }

  predicate LogOk(log: seq<Version>, now: Time) {
    && Chain(log) && FreshMints(log) && Last(log).at <= now
    && forall i :: 0 <= i < |log| ==> log[i].st == Read(log[i].secret)
  }

  ghost predicate MintsOk(s: World) {
    && (forall i, x :: 0 <= i < |s.log| && Stored(s.log[i].st, x) ==> x in s.minted)
    && (forall r :: r in s.replicas && MintOf(s.replicas[r].pc).Some? ==>
          MintOf(s.replicas[r].pc).value in s.minted && FreshKey(s.log, MintOf(s.replicas[r].pc).value))
    && (forall r, q :: r in s.replicas && q in s.replicas && r != q && MintOf(s.replicas[r].pc).Some? ==>
          MintOf(s.replicas[r].pc) != MintOf(s.replicas[q].pc))
  }

  ghost predicate Inv(s: World) {
    && LogOk(s.log, s.now) && MintsOk(s)
    && (forall r :: r in s.replicas ==> RepOk(s.log, s.now, s.replicas[r]))
    && (forall i :: i in s.issued ==> IssuedOk(s.log, s.now, i))
  }

  // --- preservation, one concern at a time ---------------------------------

  lemma CurrentKept(log: seq<Version>, v: Version, now: Time, ver: nat, asOf: Time)
    requires CurrentAt(log, now, ver, asOf) && v.at == now
    ensures CurrentAt(log + [v], now, ver, asOf)
  {
  }

  lemma RepKept(log: seq<Version>, v: Version, now: Time, rep: Replica)
    requires RepOk(log, now, rep) && v.at == now
    ensures RepOk(log + [v], now, rep)
  {
    var log' := log + [v];
    forall k | 0 <= k < |rep.snaps| ensures SnapOk(log', now, rep.base, rep.snaps[k]) {
      assert SnapOk(log, now, rep.base, rep.snaps[k]);
      CurrentKept(log, v, now, rep.snaps[k].ver, rep.snaps[k].asOf);
    }
    assert SnapOk(log, now, rep.base, rep.snaps[|rep.snaps| - 1]);
  }

  lemma RepLater(log: seq<Version>, now: Time, later: Time, rep: Replica)
    requires RepOk(log, now, rep) && now <= later
    ensures RepOk(log, later, rep)
  {
    forall k | 0 <= k < |rep.snaps| ensures SnapOk(log, later, rep.base, rep.snaps[k]) {
      assert SnapOk(log, now, rep.base, rep.snaps[k]);
    }
  }

  lemma LogGrows(log: seq<Version>, now: Time, v: Version)
    requires LogOk(log, now) && Legit(Last(log), v) && v.at == now
    requires Because(v, RotationIsDue) && v.write.ctx.mint.Some? ==> FreshKey(log, v.write.ctx.mint.value.key.id)
    ensures LogOk(log + [v], now)
  {
    var log' := log + [v];
    LegitMoves(Last(log), v);
    forall i | 0 < i < |log'| ensures MovesAt(log', i) && FreshAt(log', i) {
      if i < |log| {
        assert MovesAt(log, i) && FreshAt(log, i);
      }
    }
  }

  // Equal certificate bytes mean an equal key: the fast path skips nothing.
  lemma SameCertSameMaterial(st0: State, st: State, t0: Time, t: Time, base: Pem)
    requires Coherent(st0, t0) && Coherent(st, t)
    requires st.cert == st0.cert && ExtraRoots(st, base) == ExtraRoots(st0, base)
    ensures AdoptionOf(st, base) == AdoptionOf(st0, base)
  {
    assert SignerKey(st.key).value == SignerKey(st0.key).value;
  }

  lemma CoherentSigner(st: State, t: Time)
    requires Coherent(st, t)
    ensures st.cert != [] && SignerCert(st.cert).Success?
  {
  }

  lemma AdoptedSigner(st: State, base: Pem)
    requires AdoptionOf(st, base).Success?
    ensures SignerCert(st.cert) == Success(AdoptionOf(st, base).value.cert)
    ensures Usable(AdoptionOf(st, base).value.cert, AdoptionOf(st, base).value.key)
  {
  }

  // Publishing one more sound snapshot keeps a replica sound.
  lemma SnapAdded(log: seq<Version>, now: Time, rep: Replica, rep': Replica, snap: Snapshot)
    requires RepOk(log, now, rep) && SnapOk(log, now, rep.base, snap)
    requires rep' == rep.(snaps := rep.snaps + [snap], appliedCert := rep'.appliedCert, appliedRoots := rep'.appliedRoots, pc := rep'.pc)
    requires rep'.appliedCert == log[snap.ver].st.cert && rep'.appliedRoots == ExtraRoots(log[snap.ver].st, rep.base)
    requires PcOk(log, now, rep')
    ensures RepOk(log, now, rep')
  {
    hide PcOk, ExtraRoots, GoodBase, ValidConfig;
    forall k | 0 <= k < |rep'.snaps| ensures SnapOk(log, now, rep.base, rep'.snaps[k]) {
      hide SnapOk;
      if k < |rep.snaps| {
        assert SnapOk(log, now, rep.base, rep.snaps[k]);
      }
    }
  }

  // What sync publishes is the material of the version it read, on the fast
  // path too; and it always succeeds.
  lemma SyncPublishes(log: seq<Version>, now: Time, rep: Replica, ver: nat)
    requires LogOk(log, now) && RepOk(log, now, rep) && ver < |log|
    ensures log[ver].st.cert != []
    ensures log[ver].st.cert == rep.appliedCert && ExtraRoots(log[ver].st, rep.base) == rep.appliedRoots ==>
              AdoptionOf(log[ver].st, rep.base) == Success(rep.snaps[|rep.snaps| - 1].material)
  {
    hide Chain, FreshMints, Coherent, Adopted, ExtraRoots, PcOk;
    AlwaysCoherent(log, ver);
    CoherentSigner(log[ver].st, log[ver].at);
    var last := rep.snaps[|rep.snaps| - 1];
    assert SnapOk(log, now, rep.base, last);
    AlwaysCoherent(log, last.ver);
    if log[ver].st.cert == rep.appliedCert && ExtraRoots(log[ver].st, rep.base) == rep.appliedRoots {
      SameCertSameMaterial(log[last.ver].st, log[ver].st, log[last.ver].at, log[ver].at, rep.base);
    }
  }

  lemma SyncKeeps(log: seq<Version>, now: Time, rep: Replica, ver: nat, at: Time, pc: Pc)
    requires LogOk(log, now) && RepOk(log, now, rep) && CurrentAt(log, now, ver, at)
    requires pc == Idle || pc == Synced(ver)
    ensures RepOk(log, now, SyncTo(rep, log[ver].st, ver, at, pc))
  {
    hide LogOk, RepOk, Adopted, ExtraRoots, SignerCert;
    var st := log[ver].st;
    SnapsExist(log, now, rep);
    var rep' := SyncTo(rep, st, ver, at, pc);
    SyncPublishes(log, now, rep, ver);
    if |rep'.snaps| == |rep.snaps| {
      PcChange(log, now, rep, Idle);
    } else {
      AdoptedSigner(st, rep.base);
      SnapAdded(log, now, rep, rep', Snapshot(AdoptionOf(st, rep.base).value, ver, at));
    }
  }

  lemma SnapsExist(log: seq<Version>, now: Time, rep: Replica)
    requires RepOk(log, now, rep)
    ensures |rep.snaps| > 0
  {
  }

  lemma PcChange(log: seq<Version>, now: Time, rep: Replica, pc: Pc)
    requires RepOk(log, now, rep) && PcOk(log, now, rep.(pc := pc))
    ensures RepOk(log, now, rep.(pc := pc))
  {
    hide PcOk, SnapOk;
  }

  // Replacing one replica and growing minted leaves everything else alone.
  lemma OneReplica(s: World, s': World, r: nat, rep: Replica)
    requires Inv(s) && RepOk(s.log, s.now, rep)
    requires s' == Put(s, r, rep).(minted := s'.minted) && s.minted <= s'.minted
    requires MintOf(rep.pc).Some? ==>
               || (r in s.replicas && MintOf(rep.pc) == MintOf(s.replicas[r].pc))
               || (MintOf(rep.pc).value in s'.minted && MintOf(rep.pc).value !in s.minted)
    ensures Inv(s')
  {
    hide LogOk, RepOk, IssuedOk, Stored, MintOf;
  }

  lemma PollKeeps(s: World, r: nat)
    requires Inv(s) && Enabled(s, Poll(r))
    ensures Inv(Do(s, Poll(r)))
  {
    hide Inv, SnapOk, Chain, FreshMints, ExtraRoots;
    assert RepOk(s.log, s.now, s.replicas[r]) && LogOk(s.log, s.now) by { PartsOf(s, r); }
    PcChange(s.log, s.now, s.replicas[r], HasRead(|s.log| - 1, s.now));
    OneReplica(s, Do(s, Poll(r)), r, s.replicas[r].(pc := HasRead(|s.log| - 1, s.now)));
  }

  lemma PartsOf(s: World, r: nat)
    requires Inv(s)
    ensures LogOk(s.log, s.now)
    ensures r in s.replicas ==> RepOk(s.log, s.now, s.replicas[r])
  {
    hide LogOk, RepOk, MintsOk;
  }

  lemma SyncStepKeeps(s: World, r: nat)
    requires Inv(s) && Enabled(s, Sync(r))
    ensures Inv(Do(s, Sync(r)))
  {
    hide Inv, LogOk, SyncTo, SnapOk, ExtraRoots;
    PartsOf(s, r);
    var pc := s.replicas[r].pc;
    SyncKeeps(s.log, s.now, s.replicas[r], pc.ver, pc.at, Synced(pc.ver));
    SyncPc(s.replicas[r], s.log[pc.ver].st, pc.ver, pc.at, Synced(pc.ver));
    OneReplica(s, Do(s, Sync(r)), r, SyncTo(s.replicas[r], s.log[pc.ver].st, pc.ver, pc.at, Synced(pc.ver)));
  }

  lemma SyncPc(rep: Replica, st: State, ver: nat, asOf: Time, pc: Pc)
    requires |rep.snaps| > 0
    ensures SyncTo(rep, st, ver, asOf, pc).pc == pc || SyncTo(rep, st, ver, asOf, pc).pc == Idle
  {
    hide ExtraRoots, Adopted;
  }

  lemma ResyncKeeps(s: World, r: nat)
    requires Inv(s) && Enabled(s, Resync(r))
    ensures Inv(Do(s, Resync(r)))
  {
    hide Inv, LogOk, SyncTo, SnapOk, ExtraRoots;
    PartsOf(s, r);
    var pc := s.replicas[r].pc;
    SyncKeeps(s.log, s.now, s.replicas[r], pc.ver, pc.at, Idle);
    SyncPc(s.replicas[r], s.log[pc.ver].st, pc.ver, pc.at, Idle);
    OneReplica(s, Do(s, Resync(r)), r, SyncTo(s.replicas[r], s.log[pc.ver].st, pc.ver, pc.at, Idle));
  }

  lemma StartKeeps(s: World, r: nat, cfg: Config, base: Pem)
    requires Inv(s) && Enabled(s, Start(r, cfg, base))
    ensures Inv(Do(s, Start(r, cfg, base)))
  {
    hide Inv, Chain, FreshMints, ExtraRoots, Adopted;
    PartsOf(s, r);
    var s' := Do(s, Start(r, cfg, base));
    OneReplica(s, s', r, s'.replicas[r]);
  }

  lemma DecideKeeps(s: World, r: nat, sightings: Sightings, mint: Option<Root>)
    requires Inv(s) && Enabled(s, Decide(r, sightings, mint))
    ensures Inv(Do(s, Decide(r, sightings, mint)))
  {
    hide Inv, LogOk, SnapOk, MakePlan, WellMinted, SignerCert;
    PartsOf(s, r);
    var s' := Do(s, Decide(r, sightings, mint));
    PcChange(s.log, s.now, s.replicas[r], s'.replicas[r].pc);
    OneReplica(s, s', r, s'.replicas[r]);
  }

  lemma StampKeeps(s: World, r: nat)
    requires Inv(s) && Enabled(s, StampTime(r))
    ensures Inv(Do(s, StampTime(r)))
  {
    hide Inv, LogOk, SnapOk, PlannedFrom, Apply;
    PartsOf(s, r);
    var s' := Do(s, StampTime(r));
    PcChange(s.log, s.now, s.replicas[r], s'.replicas[r].pc);
    OneReplica(s, s', r, s'.replicas[r]);
  }

  // A version appended at the current instant, by a write that repeats no key.
  lemma AppendKeeps(s: World, v: Version)
    requires Inv(s) && Legit(Last(s.log), v) && v.at == s.now
    requires forall x :: Stored(v.st, x) ==> x in s.minted
    requires Because(v, RotationIsDue) && v.write.ctx.mint.Some? ==> FreshKey(s.log, v.write.ctx.mint.value.key.id)
    requires forall r, x :: r in s.replicas && MintOf(s.replicas[r].pc) == Some(x) ==> !Stored(v.st, x)
    ensures Inv(s.(log := s.log + [v]))
  {
    hide LogOk, RepOk, IssuedOk, Stored, Legit;
    var log' := s.log + [v];
    LogGrows(s.log, s.now, v);
    forall r | r in s.replicas ensures RepOk(log', s.now, s.replicas[r]) {
      RepKept(s.log, v, s.now, s.replicas[r]);
    }
    forall i | i in s.issued ensures IssuedOk(log', s.now, i) {
      IssuedKept(s.log, v, s.now, i);
    }
  }

  lemma IssuedKept(log: seq<Version>, v: Version, now: Time, i: Issued)
    requires IssuedOk(log, now, i) && v.at == now
    ensures IssuedOk(log + [v], now, i)
  {
    hide Sign, Usable, SignerCert;
  }

  function CommittedVersion(s: World, pc: Pc): Version
    requires pc.Stamped?
  {
    Version(pc.next, Read(pc.next), s.now, Planned(pc.ctx, pc.plan, pc.plannedAt, pc.stampedAt))
  }

  // A stamped plan whose compare-and-swap wins is a legitimate write.
  lemma WinnerIsLegit(s: World, r: nat)
    requires Inv(s) && r in s.replicas && s.replicas[r].pc.Stamped? && s.replicas[r].pc.ver == |s.log| - 1
    ensures Legit(Last(s.log), CommittedVersion(s, s.replicas[r].pc))
    ensures Because(CommittedVersion(s, s.replicas[r].pc), RotationIsDue) && s.replicas[r].pc.ctx.mint.Some? ==>
              FreshKey(s.log, s.replicas[r].pc.ctx.mint.value.key.id)
  {
    hide Inv, SnapOk, Apply, PlannedFrom, Stored, Read;
    PartsOf(s, r);
    if MintOf(s.replicas[r].pc).Some? {
      MintParts(s, r);
    }
  }

  lemma MintParts(s: World, r: nat)
    requires Inv(s) && r in s.replicas && MintOf(s.replicas[r].pc).Some?
    ensures MintOf(s.replicas[r].pc).value in s.minted && FreshKey(s.log, MintOf(s.replicas[r].pc).value)
  {
    hide LogOk, RepOk, IssuedOk, FreshKey, MintOf;
  }

  lemma MintsApart(s: World, r: nat, q: nat)
    requires Inv(s) && r in s.replicas && q in s.replicas && r != q && MintOf(s.replicas[r].pc).Some?
    ensures MintOf(s.replicas[r].pc) != MintOf(s.replicas[q].pc)
  {
    hide LogOk, RepOk, IssuedOk, FreshKey, MintOf;
  }

  lemma MintedInLog(s: World, i: nat, x: nat)
    requires Inv(s) && i < |s.log| && Stored(s.log[i].st, x)
    ensures x in s.minted
  {
    hide LogOk, RepOk, IssuedOk, FreshKey, MintOf, Stored;
  }

  // The keys a winning write leaves in the Secret are all accounted for.
  lemma WinnerKeys(s: World, r: nat, x: nat)
    requires Inv(s) && r in s.replicas && s.replicas[r].pc.Stamped? && s.replicas[r].pc.ver == |s.log| - 1
    requires Stored(CommittedVersion(s, s.replicas[r].pc).st, x)
    ensures x in s.minted
    ensures Stored(Last(s.log).st, x) || MintOf(s.replicas[r].pc) == Some(x)
  {
    hide Inv, RepOk, Stored, Moves, Legit, Coherent, Chain;
    var v := CommittedVersion(s, s.replicas[r].pc);
    PartsOf(s, r);
    WinnerIsLegit(s, r);
    LegitMoves(Last(s.log), v);
    AlwaysCoherent(s.log, |s.log| - 1);
    if Stored(Last(s.log).st, x) {
      MintedInLog(s, |s.log| - 1, x);
    } else {
      NewKeysAreMinted(Last(s.log), v, x);
      MintParts(s, r);
    }
  }

  lemma CommitKeeps(s: World, r: nat, heard: bool)
    requires Inv(s) && Enabled(s, Commit(r, heard))
    ensures Inv(Do(s, Commit(r, heard)))
  {
    hide Inv, LogOk, RepOk, Stored, Legit, Read, FreshKey;
    PartsOf(s, r);
    var rep := s.replicas[r];
    PcChangeIdle(s.log, s.now, rep);
    var s1 := Put(s, r, rep.(pc := Idle));
    OneReplica(s, s1, r, rep.(pc := Idle));
    if rep.pc.ver == |s.log| - 1 {
      var v := CommittedVersion(s, rep.pc);
      WinnerIsLegit(s, r);
      forall x | Stored(v.st, x) ensures x in s.minted { WinnerKeys(s, r, x); }
      forall q, x | q in s1.replicas && MintOf(s1.replicas[q].pc) == Some(x) ensures !Stored(v.st, x) {
        if Stored(v.st, x) {
          WinnerKeys(s, r, x);
          MintsApart(s, q, r);
          MintParts(s, q);
          NotFresh(s.log, x);
        }
      }
      AppendKeeps(s1, v);
      var s2 := s1.(log := s1.log + [v]);
      if heard {
        PartsOf(s2, r);
        WroteOk(s2.log, s2.now, s2.replicas[r]);
        OneReplica(s2, Do(s, Commit(r, heard)), r, rep.(pc := Wrote(|s.log|, s.now)));
      }
    }
  }

  lemma PcChangeIdle(log: seq<Version>, now: Time, rep: Replica)
    requires RepOk(log, now, rep)
    ensures RepOk(log, now, rep.(pc := Idle))
  {
    PcChange(log, now, rep, Idle);
  }

  lemma NotFresh(log: seq<Version>, x: nat)
    requires |log| > 0 && FreshKey(log, x)
    ensures !Stored(Last(log).st, x)
  {
    hide Stored;
  }

  lemma WroteOk(log: seq<Version>, now: Time, rep: Replica)
    requires |log| > 0 && Last(log).at == now && RepOk(log, now, rep)
    ensures RepOk(log, now, rep.(pc := Wrote(|log| - 1, now)))
  {
    hide SnapOk;
    PcChange(log, now, rep, Wrote(|log| - 1, now));
  }

  lemma AnnotateKeeps(s: World, reason: string)
    requires Inv(s) && Enabled(s, Annotate(reason))
    ensures Inv(Do(s, Annotate(reason)))
  {
    hide Inv, RepOk, Chain, FreshMints;
    PartsOf(s, 0);
    var sec := Last(s.log).secret.(rotateNow := reason);
    var v := Version(sec, Read(sec), s.now, Annotated(reason));
    assert v.st == Last(s.log).st.(force := reason);
    forall x | Stored(v.st, x) ensures x in s.minted { MintedInLog(s, |s.log| - 1, x); }
    forall q, x | q in s.replicas && MintOf(s.replicas[q].pc) == Some(x) ensures !Stored(v.st, x) {
      MintParts(s, q);
      NotFresh(s.log, x);
    }
    AppendKeeps(s, v);
  }

  lemma TickKeeps(s: World, to: Time)
    requires Inv(s) && Enabled(s, Tick(to))
    ensures Inv(Do(s, Tick(to)))
  {
    hide RepOk, MintsOk, Chain, FreshMints;
    assert MintsOk(s.(now := to)) by { MintsTimeless(s, to); }
    forall r | r in s.replicas ensures RepOk(s.log, to, s.replicas[r]) {
      RepLater(s.log, s.now, to, s.replicas[r]);
    }
  }

  lemma MintsTimeless(s: World, to: Time)
    requires MintsOk(s)
    ensures MintsOk(s.(now := to))
  {
    hide MintOf, Stored;
  }

  lemma IssueKeeps(s: World, r: nat, snap: nat, serial: nat)
    requires Inv(s) && Enabled(s, Issue(r, snap, serial))
    ensures Inv(Do(s, Issue(r, snap, serial)))
  {
    hide LogOk, MintsOk, Adopted, ExtraRoots, PcOk;
    var rep := s.replicas[r];
    assert SnapOk(s.log, s.now, rep.base, rep.snaps[snap]);
    AdoptedSigner(s.log[rep.snaps[snap].ver].st, rep.base);
    MintsUnissued(s, Do(s, Issue(r, snap, serial)));
  }

  lemma MintsUnissued(s: World, s': World)
    requires MintsOk(s) && s' == s.(issued := s'.issued)
    ensures MintsOk(s')
  {
    hide MintOf, Stored;
  }

  lemma StepKeeps(s: World, step: Step)
    requires Inv(s) && Enabled(s, step)
    ensures Inv(Do(s, step))
  {
    hide Inv, Enabled, Do;
    match step
    case Tick(to) => TickKeeps(s, to);
    case Start(r, cfg, base) => StartKeeps(s, r, cfg, base);
    case Poll(r) => PollKeeps(s, r);
    case Sync(r) => SyncStepKeeps(s, r);
    case Decide(r, sightings, mint) => DecideKeeps(s, r, sightings, mint);
    case StampTime(r) => StampKeeps(s, r);
    case Commit(r, heard) => CommitKeeps(s, r, heard);
    case Resync(r) => ResyncKeeps(s, r);
    case Issue(r, snap, serial) => IssueKeeps(s, r, snap, serial);
    case Annotate(reason) => AnnotateKeeps(s, reason);
  }

  lemma InitInv(s: World)
    requires Init(s)
    ensures Inv(s)
  {
    hide Coherent, Read, Stored;
  }

  // Every state of every run.
  lemma {:induction false} AlwaysInv(tr: seq<World>, steps: seq<Step>, i: nat)
    requires IsRun(tr, steps) && i < |tr|
    ensures Inv(tr[i])
  {
    hide Inv, Enabled, Do, Init;
    if i == 0 {
      InitInv(tr[0]);
    } else {
      AlwaysInv(tr, steps, i - 1);
      assert Enabled(tr[i - 1], steps[i - 1]) && tr[i - 1 + 1] == Do(tr[i - 1], steps[i - 1]);
      StepKeeps(tr[i - 1], steps[i - 1]);
    }
  }
}
