// The timing conditions of the guarantees are exact. For any settings and any
// delays that miss a condition there is a run, of real steps, that keeps to those
// delays and breaks the guarantee.

module Tightness {
  import opened Wrappers
  import opened Pki
  import opened Rotation
  import opened Versions
  import opened Retirement
  import opened Fleet
  import opened Guarantees

  ghost predicate Valid(run: Run<World, Step>) { |run.tr| > 0 && IsRun(run.tr, run.steps) }

  lemma Take(run: Run<World, Step>, step: Step) returns (run': Run<World, Step>)
    requires Valid(run) && Enabled(Now(run), step)
    ensures Valid(run') && |run'.tr| > 0 && Now(run') == Do(Now(run), step)
  {
    hide Enabled, Do, Init;
    run' := Run(run.tr + [Do(Now(run), step)], run.steps + [step]);
    forall i | 0 <= i < |run'.steps|
      ensures Enabled(run'.tr[i], run'.steps[i]) && run'.tr[i + 1] == Do(run'.tr[i], run'.steps[i])
    {
      if i < |run.steps| {
        assert Enabled(run.tr[i], run.steps[i]) && run.tr[i + 1] == Do(run.tr[i], run.steps[i]);
      }
    }
  }

  lemma RunFacts(run: Run<World, Step>)
    requires Valid(run)
    ensures |run.tr| > 0 && Inv(Now(run)) && |Now(run).log| > 0
    ensures SignerCert(Last(Now(run).log).st.cert).Success?
  {
    hide IsRun, Inv, LogOk, SignerCert;
    assert IsRun(run.tr, run.steps);
    AlwaysInv(run.tr, run.steps, |run.tr| - 1);
    PartsOf(Now(run), 0);
    HistoryFacts(Now(run).log, Now(run).now);
    CoherentSigner(Last(Now(run).log).st, Last(Now(run).log).at);
  }

  // Replica r changes its place and its snapshots, and nothing else happens.
  predicate Only(s: World, s': World, r: nat) {
    && s'.log == s.log && s'.now == s.now && s'.issued == s.issued && s'.replicas.Keys == s.replicas.Keys
    && r in s.replicas && (forall q :: q in s.replicas && q != r ==> s'.replicas[q] == s.replicas[q])
    && s'.replicas[r].cfg == s.replicas[r].cfg && s'.replicas[r].base == s.replicas[r].base
    && s'.replicas[r].startedAt == s.replicas[r].startedAt && |s'.replicas[r].snaps| > 0
  }

  // A poll that reads and adopts the current version.
  lemma ReadAndSync(run: Run<World, Step>, r: nat) returns (run': Run<World, Step>)
    requires Valid(run) && r in Now(run).replicas && Now(run).replicas[r].pc.Idle?
    ensures Valid(run') && |run'.tr| > 0 && Only(Now(run), Now(run'), r) && Now(run').minted == Now(run).minted
    ensures var s := Now(run'); var rep := s.replicas[r]; var snap := rep.snaps[|rep.snaps| - 1];
            && |s.log| > 0 && rep.pc == Synced(|s.log| - 1) && snap.asOf == s.now && snap.ver == |s.log| - 1
            && SignerCert(Last(s.log).st.cert) == Success(snap.material.cert)
  {
    hide Valid, Inv, LogOk, Adopted, ExtraRoots, SignerCert, SnapOk, Coherent;
    RunFacts(run);
    PartsOf(Now(run), r);
    var mid := Take(run, Poll(r));
    RunFacts(mid);
    PartsOf(Now(mid), r);
    var s := Now(mid);
    HistoryFacts(s.log, s.now);
    BundleOf(Last(s.log).st, Last(s.log).at, s.replicas[r].base);
    SyncPublishes(s.log, s.now, s.replicas[r], |s.log| - 1);
    run' := Take(mid, Sync(r));
  }

  // The same poll taken as far as a stamped plan.
  lemma PlanUp(run: Run<World, Step>, r: nat, sightings: Sightings, mint: Option<Root>, plan: Plan) returns (run': Run<World, Step>)
    requires Valid(run) && r in Now(run).replicas && Now(run).replicas[r].pc.Idle?
    requires mint.Some? ==> WellMinted(mint.value, Now(run).now) && mint.value.key.id !in Now(run).minted
    requires |Now(run).log| > 0 && SignerCert(Last(Now(run).log).st.cert).Success?
    requires var s := Now(run); var rep := s.replicas[r];
             MakePlan(Last(s.log).st, Context(rep.cfg, SignerOf(Last(s.log).st), rep.startedAt, sightings, mint), s.now) == Some(plan)
    ensures Valid(run') && |run'.tr| > 0 && Only(Now(run), Now(run'), r)
    ensures var s := Now(run); var rep := s.replicas[r];
            Now(run').replicas[r].pc ==
              Stamped(|s.log| - 1, Context(rep.cfg, SignerOf(Last(s.log).st), rep.startedAt, sightings, mint),
                      plan, s.now, Apply(Last(s.log).secret, plan, s.now), s.now)
    ensures Now(run').minted == Now(run).minted + if mint.Some? then {mint.value.key.id} else {}
  {
    hide Valid, MakePlan, Apply, SignerCert, WellMinted;
    var a := ReadAndSync(run, r);
    var b := Take(a, Decide(r, sightings, mint));
    run' := Take(b, StampTime(r));
  }

  const GO: string := "go"

  function RootNo(k: nat, end: Time): Root {
    Root(Certificate(k, k, 0, end, true, true, true), PrivateKey(k, true))
  }

  function FirstSecret(end: Time): Secret {
    Secret(map[CaCert := PemData([CertBlock(RootNo(0, end).cert)]), CaKey := PemData([KeyBlock(RootNo(0, end).key)])], "", None)
  }

  function FirstSteady(end: Time): State {
    State(NoPhase, Missing, [CertBlock(RootNo(0, end).cert)], [KeyBlock(RootNo(0, end).key)], [], [], [], Missing, Missing, "")
  }

  lemma SingleBlocks(c: Certificate, k: PrivateKey)
    ensures Blocks([CertBlock(c)]) == [CertBlock(c)] && Blocks([KeyBlock(k)]) == [KeyBlock(k)]
  {
    assert Blocks([CertBlock(c)]) == [CertBlock(c)] + Blocks([]);
    assert Blocks([KeyBlock(k)]) == [KeyBlock(k)] + Blocks([]);
  }

  lemma FirstIsInit(end: Time)
    requires end > 0
    ensures Read(FirstSecret(end)) == FirstSteady(end)
    ensures Init(World([Version(FirstSecret(end), FirstSteady(end), 0, Initial)], map[], 0, {}, {0}))
    ensures Coherent(FirstSteady(end).(force := GO), 0)
  {
    SingleBlocks(RootNo(0, end).cert, RootNo(0, end).key);
    assert Keypair(FirstSteady(end).cert, FirstSteady(end).key);
  }

  lemma ForceRead(sec: Secret, reason: string)
    ensures Read(sec.(rotateNow := reason)) == Read(sec).(force := reason)
  {
  }

  // One steady root, a rotation ordered, and replicas 0 and 1 running.
  lemma Opening(cfg: Config, end: Time) returns (run: Run<World, Step>)
    requires ValidConfig(cfg) && end > 0
    ensures Valid(run) && |run.tr| > 0
    ensures var s := Now(run);
            && |s.log| == 2 && s.log[1].st == FirstSteady(end).(force := GO) && s.log[1].at == 0 && s.log[1].write.Annotated?
            && s.now == 0 && s.issued == {} && s.minted == {0}
            && s.replicas.Keys == {0, 1} && s.replicas[0].pc.Idle? && s.replicas[1].pc.Idle?
            && s.replicas[0].startedAt == s.replicas[1].startedAt == 0
            && s.replicas[0].cfg == s.replicas[1].cfg == cfg && s.replicas[0].base == s.replicas[1].base == []
  {
    hide Read, Init, Coherent, AdoptionOf, ValidConfig, FirstSecret, FirstSteady;
    FirstIsInit(end);
    var v := Version(FirstSecret(end), FirstSteady(end), 0, Initial);
    run := Run([World([v], map[], 0, {}, {0})], []);
    ForceRead(v.secret, GO);
    run := Take(run, Annotate(GO));
    assert Last(Now(run).log).st == FirstSteady(end).(force := GO);
    assert GoodBase([]);
    BundleOf(Last(Now(run).log).st, 0, []);
    run := Take(run, Start(0, cfg, []));
    run := Take(run, Start(1, cfg, []));
  }

  // A stamped plan whose version is still current is committed; what the next
  // reader sees is the plan's effect.
  lemma CommitNow(run: Run<World, Step>, r: nat, prev: State) returns (run': Run<World, Step>)
    requires Valid(run) && |run.tr| > 0 && r in Now(run).replicas && Now(run).replicas[r].pc.Stamped?
    requires |Now(run).log| > 0 && Now(run).replicas[r].pc.ver == |Now(run).log| - 1
    requires Last(Now(run).log).st == prev
    ensures Valid(run') && |run'.tr| > 0
    ensures var s := Now(run); var s' := Now(run'); var pc := s.replicas[r].pc;
            && |s'.log| == |s.log| + 1 && s'.log[..|s.log|] == s.log && Last(s'.log).at == s.now
            && Last(s'.log).write == Planned(pc.ctx, pc.plan, pc.plannedAt, pc.stampedAt)
            && Last(s'.log).st == Effect(prev, pc.ctx, pc.plan.reason, pc.plannedAt, pc.stampedAt)
            && s'.now == s.now && s'.issued == s.issued && s'.minted == s.minted && s'.replicas == s.replicas[r := s.replicas[r].(pc := Idle)]
  {
    hide Valid, Inv, Read, MakePlan, Apply, Effect, SnapOk, Written;
    RunFacts(run);
    PartsOf(Now(run), r);
    var s := Now(run);
    var pc := s.replicas[r].pc;
    HistoryFacts(s.log, s.now);
    ApplyWrites(Last(s.log).secret, pc.plan, pc.stampedAt);
    WrittenEffect(Last(s.log).secret, pc.next, pc.ctx, pc.plannedAt, pc.plan, pc.stampedAt);
    SnapsExist(s.log, s.now, s.replicas[r]);
    run' := Take(run, Commit(r, false));
  }

  const NOBODY: Sightings := Sightings(map[], {})

  function FirstPublishing(end: Time): State {
    State(Known(Publishing), At(0), [CertBlock(RootNo(0, end).cert)], [KeyBlock(RootNo(0, end).key)],
          [CertBlock(RootNo(1, end).cert)], [KeyBlock(RootNo(1, end).key)], [], Missing, Missing, "")
  }

  // Promoted at p, with the horizon that fixes.
  function SigningSince(cfg: Config, end: Time, p: Time): State {
    State(Known(Signing), At(p), [CertBlock(RootNo(1, end).cert)], [KeyBlock(RootNo(1, end).key)], [], [],
          [CertBlock(RootNo(0, end).cert)], Missing, At(p + RetirementHold(cfg)), "")
  }

  function FirstSigning(cfg: Config, end: Time): State { SigningSince(cfg, end, cfg.spokeTTL) }

  function Ctx(cfg: Config, authority: Certificate, mint: Option<Root>): Context { Context(cfg, authority, 0, NOBODY, mint) }

  lemma BeginPlan(cfg: Config, end: Time) returns (plan: Plan)
    requires ValidConfig(cfg) && end > 0
    ensures var ctx := Ctx(cfg, RootNo(0, end).cert, Some(RootNo(1, end)));
            && MakePlan(FirstSteady(end).(force := GO), ctx, 0) == Some(plan) && plan.reason == RotationIsDue
            && Effect(FirstSteady(end).(force := GO), ctx, RotationIsDue, 0, 0) == FirstPublishing(end)
    ensures SignerCert(FirstSteady(end).cert) == Success(RootNo(0, end).cert)
  {
    SingleBlocks(RootNo(0, end).cert, RootNo(0, end).key);
    plan := MakePlan(FirstSteady(end).(force := GO), Ctx(cfg, RootNo(0, end).cert, Some(RootNo(1, end))), 0).value;
  }

  lemma PromotePlan(cfg: Config, end: Time, p: Time) returns (plan: Plan)
    requires ValidConfig(cfg) && end > 0 && p >= cfg.spokeTTL
    ensures var ctx := Ctx(cfg, RootNo(0, end).cert, None);
            && MakePlan(FirstPublishing(end), ctx, p) == Some(plan) && plan.reason == SuccessorPublished
            && Effect(FirstPublishing(end), ctx, SuccessorPublished, p, p) == SigningSince(cfg, end, p)
    ensures SignerCert(FirstPublishing(end).cert) == Success(RootNo(0, end).cert)
  {
    SingleBlocks(RootNo(0, end).cert, RootNo(0, end).key);
    plan := MakePlan(FirstPublishing(end), Ctx(cfg, RootNo(0, end).cert, None), p).value;
  }

  lemma RetirePlan(cfg: Config, end: Time, t: Time) returns (plan: Plan)
    requires ValidConfig(cfg) && end > 0 && t >= cfg.spokeTTL + RetirementHold(cfg)
    ensures var ctx := Ctx(cfg, RootNo(1, end).cert, None);
            && MakePlan(FirstSigning(cfg, end), ctx, t) == Some(plan) && plan.reason == RootRetired
            && Effect(FirstSigning(cfg, end), ctx, RootRetired, t, t) == FirstRetired(cfg, end, t)
    ensures SignerCert(FirstSigning(cfg, end).cert) == Success(RootNo(1, end).cert)
    ensures SignerCert(FirstSigning(cfg, end).prevCert) == Success(RootNo(0, end).cert)
  {
    SingleBlocks(RootNo(1, end).cert, RootNo(1, end).key);
    SingleBlocks(RootNo(0, end).cert, RootNo(0, end).key);
    assert Holdouts(NOBODY, Outgoing(FirstSigning(cfg, end))) == {};
    plan := MakePlan(FirstSigning(cfg, end), Ctx(cfg, RootNo(1, end).cert, None), t).value;
  }

  predicate Ready(s: World, cfg: Config, r: nat) {
    r in s.replicas && s.replicas[r].pc.Idle? && s.replicas[r].startedAt == 0 && s.replicas[r].cfg == cfg && s.replicas[r].base == []
  }

  // Publication, promptly; then the clock runs a full certificate lifetime.
  lemma PublishedInTime(cfg: Config, end: Time) returns (run: Run<World, Step>)
    requires ValidConfig(cfg) && end > 0
    ensures Valid(run) && |run.tr| > 0
    ensures var s := Now(run);
            && |s.log| == 3 && s.log[1].write.Annotated?
            && s.log[2].st == FirstPublishing(end) && s.log[2].at == 0
            && Because(s.log[2], RotationIsDue) && s.log[2].write.ctx.cfg == cfg && s.log[2].write.stampedAt == 0
            && s.now == cfg.spokeTTL && s.issued == {} && Ready(s, cfg, 0) && Ready(s, cfg, 1)
  {
    hide Valid, MakePlan, Effect, SignerCert, Apply, ValidConfig;
    run := Opening(cfg, end);
    var plan := BeginPlan(cfg, end);
    assert WellMinted(RootNo(1, end), 0);
    run := PlanUp(run, 0, NOBODY, Some(RootNo(1, end)), plan);
    run := CommitNow(run, 0, FirstSteady(end).(force := GO));
    assert cfg.spokeTTL >= 0 by { PositiveTTL(cfg); }
    run := Take(run, Tick(cfg.spokeTTL));
  }

  lemma PositiveTTL(cfg: Config)
    requires ValidConfig(cfg)
    ensures cfg.spokeTTL > 0 && cfg.renewGrace >= 0 && cfg.poll > 0
  {
  }

  // What replica 0 has written by the time of its promotion.
  predicate WrittenSoFar(s: World, cfg: Config, end: Time, latency: nat) {
    && |s.log| == 4 && s.log[1].write.Annotated? && s.log[2].st == FirstPublishing(end) && s.log[2].at == 0
    && Because(s.log[2], RotationIsDue) && s.log[2].write.ctx.cfg == cfg && s.log[2].write.stampedAt == 0
    && s.log[3].st == FirstSigning(cfg, end) && s.log[3].at == cfg.spokeTTL + latency
    && Because(s.log[3], SuccessorPublished) && s.log[3].write.ctx.cfg == cfg
    && s.log[3].write.plannedAt == s.log[3].write.stampedAt == cfg.spokeTTL
  }

  // Replica 0 stamps the promotion; it reaches the API server latency later,
  // just after replica 1 read the old version.
  lemma PromotedLate(cfg: Config, end: Time, latency: nat) returns (run: Run<World, Step>)
    requires ValidConfig(cfg) && end > 0
    ensures Valid(run) && |run.tr| > 0
    ensures var s := Now(run);
            && WrittenSoFar(s, cfg, end, latency) && s.now == cfg.spokeTTL + latency && s.issued == {} && Ready(s, cfg, 0)
            && 1 in s.replicas && |s.replicas[1].snaps| > 0 && s.replicas[1].cfg == cfg
            && var from := s.replicas[1].snaps[|s.replicas[1].snaps| - 1];
               from.ver == 2 && from.asOf == s.now && from.material.cert == RootNo(0, end).cert
  {
    hide Valid, MakePlan, Effect, SignerCert, Apply, ValidConfig, SigningSince;
    PositiveTTL(cfg);
    run := PublishedInTime(cfg, end);
    var plan := PromotePlan(cfg, end, cfg.spokeTTL);
    run := PlanUp(run, 0, NOBODY, None, plan);
    run := Take(run, Tick(cfg.spokeTTL + latency));
    run := ReadAndSync(run, 1);
    run := CommitNow(run, 0, FirstPublishing(end));
  }

  // lag later replica 1, still on that snapshot, signs a leaf with the outgoing root.
  lemma LateLeaf(cfg: Config, end: Time, latency: nat, lag: nat) returns (run: Run<World, Step>, i: Issued)
    requires ValidConfig(cfg) && end > 2 * cfg.spokeTTL + latency + lag
    ensures Valid(run) && |run.tr| > 0
    ensures var s := Now(run);
            && WrittenSoFar(s, cfg, end, latency) && s.now == cfg.spokeTTL + latency + lag && s.issued == {i} && Ready(s, cfg, 0)
            && i.at == s.now && i.ttl == cfg.spokeTTL && i.from.asOf == cfg.spokeTTL + latency
            && i.from.ver == 2 && i.from.material.cert == RootNo(0, end).cert
            && i.leaf.notAfter == s.now + cfg.spokeTTL && i.leaf.serial == 7
  {
    hide Valid, ValidConfig, SigningSince, FirstPublishing;
    PositiveTTL(cfg);
    run := PromotedLate(cfg, end, latency);
    run := Take(run, Tick(cfg.spokeTTL + latency + lag));
    var s := Now(run);
    var from := s.replicas[1].snaps[|s.replicas[1].snaps| - 1];
    i := Issued(Sign(from.material, s.now, cfg.spokeTTL, 7).value, from, s.now, cfg.spokeTTL);
    run := Take(run, Issue(1, |s.replicas[1].snaps| - 1, 7));
  }

  function FirstRetired(cfg: Config, end: Time, t: Time): State {
    FirstSigning(cfg, end).(rawPhase := Known(Steady), since := At(t), prevCert := [], retireAfter := Missing)
  }

  lemma LateStates(cfg: Config, end: Time, t: Time, c: Certificate)
    requires ValidConfig(cfg) && end > 0 && t >= cfg.spokeTTL
    ensures Coherent(FirstSigning(cfg, end), cfg.spokeTTL) && Coherent(FirstRetired(cfg, end, t), t)
    ensures Trusts(FirstSigning(cfg, end), RootNo(0, end).cert)
    ensures Trusts(FirstRetired(cfg, end, t), c) ==> c == RootNo(1, end).cert
  {
    SingleBlocks(RootNo(1, end).cert, RootNo(1, end).key);
    SingleBlocks(RootNo(0, end).cert, RootNo(0, end).key);
    assert Keypair(FirstSigning(cfg, end).cert, FirstSigning(cfg, end).key);
  }

  // The outgoing root's leaf renews under the two-root bundle and not under
  // the successor alone.
  lemma LostVerdict(cfg: Config, end: Time, t: Time, i: Issued)
    requires ValidConfig(cfg) && end > 0 && cfg.spokeTTL <= i.at <= t <= i.leaf.notAfter + cfg.renewGrace
    requires Usable(i.from.material.cert, i.from.material.key) && i.from.material.cert == RootNo(0, end).cert
    requires Sign(i.from.material, i.at, cfg.spokeTTL, i.leaf.serial) == Success(i.leaf)
    ensures var before := AdoptionOf(FirstSigning(cfg, end), []); var after := AdoptionOf(FirstRetired(cfg, end, t), []);
            && before.Success? && RenewalVerdict(before.value.roots, i.leaf, t, cfg.renewGrace).Accepted?
            && after.Success? && !RenewalVerdict(after.value.roots, i.leaf, t, cfg.renewGrace).Accepted?
    ensures !Trusts(FirstRetired(cfg, end, t), i.from.material.cert)
  {
    hide Coherent, AdoptionOf, FirstSigning, FirstRetired, Trusts;
    LateStates(cfg, end, t, RootNo(0, end).cert);
    assert GoodBase([]) && BaseRoots([]) == [];
    BundleOf(FirstSigning(cfg, end), cfg.spokeTTL, []);
    BundleOf(FirstRetired(cfg, end, t), t, []);
    IssuerAccepts(AdoptionOf(FirstSigning(cfg, end), []).value.roots, i.from.material, i.leaf, i.at, cfg.spokeTTL, t, cfg.renewGrace);
    forall c | c in AdoptionOf(FirstRetired(cfg, end, t), []).value.roots ensures c.publicKey == 1 {
      LateStates(cfg, end, t, c);
    }
  }

  function Later(a: Time, b: Time): Time { if a < b then b else a }

  // The root is then retired as soon as the gate lets it be.
  lemma RetiredAtOnce(cfg: Config, latency: nat, lag: nat) returns (run: Run<World, Step>, i: Issued, end: Time, t: Time)
    requires ValidConfig(cfg)
    ensures Valid(run) && |run.tr| > 0 && i in Now(run).issued && end > 0
    ensures Assumed(Now(run), cfg, latency, lag) && FullLifetimes(Now(run).log)
    ensures t == Later(cfg.spokeTTL + RetirementHold(cfg), cfg.spokeTTL + latency + lag)
    ensures var s := Now(run);
            && s.now == t && |s.log| == 5 && Because(Last(s.log), RootRetired)
            && s.log[3].st == FirstSigning(cfg, end) && s.log[4].st == FirstRetired(cfg, end, t) && Ready(s, cfg, 0)
    ensures i.at == cfg.spokeTTL + latency + lag && i.leaf.notAfter == i.at + cfg.spokeTTL && i.ttl == cfg.spokeTTL
    ensures i.from.material.cert == RootNo(0, end).cert
  {
    hide Valid, MakePlan, Effect, SignerCert, Apply, ValidConfig, AdoptionOf, SigningSince, FirstRetired, Usable, Sign;
    PositiveTTL(cfg);
    end := 2 * cfg.spokeTTL + latency + lag + 1;
    run, i := LateLeaf(cfg, end, latency, lag);
    t := Later(cfg.spokeTTL + RetirementHold(cfg), cfg.spokeTTL + latency + lag);
    run := Take(run, Tick(t));
    var plan := RetirePlan(cfg, end, t);
    run := PlanUp(run, 0, NOBODY, None, plan);
    run := CommitNow(run, 0, FirstSigning(cfg, end));
  }

  // For every valid setting and every pair of delays that add up to at least
  // two polls, there is a run that keeps to those delays and yet retires a
  // root while one of its leaves could still be renewed: the bound in
  // StrandsNothing and NoRenewalLost cannot be relaxed.
  lemma PaddingIsTight(cfg: Config, latency: nat, lag: nat) returns (run: Run<World, Step>, i: Issued)
    requires ValidConfig(cfg) && latency + lag >= 2 * cfg.poll
    ensures Valid(run) && |run.tr| > 0 && i in Now(run).issued
    ensures Assumed(Now(run), cfg, latency, lag) && FullLifetimes(Now(run).log)
    ensures |Now(run).log| > 1 && Because(Last(Now(run).log), RootRetired)
    ensures !Trusts(Last(Now(run).log).st, i.from.material.cert)
    ensures var log := Now(run).log; var before := AdoptionOf(log[|log| - 2].st, []); var after := AdoptionOf(Last(log).st, []);
            && before.Success? && RenewalVerdict(before.value.roots, i.leaf, Now(run).now, cfg.renewGrace).Accepted?
            && after.Success? && !RenewalVerdict(after.value.roots, i.leaf, Now(run).now, cfg.renewGrace).Accepted?
  {
    hide Valid, SignerCert, ValidConfig, AdoptionOf, SigningSince, FirstRetired, RenewalVerdict, Trusts, Usable, Sign, Assumed, FullLifetimes;
    PositiveTTL(cfg);
    var end, t;
    run, i, end, t := RetiredAtOnce(cfg, latency, lag);
    RunIs(run);
    LeafFacts(run.tr, run.steps, |run.tr| - 1, i);
    LostVerdict(cfg, end, t, i);
  }

  lemma RunIs(run: Run<World, Step>)
    requires Valid(run)
    ensures IsRun(run.tr, run.steps)
  {
    hide IsRun;
  }

  // --- retirement -------------------------------------------------------------

  ghost predicate NothingStranded(cfg: Config, d: nat) {
    forall tr: seq<World>, steps: seq<Step>, n: nat, i: Issued ::
      && IsRun(tr, steps) && n < |tr| && |tr[n].log| > 0 && i in tr[n].issued
      && Uniform(tr[n].log, cfg) && i.ttl == cfg.spokeTTL && StoppedWithin(tr[n].log, i, d) ==>
        Trusts(Last(tr[n].log).st, i.from.material.cert) || tr[n].now > i.leaf.notAfter + cfg.renewGrace
  }

  // Retirement strands no leaf, in any run, whose signer was out of use within d of
  // every promotion over it, exactly when d is under two poll intervals.
  lemma StoppingExactly(cfg: Config, d: nat)
    requires ValidConfig(cfg)
    ensures NothingStranded(cfg, d) <==> d < 2 * cfg.poll
  {
    hide IsRun, Uniform, Prompt, StoppedWithin, Trusts, Valid, ValidConfig, AdoptionOf, FullLifetimes, Because;
    if d < 2 * cfg.poll {
      forall tr: seq<World>, steps: seq<Step>, n: nat, i: Issued |
          && IsRun(tr, steps) && n < |tr| && |tr[n].log| > 0 && i in tr[n].issued
          && Uniform(tr[n].log, cfg) && i.ttl == cfg.spokeTTL && StoppedWithin(tr[n].log, i, d)
        ensures Trusts(Last(tr[n].log).st, i.from.material.cert) || tr[n].now > i.leaf.notAfter + cfg.renewGrace
      {
        StrandsNothing(tr, steps, n, i, cfg, d);
      }
    } else {
      PositiveTTL(cfg);
      var run, i := PaddingIsTight(cfg, d, 0);
      RunIs(run);
      PunctualStops(run.tr, run.steps, |run.tr| - 1, i, d, 0);
      assert IsRun(run.tr, run.steps) && i in run.tr[|run.tr| - 1].issued;
    }
  }

  ghost predicate NothingStrandedPromptly(cfg: Config, latency: nat, lag: nat) {
    forall tr: seq<World>, steps: seq<Step>, n: nat, i: Issued ::
      IsRun(tr, steps) && n < |tr| && Assumed(tr[n], cfg, latency, lag) && i in tr[n].issued ==>
        Trusts(Last(tr[n].log).st, i.from.material.cert) || tr[n].now > i.leaf.notAfter + cfg.renewGrace
  }

  // In terms of delays: exactly when write latency plus signer lag stay under two
  // poll intervals.
  lemma PaddingExactly(cfg: Config, latency: nat, lag: nat)
    requires ValidConfig(cfg)
    ensures NothingStrandedPromptly(cfg, latency, lag) <==> latency + lag < 2 * cfg.poll
  {
    hide IsRun, Uniform, Prompt, Punctual, SameTTL, StoppedWithin, Trusts, Valid, ValidConfig, AdoptionOf, FullLifetimes, Because;
    if latency + lag < 2 * cfg.poll {
      forall tr: seq<World>, steps: seq<Step>, n: nat, i: Issued |
          IsRun(tr, steps) && n < |tr| && Assumed(tr[n], cfg, latency, lag) && i in tr[n].issued
        ensures Trusts(Last(tr[n].log).st, i.from.material.cert) || tr[n].now > i.leaf.notAfter + cfg.renewGrace
      {
        AssumedOf(tr[n], cfg, latency, lag, i);
        PunctualStops(tr, steps, n, i, latency, lag);
        StrandsNothing(tr, steps, n, i, cfg, latency + lag);
      }
    } else {
      PositiveTTL(cfg);
      var run, i := PaddingIsTight(cfg, latency, lag);
      RunIs(run);
      assert IsRun(run.tr, run.steps) && i in run.tr[|run.tr| - 1].issued;
    }
  }

  lemma AssumedOf(s: World, cfg: Config, latency: int, lag: int, i: Issued)
    requires Assumed(s, cfg, latency, lag) && i in s.issued
    ensures Uniform(s.log, cfg) && Prompt(s.log, latency) && i.at <= i.from.asOf + lag && i.ttl == cfg.spokeTTL
  {
  }

  // --- acceptance everywhere -----------------------------------------------------

  // A bundle of one key's roots verifies no other key's leaf.
  lemma OtherRootRefuses(roots: seq<Certificate>, leaf: Leaf, key: nat, now: Time, g: int)
    requires leaf.signedBy != key && forall c :: c in roots ==> c.publicKey == key
    ensures !RenewalVerdict(roots, leaf, now, g).Accepted?
  {
  }

  // Replica 0 adopts the retirement and refuses a leaf expired for no longer than g.
  lemma RefusedAfterRetirement(cfg: Config, latency: nat, lag: nat, g: nat) returns (run: Run<World, Step>, i: Issued, k: nat)
    requires ValidConfig(cfg) && latency + lag + g >= cfg.renewGrace + 2 * cfg.poll
    ensures Valid(run) && |run.tr| > 0 && i in Now(run).issued && Now(run).now <= i.leaf.notAfter + g
    ensures Assumed(Now(run), cfg, latency, lag) && FullLifetimes(Now(run).log)
    ensures 0 in Now(run).replicas && k < |Now(run).replicas[0].snaps| && Now(run).now <= Now(run).replicas[0].snaps[k].asOf + lag
    ensures !RenewalVerdict(Now(run).replicas[0].snaps[k].material.roots, i.leaf, Now(run).now, g).Accepted?
  {
    hide Valid, SignerCert, ValidConfig, AdoptionOf, SigningSince, FirstRetired, RenewalVerdict, Trusts, Usable, FullLifetimes, Because,
      Uniform, Prompt, Distinct;
    PositiveTTL(cfg);
    var end, t;
    run, i, end, t := RetiredAtOnce(cfg, latency, lag);
    run := ReadAndSync(run, 0);
    k := |Now(run).replicas[0].snaps| - 1;
    RunIs(run);
    LeafFacts(run.tr, run.steps, |run.tr| - 1, i);
    SnapshotAgreement(run.tr, run.steps, |run.tr| - 1, 0, k);
    var roots := Now(run).replicas[0].snaps[k].material.roots;
    forall c | c in roots ensures c.publicKey == 1 {
      LateStates(cfg, end, t, c);
      NoBaseRoots(c);
    }
    LeafOfRoot(i, 0, end);
    OtherRootRefuses(roots, i.leaf, 1, Now(run).now, g);
  }

  lemma NoBaseRoots(c: Certificate)
    ensures GoodBase([]) && c !in BaseRoots([])
  {
  }

  lemma LeafOfRoot(i: Issued, k: nat, end: Time)
    requires i.from.material.cert == RootNo(k, end).cert && Usable(i.from.material.cert, i.from.material.key)
    requires Sign(i.from.material, i.at, i.ttl, i.leaf.serial) == Success(i.leaf)
    ensures i.leaf.signedBy == k
  {
  }

  // Replica 0 stamps the publication; replica 1 reads the Secret just before it is
  // committed, latency later; a lifetime after the stamp replica 0 promotes.
  lemma PromotedUnread(cfg: Config, end: Time, latency: nat, p: Time) returns (run: Run<World, Step>)
    requires ValidConfig(cfg) && end > 0 && p >= cfg.spokeTTL && p >= latency
    ensures Valid(run) && |run.tr| > 0
    ensures var s := Now(run);
            && |s.log| == 4 && s.log[1].st == FirstSteady(end).(force := GO) && s.log[1].write.Annotated?
            && Because(s.log[2], RotationIsDue) && s.log[2].write.ctx.cfg == cfg
            && s.log[2].write.stampedAt == 0 && s.log[2].at == latency && s.log[2].st == FirstPublishing(end)
            && s.log[3].st == SigningSince(cfg, end, p) && s.log[3].at == p && Because(s.log[3], SuccessorPublished)
            && s.log[3].write.ctx.cfg == cfg && s.log[3].write.plannedAt == s.log[3].write.stampedAt == p
            && s.now == p && s.issued == {} && Ready(s, cfg, 0)
            && 1 in s.replicas && |s.replicas[1].snaps| > 0 && s.replicas[1].base == []
            && var snap := s.replicas[1].snaps[|s.replicas[1].snaps| - 1]; snap.ver == 1 && snap.asOf == latency
  {
    hide Valid, MakePlan, Effect, SignerCert, Apply, ValidConfig, SigningSince;
    run := Opening(cfg, end);
    var plan := BeginPlan(cfg, end);
    assert WellMinted(RootNo(1, end), 0);
    run := PlanUp(run, 0, NOBODY, Some(RootNo(1, end)), plan);
    run := Take(run, Tick(latency));
    run := ReadAndSync(run, 1);
    run := CommitNow(run, 0, FirstSteady(end).(force := GO));
    run := Take(run, Tick(p));
    var promote := PromotePlan(cfg, end, p);
    run := PlanUp(run, 0, NOBODY, None, promote);
    run := CommitNow(run, 0, FirstPublishing(end));
  }

  lemma EarlyStates(cfg: Config, end: Time, p: Time, c: Certificate)
    requires end > 0
    ensures Trusts(FirstSteady(end).(force := GO), c) ==> c == RootNo(0, end).cert
    ensures SignerCert(SigningSince(cfg, end, p).cert) == Success(RootNo(1, end).cert)
  {
    SingleBlocks(RootNo(0, end).cert, RootNo(0, end).key);
    SingleBlocks(RootNo(1, end).cert, RootNo(1, end).key);
  }

  // Replica 0 then signs with the successor.
  lemma SignedUnread(cfg: Config, latency: nat, lag: nat) returns (run: Run<World, Step>, i: Issued, k: nat, end: Time)
    requires ValidConfig(cfg) && latency + lag >= cfg.spokeTTL
    ensures Valid(run) && |run.tr| > 0 && i in Now(run).issued && Now(run).now <= i.leaf.notAfter && end > 0
    ensures Assumed(Now(run), cfg, latency, lag) && FullLifetimes(Now(run).log)
    ensures i.from.material.cert == RootNo(1, end).cert
    ensures var s := Now(run);
            && 1 in s.replicas && k < |s.replicas[1].snaps| && s.replicas[1].base == []
            && s.now <= s.replicas[1].snaps[k].asOf + lag
            && s.replicas[1].snaps[k].ver == 1 && |s.log| > 1 && s.log[1].st == FirstSteady(end).(force := GO)
  {
    hide Valid, SignerCert, ValidConfig, SigningSince, FirstSteady, Usable, MakePlan, Apply;
    PositiveTTL(cfg);
    var p := Later(cfg.spokeTTL, latency);
    end := p + cfg.spokeTTL + 1;
    run := PromotedUnread(cfg, end, latency, p);
    run := ReadAndSync(run, 0);
    EarlyStates(cfg, end, p, RootNo(0, end).cert);
    var s := Now(run);
    k := |s.replicas[1].snaps| - 1;
    var from := s.replicas[0].snaps[|s.replicas[0].snaps| - 1];
    i := Issued(Sign(from.material, s.now, cfg.spokeTTL, 7).value, from, s.now, cfg.spokeTTL);
    run := Take(run, Issue(0, |s.replicas[0].snaps| - 1, 7));
  }

  // Replica 1, on a snapshot at most lag old, has never heard of that root.
  lemma RefusedBeforeAdoption(cfg: Config, latency: nat, lag: nat, g: nat) returns (run: Run<World, Step>, i: Issued, k: nat)
    requires ValidConfig(cfg) && latency + lag >= cfg.spokeTTL
    ensures Valid(run) && |run.tr| > 0 && i in Now(run).issued && Now(run).now <= i.leaf.notAfter + g
    ensures Assumed(Now(run), cfg, latency, lag) && FullLifetimes(Now(run).log)
    ensures 1 in Now(run).replicas && k < |Now(run).replicas[1].snaps| && Now(run).now <= Now(run).replicas[1].snaps[k].asOf + lag
    ensures !RenewalVerdict(Now(run).replicas[1].snaps[k].material.roots, i.leaf, Now(run).now, g).Accepted?
  {
    hide Valid, SignerCert, ValidConfig, FirstSteady, RenewalVerdict, Trusts, Usable, Distinct, Assumed, FullLifetimes;
    var end;
    run, i, k, end := SignedUnread(cfg, latency, lag);
    RunIs(run);
    LeafFacts(run.tr, run.steps, |run.tr| - 1, i);
    SnapshotAgreement(run.tr, run.steps, |run.tr| - 1, 1, k);
    var roots := Now(run).replicas[1].snaps[k].material.roots;
    forall c | c in roots ensures c.publicKey == 0 {
      EarlyStates(cfg, end, 0, c);
      NoBaseRoots(c);
    }
    LeafOfRoot(i, 1, end);
    OtherRootRefuses(roots, i.leaf, 0, Now(run).now, g);
  }

  ghost predicate AllAccept(cfg: Config, latency: nat, lag: nat, g: nat) {
    forall tr: seq<World>, steps: seq<Step>, n: nat, i: Issued, r: nat, k: nat ::
      && IsRun(tr, steps) && n < |tr| && Assumed(tr[n], cfg, latency, lag) && FullLifetimes(tr[n].log)
      && i in tr[n].issued && tr[n].now <= i.leaf.notAfter + g
      && r in tr[n].replicas && k < |tr[n].replicas[r].snaps| && tr[n].now <= tr[n].replicas[r].snaps[k].asOf + lag ==>
        RenewalVerdict(tr[n].replicas[r].snaps[k].material.roots, i.leaf, tr[n].now, g).Accepted?
  }

  // Every leaf expired for no longer than g is accepted on every current enough
  // replica, in every run that keeps to the delays, exactly when the delays stay
  // under a leaf lifetime and leave g of the retirement's margin.
  lemma AcceptanceExactly(cfg: Config, latency: nat, lag: nat, g: nat)
    requires ValidConfig(cfg)
    ensures AllAccept(cfg, latency, lag, g) <==>
              latency + lag < cfg.spokeTTL && latency + lag + g < cfg.renewGrace + 2 * cfg.poll
  {
    hide IsRun, Assumed, RenewalVerdict, Valid, ValidConfig, FullLifetimes, WellTimed;
    if latency + lag < cfg.spokeTTL && latency + lag + g < cfg.renewGrace + 2 * cfg.poll {
      forall tr: seq<World>, steps: seq<Step>, n: nat, i: Issued, r: nat, k: nat |
          && IsRun(tr, steps) && n < |tr| && Assumed(tr[n], cfg, latency, lag) && FullLifetimes(tr[n].log)
          && i in tr[n].issued && tr[n].now <= i.leaf.notAfter + g
          && r in tr[n].replicas && k < |tr[n].replicas[r].snaps| && tr[n].now <= tr[n].replicas[r].snaps[k].asOf + lag
        ensures RenewalVerdict(tr[n].replicas[r].snaps[k].material.roots, i.leaf, tr[n].now, g).Accepted?
      {
        PunctualIsWellTimed(tr, steps, n, i, cfg, latency, lag, g);
        AcceptedEverywhere(tr, steps, n, i, r, k, cfg.spokeTTL, latency, lag, g);
      }
    } else if latency + lag >= cfg.spokeTTL {
      var run, i, k := RefusedBeforeAdoption(cfg, latency, lag, g);
      RunIs(run);
      assert IsRun(run.tr, run.steps) && i in run.tr[|run.tr| - 1].issued && k < |run.tr[|run.tr| - 1].replicas[1].snaps|;
    } else {
      var run, i, k := RefusedAfterRetirement(cfg, latency, lag, g);
      RunIs(run);
      assert IsRun(run.tr, run.steps) && i in run.tr[|run.tr| - 1].issued && k < |run.tr[|run.tr| - 1].replicas[0].snaps|;
    }
  }

  // --- the persisted horizon ------------------------------------------------------

  function WithTTL(cfg: Config, ttl: int): Config { cfg.(spokeTTL := ttl) }

  // Replica 2 starts with a leaf lifetime of ttl while the successor is published;
  // replica 0, with its own settings, promotes at once.
  lemma PromotedByAnother(cfg: Config, end: Time, ttl: nat) returns (run: Run<World, Step>)
    requires ValidConfig(cfg) && ttl > 0 && end > 0
    ensures Valid(run) && |run.tr| > 0
    ensures var s := Now(run);
            && WrittenSoFar(s, cfg, end, 0) && s.now == cfg.spokeTTL && s.issued == {} && Ready(s, cfg, 0)
            && 2 in s.replicas && |s.replicas[2].snaps| > 0 && s.replicas[2].cfg == WithTTL(cfg, ttl)
            && s.replicas[2].snaps[0].ver == 2 && s.replicas[2].snaps[0].asOf == s.now
            && s.replicas[2].snaps[0].material.cert == RootNo(0, end).cert
  {
    hide Valid, MakePlan, Effect, SignerCert, Apply, SigningSince;
    PositiveTTL(cfg);
    run := PublishedInTime(cfg, end);
    PublishedAdopts(end);
    run := Take(run, Start(2, WithTTL(cfg, ttl), []));
    var plan := PromotePlan(cfg, end, cfg.spokeTTL);
    run := PlanUp(run, 0, NOBODY, None, plan);
    run := CommitNow(run, 0, FirstPublishing(end));
  }

  lemma PublishedAdopts(end: Time)
    requires end > 0
    ensures GoodBase([]) && AdoptionOf(FirstPublishing(end), []).Success?
    ensures AdoptionOf(FirstPublishing(end), []).value.cert == RootNo(0, end).cert
  {
    SingleBlocks(RootNo(0, end).cert, RootNo(0, end).key);
    SingleBlocks(RootNo(1, end).cert, RootNo(1, end).key);
    assert Keypair(FirstPublishing(end).cert, FirstPublishing(end).key);
    assert Coherent(FirstPublishing(end), 0);
    BundleOf(FirstPublishing(end), 0, []);
  }

  // d later replica 2 signs with the snapshot it started on, and the root is retired
  // as soon as replica 0 may.
  lemma RetiredUnderLonger(cfg: Config, ttl: nat, d: nat) returns (run: Run<World, Step>, i: Issued, end: Time, t: Time)
    requires ValidConfig(cfg) && ttl > 0
    ensures Valid(run) && |run.tr| > 0 && i in Now(run).issued && end > 0
    ensures t == Later(cfg.spokeTTL + RetirementHold(cfg), cfg.spokeTTL + d)
    ensures var s := Now(run);
            && s.now == t && |s.log| == 5 && s.log[1].write.Annotated? && Because(s.log[2], RotationIsDue)
            && Because(s.log[3], SuccessorPublished) && s.log[3].write.ctx.cfg == cfg && s.log[3].write.plannedAt == cfg.spokeTTL
            && Because(s.log[4], RootRetired) && s.log[4].st == FirstRetired(cfg, end, t)
    ensures i.at == cfg.spokeTTL + d && i.ttl == ttl && i.leaf.notAfter == i.at + ttl && i.from.ver == 2
    ensures i.from.material.cert == RootNo(0, end).cert
  {
    hide Valid, MakePlan, Effect, SignerCert, Apply, ValidConfig, AdoptionOf, SigningSince, FirstRetired, Usable, FirstPublishing;
    PositiveTTL(cfg);
    end := cfg.spokeTTL + d + ttl + 1;
    run := PromotedByAnother(cfg, end, ttl);
    run := Take(run, Tick(cfg.spokeTTL + d));
    var s := Now(run);
    var from := s.replicas[2].snaps[0];
    i := Issued(Sign(from.material, s.now, ttl, 7).value, from, s.now, ttl);
    run := Take(run, Issue(2, 0, 7));
    t := Later(cfg.spokeTTL + RetirementHold(cfg), cfg.spokeTTL + d);
    run := Take(run, Tick(t));
    var plan := RetirePlan(cfg, end, t);
    run := PlanUp(run, 0, NOBODY, None, plan);
    run := CommitNow(run, 0, FirstSigning(cfg, end));
  }

  // Leaf i has a lifetime of ttl, and its signer was displaced only by replicas with
  // these settings, no more than d before it was signed.
  ghost predicate DisplacedUnder(log: seq<Version>, i: Issued, cfg: Config, ttl: nat, d: nat) {
    i.ttl == ttl && forall p: nat :: Displaces(log, i.from.ver, p) ==> log[p].write.ctx.cfg == cfg && i.at <= log[p].write.plannedAt + d
  }

  ghost predicate HorizonSafe(cfg: Config, ttl: nat, d: nat, grace: nat) {
    forall tr: seq<World>, steps: seq<Step>, n: nat, i: Issued ::
      IsRun(tr, steps) && n < |tr| && |tr[n].log| > 0 && i in tr[n].issued && DisplacedUnder(tr[n].log, i, cfg, ttl, d) ==>
        Trusts(Last(tr[n].log).st, i.from.material.cert) || tr[n].now > i.leaf.notAfter + grace
  }

  // Leaves of one lifetime, signed up to d after the promotion over their signer was
  // planned, keep their root through the grace in every run, whatever the other
  // replicas run with, exactly when the promoter's hold is longer than all three.
  // A lifetime shortened before the promotion can miss that; one shortened after
  // cannot.
  lemma HorizonExactly(cfg: Config, ttl: nat, d: nat, grace: nat)
    requires ValidConfig(cfg) && ttl > 0
    ensures HorizonSafe(cfg, ttl, d, grace) <==> ttl + d + grace < RetirementHold(cfg)
  {
    hide IsRun, Trusts, Valid, ValidConfig, AdoptionOf, FirstRetired, Because, RetirementHold;
    if ttl + d + grace < RetirementHold(cfg) {
      forall tr: seq<World>, steps: seq<Step>, n: nat, i: Issued |
          IsRun(tr, steps) && n < |tr| && |tr[n].log| > 0 && i in tr[n].issued && DisplacedUnder(tr[n].log, i, cfg, ttl, d)
        ensures Trusts(Last(tr[n].log).st, i.from.material.cert) || tr[n].now > i.leaf.notAfter + grace
      {
        HorizonProtects(tr, steps, n, i, grace);
      }
    } else {
      var run, i, end, t := RetiredUnderLonger(cfg, ttl, d);
      RunIs(run);
      DisplacedOnce(run, i, cfg, ttl, d);
      PositiveTTL(cfg);
      LateStates(cfg, end, t, i.from.material.cert);
      assert IsRun(run.tr, run.steps) && i in run.tr[|run.tr| - 1].issued;
    }
  }

  lemma DisplacedOnce(run: Run<World, Step>, i: Issued, cfg: Config, ttl: nat, d: nat)
    requires |run.tr| > 0 && |Now(run).log| == 5 && i.from.ver == 2 && i.ttl == ttl
    requires var log := Now(run).log; Because(log[3], SuccessorPublished) && log[3].write.ctx.cfg == cfg && Because(log[4], RootRetired)
    requires i.at <= Now(run).log[3].write.plannedAt + d
    ensures DisplacedUnder(Now(run).log, i, cfg, ttl, d)
  {
    forall p: nat | Displaces(Now(run).log, 2, p) ensures p == 3 {
    }
  }
}
