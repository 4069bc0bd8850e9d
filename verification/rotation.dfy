// What one poll of the CA rotation controller decides (internal/hub/carotation.go).
//
// The CA Secret is a map from key to bytes. A value is modelled by what its
// bytes mean to the readers: PEM, a phase name, an RFC 3339 time, or any other
// text; a key that is absent reads like an empty value.

module Rotation {
  import opened Wrappers
  import opened Pki

  datatype Phase = Steady | Publishing | Signing

  datatype Slot =
    | CaCert | CaKey | NextCert | NextKey | PrevCert
    | PhaseSlot | SinceSlot | HoldoutSlot | RetireAfterSlot
    | OtherSlot(name: string)

  datatype Value = PemData(pem: Pem) | PhaseName(phase: Phase) | TimeText(time: Time) | OtherText(text: string)

  datatype Secret = Secret(
    data: map<Slot, Value>,
    rotateNow: string,          // annotation promfleet.io/rotate-now, "" when absent
    rotateAccepted: Option<Time>)

  // A recorded time as its readers see it.
  datatype Stamp = Missing | Unreadable | At(time: Time)

  datatype PhaseText = NoPhase | Known(phase: Phase) | Unrecognised

  // caRotationState: the Secret read as a rotation.
  datatype State = State(
    rawPhase: PhaseText, since: Stamp,
    cert: Pem, key: Pem, nextCert: Pem, nextKey: Pem, prevCert: Pem,
    holdout: Stamp, retireAfter: Stamp, force: string)
  {
    function Phase(): Phase { if rawPhase.Known? then rawPhase.phase else Steady }
    predicate Frozen() { rawPhase.Unrecognised? }
  }

  predicate IsEmptyValue(v: Value) { v == OtherText("") || v == PemData([]) }

  function Bytes(sec: Secret, k: Slot): Value {
    if k in sec.data then sec.data[k] else OtherText("")
  }

  function PemAt(sec: Secret, k: Slot): Pem {
    AsPem(Bytes(sec, k))
  }

  function TimeAt(sec: Secret, k: Slot): Stamp {
    AsTime(Bytes(sec, k))
  }

  function PhaseAt(sec: Secret): PhaseText {
    var v := Bytes(sec, PhaseSlot);
    if v.PhaseName? then Known(v.phase) else if IsEmptyValue(v) then NoPhase else Unrecognised
  }

  // readCARotation
  function Read(sec: Secret): State {
    State(PhaseAt(sec), TimeAt(sec, SinceSlot),
          PemAt(sec, CaCert), PemAt(sec, CaKey), PemAt(sec, NextCert), PemAt(sec, NextKey), PemAt(sec, PrevCert),
          TimeAt(sec, HoldoutSlot), TimeAt(sec, RetireAfterSlot), sec.rotateNow)
  }

  // What a reader makes of any value: only the three phase names are phases, an empty or
  // absent value is no phase and no time, anything else is unrecognised or unreadable.
  lemma ReadExactly(sec: Secret, k: Slot)
    ensures var v := Bytes(sec, PhaseSlot); var raw := Read(sec).rawPhase;
            && (raw == NoPhase <==> v == OtherText("") || v == PemData([]))
            && (forall p :: raw == Known(p) <==> v == PhaseName(p))
            && Read(sec).force == sec.rotateNow
    ensures k == SinceSlot || k == HoldoutSlot || k == RetireAfterSlot ==>
              var st := Read(sec); var v := Bytes(sec, k);
              var s := if k == SinceSlot then st.since else if k == HoldoutSlot then st.holdout else st.retireAfter;
              (s == Missing <==> v == OtherText("") || v == PemData([])) && (forall t :: s == At(t) <==> v == TimeText(t))
    ensures k == CaCert || k == CaKey || k == NextCert || k == NextKey || k == PrevCert ==>
              var st := Read(sec); var v := Bytes(sec, k);
              var p := match k case CaCert => st.cert case CaKey => st.key case NextCert => st.nextCert case NextKey => st.nextKey case _ => st.prevCert;
              (v.PemData? ==> p == v.pem) && (p == [] <==> v == OtherText("") || v == PemData([]))
  {
  }

  function JoinRoots(a: Pem, b: Pem): Pem {
    if IsBlankPem(a) then b else if IsBlankPem(b) then a else a + b
  }

  // The roots to trust beside the signer.
  function ExtraRoots(st: State, base: Pem): Pem {
    if st.Frozen() then JoinRoots(JoinRoots(base, st.nextCert), st.prevCert)
    else match st.Phase()
      case Publishing => JoinRoots(base, st.nextCert)
      case Signing => JoinRoots(base, st.prevCert)
      case Steady => base
  }

  datatype Config = Config(spokeTTL: int, renewGrace: int, poll: int, rotateFraction: real)

  // config.Hub.Validate
  predicate ValidConfig(c: Config) {
    c.spokeTTL > 0 && c.renewGrace >= 0 && c.poll > 0 && 0.0 <= c.rotateFraction <= 1.0
  }

  function RetirementHold(c: Config): int { c.spokeTTL + c.renewGrace + 2 * c.poll }
  function HoldoutQuiet(c: Config): int { 2 * c.poll }
  function Runway(c: Config): int { 2 * c.spokeTTL + c.renewGrace + 4 * c.poll }

  // Remaining life at or below which an unforced rotation begins: the
  // configured fraction of the root's life, but never less than the runway.
  function Threshold(c: Config, cert: Certificate): (t: int)
    ensures t >= Runway(c)
    ensures var fraction := ((cert.notAfter - cert.notBefore) as real * c.rotateFraction).Floor;
            var runway := 2 * c.spokeTTL + c.renewGrace + 4 * c.poll;
            t >= fraction && t >= runway && (t == fraction || t == runway)
  {
    var fraction := ((cert.notAfter - cert.notBefore) as real * c.rotateFraction).Floor;
    if fraction < Runway(c) then Runway(c) else fraction
  }

  datatype Root = Root(cert: Certificate, key: PrivateKey)

  // A fresh self-signed root, as NewRootPEM returns it.
  predicate WellMinted(m: Root, now: Time) {
    Usable(m.cert, m.key) && m.key.p256 && m.cert.notBefore <= now < m.cert.notAfter
  }

  // The issuer tracker of one replica at the moment it is asked: the root each
  // verified certificate chained to, and the certificates with a live session.
  datatype Sightings = Sightings(issuer: map<nat, Certificate>, live: set<nat>)

  function Holdouts(t: Sightings, outgoing: Option<Certificate>): set<nat> {
    set serial | serial in t.issuer && serial in t.live && outgoing == Some(t.issuer[serial])
  }

  // Everything but the Secret and the clock that a plan depends on. mint is
  // what NewRootPEM returns if it is called, None when minting fails.
  datatype Context = Context(
    cfg: Config, authority: Certificate, startedAt: Time, sightings: Sightings, mint: Option<Root>)

  // Why a plan is made; one per plan the controller can make.
  datatype Reason =
    | AlreadyRotating | StrayMaterial | RotationIsDue
    | NoSuccessor | ClockRestart | SuccessorPublished
    | OutgoingMissing | SessionsHeld | RootRetired

  datatype Plan = Plan(reason: Reason, to: Phase, keepSince: bool, set_: map<Slot, Value>, del: set<Slot>, consumeForce: bool)

  function Outgoing(st: State): Option<Certificate> {
    if st.Phase() != Signing || TrustBundle(st.prevCert).Failure? then None
    else Some(TrustBundle(st.prevCert).value[0])
  }

  function StrayKeys(st: State): set<Slot> {
    (if st.nextCert != [] then {NextCert} else {}) +
    (if st.nextKey != [] then {NextKey} else {}) +
    (if st.prevCert != [] then {PrevCert} else {}) +
    (if st.holdout != Missing then {HoldoutSlot} else {}) +
    (if st.retireAfter != Missing then {RetireAfterSlot} else {})
  }

  predicate RotationDue(st: State, ctx: Context, now: Time) {
    st.force != "" || ctx.authority.notAfter - now <= Threshold(ctx.cfg, ctx.authority)
  }

  const SCRATCH: set<Slot> := {NextCert, NextKey, HoldoutSlot, RetireAfterSlot}

  function PlanSteady(st: State, ctx: Context, now: Time): Option<Plan> {
    if StrayKeys(st) != {} then Some(Plan(StrayMaterial, Steady, true, map[], StrayKeys(st), false))
    else if !RotationDue(st, ctx, now) || ctx.mint.None? then None
    else
      Some(Plan(RotationIsDue, Publishing, false,
                map[NextCert := PemData([CertBlock(ctx.mint.value.cert)]),
                    NextKey := PemData([KeyBlock(ctx.mint.value.key)])],
                {}, st.force != ""))
  }

  function RepairSince(st: State): Option<Plan> {
    if st.since.At? then None else Some(Plan(ClockRestart, st.Phase(), false, map[], {}, false))
  }

  function PlanPublishing(st: State, ctx: Context, now: Time): Option<Plan> {
    if st.nextCert == [] || st.nextKey == [] then Some(Plan(NoSuccessor, Steady, false, map[], SCRATCH, false))
    else if !st.since.At? then RepairSince(st)
    else if now - st.since.time < ctx.cfg.spokeTTL && now < ctx.authority.notAfter then None
    else
      Some(Plan(SuccessorPublished, Signing, false,
                map[CaCert := PemData(st.nextCert), CaKey := PemData(st.nextKey), PrevCert := PemData(st.cert),
                    RetireAfterSlot := TimeText(now + RetirementHold(ctx.cfg))],
                {NextCert, NextKey, HoldoutSlot}, false))
  }

  function RetirementGate(st: State, cfg: Config): Time
    requires st.since.At?
  {
    var live := st.since.time + RetirementHold(cfg);
    if st.retireAfter.At? && st.retireAfter.time > live then st.retireAfter.time else live
  }

  function PlanSigning(st: State, ctx: Context, now: Time): Option<Plan> {
    if st.prevCert == [] then Some(Plan(OutgoingMissing, Steady, false, map[], SCRATCH, false))
    else if !st.since.At? then RepairSince(st)
    else if now < RetirementGate(st, ctx.cfg) then None
    else if now - ctx.startedAt < HoldoutQuiet(ctx.cfg) then None
    else if Holdouts(ctx.sightings, Outgoing(st)) != {} then
      if st.holdout.At? && now - st.holdout.time < ctx.cfg.poll then None
      else Some(Plan(SessionsHeld, Signing, true, map[HoldoutSlot := TimeText(now)], {}, false))
    else if st.holdout.At? && now - st.holdout.time < HoldoutQuiet(ctx.cfg) then None
    else Some(Plan(RootRetired, Steady, false, map[], {PrevCert, HoldoutSlot, RetireAfterSlot}, false))
  }

  // What, if anything, this poll should write.
  function MakePlan(st: State, ctx: Context, now: Time): Option<Plan> {
    if st.Frozen() then None
    else if st.force != "" && st.Phase() != Steady then Some(Plan(AlreadyRotating, st.Phase(), true, map[], {}, true))
    else match st.Phase()
      case Steady => PlanSteady(st, ctx, now)
      case Publishing => PlanPublishing(st, ctx, now)
      case Signing => PlanSigning(st, ctx, now)
  }

  // The Secret a plan writes, stamped by a second reading of the clock.
  function Apply(sec: Secret, p: Plan, now: Time): Secret {
    var data := sec.data[PhaseSlot := PhaseName(p.to)];
    var data := if p.keepSince then data else data[SinceSlot := TimeText(now)];
    var data := (data + p.set_) - p.del;
    if p.consumeForce then Secret(data, "", Some(now)) else sec.(data := data)
  }

  // Slot by slot: deleted, set, or as it was.
  ghost predicate Written(sec: Secret, sec': Secret, p: Plan, now: Time) {
    && sec'.rotateNow == (if p.consumeForce then "" else sec.rotateNow)
    && sec'.rotateAccepted == (if p.consumeForce then Some(now) else sec.rotateAccepted)
    && forall k :: Bytes(sec', k) ==
         if k in p.del then OtherText("")
         else if k in p.set_ then p.set_[k]
         else if k == PhaseSlot then PhaseName(p.to)
         else if k == SinceSlot && !p.keepSince then TimeText(now)
         else Bytes(sec, k)
  }

  lemma ApplyWrites(sec: Secret, p: Plan, now: Time)
    ensures Written(sec, Apply(sec, p, now), p, now)
  {
  }

  // The rotation state after a poll's write, as the next reader sees it.
  function Effect(st: State, ctx: Context, reason: Reason, now: Time, stamp: Time): State {
    match reason
    case AlreadyRotating => st.(rawPhase := Known(st.Phase()), force := "")
    case StrayMaterial =>
      st.(rawPhase := Known(Steady), nextCert := [], nextKey := [], prevCert := [], holdout := Missing, retireAfter := Missing)
    case RotationIsDue =>
      if ctx.mint.None? then st
      else st.(rawPhase := Known(Publishing), since := At(stamp), force := "",
               nextCert := [CertBlock(ctx.mint.value.cert)], nextKey := [KeyBlock(ctx.mint.value.key)])
    case ClockRestart => st.(rawPhase := Known(st.Phase()), since := At(stamp))
    case SuccessorPublished =>
      st.(rawPhase := Known(Signing), since := At(stamp),
          cert := st.nextCert, key := st.nextKey, prevCert := st.cert, nextCert := [], nextKey := [],
          holdout := Missing, retireAfter := At(now + RetirementHold(ctx.cfg)))
    case SessionsHeld => st.(rawPhase := Known(Signing), holdout := At(now))
    case RootRetired =>
      st.(rawPhase := Known(Steady), since := At(stamp), prevCert := [], holdout := Missing, retireAfter := Missing)
    case _ =>
      st.(rawPhase := Known(Steady), since := At(stamp), nextCert := [], nextKey := [], holdout := Missing, retireAfter := Missing)
  }

  function AsPem(v: Value): Pem { if v.PemData? then v.pem else if IsEmptyValue(v) then [] else [Text] }
  function AsTime(v: Value): Stamp { if v.TimeText? then At(v.time) else if IsEmptyValue(v) then Missing else Unreadable }

  predicate PemWritten(old_: Pem, new_: Pem, p: Plan, k: Slot) {
    new_ == if k in p.del then [] else if k in p.set_ then AsPem(p.set_[k]) else old_
  }

  predicate TimeWritten(old_: Stamp, new_: Stamp, p: Plan, k: Slot) {
    new_ == if k in p.del then Missing else if k in p.set_ then AsTime(p.set_[k]) else old_
  }

  predicate StateWritten(st: State, st': State, p: Plan, stamp: Time) {
    && st'.rawPhase == Known(p.to)
    && st'.since == (if p.keepSince then st.since else At(stamp))
    && st'.force == (if p.consumeForce then "" else st.force)
    && PemWritten(st.cert, st'.cert, p, CaCert) && PemWritten(st.key, st'.key, p, CaKey)
    && PemWritten(st.nextCert, st'.nextCert, p, NextCert) && PemWritten(st.nextKey, st'.nextKey, p, NextKey)
    && PemWritten(st.prevCert, st'.prevCert, p, PrevCert)
    && TimeWritten(st.holdout, st'.holdout, p, HoldoutSlot)
    && TimeWritten(st.retireAfter, st'.retireAfter, p, RetireAfterSlot)
  }

  lemma WrittenState(sec: Secret, sec': Secret, p: Plan, stamp: Time)
    requires Written(sec, sec', p, stamp)
    requires p.set_.Keys !! {PhaseSlot, SinceSlot} && p.del !! {PhaseSlot, SinceSlot}
    ensures StateWritten(Read(sec), Read(sec'), p, stamp)
  {
  }

  lemma SteadyEffect(st: State, st': State, ctx: Context, now: Time, p: Plan, stamp: Time)
    requires PlanSteady(st, ctx, now) == Some(p)
    requires StateWritten(st, st', p, stamp)
    ensures st' == Effect(st, ctx, p.reason, now, stamp)
  {
  }

  lemma PublishingEffect(st: State, st': State, ctx: Context, now: Time, p: Plan, stamp: Time)
    requires PlanPublishing(st, ctx, now) == Some(p) && st.Phase() == Publishing
    requires StateWritten(st, st', p, stamp)
    ensures st' == Effect(st, ctx, p.reason, now, stamp)
  {
  }

  lemma SigningEffect(st: State, st': State, ctx: Context, now: Time, p: Plan, stamp: Time)
    requires PlanSigning(st, ctx, now) == Some(p) && st.Phase() == Signing
    requires StateWritten(st, st', p, stamp)
    ensures st' == Effect(st, ctx, p.reason, now, stamp)
  {
  }

  lemma PlanSlots(st: State, ctx: Context, now: Time)
    requires MakePlan(st, ctx, now).Some?
    ensures var p := MakePlan(st, ctx, now).value;
            p.set_.Keys !! {PhaseSlot, SinceSlot} && p.del !! {PhaseSlot, SinceSlot}
    ensures var p := MakePlan(st, ctx, now).value; forall name :: OtherSlot(name) !in p.set_ && OtherSlot(name) !in p.del
  {
  }

  // Every write the controller can plan, read back, is its Effect; and it owns
  // its slots and no others, so the pepper and anything else in the Secret
  // survive it.
  lemma WrittenEffect(sec: Secret, sec': Secret, ctx: Context, now: Time, p: Plan, stamp: Time)
    requires MakePlan(Read(sec), ctx, now) == Some(p) && Written(sec, sec', p, stamp)
    ensures Read(sec') == Effect(Read(sec), ctx, p.reason, now, stamp)
    ensures forall name :: Bytes(sec', OtherSlot(name)) == Bytes(sec, OtherSlot(name))
  {
    var st := Read(sec);
    PlanSlots(st, ctx, now);
    WrittenState(sec, sec', p, stamp);
    if st.force == "" || st.Phase() == Steady {
      match st.Phase()
      case Steady => SteadyEffect(st, Read(sec'), ctx, now, p, stamp);
      case Publishing => PublishingEffect(st, Read(sec'), ctx, now, p, stamp);
      case Signing => SigningEffect(st, Read(sec'), ctx, now, p, stamp);
    }
  }
}
