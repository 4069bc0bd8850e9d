// First boot: replicas that find no CA Secret each generate a CA and a pepper, and
// one of them gets to store its own (internal/hub/bootstrap.go). Every interleaving
// of any number of replicas, with crashes and restarts that keep scratch files.

module Bootstrap {
  import opened Wrappers

  datatype Slot = CaCert | CaKey | PepperKey | Other(n: nat)

  // Secret data. The value 0 is the empty byte string, which counts as absent. A
  // certificate and a key are a pair exactly when their values are equal.
  type Data = map<Slot, nat>

  datatype Material = Material(cert: nat, key: nat, pepper: nat)

  const NOTHING := Material(0, 0, 0)

  predicate Complete(m: Material) { m.cert != 0 && m.key != 0 && m.pepper != 0 }

  function At(d: Data, s: Slot): nat { if s in d then d[s] else 0 }

  function Stored(d: Data): Material { Material(At(d, CaCert), At(d, CaKey), At(d, PepperKey)) }

  function Generated(m: Material): Data { map[CaCert := m.cert, CaKey := m.key, PepperKey := m.pepper] }

  // --- completing a partial Secret ---------------------------------------------------

  function Filled(d: Data, generated: Data): Data {
    map s | s in d.Keys + generated.Keys :: if At(d, s) != 0 then d[s] else if s in generated then generated[s] else d[s]
  }

  method CompleteData(d: Data, generated: Data) returns (data: Data, filled: set<Slot>)
    ensures data == Filled(d, generated)
    ensures forall s :: s in filled <==> s in generated && At(d, s) == 0
  {
    data, filled := d, {};
    var todo := generated.Keys;
    while todo != {}
      invariant todo <= generated.Keys
      invariant forall s :: s in filled <==> s in generated && s !in todo && At(d, s) == 0
      invariant forall s :: s in data <==> s in d || s in filled
      invariant forall s :: s in data ==> data[s] == if s in filled then generated[s] else d[s]
      decreases |todo|
    {
      var s :| s in todo;
      todo := todo - {s};
      if At(data, s) > 0 { continue; }
      data := data[s := generated[s]];
      filled := filled + {s};
    }
    FilledIs(d, generated, data, filled);
  }

  lemma FilledIs(d: Data, generated: Data, data: Data, filled: set<Slot>)
    requires forall s :: s in filled <==> s in generated && At(d, s) == 0
    requires forall s :: s in data <==> s in d || s in filled
    requires forall s :: s in data ==> data[s] == if s in filled then generated[s] else d[s]
    ensures data == Filled(d, generated)
  {
    var f := Filled(d, generated);
    assert forall s :: s in f <==> s in data;
    assert forall s :: s in f ==> f[s] == data[s];
  }

  lemma FilledKeeps(d: Data, generated: Data, s: Slot)
    ensures At(d, s) != 0 ==> At(Filled(d, generated), s) == At(d, s)
  {
  }

  // --- replicas and the Secret ----------------------------------------------------------

  datatype Object = Object(version: nat, data: Data)

  // Where prepare has got to. held is what the replica will run with.
  datatype Pc =
    | Idle
    | Loaded(stored: Material)
    | CaOpen(stored: Material, cert: nat, key: nat)
    | Opened(stored: Material, held: Material)
    | Completing(held: Material, got: Object)
    | Lost
    | Adopting(winner: Material)
    | Ready(held: Material)

  datatype Replica = Replica(files: Material, pc: Pc)

  datatype World = World(secret: Option<Object>, reps: seq<Replica>)

  datatype Action =
    | Abort                    // an error, a crash or a restart
    | Load
    | WriteFile(slot: Slot)    // one file of materialise
    | OpenCa(made: nat)       // made is the keypair generated if there is none
    | TornCreate(made: nat)   // stopped between the key file and the certificate file
    | OpenPepper(made: nat)
    | Persist
    | Update
    | Reread
    | Reload(made: nat)

  datatype Step = Step(rep: nat, action: Action)

  function Put(files: Material, slot: Slot, v: nat): Material {
    if v == 0 then files
    else match slot
      case CaCert => files.(cert := v)
      case CaKey => files.(key := v)
      case PepperKey => files.(pepper := v)
      case Other(_) => files
  }

  function Pick(m: Material, slot: Slot): nat {
    match slot
    case CaCert => m.cert
    case CaKey => m.key
    case PepperKey => m.pepper
    case Other(_) => 0
  }

  // materialise has finished: every non-empty field is on disk.
  predicate OnDisk(m: Material, files: Material) {
    && (m.cert != 0 ==> files.cert == m.cert)
    && (m.key != 0 ==> files.key == m.key)
    && (m.pepper != 0 ==> files.pepper == m.pepper)
  }

  function Look(secret: Option<Object>): Material { if secret.None? then NOTHING else Stored(secret.value.data) }

  type Effect = Option<(Option<Object>, Replica)>

  function Become(secret: Option<Object>, r: Replica, pc: Pc): Effect { Some((secret, r.(pc := pc))) }

  function OpeningCa(secret: Option<Object>, r: Replica, made: nat): Effect
    requires r.pc.Loaded?
  {
    var f := r.files;
    if !OnDisk(r.pc.stored, f) || made == 0 then None
    else if f.cert != 0 && f.key != 0 then
      if f.cert == f.key then Become(secret, r, CaOpen(r.pc.stored, f.cert, f.key)) else Become(secret, r, Idle)
    else if f.cert != 0 || f.key != 0 then Become(secret, r, Idle)
    else Some((secret, Replica(f.(cert := made, key := made), CaOpen(r.pc.stored, made, made))))
  }

  function Persisting(secret: Option<Object>, r: Replica): Effect
    requires r.pc.Opened?
  {
    var stored, held := r.pc.stored, r.pc.held;
    if Complete(stored) then Become(secret, r, Ready(held))
    else if stored != NOTHING then
      if secret.None? then Become(secret, r, Idle) else Become(secret, r, Completing(held, secret.value))
    else if secret.None? then Some((Some(Object(0, Generated(r.files.(pepper := held.pepper)))), r.(pc := Ready(held))))
    else Become(secret, r, Lost)
  }

  // Losing this race adopts nothing: what is reloaded is what was on disk before.
  function Updating(secret: Option<Object>, r: Replica): Effect
    requires r.pc.Completing?
  {
    var got, generated := r.pc.got, Generated(r.files.(pepper := r.pc.held.pepper));
    if forall s :: s in generated ==> At(got.data, s) != 0 then Become(secret, r, Ready(r.pc.held))
    else if secret == None then Become(secret, r, Idle)
    else if secret.value.version == got.version then
      Some((Some(Object(got.version + 1, Filled(got.data, generated))), r.(pc := Ready(r.pc.held))))
    else if r.files.cert != 0 && r.files.cert == r.files.key && r.files.pepper != 0 then Become(secret, r, Ready(r.files))
    else Become(secret, r, Idle)
  }

  function Reloading(secret: Option<Object>, r: Replica, made: nat): Effect
    requires r.pc.Adopting?
  {
    var f := if r.files.pepper == 0 then r.files.(pepper := made) else r.files;
    if !OnDisk(r.pc.winner, r.files) || made == 0 then None
    else if f.cert != 0 && f.cert == f.key then Some((secret, Replica(f, Ready(f)))) else Become(secret, r, Idle)
  }

  function Act(secret: Option<Object>, r: Replica, a: Action): Effect {
    match (a, r.pc)
    case (Abort, _) => Become(secret, r, Idle)
    case (Load, Idle) => Become(secret, r, Loaded(Look(secret)))
    case (WriteFile(s), Loaded(m)) => Some((secret, r.(files := Put(r.files, s, Pick(m, s)))))
    case (WriteFile(s), Adopting(m)) => Some((secret, r.(files := Put(r.files, s, Pick(m, s)))))
    case (OpenCa(v), Loaded(_)) => OpeningCa(secret, r, v)
    case (TornCreate(v), Loaded(m)) =>
      if OnDisk(m, r.files) && r.files.cert == 0 && r.files.key == 0 then Some((secret, Replica(r.files.(key := v), Idle))) else None
    case (OpenPepper(v), CaOpen(m, c, k)) =>
      if v == 0 then None
      else
        var f := if r.files.pepper == 0 then r.files.(pepper := v) else r.files;
        Some((secret, Replica(f, Opened(m, Material(c, k, f.pepper)))))
    case (Persist, Opened(_, _)) => Persisting(secret, r)
    case (Update, Completing(_, _)) => Updating(secret, r)
    case (Reread, Lost) =>
      if Look(secret) == NOTHING then Become(secret, r, Idle) else Become(secret, r, Adopting(Look(secret)))
    case (Reload(v), Adopting(_)) => Reloading(secret, r, v)
    case _ => None
  }

  predicate Enabled(w: World, s: Step) { s.rep < |w.reps| && Act(w.secret, w.reps[s.rep], s.action).Some? }

  function Do(w: World, s: Step): World
    requires Enabled(w, s)
  {
    var (secret, r) := Act(w.secret, w.reps[s.rep], s.action).value;
    World(secret, w.reps[s.rep := r])
  }

  predicate Init(w: World, secret: Option<Object>) {
    w.secret == secret && forall i :: 0 <= i < |w.reps| ==> w.reps[i].pc.Idle?
  }

  predicate FreshDisks(w: World) { forall i :: 0 <= i < |w.reps| ==> w.reps[i].files == NOTHING }

  predicate StepAt(ws: seq<World>, steps: seq<Step>, i: nat)
    requires i < |steps| && |ws| == |steps| + 1
  {
    Enabled(ws[i], steps[i]) && ws[i + 1] == Do(ws[i], steps[i])
  }

  predicate IsRun(ws: seq<World>, steps: seq<Step>, secret: Option<Object>) {
    && |ws| == |steps| + 1
    && Init(ws[0], secret)
    && forall i: nat :: i < |steps| ==> StepAt(ws, steps, i)
  }

  // --- nothing stored is ever replaced ----------------------------------------------------

  // An in-flight read that is still current is still what is stored.
  predicate ReadOk(secret: Option<Object>, r: Replica) {
    r.pc.Completing? ==>
      && secret.Some? && r.pc.got.version <= secret.value.version
      && (r.pc.got.version == secret.value.version ==> r.pc.got == secret.value)
  }

  predicate ReadsOk(w: World) { forall i :: 0 <= i < |w.reps| ==> ReadOk(w.secret, w.reps[i]) }

  ghost predicate Kept(a: Option<Object>, b: Option<Object>) {
    a.Some? ==> b.Some? && a.value.version <= b.value.version && (a.value.version == b.value.version ==> a == b)
                && forall s :: At(a.value.data, s) != 0 ==> At(b.value.data, s) == At(a.value.data, s)
  }

  lemma ActKeeps(secret: Option<Object>, r: Replica, a: Action)
    requires ReadOk(secret, r) && Act(secret, r, a).Some?
    ensures var (secret', r') := Act(secret, r, a).value; Kept(secret, secret') && ReadOk(secret', r')
  {
    if a.Update? && r.pc.Completing? {
      hide Filled, Stored;
      forall s | At(r.pc.got.data, s) != 0
        ensures At(Filled(r.pc.got.data, Generated(r.files.(pepper := r.pc.held.pepper))), s) == At(r.pc.got.data, s)
      {
        FilledKeeps(r.pc.got.data, Generated(r.files.(pepper := r.pc.held.pepper)), s);
      }
    }
  }

  lemma DoKeeps(w: World, s: Step)
    requires ReadsOk(w) && Enabled(w, s)
    ensures ReadsOk(Do(w, s)) && Kept(w.secret, Do(w, s).secret)
  {
    hide Act, At;
    ActKeeps(w.secret, w.reps[s.rep], s.action);
  }

  lemma {:induction false} ReadsAlwaysOk(ws: seq<World>, steps: seq<Step>, secret: Option<Object>, n: nat)
    requires IsRun(ws, steps, secret) && n < |ws|
    ensures ReadsOk(ws[n])
  {
    if n > 0 {
      hide Act;
      ReadsAlwaysOk(ws, steps, secret, n - 1);
      assert StepAt(ws, steps, n - 1);
      DoKeeps(ws[n - 1], steps[n - 1]);
    }
  }

  // From any Secret, in any run: a field that has a value keeps that value.
  lemma {:induction false} NothingReplaced(ws: seq<World>, steps: seq<Step>, secret: Option<Object>, m: nat, n: nat)
    requires IsRun(ws, steps, secret) && m <= n < |ws|
    ensures Kept(ws[m].secret, ws[n].secret)
  {
    if m < n {
      hide Act, At;
      NothingReplaced(ws, steps, secret, m, n - 1);
      ReadsAlwaysOk(ws, steps, secret, n - 1);
      assert StepAt(ws, steps, n - 1);
      DoKeeps(ws[n - 1], steps[n - 1]);
    }
  }

  // --- convergence ----------------------------------------------------------------------------

  // Every replica that is ready runs with exactly what the Secret holds.
  predicate Converged(w: World) {
    forall i :: 0 <= i < |w.reps| && w.reps[i].pc.Ready? ==>
      w.secret.Some? && w.reps[i].pc.held == Stored(w.secret.value.data)
  }

  predicate Paired(m: Material) { Complete(m) && m.cert == m.key }

  predicate Settled(secret: Option<Object>) {
    secret.None? || Look(secret) == NOTHING || Paired(Look(secret))
  }

  // What a replica knows is nothing or everything.
  predicate Seen(secret: Option<Object>, m: Material) { m == NOTHING || (m == Look(secret) && Paired(m)) }

  predicate RepOk(secret: Option<Object>, r: Replica) {
    var f := r.files;
    match r.pc
    case Idle => true
    case Loaded(m) => Seen(secret, m)
    case CaOpen(m, c, k) => Seen(secret, m) && OnDisk(m, f) && c == f.cert && k == f.key && c == k != 0
    case Opened(m, h) => Seen(secret, m) && OnDisk(m, f) && h == f && Paired(h)
    case Completing(_, _) => false
    case Lost => secret.Some?
    case Adopting(m) => m == Look(secret) && Paired(m)
    case Ready(h) => h == Look(secret) && Paired(h)
  }

  predicate Inv(w: World) { Settled(w.secret) && forall i :: 0 <= i < |w.reps| ==> RepOk(w.secret, w.reps[i]) }

  // Nothing but the creation changes the Secret, and it changes nothing a replica knows.
  lemma ActSettles(secret: Option<Object>, r: Replica, a: Action)
    requires Settled(secret) && RepOk(secret, r) && Act(secret, r, a).Some?
    ensures var (secret', r') := Act(secret, r, a).value;
            Settled(secret') && RepOk(secret', r') && (secret' == secret || secret.None?)
  {
  }

  lemma OthersUnmoved(secret: Option<Object>, secret': Option<Object>, r: Replica)
    requires RepOk(secret, r) && (secret' == secret || secret.None?)
    ensures RepOk(secret', r)
  {
  }

  lemma DoSettles(w: World, s: Step)
    requires Inv(w) && Enabled(w, s)
    ensures Inv(Do(w, s))
  {
    hide Act, RepOk, Settled;
    ActSettles(w.secret, w.reps[s.rep], s.action);
    var w' := Do(w, s);
    forall i | 0 <= i < |w'.reps| ensures RepOk(w'.secret, w'.reps[i]) {
      if i != s.rep { OthersUnmoved(w.secret, w'.secret, w.reps[i]); }
    }
  }

  // Starting from no Secret (or an empty or complete one), whatever is left on the
  // replicas' disks.
  lemma {:induction false} FirstBootConverges(ws: seq<World>, steps: seq<Step>, secret: Option<Object>, n: nat)
    requires IsRun(ws, steps, secret) && Settled(secret) && n < |ws|
    ensures Inv(ws[n]) && Converged(ws[n])
  {
    if n > 0 {
      hide Act, Settled;
      FirstBootConverges(ws, steps, secret, n - 1);
      assert StepAt(ws, steps, n - 1);
      DoSettles(ws[n - 1], steps[n - 1]);
    }
  }

  // --- and exactly when it does ---------------------------------------------------------------

  // The Secret lacks the pepper, or lacks both halves of the CA, but not everything.
  predicate Partial(secret: Option<Object>) {
    var m := Look(secret); m.cert == m.key && m != NOTHING && !Complete(m)
  }

  // Half a CA, or two halves that do not match: no replica gets past loading it.
  predicate StuckAt(m: Material, r: Replica) {
    && (r.pc.Idle? || r.pc == Loaded(m))
    && (m.cert == 0 ==> r.files.cert == 0) && (m.key == 0 ==> r.files.key == 0)
  }

  predicate Stuck(w: World) {
    var m := Look(w.secret);
    w.secret.Some? && m.cert != m.key && forall i :: 0 <= i < |w.reps| ==> StuckAt(m, w.reps[i])
  }

  lemma ActStuck(secret: Option<Object>, r: Replica, a: Action)
    requires secret.Some? && Act(secret, r, a).Some?
    requires var m := Look(secret); m.cert != m.key && StuckAt(m, r)
    ensures var (secret', r') := Act(secret, r, a).value; secret' == secret && StuckAt(Look(secret), r')
  {
  }

  lemma {:induction false} StaysStuck(ws: seq<World>, steps: seq<Step>, secret: Option<Object>, n: nat)
    requires IsRun(ws, steps, secret) && Stuck(ws[0]) && n < |ws|
    ensures Stuck(ws[n]) && Converged(ws[n])
  {
    if n > 0 {
      hide Act, Look;
      StaysStuck(ws, steps, secret, n - 1);
      assert StepAt(ws, steps, n - 1);
      ActStuck(ws[n - 1].secret, ws[n - 1].reps[steps[n - 1].rep], steps[n - 1].action);
    }
  }

  lemma Extend(ws: seq<World>, steps: seq<Step>, secret: Option<Object>, s: Step) returns (ws': seq<World>, steps': seq<Step>)
    requires IsRun(ws, steps, secret) && Enabled(ws[|steps|], s)
    ensures IsRun(ws', steps', secret) && ws'[0] == ws[0] && ws'[|steps'|] == Do(ws[|steps|], s) && steps' == steps + [s]
  {
    hide Act;
    ws', steps' := ws + [Do(ws[|steps|], s)], steps + [s];
    forall i: nat | i < |steps'| ensures StepAt(ws', steps', i) {
      if i < |steps| { assert StepAt(ws, steps, i); }
    }
  }

  // What replica i comes to hold when it fills the gaps in m with i + 1.
  function Mine(m: Material, i: nat): Material {
    Material(if m.cert == 0 then i + 1 else m.cert, if m.key == 0 then i + 1 else m.key, if m.pepper == 0 then i + 1 else m.pepper)
  }

  // Replica i boots as far as its own read of the partial Secret.
  lemma BootUp(ws: seq<World>, steps: seq<Step>, secret: Option<Object>, i: nat) returns (ws': seq<World>, steps': seq<Step>)
    requires IsRun(ws, steps, secret) && Partial(secret)
    requires var w := ws[|steps|]; i < |w.reps| && w.secret == secret && w.reps[i] == Replica(NOTHING, Idle)
    ensures IsRun(ws', steps', secret) && ws'[0] == ws[0]
    ensures var (w, w', m) := (ws[|steps|], ws'[|steps'|], Mine(Look(secret), i));
            w' == w.(reps := w.reps[i := Replica(m, Completing(m, secret.value))])
  {
    hide IsRun;
    ws', steps' := Extend(ws, steps, secret, Step(i, Load));
    ws', steps' := Extend(ws', steps', secret, Step(i, WriteFile(CaCert)));
    ws', steps' := Extend(ws', steps', secret, Step(i, WriteFile(CaKey)));
    ws', steps' := Extend(ws', steps', secret, Step(i, WriteFile(PepperKey)));
    ws', steps' := Extend(ws', steps', secret, Step(i, OpenCa(i + 1)));
    ws', steps' := Extend(ws', steps', secret, Step(i, OpenPepper(i + 1)));
    ws', steps' := Extend(ws', steps', secret, Step(i, Persist));
  }

  lemma FilledIsMine(d: Data, i: nat)
    ensures Stored(Filled(d, Generated(Mine(Stored(d), i)))) == Mine(Stored(d), i)
  {
  }

  // Two replicas race to complete it; the loser is ready with what it made itself.
  lemma PartialDiverges(secret: Option<Object>) returns (ws: seq<World>, steps: seq<Step>)
    requires Partial(secret)
    ensures IsRun(ws, steps, secret) && FreshDisks(ws[0]) && !Converged(ws[|steps|])
  {
    var r := Replica(NOTHING, Idle);
    ws, steps := [World(secret, [r, r])], [];
    ws, steps := BootUp(ws, steps, secret, 0);
    ws, steps := BootUp(ws, steps, secret, 1);
    hide IsRun, Filled;
    var d := secret.value.data;
    var m, theirs := Mine(Stored(d), 0), Mine(Stored(d), 1);
    assert m.(pepper := m.pepper) == m && theirs.(pepper := theirs.pepper) == theirs;
    ws, steps := Extend(ws, steps, secret, Step(0, Update));
    FilledIsMine(d, 0);
    assert Look(ws[|steps|].secret) == m;
    ws, steps := Extend(ws, steps, secret, Step(1, Update));
    assert ws[|steps|].reps[1].pc == Ready(theirs) && m != theirs;
  }

  // On fresh disks, every replica that prepare lets through agrees with the Secret,
  // in every run, exactly when the Secret does not start out partial.
  lemma ConvergesExactly(secret: Option<Object>)
    ensures !Partial(secret) <==>
              forall ws, steps, n: nat :: IsRun(ws, steps, secret) && FreshDisks(ws[0]) && n < |ws| ==> Converged(ws[n])
  {
    hide Converged, StepAt;
    if Partial(secret) {
      var ws, steps := PartialDiverges(secret);
      assert |steps| < |ws|;
    } else {
      forall ws, steps, n: nat | IsRun(ws, steps, secret) && FreshDisks(ws[0]) && n < |ws| ensures Converged(ws[n]) {
        if Settled(secret) {
          FirstBootConverges(ws, steps, secret, n);
        } else {
          StaysStuck(ws, steps, secret, n);
        }
      }
    }
  }

  // --- first boot succeeds ----------------------------------------------------------------------

  // Nobody in the way: what the replica holds is what gets stored, and it is ready with it.
  lemma UncontestedPersist(ws: seq<World>, steps: seq<Step>, secret: Option<Object>, n: nat, i: nat)
    requires IsRun(ws, steps, secret) && Settled(secret) && n < |ws| && i < |ws[n].reps|
    requires ws[n].secret.None? && ws[n].reps[i].pc.Opened?
    ensures var (w, s) := (ws[n], Step(i, Persist));
            var r := w.reps[i];
            && Enabled(w, s) && Paired(r.pc.held)
            && Do(w, s).reps == w.reps[i := r.(pc := Ready(r.pc.held))]
            && Do(w, s).secret == Some(Object(0, Generated(r.pc.held))) && Look(Do(w, s).secret) == r.pc.held
  {
    FirstBootConverges(ws, steps, secret, n);
    assert RepOk(ws[n].secret, ws[n].reps[i]);
  }

  function First(a: nat, b: nat, c: nat): nat { if a != 0 then a else if b != 0 then b else c }

  // The Secret's fields first, then what the disk has, then v.
  function Grown(m: Material, files: Material, v: nat): Material {
    Material(First(m.cert, files.cert, v), First(m.key, files.key, v), First(m.pepper, files.pepper, v))
  }

  // There is no Secret or it says something, and it and the disk between them do not have
  // half a CA or two halves that do not match.
  predicate Boots(secret: Option<Object>, files: Material) {
    var f := Grown(Look(secret), files, 0);
    (secret.None? || Look(secret) != NOTHING) && f.cert == f.key
  }

  // Replica i starts over and writes the Secret's fields to its disk.
  lemma LaysOut(ws: seq<World>, steps: seq<Step>, secret: Option<Object>, i: nat) returns (ws': seq<World>, steps': seq<Step>)
    requires IsRun(ws, steps, secret) && i < |ws[|steps|].reps|
    ensures IsRun(ws', steps', secret) && ws'[0] == ws[0]
    ensures steps' == steps + [Step(i, Abort), Step(i, Load), Step(i, WriteFile(CaCert)), Step(i, WriteFile(CaKey)), Step(i, WriteFile(PepperKey))]
    ensures var w := ws[|steps|];
            var m := Look(w.secret);
            ws'[|steps'|] == w.(reps := w.reps[i := Replica(Grown(m, w.reps[i].files, 0), Loaded(m))])
  {
    hide IsRun;
    ws', steps' := Extend(ws, steps, secret, Step(i, Abort));
    ws', steps' := Extend(ws', steps', secret, Step(i, Load));
    ws', steps' := Extend(ws', steps', secret, Step(i, WriteFile(CaCert)));
    ws', steps' := Extend(ws', steps', secret, Step(i, WriteFile(CaKey)));
    ws', steps' := Extend(ws', steps', secret, Step(i, WriteFile(PepperKey)));
  }

  lemma OpensAndPersists(ws: seq<World>, steps: seq<Step>, secret: Option<Object>, i: nat, files: Material, v: nat)
    returns (ws': seq<World>, steps': seq<Step>)
    requires IsRun(ws, steps, secret) && v > 0 && i < |ws[|steps|].reps|
    requires var w := ws[|steps|];
             Boots(w.secret, files) && w.reps[i] == Replica(Grown(Look(w.secret), files, 0), Loaded(Look(w.secret)))
    ensures IsRun(ws', steps', secret) && ws'[0] == ws[0]
    ensures steps' == steps + [Step(i, OpenCa(v)), Step(i, OpenPepper(v)), Step(i, Persist)]
    ensures var w := ws[|steps|];
            var h := Grown(Look(w.secret), files, v);
            ws'[|steps'|] == if w.secret.None? then World(Some(Object(0, Generated(h))), w.reps[i := Replica(h, Ready(h))])
                             else if Complete(Look(w.secret)) then w.(reps := w.reps[i := Replica(h, Ready(h))])
                             else w.(reps := w.reps[i := Replica(h, Completing(h, w.secret.value))])
  {
    hide IsRun;
    ws', steps' := Extend(ws, steps, secret, Step(i, OpenCa(v)));
    ws', steps' := Extend(ws', steps', secret, Step(i, OpenPepper(v)));
    ws', steps' := Extend(ws', steps', secret, Step(i, Persist));
  }

  lemma FilledIsGrown(d: Data, files: Material, v: nat)
    requires v > 0
    ensures var h := Grown(Stored(d), files, v); Complete(h) && Stored(Filled(d, Generated(h))) == h
  {
  }

  // From any moment of any run, whatever the replica was doing, within nine steps of its own.
  lemma LeftAlone(ws: seq<World>, steps: seq<Step>, secret: Option<Object>, i: nat, v: nat) returns (ws': seq<World>, steps': seq<Step>)
    requires IsRun(ws, steps, secret) && v > 0 && i < |ws[|steps|].reps|
    requires Boots(ws[|steps|].secret, ws[|steps|].reps[i].files)
    ensures IsRun(ws', steps', secret) && ws'[0] == ws[0]
    ensures |steps| <= |steps'| <= |steps| + 9 && steps <= steps' && forall k :: |steps| <= k < |steps'| ==> steps'[k].rep == i
    ensures var (w, w') := (ws[|steps|], ws'[|steps'|]);
            var h := Grown(Look(w.secret), w.reps[i].files, v);
            w'.reps == w.reps[i := Replica(h, Ready(h))] && w'.secret.Some? && Look(w'.secret) == h
  {
    hide StepAt, Filled;
    var w := ws[|steps|];
    ws', steps' := LaysOut(ws, steps, secret, i);
    ws', steps' := OpensAndPersists(ws', steps', secret, i, w.reps[i].files, v);
    if w.secret.Some? && !Complete(Look(w.secret)) {
      ws', steps' := Extend(ws', steps', secret, Step(i, Update));
      FilledIsGrown(w.secret.value.data, w.reps[i].files, v);
    }
  }

  // A Secret that exists and says nothing stops every replica at the lost race.
  predicate AtNothing(r: Replica) {
    match r.pc
    case Idle => true
    case Loaded(m) => m == NOTHING
    case CaOpen(m, _, _) => m == NOTHING
    case Opened(m, _) => m == NOTHING
    case Lost => true
    case _ => false
  }

  predicate NoBoot(secret: Option<Object>, r: Replica) {
    !Boots(secret, r.files) && (if secret.Some? && Look(secret) == NOTHING then AtNothing(r) else r.pc.Idle? || r.pc == Loaded(Look(secret)))
  }

  lemma ActNoBoot(secret: Option<Object>, r: Replica, a: Action)
    requires NoBoot(secret, r) && Act(secret, r, a).Some?
    ensures var (secret', r') := Act(secret, r, a).value; secret' == secret && NoBoot(secret, r')
  {
  }

  lemma {:induction false} StaysDown(ws: seq<World>, steps: seq<Step>, secret: Option<Object>, n: nat)
    requires IsRun(ws, steps, secret) && n < |ws| && |ws[0].reps| == 1 && !Boots(secret, ws[0].reps[0].files)
    ensures ws[n].secret == secret && |ws[n].reps| == 1 && NoBoot(secret, ws[n].reps[0])
  {
    if n > 0 {
      hide Act, NoBoot;
      StaysDown(ws, steps, secret, n - 1);
      assert StepAt(ws, steps, n - 1);
      ActNoBoot(secret, ws[n - 1].reps[0], steps[n - 1].action);
    }
  }

  ghost predicate ReadyAlone(secret: Option<Object>, files: Material, ws: seq<World>, steps: seq<Step>) {
    IsRun(ws, steps, secret) && ws[0].reps == [Replica(files, Idle)] && |ws[|steps|].reps| == 1 && ws[|steps|].reps[0].pc.Ready?
  }

  // A hub on its own can become ready exactly when it boots, and then does within nine steps.
  lemma BootsExactly(secret: Option<Object>, files: Material)
    ensures Boots(secret, files) <==> exists ws, steps :: ReadyAlone(secret, files, ws, steps)
    ensures Boots(secret, files) ==> exists ws, steps :: ReadyAlone(secret, files, ws, steps) && |steps| <= 9
  {
    hide StepAt, Boots;
    if Boots(secret, files) {
      var ws, steps := [World(secret, [Replica(files, Idle)])], [];
      ws, steps := LeftAlone(ws, steps, secret, 0, 1);
      assert ReadyAlone(secret, files, ws, steps);
    } else {
      forall ws, steps | ReadyAlone(secret, files, ws, steps) ensures false { StaysDown(ws, steps, secret, |steps|); }
    }
  }

  // The loser of the creation ends up with the winner's material, without starting over.
  lemma LoserAdopts(ws: seq<World>, steps: seq<Step>, secret: Option<Object>, i: nat, v: nat) returns (ws': seq<World>, steps': seq<Step>)
    requires IsRun(ws, steps, secret) && v > 0 && i < |ws[|steps|].reps|
    requires ws[|steps|].reps[i].pc.Lost? && Paired(Look(ws[|steps|].secret))
    ensures IsRun(ws', steps', secret) && |steps'| == |steps| + 5 && steps <= steps'
    ensures var w := ws[|steps|];
            var m := Look(w.secret);
            ws'[|steps'|] == w.(reps := w.reps[i := Replica(m, Ready(m))])
  {
    hide IsRun;
    ws', steps' := Extend(ws, steps, secret, Step(i, Reread));
    ws', steps' := Extend(ws', steps', secret, Step(i, WriteFile(CaCert)));
    ws', steps' := Extend(ws', steps', secret, Step(i, WriteFile(CaKey)));
    ws', steps' := Extend(ws', steps', secret, Step(i, WriteFile(PepperKey)));
    ws', steps' := Extend(ws', steps', secret, Step(i, Reload(v)));
  }

  // --- and the Secret is one replica's own ----------------------------------------------------

  predicate MadeCa(steps: seq<Step>, n: nat, i: nat, v: nat) {
    n <= |steps| && (v != 0 ==> exists k :: 0 <= k < n && steps[k] == Step(i, OpenCa(v)))
  }

  predicate MadePepper(steps: seq<Step>, n: nat, i: nat, v: nat) {
    n <= |steps| && (v != 0 ==> exists k :: 0 <= k < n && steps[k] == Step(i, OpenPepper(v)))
  }

  // Until there is a Secret, a disk holds only what its own replica made.
  predicate OwnMaking(steps: seq<Step>, n: nat, i: nat, r: Replica) {
    MadeCa(steps, n, i, r.files.cert) && MadePepper(steps, n, i, r.files.pepper)
  }

  lemma ActOwn(r: Replica, a: Action)
    requires RepOk(None, r) && Act(None, r, a).Some?
    ensures var f := Act(None, r, a).value.1.files;
            && (f.cert == r.files.cert || a == OpenCa(f.cert)) && (f.pepper == r.files.pepper || a == OpenPepper(f.pepper))
  {
  }

  lemma {:induction false} DisksAreOwn(ws: seq<World>, steps: seq<Step>, n: nat, i: nat)
    requires IsRun(ws, steps, None) && FreshDisks(ws[0]) && n < |ws| && ws[n].secret.None? && i < |ws[n].reps|
    ensures OwnMaking(steps, n, i, ws[n].reps[i])
  {
    hide Act, RepOk;
    if n > 0 {
      assert StepAt(ws, steps, n - 1);
      NothingReplaced(ws, steps, None, n - 1, n);
      DisksAreOwn(ws, steps, n - 1, i);
      FirstBootConverges(ws, steps, None, n - 1);
      var s := steps[n - 1];
      if s.rep == i { ActOwn(ws[n - 1].reps[i], s.action); }
    }
  }

  // Step k is a replica creating the Secret with what it holds.
  predicate CreatedAt(ws: seq<World>, steps: seq<Step>, k: nat, held: Material) {
    && k < |steps| && k < |ws| && ws[k].secret.None? && steps[k].action.Persist? && steps[k].rep < |ws[k].reps|
    && ws[k].reps[steps[k].rep].pc == Opened(NOTHING, held)
  }

  lemma ActCreates(r: Replica, a: Action)
    requires RepOk(None, r) && Act(None, r, a).Some? && Act(None, r, a).value.0.Some?
    ensures a.Persist? && r.pc == Opened(NOTHING, r.files) && Paired(r.files)
    ensures Act(None, r, a).value.0 == Some(Object(0, Generated(r.files)))
  {
    assert r.pc.Opened? && Seen(None, r.pc.stored);
  }

  lemma {:induction false} Creator(ws: seq<World>, steps: seq<Step>, n: nat) returns (k: nat, held: Material)
    requires IsRun(ws, steps, None) && n < |ws| && ws[n].secret.Some?
    ensures k < n && CreatedAt(ws, steps, k, held) && held == ws[k].reps[steps[k].rep].files && Paired(held)
    ensures ws[n].secret == Some(Object(0, Generated(held)))
  {
    hide Act, RepOk;
    assert n > 0;
    assert StepAt(ws, steps, n - 1);
    var s := steps[n - 1];
    FirstBootConverges(ws, steps, None, n - 1);
    if ws[n - 1].secret.None? {
      ActCreates(ws[n - 1].reps[s.rep], s.action);
      k, held := n - 1, ws[n - 1].reps[s.rep].files;
    } else {
      k, held := Creator(ws, steps, n - 1);
      ActSettles(ws[n - 1].secret, ws[n - 1].reps[s.rep], s.action);
    }
  }

  // Fresh disks, no Secret: whoever is ready runs with the CA and the pepper that one
  // replica generated itself and stored in one step.
  lemma OneMaker(ws: seq<World>, steps: seq<Step>, n: nat, i: nat) returns (k: nat, held: Material)
    requires IsRun(ws, steps, None) && FreshDisks(ws[0]) && n < |ws| && i < |ws[n].reps| && ws[n].reps[i].pc.Ready?
    ensures k < n && CreatedAt(ws, steps, k, held) && ws[n].secret == Some(Object(0, Generated(held)))
    ensures ws[n].reps[i].pc.held == held && Paired(held)
    ensures exists a :: 0 <= a < k && steps[a] == Step(steps[k].rep, OpenCa(held.cert))
    ensures exists b :: 0 <= b < k && steps[b] == Step(steps[k].rep, OpenPepper(held.pepper))
  {
    hide IsRun;
    FirstBootConverges(ws, steps, None, n);
    k, held := Creator(ws, steps, n);
    DisksAreOwn(ws, steps, k, steps[k].rep);
  }

  // --- so nobody is shut out but by a torn creation -----------------------------------------------

  predicate NeverTorn(steps: seq<Step>, n: nat, i: nat) {
    forall k :: 0 <= k < n && k < |steps| && steps[k].rep == i ==> !steps[k].action.TornCreate?
  }

  // The key file is written first, so that a certificate is never there without its key.
  predicate KeyFirst(f: Material) { f.cert != 0 ==> f.cert == f.key }

  lemma ActWhole(r: Replica, a: Action)
    requires RepOk(None, r) && KeyFirst(r.files) && Act(None, r, a).Some?
    ensures var f := Act(None, r, a).value.1.files; KeyFirst(f) && (r.files.cert == r.files.key && !a.TornCreate? ==> f.cert == f.key)
  {
  }

  lemma {:induction false} Whole(ws: seq<World>, steps: seq<Step>, n: nat, i: nat)
    requires IsRun(ws, steps, None) && FreshDisks(ws[0]) && n < |ws| && ws[n].secret.None? && i < |ws[n].reps|
    ensures KeyFirst(ws[n].reps[i].files)
    ensures NeverTorn(steps, n, i) ==> ws[n].reps[i].files.cert == ws[n].reps[i].files.key
  {
    hide Act, RepOk;
    if n > 0 {
      assert StepAt(ws, steps, n - 1);
      NothingReplaced(ws, steps, None, n - 1, n);
      Whole(ws, steps, n - 1, i);
      FirstBootConverges(ws, steps, None, n - 1);
      var s := steps[n - 1];
      if s.rep == i { ActWhole(ws[n - 1].reps[i], s.action); }
    }
  }

  // At every moment of every run: a replica left alone gets ready, unless the Secret exists
  // and says nothing, or there is none yet and the disk has half a CA or two halves that do
  // not match. Starting with fresh disks that is a key file without its certificate, which
  // only a creation of its own that was cut short can have left.
  lemma AlwaysBootable(ws: seq<World>, steps: seq<Step>, secret: Option<Object>, n: nat, i: nat)
    requires IsRun(ws, steps, secret) && Settled(secret) && n < |ws| && i < |ws[n].reps|
    ensures var (now, f) := (ws[n].secret, ws[n].reps[i].files);
            Boots(now, f) <==> Look(now) != NOTHING || (now.None? && f.cert == f.key)
    ensures (secret.None? || Look(secret) != NOTHING) && FreshDisks(ws[0]) ==>
              var f := ws[n].reps[i].files;
              Boots(ws[n].secret, f) || (!NeverTorn(steps, n, i) && ws[n].secret.None? && f.cert == 0 != f.key)
  {
    hide StepAt, RepOk;
    FirstBootConverges(ws, steps, secret, n);
    if secret.Some? {
      NothingReplaced(ws, steps, secret, 0, n);
    } else if ws[n].secret.Some? {
      var k, held := Creator(ws, steps, n);
    } else if FreshDisks(ws[0]) {
      Whole(ws, steps, n, i);
    }
  }
}
