// A query fanned out over many clusters: choosing them, dispatching to a bounded
// number of workers under a deadline, and accounting for every one of them
// (internal/mcptools/fanout.go).

module Selection {
  import opened Wrappers
  import opened Strings

  // clusters, labelSelector, or neither. The selector is given as what it matches.
  datatype Selector = Named(names: seq<string>) | Labelled(matches: string -> bool) | Everything

  datatype Reason = Unknown | NotQueried
  datatype Failed = Failed(cluster: string, reason: Reason)

  function Names(fs: seq<Failed>): (ns: seq<string>)
    ensures |ns| == |fs|
  {
    seq(|fs|, i requires 0 <= i < |fs| => fs[i].cluster)
  }

  // The clusters the caller can reach among those asked for.
  function Chosen(visible: seq<string>, sel: Selector): set<string> {
    match sel
    case Named(names) => set c | c in visible && c in names
    case Labelled(matches) => set c | c in visible && matches(c)
    case Everything => Elements(visible)
  }

  // Everything the answer has to account for.
  function Requested(visible: seq<string>, sel: Selector): set<string> {
    if sel.Named? then Elements(sel.names) else Chosen(visible, sel)
  }

  predicate Refused(visible: seq<string>, sel: Selector, maxClusters: nat) {
    Chosen(visible, sel) == {} || (sel.Everything? && |visible| > maxClusters)
  }

  function FirstAt(s: seq<string>, x: string): (i: nat)
    ensures i <= |s| && (i < |s| ==> s[i] == x) && forall j :: 0 <= j < i ==> s[j] != x
  {
    if s == [] || s[0] == x then 0 else 1 + FirstAt(s[1..], x)
  }

  // In order of first occurrence in s.
  predicate InOrderOf(s: seq<string>, out: seq<string>) {
    forall a, b :: 0 <= a < b < |out| ==> FirstAt(s, out[a]) < FirstAt(s, out[b])
  }

  // A first occurrence comes after every earlier element's.
  lemma FirstComesLast(s: seq<string>, i: nat, x: string)
    requires i < |s| && s[i] !in s[..i] && x in s[..i]
    ensures FirstAt(s, x) < FirstAt(s, s[i]) == i
  {
    assert forall k :: 0 <= k < i ==> s[k] in s[..i];
    var j :| 0 <= j < i && s[..i][j] == x;
    assert s[j] == x;
  }

  method Dedupe(s: seq<string>) returns (out: seq<string>)
    ensures Distinct(out) && Elements(out) == Elements(s) && InOrderOf(s, out)
  {
    if |s| < 2 { return s; }
    out := [];
    for i := 0 to |s|
      invariant Distinct(out) && Elements(out) == Elements(s[..i]) && InOrderOf(s, out)
    {
      assert s[..i + 1] == s[..i] + [s[i]];
      AppendElements(s[..i], s[i]);
      AppendElements(out, s[i]);
      if s[i] in Elements(out) { continue; }
      forall a | 0 <= a < |out| ensures FirstAt(s, out[a]) < FirstAt(s, s[i]) {
        assert out[a] in Elements(out);
        FirstComesLast(s, i, out[a]);
      }
      out := out + [s[i]];
    }
    assert s[..|s|] == s;
  }

  // The names that are reachable, and a failure for each that is not.
  method Resolve(visible: seq<string>, names: seq<string>) returns (targets: seq<string>, failures: seq<Failed>)
    requires Distinct(names)
    ensures Distinct(targets) && Elements(targets) == Chosen(visible, Named(names))
    ensures Distinct(Names(failures)) && Elements(Names(failures)) == Elements(names) - Elements(visible)
    ensures forall i :: 0 <= i < |failures| ==> failures[i].reason == Unknown
  {
    targets, failures := [], [];
    for n := 0 to |names|
      invariant Distinct(targets) && Elements(targets) == Elements(names[..n]) * Elements(visible)
      invariant Distinct(Names(failures)) && Elements(Names(failures)) == Elements(names[..n]) - Elements(visible)
      invariant forall i :: 0 <= i < |failures| ==> failures[i].reason == Unknown
    {
      var name := names[n];
      assert name !in Elements(names[..n]);
      assert names[..n + 1] == names[..n] + [name];
      AppendElements(names[..n], name);
      if name !in visible {
        AppendElements(Names(failures), name);
        assert Names(failures + [Failed(name, Unknown)]) == Names(failures) + [name];
        failures := failures + [Failed(name, Unknown)];
        continue;
      }
      AppendElements(targets, name);
      targets := targets + [name];
    }
    assert names[..|names|] == names;
  }

  method Filter(visible: seq<string>, matches: string -> bool) returns (targets: seq<string>)
    requires Distinct(visible)
    ensures Distinct(targets) && Elements(targets) == Chosen(visible, Labelled(matches))
  {
    targets := [];
    for i := 0 to |visible|
      invariant Distinct(targets) && Elements(targets) == set c | c in visible[..i] && matches(c)
    {
      assert visible[i] !in visible[..i];
      assert visible[..i + 1] == visible[..i] + [visible[i]];
      AppendElements(targets, visible[i]);
      if matches(visible[i]) { targets := targets + [visible[i]]; }
    }
    assert visible[..|visible|] == visible;
  }

  method Choose(visible: seq<string>, sel: Selector, maxClusters: nat) returns (r: Result<(seq<string>, seq<Failed>)>)
    requires Distinct(visible)
    ensures r.Failure? <==> Refused(visible, sel, maxClusters)
    ensures r.Success? ==>
              && Distinct(r.value.0) && Elements(r.value.0) == Chosen(visible, sel)
              && Distinct(Names(r.value.1)) && Elements(Names(r.value.1)) == Requested(visible, sel) - Chosen(visible, sel)
              && forall i :: 0 <= i < |r.value.1| ==> r.value.1[i].reason == Unknown
  {
    var targets, failures: seq<Failed> := [], [];
    match sel {
      case Named(names) =>
        var ns := Dedupe(names);
        targets, failures := Resolve(visible, ns);
        SameElements(ns, names);
      case Labelled(matches) =>
        targets := Filter(visible, matches);
      case Everything =>
        if |visible| > maxClusters { return Failure; }
        targets := visible;
    }
    assert Elements(targets) == Chosen(visible, sel);
    if |targets| == 0 { return Failure; }
    assert targets[0] in Elements(targets);
    return Success((targets, failures));
  }

  lemma SameElements(s: seq<string>, t: seq<string>)
    requires Elements(s) == Elements(t)
    ensures forall c :: c in s <==> c in t
  {
    assert forall c :: c in s <==> c in Elements(s);
    assert forall c :: c in t <==> c in Elements(t);
  }

  // Every cluster asked for is either queried or reported, once; and the clusters
  // queried are the least of those that could be, so they do not depend on the
  // order in which the fleet was listed.
  ghost predicate Accounts(
      chosen: set<string>, requested: set<string>, maxClusters: nat, targets: seq<string>, failures: seq<Failed>) {
    LeastOf(chosen, maxClusters, targets) && EachOnce(requested, targets, failures) && Explained(chosen, failures)
  }

  ghost predicate LeastOf(chosen: set<string>, maxClusters: nat, targets: seq<string>) {
    && Sorted(targets) && |targets| == (if |chosen| <= maxClusters then |chosen| else maxClusters)
    && Elements(targets) <= chosen
    && (forall t, c :: t in Elements(targets) && c in chosen && c !in Elements(targets) ==> Less(t, c))
  }

  predicate EachOnce(requested: set<string>, targets: seq<string>, failures: seq<Failed>) {
    && Elements(targets) !! Elements(Names(failures)) && Elements(targets) + Elements(Names(failures)) == requested
    && |targets| + |failures| == |requested|
  }

  predicate Explained(chosen: set<string>, failures: seq<Failed>) {
    && (forall i :: 0 <= i < |failures| ==> failures[i].reason == if failures[i].cluster in chosen then NotQueried else Unknown)
  }

  method SelectClusters(visible: seq<string>, sel: Selector, maxClusters: nat) returns (r: Result<(seq<string>, seq<Failed>)>)
    requires Distinct(visible)
    ensures r.Failure? <==> Refused(visible, sel, maxClusters)
    ensures r.Success? ==> Accounts(Chosen(visible, sel), Requested(visible, sel), maxClusters, r.value.0, r.value.1)
  {
    hide Elements, Sorted, Distinct, Chosen, Requested, Names, LeastOf, EachOnce, Explained;
    r := Choose(visible, sel, maxClusters);
    if r.Failure? { return; }
    var (targets, failures) := r.value;
    ghost var unknown := failures;
    SortSorts(targets);
    targets := Sort(targets);
    ghost var all := targets;
    ghost var cut: seq<string> := [];
    if |targets| > maxClusters {
      cut := targets[maxClusters..];
      failures := failures + NotQueriedOf(targets[maxClusters..]);
      targets := targets[..maxClusters];
    }
    assert targets + cut == all;
    assert failures == unknown + NotQueriedOf(cut);
    RequestedCovers(visible, sel);
    ghost var chosen := Chosen(visible, sel);
    LeastKept(chosen, maxClusters, targets, cut);
    OnceEach(chosen, Requested(visible, sel), targets, cut, unknown);
    SplitElements(targets, cut);
    EachExplained(chosen, cut, unknown);
    return Success((targets, failures));
  }

  function NotQueriedOf(cut: seq<string>): seq<Failed> {
    seq(|cut|, i requires 0 <= i < |cut| => Failed(cut[i], NotQueried))
  }

  lemma {:induction false} DistinctSize(s: seq<string>)
    requires Distinct(s)
    ensures |Elements(s)| == |s|
  {
    if s != [] {
      var n := |s| - 1;
      DistinctSize(s[..n]);
      assert s == s[..n] + [s[n]];
      AppendElements(s[..n], s[n]);
      assert s[n] !in Elements(s[..n]);
    } else {
      assert Elements(s) == {};
    }
  }

  lemma SplitElements(s: seq<string>, t: seq<string>)
    requires Sorted(s + t)
    ensures Sorted(s) && Sorted(t) && Elements(s) !! Elements(t) && Elements(s + t) == Elements(s) + Elements(t)
    ensures forall a, b :: a in s && b in t ==> Less(a, b)
  {
    var u := s + t;
    assert forall i :: 0 <= i < |s| ==> u[i] == s[i];
    assert forall i :: 0 <= i < |t| ==> u[|s| + i] == t[i];
    forall a, b | a in s && b in t ensures Less(a, b) && a != b {
      var i, j :| 0 <= i < |s| && s[i] == a && 0 <= j < |t| && t[j] == b;
      assert u[i] == a && u[|s| + j] == b;
      LessIsTotal(a, b);
      LessIsTotal(a, a);
    }
  }

  lemma LeastKept(chosen: set<string>, maxClusters: nat, targets: seq<string>, cut: seq<string>)
    requires Sorted(targets + cut) && Elements(targets + cut) == chosen
    requires if |targets + cut| <= maxClusters then cut == [] else |targets| == maxClusters
    ensures LeastOf(chosen, maxClusters, targets)
  {
    SplitElements(targets, cut);
    SortedSize(targets + cut);
    assert forall c :: c in cut <==> c in Elements(cut);
    assert forall c :: c in targets <==> c in Elements(targets);
  }

  lemma OnceEach(chosen: set<string>, requested: set<string>, targets: seq<string>, cut: seq<string>, unknown: seq<Failed>)
    requires Sorted(targets + cut) && Elements(targets + cut) == chosen <= requested
    requires Distinct(Names(unknown)) && Elements(Names(unknown)) == requested - chosen
    ensures EachOnce(requested, targets, unknown + NotQueriedOf(cut))
  {
    hide Elements, Names, Sorted, Distinct;
    SplitElements(targets, cut);
    SortedSize(targets + cut);
    FailureNames(unknown, cut);
    DistinctSize(Names(unknown));
    Disjoint(chosen, Elements(Names(unknown)));
    assert chosen + Elements(Names(unknown)) == requested;
  }

  lemma EachExplained(chosen: set<string>, cut: seq<string>, unknown: seq<Failed>)
    requires Elements(cut) <= chosen && Elements(Names(unknown)) !! chosen
    requires forall i :: 0 <= i < |unknown| ==> unknown[i].reason == Unknown
    ensures Explained(chosen, unknown + NotQueriedOf(cut))
  {
    var failures := unknown + NotQueriedOf(cut);
    forall i | 0 <= i < |failures| ensures failures[i].reason == if failures[i].cluster in chosen then NotQueried else Unknown {
      if i < |unknown| {
        assert Names(unknown)[i] in Elements(Names(unknown));
      } else {
        assert failures[i] == Failed(cut[i - |unknown|], NotQueried) && cut[i - |unknown|] in Elements(cut);
      }
    }
  }

  lemma RequestedCovers(visible: seq<string>, sel: Selector)
    ensures Chosen(visible, sel) <= Requested(visible, sel)
  {
  }

  lemma Disjoint(a: set<string>, b: set<string>)
    requires a !! b
    ensures |a + b| == |a| + |b|
  {
  }

  lemma FailureNames(unknown: seq<Failed>, cut: seq<string>)
    ensures Elements(Names(unknown + NotQueriedOf(cut))) == Elements(Names(unknown)) + Elements(cut)
  {
    var fs := unknown + NotQueriedOf(cut);
    assert Names(fs) == Names(unknown) + cut;
    forall c | c in Names(unknown) || c in cut ensures c in Names(fs) {
    }
  }
}

// The dispatcher: one goroutine hands out jobs over an unbuffered channel, a fixed
// number of workers answer them, and the deadline may pass at any moment.
module Dispatch {
  import opened Wrappers
  import opened Selection

  datatype Outcome = Answered | Errored | TimedOut
  datatype Res = Res(cluster: string, outcome: Outcome)

  // sent counts the jobs handed to workers. Marking fills in the rest after the
  // deadline has passed.
  datatype Feeder = Sending(sent: nat) | Marking(sent: nat, at: nat) | Closed(sent: nat)
  datatype Worker = Waiting | Querying(job: nat) | Storing(job: nat, got: Outcome) | Exited

  // writes and answers are history: how often each slot was written, and what the
  // query of each target came back with.
  datatype State = State(
    feeder: Feeder, workers: seq<Worker>, cancelled: bool,
    slots: seq<Option<Res>>, writes: seq<nat>, answers: map<nat, Outcome>)

  datatype Step =
    | Cancel
    | Send(worker: nat)
    | GiveUp
    | Mark
    | CloseJobs
    | Answer(worker: nat, outcome: Outcome)
    | Store(worker: nat)
    | Exit(worker: nat)

  function Start(targets: seq<string>, concurrency: nat): State {
    var n := |targets|;
    State(Sending(0), seq(if concurrency < n then concurrency else n, _ => Waiting), false,
          seq(n, _ => None), seq(n, _ => 0), map[])
  }

  predicate WorkerIs(s: State, k: nat, w: Worker) { k < |s.workers| && s.workers[k] == w }

  predicate Shaped(targets: seq<string>, s: State) { |s.slots| == |s.writes| == |targets| }

  predicate Enabled(targets: seq<string>, s: State, step: Step) {
    match step
    case Cancel => !s.cancelled
    case Send(k) => s.feeder.Sending? && s.feeder.sent < |targets| && WorkerIs(s, k, Waiting)
    case GiveUp => s.feeder.Sending? && s.feeder.sent < |targets| && s.cancelled
    case Mark => s.feeder.Marking? && s.feeder.at < |targets|
    case CloseJobs => (s.feeder.Sending? && s.feeder.sent == |targets|) || (s.feeder.Marking? && s.feeder.at == |targets|)
    case Answer(k, _) => k < |s.workers| && s.workers[k].Querying? && s.workers[k].job < |targets|
    case Store(k) => k < |s.workers| && s.workers[k].Storing? && s.workers[k].job < |targets|
    case Exit(k) => s.feeder.Closed? && WorkerIs(s, k, Waiting)
  }

  function Write(s: State, j: nat, r: Res): State
    requires j < |s.slots| == |s.writes|
  {
    s.(slots := s.slots[j := Some(r)], writes := s.writes[j := s.writes[j] + 1])
  }

  function Do(targets: seq<string>, s: State, step: Step): State
    requires Shaped(targets, s) && Enabled(targets, s, step)
  {
    match step
    case Cancel => s.(cancelled := true)
    case Send(k) => s.(feeder := Sending(s.feeder.sent + 1), workers := s.workers[k := Querying(s.feeder.sent)])
    case GiveUp => s.(feeder := Marking(s.feeder.sent, s.feeder.sent))
    case Mark =>
      Write(s, s.feeder.at, Res(targets[s.feeder.at], TimedOut)).(feeder := Marking(s.feeder.sent, s.feeder.at + 1))
    case CloseJobs => s.(feeder := Closed(s.feeder.sent))
    case Answer(k, out) =>
      var j := s.workers[k].job;
      s.(workers := s.workers[k := Storing(j, out)], answers := s.answers[j := out])
    case Store(k) =>
      var w := s.workers[k];
      Write(s, w.job, Res(targets[w.job], w.got)).(workers := s.workers[k := Waiting])
    case Exit(k) => s.(workers := s.workers[k := Exited])
  }

  // dispatch has returned: the channel is closed and every worker is done.
  predicate Returned(s: State) { s.feeder.Closed? && forall k :: 0 <= k < |s.workers| ==> s.workers[k].Exited? }

  // --- every slot once ------------------------------------------------------------------

  predicate HasJob(w: Worker) { w.Querying? || w.Storing? }

  predicate Busy(w: Worker, j: nat) { HasJob(w) && w.job == j }

  predicate Held(s: State, j: nat) { exists k :: 0 <= k < |s.workers| && Busy(s.workers[k], j) }

  predicate HeldByOther(ws: seq<Worker>, k: nat, j: nat) { exists a :: 0 <= a < |ws| && a != k && Busy(ws[a], j) }

  function MarkedTo(targets: seq<string>, f: Feeder): nat {
    match f case Sending(n) => n case Marking(_, at) => at case Closed(_) => |targets|
  }

  predicate SlotIs(s: State, j: nat, count: nat, v: Option<Res>)
    requires j < |s.slots| == |s.writes|
  {
    s.writes[j] == count && s.slots[j] == v
  }

  // A slot is empty while its job is undecided and holds its own result after.
  predicate SlotOk(targets: seq<string>, s: State, j: nat)
    requires Shaped(targets, s) && j < |targets|
  {
    if j >= MarkedTo(targets, s.feeder) || Held(s, j) then SlotIs(s, j, 0, None)
    else if j < s.feeder.sent then j in s.answers && SlotIs(s, j, 1, Some(Res(targets[j], s.answers[j])))
    else SlotIs(s, j, 1, Some(Res(targets[j], TimedOut)))
  }

  predicate WorkerOk(s: State, k: nat)
    requires k < |s.workers|
  {
    match s.workers[k]
    case Waiting => true
    case Querying(j) => j < s.feeder.sent && j !in s.answers
    case Storing(j, out) => j < s.feeder.sent && j in s.answers && s.answers[j] == out
    case Exited => s.feeder.Closed?
  }

  predicate FeederOk(targets: seq<string>, f: Feeder) {
    f.sent <= |targets| && (f.Marking? ==> f.sent <= f.at <= |targets|)
  }

  predicate Apart(s: State) {
    forall a, b :: 0 <= a < b < |s.workers| && HasJob(s.workers[a]) && HasJob(s.workers[b]) ==>
      s.workers[a].job != s.workers[b].job
  }

  predicate Inv(targets: seq<string>, s: State) {
    && Shaped(targets, s) && FeederOk(targets, s.feeder) && Apart(s)
    && (forall k :: 0 <= k < |s.workers| ==> WorkerOk(s, k))
    && (forall j: nat :: j < |targets| ==> SlotOk(targets, s, j))
    && (forall j :: j in s.answers ==> j < s.feeder.sent)
  }

  lemma StartOk(targets: seq<string>, concurrency: nat)
    ensures Inv(targets, Start(targets, concurrency))
  {
  }

  lemma HeldAfter(s: State, s': State, k: nat, j: nat)
    requires k < |s.workers| == |s'.workers| && s'.workers == s.workers[k := s'.workers[k]]
    ensures Held(s, j) <==> Busy(s.workers[k], j) || HeldByOther(s.workers, k, j)
    ensures Held(s', j) <==> Busy(s'.workers[k], j) || HeldByOther(s.workers, k, j)
  {
    forall a | 0 <= a < |s.workers| && a != k ensures s'.workers[a] == s.workers[a] {
    }
    if HeldByOther(s.workers, k, j) {
      var a :| 0 <= a < |s.workers| && a != k && Busy(s.workers[a], j);
      assert Busy(s'.workers[a], j);
    }
  }

  lemma NotElsewhere(s: State, k: nat)
    requires Apart(s) && k < |s.workers| && HasJob(s.workers[k])
    ensures !HeldByOther(s.workers, k, s.workers[k].job)
  {
  }

  lemma NotYet(targets: seq<string>, s: State, j: nat)
    requires Inv(targets, s) && j >= s.feeder.sent
    ensures !Held(s, j)
  {
    forall k | 0 <= k < |s.workers| ensures !Busy(s.workers[k], j) {
      assert WorkerOk(s, k);
    }
  }

  lemma SendKeeps(targets: seq<string>, s: State, k: nat)
    requires Inv(targets, s) && Enabled(targets, s, Send(k))
    ensures Inv(targets, Do(targets, s, Send(k)))
  {
    var s' := Do(targets, s, Send(k));
    NotYet(targets, s, s.feeder.sent);
    forall j: nat | j < |targets| ensures SlotOk(targets, s', j) {
      HeldAfter(s, s', k, j);
      assert SlotOk(targets, s, j);
    }
    forall a | 0 <= a < |s.workers| ensures WorkerOk(s', a) { assert WorkerOk(s, a); }
  }

  lemma AnswerKeeps(targets: seq<string>, s: State, k: nat, out: Outcome)
    requires Inv(targets, s) && Enabled(targets, s, Answer(k, out))
    ensures Inv(targets, Do(targets, s, Answer(k, out)))
  {
    var s' := Do(targets, s, Answer(k, out));
    NotElsewhere(s, k);
    assert WorkerOk(s, k);
    forall j: nat | j < |targets| ensures SlotOk(targets, s', j) {
      HeldAfter(s, s', k, j);
      assert SlotOk(targets, s, j);
    }
    forall a | 0 <= a < |s.workers| ensures WorkerOk(s', a) { assert WorkerOk(s, a); }
  }

  lemma StoreKeeps(targets: seq<string>, s: State, k: nat)
    requires Inv(targets, s) && Enabled(targets, s, Store(k))
    ensures Inv(targets, Do(targets, s, Store(k)))
  {
    var s' := Do(targets, s, Store(k));
    NotElsewhere(s, k);
    assert WorkerOk(s, k);
    forall j: nat | j < |targets| ensures SlotOk(targets, s', j) {
      HeldAfter(s, s', k, j);
      assert SlotOk(targets, s, j);
    }
    forall a | 0 <= a < |s.workers| ensures WorkerOk(s', a) { assert WorkerOk(s, a); }
  }

  lemma ExitKeeps(targets: seq<string>, s: State, k: nat)
    requires Inv(targets, s) && Enabled(targets, s, Exit(k))
    ensures Inv(targets, Do(targets, s, Exit(k)))
  {
    var s' := Do(targets, s, Exit(k));
    forall j: nat | j < |targets| ensures SlotOk(targets, s', j) {
      HeldAfter(s, s', k, j);
      assert SlotOk(targets, s, j);
    }
    forall a | 0 <= a < |s.workers| ensures WorkerOk(s', a) { assert WorkerOk(s, a); }
  }

  lemma FeederKeeps(targets: seq<string>, s: State, step: Step)
    requires Inv(targets, s) && Enabled(targets, s, step) && (step.Cancel? || step.GiveUp? || step.Mark? || step.CloseJobs?)
    ensures Inv(targets, Do(targets, s, step))
  {
    var s' := Do(targets, s, step);
    if step.Mark? { NotYet(targets, s, s.feeder.at); }
    forall j: nat | j < |targets| ensures SlotOk(targets, s', j) {
      assert SlotOk(targets, s, j) && Held(s', j) == Held(s, j);
    }
    forall a | 0 <= a < |s.workers| ensures WorkerOk(s', a) { assert WorkerOk(s, a); }
  }

  lemma StepKeeps(targets: seq<string>, s: State, step: Step)
    requires Inv(targets, s) && Enabled(targets, s, step)
    ensures Inv(targets, Do(targets, s, step))
  {
    hide Inv;
    match step
    case Send(k) => SendKeeps(targets, s, k);
    case Answer(k, out) => AnswerKeeps(targets, s, k, out);
    case Store(k) => StoreKeeps(targets, s, k);
    case Exit(k) => ExitKeeps(targets, s, k);
    case _ => FeederKeeps(targets, s, step);
  }

  // --- whole runs -----------------------------------------------------------------------

  predicate StepAt(targets: seq<string>, ss: seq<State>, steps: seq<Step>, i: nat)
    requires i < |steps| && |ss| == |steps| + 1
  {
    Shaped(targets, ss[i]) && Enabled(targets, ss[i], steps[i]) && ss[i + 1] == Do(targets, ss[i], steps[i])
  }

  predicate IsRun(targets: seq<string>, concurrency: nat, ss: seq<State>, steps: seq<Step>) {
    && |ss| == |steps| + 1
    && ss[0] == Start(targets, concurrency)
    && forall i: nat :: i < |steps| ==> StepAt(targets, ss, steps, i)
  }

  lemma {:induction false} AlwaysInv(targets: seq<string>, concurrency: nat, ss: seq<State>, steps: seq<Step>, n: nat)
    requires IsRun(targets, concurrency, ss, steps) && n < |ss|
    ensures Inv(targets, ss[n]) && |ss[n].workers| == |ss[0].workers|
  {
    hide Inv, Start;
    if n > 0 {
      AlwaysInv(targets, concurrency, ss, steps, n - 1);
      assert StepAt(targets, ss, steps, n - 1);
      StepKeeps(targets, ss[n - 1], steps[n - 1]);
    } else {
      StartOk(targets, concurrency);
    }
  }

  // The results of a returned dispatch: target j's own outcome if it was handed to a
  // worker, and a timeout naming it if it never was.
  function Results(targets: seq<string>, answers: map<nat, Outcome>): (rs: seq<Res>)
    ensures |rs| == |targets|
  {
    seq(|targets|, j requires 0 <= j < |targets| => Res(targets[j], if j in answers then answers[j] else TimedOut))
  }

  // However many workers, however they are scheduled and whenever the deadline falls,
  // each slot has been written exactly once, with its own target's result.
  lemma EverySlotOnce(targets: seq<string>, concurrency: nat, ss: seq<State>, steps: seq<Step>, n: nat)
    requires IsRun(targets, concurrency, ss, steps) && n < |ss| && Returned(ss[n])
    ensures var s := ss[n];
            && |s.slots| == |s.writes| == |targets|
            && (forall j: nat :: j in s.answers ==> j < |targets|)
            && (forall j: nat :: j < |targets| ==> s.writes[j] == 1 && s.slots[j] == Some(Results(targets, s.answers)[j]))
            && (!s.cancelled ==> forall j: nat :: j < |targets| ==> j in s.answers)
  {
    hide IsRun;
    AlwaysInv(targets, concurrency, ss, steps, n);
    var s := ss[n];
    forall j: nat | j < |targets| ensures s.writes[j] == 1 && s.slots[j] == Some(Results(targets, s.answers)[j]) {
      assert SlotOk(targets, s, j) && !Held(s, j);
    }
    if !s.cancelled {
      AllSent(targets, concurrency, ss, steps, n);
      forall j: nat | j < |targets| ensures j in s.answers { assert SlotOk(targets, s, j) && !Held(s, j); }
    }
  }

  lemma {:induction false} AnswersStay(targets: seq<string>, concurrency: nat, ss: seq<State>, steps: seq<Step>, m: nat, n: nat, j: nat)
    requires IsRun(targets, concurrency, ss, steps) && m <= n < |ss| && j in ss[m].answers
    ensures j in ss[n].answers
  {
    if m < n {
      AnswersStay(targets, concurrency, ss, steps, m, n - 1, j);
      assert StepAt(targets, ss, steps, n - 1);
    }
  }

  // Step m is worker k's query for target j coming back.
  predicate BackAt(ss: seq<State>, steps: seq<Step>, m: nat, k: nat, j: nat) {
    m < |steps| && m < |ss| && steps[m].Answer? && steps[m].worker == k && WorkerIs(ss[m], k, Querying(j))
  }

  // A target is queried once at the most.
  lemma OneQuery(
      targets: seq<string>, concurrency: nat, ss: seq<State>, steps: seq<Step>, m: nat, k: nat, m': nat, k': nat, j: nat)
    requires IsRun(targets, concurrency, ss, steps) && BackAt(ss, steps, m, k, j) && BackAt(ss, steps, m', k', j)
    ensures m == m' && k == k'
  {
    hide Inv, Start;
    if m != m' {
      var (a, b, c) := if m < m' then (m, m', k') else (m', m, k);
      assert StepAt(targets, ss, steps, a);
      AnswersStay(targets, concurrency, ss, steps, a + 1, b, j);
      AlwaysInv(targets, concurrency, ss, steps, b);
      WorkerOf(targets, ss[b], c);
    }
  }

  lemma WorkerOf(targets: seq<string>, s: State, k: nat)
    requires Inv(targets, s) && k < |s.workers|
    ensures WorkerOk(s, k)
  {
  }

  // Target j is credited with what the one worker that held it heard.
  lemma {:induction false} AnsweredBy(targets: seq<string>, concurrency: nat, ss: seq<State>, steps: seq<Step>, n: nat, j: nat)
    returns (m: nat, k: nat)
    requires IsRun(targets, concurrency, ss, steps) && n < |ss| && j in ss[n].answers
    ensures m < n && BackAt(ss, steps, m, k, j) && steps[m] == Answer(k, ss[n].answers[j])
    ensures forall m': nat, k': nat :: BackAt(ss, steps, m', k', j) ==> m' == m && k' == k
  {
    assert n > 0;
    var step := steps[n - 1];
    assert StepAt(targets, ss, steps, n - 1);
    if step.Answer? && ss[n - 1].workers[step.worker].job == j {
      m, k := n - 1, step.worker;
      forall m': nat, k': nat | BackAt(ss, steps, m', k', j) ensures m' == m && k' == k {
        OneQuery(targets, concurrency, ss, steps, m, k, m', k', j);
      }
    } else {
      m, k := AnsweredBy(targets, concurrency, ss, steps, n - 1, j);
    }
  }

  function InFlight(ws: seq<Worker>): set<nat> { set k | 0 <= k < |ws| && HasJob(ws[k]) :: ws[k].job }

  lemma {:induction false} FewInFlight(ws: seq<Worker>)
    ensures |InFlight(ws)| <= |ws|
  {
    if ws == [] {
      assert InFlight(ws) == {};
    } else {
      var n := |ws| - 1;
      FewInFlight(ws[..n]);
      var more := if HasJob(ws[n]) then {ws[n].job} else {};
      assert InFlight(ws) == InFlight(ws[..n]) + more by {
        forall k | 0 <= k < n && HasJob(ws[k]) ensures ws[k].job in InFlight(ws[..n]) { assert ws[..n][k] == ws[k]; }
      }
    }
  }

  // Never more targets out at once than the concurrency asked for.
  lemma BoundedConcurrency(targets: seq<string>, concurrency: nat, ss: seq<State>, steps: seq<Step>, n: nat)
    requires IsRun(targets, concurrency, ss, steps) && n < |ss|
    ensures |InFlight(ss[n].workers)| <= concurrency
    ensures |ss[n].workers| == if concurrency < |targets| then concurrency else |targets|
  {
    AlwaysInv(targets, concurrency, ss, steps, n);
    FewInFlight(ss[n].workers);
  }

  // Jobs are only withheld once the deadline has passed.
  lemma {:induction false} AllSent(targets: seq<string>, concurrency: nat, ss: seq<State>, steps: seq<Step>, n: nat)
    requires IsRun(targets, concurrency, ss, steps) && n < |ss| && !ss[n].cancelled
    ensures !ss[n].feeder.Marking? && (ss[n].feeder.Closed? ==> ss[n].feeder.sent == |targets|)
  {
    if n > 0 {
      assert StepAt(targets, ss, steps, n - 1);
      AllSent(targets, concurrency, ss, steps, n - 1);
    }
  }

  // --- and every run returns -------------------------------------------------------------

  function WorkLeft(ws: seq<Worker>): nat {
    if ws == [] then 0
    else (match ws[0] case Exited => 0 case Waiting => 1 case Storing(_, _) => 2 case Querying(_) => 3) + WorkLeft(ws[1..])
  }

  lemma {:induction false} WorkChanges(ws: seq<Worker>, k: nat, w: Worker)
    requires k < |ws|
    ensures WorkLeft(ws[k := w]) - WorkLeft(ws) == WorkLeft([w]) - WorkLeft([ws[k]])
  {
    if k > 0 {
      WorkChanges(ws[1..], k - 1, w);
      assert ws[k := w][1..] == ws[1..][k - 1 := w];
    } else {
      assert ws[k := w][1..] == ws[1..];
    }
  }

  function Left(targets: seq<string>, s: State): nat
    requires FeederOk(targets, s.feeder)
  {
    var n := |targets|;
    (if s.cancelled then 0 else 1) + WorkLeft(s.workers)
    + match s.feeder case Sending(i) => 4 * (n - i) + 2 case Marking(_, at) => n - at + 1 case Closed(_) => 0
  }

  lemma StepProgresses(targets: seq<string>, s: State, step: Step)
    requires Inv(targets, s) && Enabled(targets, s, step)
    ensures FeederOk(targets, Do(targets, s, step).feeder) && Left(targets, Do(targets, s, step)) < Left(targets, s)
  {
    match step
    case Send(k) => WorkChanges(s.workers, k, Querying(s.feeder.sent));
    case Answer(k, out) => WorkChanges(s.workers, k, Storing(s.workers[k].job, out));
    case Store(k) => WorkChanges(s.workers, k, Waiting);
    case Exit(k) => WorkChanges(s.workers, k, Exited);
    case _ =>
  }

  // There is always a step to take until dispatch returns.
  lemma NeverStuck(targets: seq<string>, s: State)
    requires Inv(targets, s) && (targets == [] || s.workers != []) && !Returned(s)
    ensures exists step :: Enabled(targets, s, step)
  {
    if s.feeder.Closed? {
      var k :| 0 <= k < |s.workers| && !s.workers[k].Exited?;
      assert WorkerOk(s, k);
      assert Enabled(targets, s, Exit(k)) || Enabled(targets, s, Answer(k, TimedOut)) || Enabled(targets, s, Store(k));
    } else if s.feeder.Marking? {
      assert Enabled(targets, s, Mark) || Enabled(targets, s, CloseJobs);
    } else if s.feeder.sent == |targets| {
      assert Enabled(targets, s, CloseJobs);
    } else {
      assert WorkerOk(s, 0);
      assert Enabled(targets, s, Send(0)) || Enabled(targets, s, Answer(0, TimedOut)) || Enabled(targets, s, Store(0));
    }
  }

  lemma {:induction false} LeftShrinks(targets: seq<string>, concurrency: nat, ss: seq<State>, steps: seq<Step>, n: nat)
    requires IsRun(targets, concurrency, ss, steps) && n < |ss|
    ensures FeederOk(targets, ss[n].feeder) && n + Left(targets, ss[n]) <= Left(targets, ss[0])
  {
    hide Inv, Left, FeederOk, Start;
    AlwaysInv(targets, concurrency, ss, steps, n);
    assert FeederOk(targets, ss[n].feeder) by { FeederOf(targets, ss[n]); }
    AlwaysInv(targets, concurrency, ss, steps, 0);
    assert FeederOk(targets, ss[0].feeder) by { FeederOf(targets, ss[0]); }
    if n > 0 {
      LeftShrinks(targets, concurrency, ss, steps, n - 1);
      AlwaysInv(targets, concurrency, ss, steps, n - 1);
      assert StepAt(targets, ss, steps, n - 1);
      StepProgresses(targets, ss[n - 1], steps[n - 1]);
    }
  }

  lemma FeederOf(targets: seq<string>, s: State)
    requires Inv(targets, s)
    ensures FeederOk(targets, s.feeder)
  {
  }

  lemma {:induction false} AllWaiting(n: nat)
    ensures WorkLeft(seq(n, _ => Waiting)) == n
  {
    if n > 0 {
      AllWaiting(n - 1);
      assert seq(n, _ => Waiting)[1..] == seq(n - 1, _ => Waiting);
    }
  }

  // A run takes a bounded number of steps, and one that can go no further has
  // returned: with at least one worker, dispatch terminates on every schedule.
  lemma AlwaysReturns(targets: seq<string>, concurrency: nat, ss: seq<State>, steps: seq<Step>)
    requires IsRun(targets, concurrency, ss, steps) && concurrency >= 1
    ensures |steps| <= 5 * |targets| + 3
    ensures Returned(ss[|steps|]) || exists step :: Enabled(targets, ss[|steps|], step)
  {
    var n := |steps|;
    AlwaysInv(targets, concurrency, ss, steps, n);
    LeftShrinks(targets, concurrency, ss, steps, n);
    AllWaiting(if concurrency < |targets| then concurrency else |targets|);
    if !Returned(ss[n]) { NeverStuck(targets, ss[n]); }
  }
}

// The coverage report.
module Coverage {
  import opened Wrappers
  import opened Strings
  import opened Selection
  import opened Dispatch

  datatype Report = Report(
    requested: nat, ok: nat, failed: nat, timedOut: nat, complete: bool,
    okClusters: seq<string>, failedClusters: seq<string>, timedOutClusters: seq<string>)

  // The clusters with a given outcome, in the order of the results.
  function With(rs: seq<Res>, o: Outcome): seq<string> {
    if rs == [] then []
    else
      var n := |rs| - 1;
      With(rs[..n], o) + if rs[n].outcome == o then [rs[n].cluster] else []
  }

  // Each cluster is named as often as it is among the results with that outcome, and the
  // names ascend.
  ghost predicate Lists(names: seq<string>, rs: seq<Res>, o: Outcome) {
    Ascending(names) && forall c :: multiset(names)[c] == multiset(rs)[Res(c, o)]
  }

  lemma CountOneMore<T>(s: seq<T>, x: T, y: T)
    ensures multiset(s + [x])[y] == multiset(s)[y] + if x == y then 1 else 0
  {
    assert multiset(s + [x]) == multiset(s) + multiset([x]);
  }

  lemma WithOneMore(rs: seq<Res>, o: Outcome, c: string)
    requires rs != []
    ensures var n := |rs| - 1;
            multiset(With(rs, o))[c] == multiset(With(rs[..n], o))[c] + if rs[n] == Res(c, o) then 1 else 0
  {
    var n := |rs| - 1;
    var was := With(rs[..n], o);
    assert With(rs, o) == was + if rs[n].outcome == o then [rs[n].cluster] else [];
    if rs[n].outcome == o { CountOneMore(was, rs[n].cluster, c); } else { assert was + [] == was; }
  }

  lemma {:induction false} WithCounts(rs: seq<Res>, o: Outcome, c: string)
    ensures multiset(With(rs, o))[c] == multiset(rs)[Res(c, o)]
  {
    if rs == [] {
    } else {
      var n := |rs| - 1;
      WithCounts(rs[..n], o, c);
      assert rs == rs[..n] + [rs[n]];
      CountOneMore(rs[..n], rs[n], Res(c, o));
      WithOneMore(rs, o, c);
    }
  }

  lemma SortLists(rs: seq<Res>, o: Outcome)
    ensures Lists(Sort(With(rs, o)), rs, o) && |Sort(With(rs, o))| == |With(rs, o)|
  {
    hide Sort, With, Ascending;
    SortAscends(With(rs, o));
    forall c ensures multiset(With(rs, o))[c] == multiset(rs)[Res(c, o)] { WithCounts(rs, o, c); }
  }

  lemma ListsMember(names: seq<string>, rs: seq<Res>, o: Outcome, c: string)
    requires Lists(names, rs, o)
    ensures c in names <==> Res(c, o) in rs
  {
    assert c in names <==> multiset(names)[c] > 0;
    assert Res(c, o) in rs <==> multiset(rs)[Res(c, o)] > 0;
  }

  predicate AllAnswered(rs: seq<Res>) { forall i :: 0 <= i < |rs| ==> rs[i].outcome == Answered }

  lemma {:induction false} OutcomesPartition(rs: seq<Res>)
    ensures |With(rs, Answered)| + |With(rs, Errored)| + |With(rs, TimedOut)| == |rs|
    ensures |With(rs, Answered)| == |rs| <==> AllAnswered(rs)
  {
    if rs != [] {
      var n := |rs| - 1;
      OutcomesPartition(rs[..n]);
      if AllAnswered(rs[..n]) && rs[n].outcome == Answered { assert rs == rs[..n] + [rs[n]]; }
    }
  }

  // Every result is counted once; the report is complete exactly when something was
  // requested and all of it answered.
  method AccountCoverage(targets: seq<string>, results: seq<Res>, failures: seq<Failed>) returns (c: Report)
    ensures c.requested == |targets| + |failures|
    ensures Lists(c.okClusters, results, Answered) && c.ok == |c.okClusters|
    ensures Lists(c.failedClusters, results, Errored) && c.failed == |c.failedClusters|
    ensures Lists(c.timedOutClusters, results, TimedOut) && c.timedOut == |c.timedOutClusters|
    ensures c.ok + c.failed + c.timedOut == |results|
    ensures |results| == c.requested ==> (c.complete <==> c.requested > 0 && AllAnswered(results))
  {
    var ok, failed, timedOut := 0, 0, 0;
    var oks, faileds, timedOuts: seq<string> := [], [], [];
    for i := 0 to |results|
      invariant oks == With(results[..i], Answered) && ok == |oks|
      invariant faileds == With(results[..i], Errored) && failed == |faileds|
      invariant timedOuts == With(results[..i], TimedOut) && timedOut == |timedOuts|
    {
      assert results[..i + 1][..i] == results[..i];
      match results[i].outcome {
        case TimedOut =>
          timedOut, timedOuts := timedOut + 1, timedOuts + [results[i].cluster];
        case Errored =>
          failed, faileds := failed + 1, faileds + [results[i].cluster];
        case Answered =>
          ok, oks := ok + 1, oks + [results[i].cluster];
      }
    }
    assert results[..|results|] == results;
    OutcomesPartition(results);
    SortLists(results, Answered);
    SortLists(results, Errored);
    SortLists(results, TimedOut);
    oks, faileds, timedOuts := Sort(oks), Sort(faileds), Sort(timedOuts);
    var requested := |targets| + |failures|;
    return Report(requested, ok, failed, timedOut, ok == requested && requested > 0, oks, faileds, timedOuts);
  }

  // What fanoutQuery passes on: the dispatched results, then one error per cluster
  // that was never dispatched.
  function AllResults(targets: seq<string>, answers: map<nat, Outcome>, failures: seq<Failed>): (rs: seq<Res>)
    ensures |rs| == |targets| + |failures|
  {
    Results(targets, answers) + seq(|failures|, i requires 0 <= i < |failures| => Res(failures[i].cluster, Errored))
  }

  // The report accounts for every cluster asked for, and claims completeness exactly
  // when each of them was reachable, dispatched, and answered.
  lemma ReportIsHonest(requested: set<string>, targets: seq<string>, failures: seq<Failed>, answers: map<nat, Outcome>)
    requires EachOnce(requested, targets, failures)
    ensures var rs := AllResults(targets, answers, failures);
            && |With(rs, Answered)| + |With(rs, Errored)| + |With(rs, TimedOut)| == |requested|
            && (|With(rs, Answered)| == |requested| <==>
                failures == [] && Answers(targets, answers))
  {
    hide With, AllAnswered, Answers;
    OutcomesPartition(AllResults(targets, answers, failures));
    AnsweredAll(targets, answers, failures);
  }

  // The report of a query whose dispatch has returned, on any schedule and with any
  // deadline: it accounts for the clusters asked for, lists each under what its own
  // query came back with, and is complete exactly when there were any and every one
  // of them was reachable, dispatched and answered.
  method ReportOf(
      targets: seq<string>, failures: seq<Failed>, slots: seq<Option<Res>>,
      ghost requested: set<string>, ghost concurrency: nat, ghost ss: seq<State>, ghost steps: seq<Step>)
    returns (c: Report)
    requires EachOnce(requested, targets, failures)
    requires IsRun(targets, concurrency, ss, steps) && Returned(ss[|steps|]) && slots == ss[|steps|].slots
    ensures c.requested == |requested| == c.ok + c.failed + c.timedOut
    ensures var answers := ss[|steps|].answers;
            && Lists(c.okClusters, AllResults(targets, answers, failures), Answered) && c.ok == |c.okClusters|
            && Lists(c.failedClusters, AllResults(targets, answers, failures), Errored) && c.failed == |c.failedClusters|
            && Lists(c.timedOutClusters, AllResults(targets, answers, failures), TimedOut) && c.timedOut == |c.timedOutClusters|
    ensures c.complete <==> requested != {} && failures == [] && Answers(targets, ss[|steps|].answers)
    ensures var answers := ss[|steps|].answers;
            && (forall x :: x in c.okClusters <==> CameBack(targets, answers, x, Answered))
            && (forall x :: x in c.timedOutClusters <==> CameBack(targets, answers, x, TimedOut))
            && (forall x :: x in c.failedClusters <==> CameBack(targets, answers, x, Errored) || x in Names(failures))
  {
    hide StepAt, Start, Lists, With, Returned;
    EverySlotOnce(targets, concurrency, ss, steps, |steps|);
    ghost var answers := ss[|steps|].answers;
    var results: seq<Res> := [];
    for j := 0 to |slots|
      invariant results == Results(targets, answers)[..j]
    {
      results := results + [slots[j].value];
    }
    for i := 0 to |failures|
      invariant results == AllResults(targets, answers, failures)[..|targets| + i]
    {
      results := results + [Res(failures[i].cluster, Errored)];
    }
    assert results == AllResults(targets, answers, failures);
    c := AccountCoverage(targets, results, failures);
    AnsweredAll(targets, answers, failures);
    forall x, o ensures Res(x, o) in results <==> CameBack(targets, answers, x, o) || (o == Errored && x in Names(failures)) {
      ResultIs(targets, answers, failures, x, o);
    }
    forall x
      ensures (x in c.okClusters <==> Res(x, Answered) in results) && (x in c.failedClusters <==> Res(x, Errored) in results)
      ensures x in c.timedOutClusters <==> Res(x, TimedOut) in results
    {
      ListsMember(c.okClusters, results, Answered, x);
      ListsMember(c.failedClusters, results, Errored, x);
      ListsMember(c.timedOutClusters, results, TimedOut, x);
    }
  }

  // Cluster x is a target whose query came back with o, a timeout standing for one that
  // was never handed out.
  ghost predicate CameBack(targets: seq<string>, answers: map<nat, Outcome>, x: string, o: Outcome) {
    exists j: nat :: j < |targets| && targets[j] == x && (if j in answers then answers[j] else TimedOut) == o
  }

  lemma ResultIs(targets: seq<string>, answers: map<nat, Outcome>, failures: seq<Failed>, x: string, o: Outcome)
    ensures Res(x, o) in AllResults(targets, answers, failures) <==>
              CameBack(targets, answers, x, o) || (o == Errored && x in Names(failures))
  {
    var rs := AllResults(targets, answers, failures);
    if Res(x, o) in rs {
      var i :| 0 <= i < |rs| && rs[i] == Res(x, o);
      if i >= |targets| { assert Names(failures)[i - |targets|] == x; }
    }
    if CameBack(targets, answers, x, o) {
      var j: nat :| j < |targets| && targets[j] == x && (if j in answers then answers[j] else TimedOut) == o;
      assert rs[j] == Res(x, o);
    }
    if o == Errored && x in Names(failures) {
      var j :| 0 <= j < |failures| && Names(failures)[j] == x;
      assert rs[|targets| + j] == Res(x, o);
    }
  }

  // Every target was handed out and answered.
  ghost predicate Answers(targets: seq<string>, answers: map<nat, Outcome>) {
    forall j: nat :: j < |targets| ==> j in answers && answers[j] == Answered
  }

  lemma AnsweredAll(targets: seq<string>, answers: map<nat, Outcome>, failures: seq<Failed>)
    ensures AllAnswered(AllResults(targets, answers, failures)) <==> failures == [] && Answers(targets, answers)
  {
    var rs := AllResults(targets, answers, failures);
    assert failures != [] ==> rs[|targets|].outcome == Errored;
    assert forall j :: 0 <= j < |targets| ==> rs[j] == Results(targets, answers)[j];
    if AllAnswered(rs) {
      forall j: nat | j < |targets| ensures j in answers && answers[j] == Answered {
        assert rs[j].outcome == Answered;
      }
    }
  }
}
