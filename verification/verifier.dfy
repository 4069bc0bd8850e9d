// The credential verifier's caches against a store other replicas mutate
// (internal/authn/verifier.go), at the granularity of its shared-memory and
// store operations.

module Verifier {
  import opened Wrappers

  type Time = int
  type Kid = nat

  datatype Class = Agent | Admin | Enrollment
  datatype Role = NoRole | RoleAdmin | Scoped(role: nat)

  // A well-formed credential: its parts, and the identity of its exact bytes,
  // which is what the caches are keyed by.
  datatype Token = Token(raw: nat, cls: Class, kid: Kid, secret: nat)

  // A stored credential. hmac is the one secret that verifies against it.
  datatype Key = Key(name: nat, cls: Class, hmac: nat, scope: Option<nat>, expiresAt: Option<Time>, revoked: bool)
  datatype Principal = Principal(kid: Kid, name: nat, cls: Class, role: Role, scope: Option<nat>)

  datatype Denial = UnknownKey | BadSecret | WrongClass | Revoked | Expired | StoreError | Limited
  datatype Answer = Granted(principal: Principal, expiry: Option<Time>) | Refused(why: Denial)

  function PrincipalFor(kid: Kid, k: Key): Principal {
    Principal(kid, k.name, k.cls,
              if k.cls == Admin then RoleAdmin else if k.scope.Some? then Scoped(k.scope.value) else NoRole,
              k.scope)
  }

  predicate Lapsed(expiry: Option<Time>, now: Time) { expiry.Some? && now > expiry.value }

  // The verdict the store itself gives, uncached.
  function StoreVerdict(keys: map<Kid, Key>, t: Token, want: Class, now: Time): Answer {
    if t.kid !in keys then Refused(UnknownKey)
    else
      var k := keys[t.kid];
      if k.hmac != t.secret then Refused(BadSecret)
      else if k.cls != want then Refused(WrongClass)
      else if k.revoked then Refused(Revoked)
      else if Lapsed(k.expiresAt, now) then Refused(Expired)
      else Granted(PrincipalFor(t.kid, k), k.expiresAt)
  }

  // Every state the store was ever in. A mutation that can invalidate a cached
  // verification raises the epoch; pruning does not.
  datatype Snapshot = Snapshot(keys: map<Kid, Key>, epoch: nat, at: Time)

  // from is the store state the answer was read from.
  datatype PosEntry = PosEntry(principal: Principal, keyExpiry: Option<Time>, cachedAt: Time, epoch: nat, from: nat)
  datatype NegEntry = NegEntry(why: Denial, cachedAt: Time, from: nat)

  // Where a call is; epoch and read are its epoch and the store state it was
  // read in.
  datatype Pc =
    | Started
    | GotEpoch(epoch: nat, read: nat)
    | PurgePos(epoch: nat, read: nat)
    | PurgeNeg(epoch: nat, read: nat)
    | AskPos(epoch: nat, read: nat)
    | DropPos(epoch: nat, read: nat, lapsed: bool)
    | AskNeg(epoch: nat, read: nat)
    | DropNeg(epoch: nat, read: nat)
    | AskStore(epoch: nat, read: nat)
    | Fetched(epoch: nat, read: nat, answer: Answer, from: nat)
    | Forget(epoch: nat, read: nat, answer: Answer, from: nat)
    | Done(epoch: nat, read: nat, answer: Answer)

  // start is the store state at the call's clock reading.
  datatype Call = Call(token: Token, want: Class, now: Time, start: nat, pc: Pc)

  datatype World = World(
    hist: seq<Snapshot>, now: Time, retain: nat, ttl: nat, negTTL: nat,
    pos: map<Token, PosEntry>, neg: map<Token, NegEntry>, epoch: Option<nat>, calls: map<nat, Call>)

  datatype Step =
    | Tick(to: Time)
    | Mutate(keys: map<Kid, Key>, epoch: nat)
    | Prune(gone: set<Kid>)
    | EvictPos(token: Token)
    | EvictNeg(token: Token)
    | Begin(c: nat, token: Token, want: Class)
    | Advance(c: nat, how: Outcome)  // the call's next operation

  // What the outside world makes of a call's next operation.
  datatype Outcome = Fine | Throttled | StoreDown

  function Cur(s: World): nat
    requires |s.hist| > 0
  {
    |s.hist| - 1
  }

  predicate Prunable(s: World, k: Key) { k.expiresAt.Some? && s.now > k.expiresAt.value + s.retain }

  predicate Enabled(s: World, step: Step) {
    |s.hist| > 0 &&
    match step
    case Tick(to) => s.now <= to
    case Mutate(keys, epoch) => epoch > s.hist[Cur(s)].epoch
    case Prune(gone) => gone <= s.hist[Cur(s)].keys.Keys && forall k :: k in gone ==> Prunable(s, s.hist[Cur(s)].keys[k])
    case EvictPos(token) => true
    case EvictNeg(token) => true
    case Begin(c, token, want) => c !in s.calls
    case Advance(c, how) => c in s.calls && !s.calls[c].pc.Done?
  }

  // fromCache, positive half.
  function LookPos(s: World, c: Call): Pc
    requires c.pc.AskPos?
  {
    var e, r := c.pc.epoch, c.pc.read;
    if c.token !in s.pos then AskNeg(e, r)
    else
      var x := s.pos[c.token];
      if x.epoch != e || c.now - x.cachedAt >= s.ttl then DropPos(e, r, false)
      else if Lapsed(x.keyExpiry, c.now) then DropPos(e, r, true)
      else Done(e, r, Granted(x.principal, x.keyExpiry))
  }

  // fromCache, negative half.
  function LookNeg(s: World, c: Call): Pc
    requires c.pc.AskNeg?
  {
    var e, r := c.pc.epoch, c.pc.read;
    if c.token !in s.neg then AskStore(e, r)
    else if c.now - s.neg[c.token].cachedAt < s.negTTL then Done(e, r, Refused(s.neg[c.token].why))
    else DropNeg(e, r)
  }

  function To(s: World, c: nat, pc: Pc): World
    requires c in s.calls
  {
    s.(calls := s.calls[c := s.calls[c].(pc := pc)])
  }

  function Act(s: World, c: nat, how: Outcome): World
    requires |s.hist| > 0 && c in s.calls && !s.calls[c].pc.Done?
  {
    var call := s.calls[c];
    match call.pc
    case Started =>  // an epoch that cannot be read is refused, after the limiter has had its say
      if how == StoreDown then To(s, c, Done(0, Cur(s), Refused(StoreError)))
      else if how == Throttled then To(s, c, Done(0, Cur(s), Refused(Limited)))
      else To(s, c, GotEpoch(s.hist[Cur(s)].epoch, Cur(s)))
    case GotEpoch(e, r) =>
      To(s, c, if s.epoch == Some(e) then AskPos(e, r) else PurgePos(e, r)).(epoch := Some(e))
    case PurgePos(e, r) => To(s, c, PurgeNeg(e, r)).(pos := map[])
    case PurgeNeg(e, r) => To(s, c, AskPos(e, r)).(neg := map[])
    case AskPos(e, r) => To(s, c, LookPos(s, call))
    case DropPos(e, r, lapsed) =>
      To(s, c, if lapsed then Done(e, r, Refused(Expired)) else AskNeg(e, r)).(pos := s.pos - {call.token})
    case AskNeg(e, r) => To(s, c, LookNeg(s, call))
    case DropNeg(e, r) => To(s, c, AskStore(e, r)).(neg := s.neg - {call.token})
    case AskStore(e, r) =>
      if how == Throttled then To(s, c, Done(e, r, Refused(Limited)))
      else if how == StoreDown then To(s, c, Fetched(e, r, Refused(StoreError), Cur(s)))
      else To(s, c, Fetched(e, r, StoreVerdict(s.hist[Cur(s)].keys, call.token, call.want, call.now), Cur(s)))
    case Fetched(e, r, answer, from) =>
      match answer {
        case Granted(p, exp) => To(s, c, Forget(e, r, answer, from)).(pos := s.pos[call.token := PosEntry(p, exp, call.now, e, from)])
        case Refused(why) => To(s, c, Done(e, r, answer)).(neg := s.neg[call.token := NegEntry(why, call.now, from)])
      }
    case Forget(e, r, answer, from) => To(s, c, Done(e, r, answer)).(neg := s.neg - {call.token})
  }

  function Do(s: World, step: Step): World
    requires Enabled(s, step)
  {
    match step
    case Tick(to) => s.(now := to)
    case Mutate(keys, epoch) => s.(hist := s.hist + [Snapshot(keys, epoch, s.now)])
    case Prune(gone) => s.(hist := s.hist + [Snapshot(s.hist[Cur(s)].keys - gone, s.hist[Cur(s)].epoch, s.now)])
    case EvictPos(token) => s.(pos := s.pos - {token})
    case EvictNeg(token) => s.(neg := s.neg - {token})
    case Begin(c, token, want) =>
      var pc := if token.cls == want then Started else Done(0, Cur(s), Refused(WrongClass));
      s.(calls := s.calls[c := Call(token, want, s.now, Cur(s), pc)])
    case Advance(c, how) => Act(s, c, how)
  }

  predicate Init(s: World) {
    |s.hist| == 1 && s.hist[0].at <= s.now && s.pos == map[] && s.neg == map[] && s.epoch == None && s.calls == map[]
  }

  predicate IsRun(tr: seq<World>, steps: seq<Step>) {
    && |tr| == |steps| + 1 && Init(tr[0])
    && forall i :: 0 <= i < |steps| ==> Enabled(tr[i], steps[i]) && tr[i + 1] == Do(tr[i], steps[i])
  }

  // --- the store's history --------------------------------------------------

  predicate PrunedAt(hist: seq<Snapshot>, retain: nat, i: nat, k: Kid) {
    && 0 < i < |hist| && k in hist[i - 1].keys && hist[i - 1].keys[k].expiresAt.Some? && hist[i].at > hist[i - 1].keys[k].expiresAt.value + retain
  }

  // Consecutive store states: a raised epoch, or a prune.
  ghost predicate MoveAt(hist: seq<Snapshot>, retain: nat, i: nat) {
    && 0 < i < |hist| && hist[i - 1].at <= hist[i].at
    && (hist[i].epoch > hist[i - 1].epoch ||
        (&& hist[i].epoch == hist[i - 1].epoch
         && (forall k :: k in hist[i].keys ==> k in hist[i - 1].keys && hist[i].keys[k] == hist[i - 1].keys[k])
         && (forall k :: k in hist[i - 1].keys && k !in hist[i].keys ==> PrunedAt(hist, retain, i, k))))
  }

  ghost predicate History(hist: seq<Snapshot>, retain: nat) {
    |hist| > 0 && forall i :: 0 < i < |hist| ==> MoveAt(hist, retain, i)
  }

  lemma {:induction false} Grows(hist: seq<Snapshot>, retain: nat, i: nat, j: nat)
    requires History(hist, retain) && i <= j < |hist|
    ensures hist[i].epoch <= hist[j].epoch && hist[i].at <= hist[j].at
  {
    if i < j {
      Grows(hist, retain, i, j - 1);
      assert MoveAt(hist, retain, j);
    }
  }

  // A key read in state i, while the epoch has not moved up to state j: it is
  // still there unchanged, or it was pruned after its expiry had passed.
  lemma {:induction false} SameEpochSameKey(hist: seq<Snapshot>, retain: nat, i: nat, j: nat, k: Kid) returns (last: nat)
    requires History(hist, retain) && i <= j < |hist| && hist[i].epoch == hist[j].epoch && k in hist[i].keys
    ensures i <= last <= j && k in hist[last].keys && hist[last].keys[k] == hist[i].keys[k]
    ensures last == j || PrunedAt(hist, retain, last + 1, k)
  {
    if i == j { return i; }
    Grows(hist, retain, i, j - 1);
    Grows(hist, retain, j - 1, j);
    last := SameEpochSameKey(hist, retain, i, j - 1, k);
    if last == j - 1 {
      assert MoveAt(hist, retain, j);
      if k in hist[j].keys { last := j; }
    }
  }

  // --- the invariant ---------------------------------------------------------

  // A grant read from store state from, by a call whose clock read cachedAt.
  predicate ReadFrom(hist: seq<Snapshot>, t: Token, want: Class, cachedAt: Time, p: Principal, exp: Option<Time>, from: nat) {
    from < |hist| && StoreVerdict(hist[from].keys, t, want, cachedAt) == Granted(p, exp)
  }

  // State i was not superseded before t.
  predicate StillCurrent(hist: seq<Snapshot>, i: nat, t: Time) { i < |hist| && (i + 1 < |hist| ==> t <= hist[i + 1].at) }

  predicate PosOk(hist: seq<Snapshot>, now: Time, t: Token, x: PosEntry) {
    && ReadFrom(hist, t, t.cls, x.cachedAt, x.principal, x.keyExpiry, x.from) && x.epoch <= hist[x.from].epoch
    && x.cachedAt <= now && StillCurrent(hist, x.from, x.cachedAt)
  }

  predicate NegOk(hist: seq<Snapshot>, now: Time, t: Token, x: NegEntry) {
    && x.cachedAt <= now && StillCurrent(hist, x.from, x.cachedAt)
    && (x.why == StoreError || StoreVerdict(hist[x.from].keys, t, t.cls, x.cachedAt) == Refused(x.why))
  }

  predicate EpochOk(s: World, c: Call, e: nat, r: nat) {
    c.start <= r < |s.hist| && s.hist[r].epoch == e
  }

  // The grant is the verdict of store state i, for this token, class and clock
  // reading.
  predicate VerdictAt(s: World, c: Call, a: Answer, i: nat) {
    i < |s.hist| && StoreVerdict(s.hist[i].keys, c.token, c.want, c.now) == a
  }

  // What linearizability asks of a finished call that was granted: some store
  // state after its clock reading gave that verdict. It lies after the epoch
  // read too, unless the key was pruned between the two.
  ghost predicate Linearized(s: World, c: Call, read: nat, a: Answer) {
    exists i :: c.start <= i < |s.hist| && VerdictAt(s, c, a, i) &&
      (i >= read || PrunedAt(s.hist, s.retain, i + 1, c.token.kid))
  }

  // The store refuses this token so in state i, at clock reading t: the call's own,
  // in a state within the call; or, from the negative cache, one less than the
  // negative lifetime before it, in a state not superseded by then; or, for a cached
  // grant that has expired, the call's own, in the last state that held the key, which
  // was pruned before the call and within the positive lifetime.
  predicate RefusedAt(s: World, c: Call, why: Denial, i: nat, t: Time) {
    && i < |s.hist| && t <= s.now && StoreVerdict(s.hist[i].keys, c.token, c.want, t) == Refused(why)
    && (|| (t == c.now && c.start <= i)
        || (c.now - t < s.negTTL && StillCurrent(s.hist, i, t))
        || (&& why == Expired && t == c.now && StillCurrent(s.hist, i, c.now - s.ttl)
            && PrunedAt(s.hist, s.retain, i + 1, c.token.kid)))
  }

  ghost predicate Justified(s: World, c: Call, why: Denial) {
    || why == Limited || why == StoreError || (why == WrongClass && c.token.cls != c.want)
    || exists i: nat, t: Time :: RefusedAt(s, c, why, i, t)
  }

  ghost predicate CallOk(s: World, c: Call) {
    && c.start < |s.hist| && s.hist[c.start].at <= c.now
    && (c.start + 1 < |s.hist| ==> c.now <= s.hist[c.start + 1].at)
    && c.now <= s.now && ((c.pc.Done? && c.pc.answer.Refused?) || c.token.cls == c.want)
    && match c.pc
       case Started => true
       case Fetched(e, r, answer, from) =>
         EpochOk(s, c, e, r) && r <= from < |s.hist| && (answer == Refused(StoreError) || VerdictAt(s, c, answer, from))
       case Forget(e, r, answer, from) =>
         EpochOk(s, c, e, r) && r <= from < |s.hist| && (answer == Refused(StoreError) || VerdictAt(s, c, answer, from))
       case Done(e, r, answer) =>
         if answer.Granted? then EpochOk(s, c, e, r) && Linearized(s, c, r, answer) else Justified(s, c, answer.why)
       case DropPos(e, r, lapsed) => EpochOk(s, c, e, r) && (lapsed ==> Justified(s, c, Expired))
       case _ => EpochOk(s, c, c.pc.epoch, c.pc.read)
  }

  ghost predicate Inv(s: World) {
    && History(s.hist, s.retain) && s.hist[Cur(s)].at <= s.now
    && (forall t :: t in s.pos ==> PosOk(s.hist, s.now, t, s.pos[t]))
    && (forall t :: t in s.neg ==> NegOk(s.hist, s.now, t, s.neg[t]))
    && (forall c :: c in s.calls ==> CallOk(s, s.calls[c]))
  }

  // The heart of it: a cached grant stamped with the epoch this call read is
  // a verdict the store gave, or would have given, during this call.
  lemma CacheHitLinearizes(s: World, c: Call)
    requires Inv(s) && c.pc.AskPos? && CallOk(s, c) && LookPos(s, c).Done?
    ensures Linearized(s, c, c.pc.read, LookPos(s, c).answer)
  {
    var x, r := s.pos[c.token], c.pc.read;
    var a := LookPos(s, c).answer;
    assert PosOk(s.hist, s.now, c.token, x);
    assert VerdictAt(s, c, a, x.from);
    if x.from < r {
      Grows(s.hist, s.retain, x.from, r);
      var last := SameEpochSameKey(s.hist, s.retain, x.from, r, c.token.kid);
      assert VerdictAt(s, c, a, last);
      if last < r && last < c.start {
        Grows(s.hist, s.retain, last + 1, c.start);
      }
    }
  }

  // --- preservation ------------------------------------------------------------

  // Everything recorded about earlier store states survives a new one.
  lemma HistoryAppended(s: World, v: Snapshot)
    requires Inv(s) && v.at == s.now
    requires History(s.hist + [v], s.retain)
    ensures Inv(s.(hist := s.hist + [v]))
  {
    var s' := s.(hist := s.hist + [v]);
    forall t | t in s.pos ensures PosOk(s'.hist, s'.now, t, s.pos[t]) { assert PosOk(s.hist, s.now, t, s.pos[t]); }
    forall t | t in s.neg ensures NegOk(s'.hist, s'.now, t, s.neg[t]) { assert NegOk(s.hist, s.now, t, s.neg[t]); }
    forall c | c in s.calls ensures CallOk(s', s.calls[c]) { CallAppended(s, v, s.calls[c]); }
  }

  lemma CallAppended(s: World, v: Snapshot, c: Call)
    requires CallOk(s, c) && v.at == s.now
    ensures CallOk(s.(hist := s.hist + [v]), c)
  {
    hide StoreVerdict;
    var s' := s.(hist := s.hist + [v]);
    if c.pc.Done? && c.pc.answer.Granted? {
      var a, r := c.pc.answer, c.pc.read;
      var i :| c.start <= i < |s.hist| && VerdictAt(s, c, a, i) && (i >= r || PrunedAt(s.hist, s.retain, i + 1, c.token.kid));
      assert VerdictAt(s', c, a, i) && (i >= r || PrunedAt(s'.hist, s'.retain, i + 1, c.token.kid));
    } else if c.pc.Done? {
      StillJustified(s, s', c, c, c.pc.answer.why);
    } else if c.pc.DropPos? && c.pc.lapsed {
      StillJustified(s, s', c, c, Expired);
    }
  }

  // A refusal rests on the history, the token and the clock reading only.
  lemma StillJustified(s: World, s': World, c: Call, d: Call, why: Denial)
    requires Justified(s, c, why) && s.now <= s'.now && s'.negTTL == s.negTTL && s'.ttl == s.ttl && s'.retain == s.retain
    requires s.hist == s'.hist || (s.hist <= s'.hist && |s'.hist| == |s.hist| + 1 && s'.hist[|s.hist|].at == s.now)
    requires d == c.(pc := d.pc)
    ensures Justified(s', d, why)
  {
    hide StoreVerdict;
    if !(why == Limited || why == StoreError || (why == WrongClass && c.token.cls != c.want)) {
      var i: nat, t :| RefusedAt(s, c, why, i, t);
      assert RefusedAt(s', d, why, i, t);
    }
  }

  // A cached grant whose key has expired since is refused as the store would, or as
  // it did until it pruned the key.
  lemma LapsedIsRefused(s: World, c: Call)
    requires Inv(s) && c.pc.AskPos? && CallOk(s, c) && LookPos(s, c).DropPos? && LookPos(s, c).lapsed
    ensures Justified(s, c, Expired)
  {
    hide Linearized, CallOk;
    AskPosFacts(s, c);
    var x, r := s.pos[c.token], c.pc.read;
    assert PosOk(s.hist, s.now, c.token, x);
    if x.from >= r {
      assert RefusedAt(s, c, Expired, x.from, c.now);
    } else {
      Grows(s.hist, s.retain, x.from, r);
      var last := SameEpochSameKey(s.hist, s.retain, x.from, r, c.token.kid);
      if last < c.start { Grows(s.hist, s.retain, x.from + 1, last + 1); }
      assert RefusedAt(s, c, Expired, last, c.now);
    }
  }

  lemma AskPosFacts(s: World, c: Call)
    requires CallOk(s, c) && c.pc.AskPos?
    ensures EpochOk(s, c, c.pc.epoch, c.pc.read) && c.token.cls == c.want && c.now <= s.now
  {
  }

  lemma NegativeIsRefused(s: World, c: Call)
    requires c.pc.AskNeg? && c.token.cls == c.want && c.token in s.neg && NegOk(s.hist, s.now, c.token, s.neg[c.token])
    requires c.now - s.neg[c.token].cachedAt < s.negTTL
    ensures Justified(s, c, s.neg[c.token].why)
  {
    var x := s.neg[c.token];
    assert x.why == StoreError || RefusedAt(s, c, x.why, x.from, x.cachedAt);
  }

  lemma FetchedIsRefused(s: World, c: Call, why: Denial, from: nat)
    requires why == StoreError || (VerdictAt(s, c, Refused(why), from) && c.start <= from)
    requires c.now <= s.now
    ensures Justified(s, c, why)
  {
    assert why == StoreError || RefusedAt(s, c, why, from, c.now);
  }

  lemma HistoryGrows(s: World, v: Snapshot)
    requires History(s.hist, s.retain) && s.hist[Cur(s)].at <= v.at
    requires MoveAt(s.hist + [v], s.retain, |s.hist|)
    ensures History(s.hist + [v], s.retain)
  {
    var h := s.hist + [v];
    forall i | 0 < i < |h| ensures MoveAt(h, s.retain, i) {
      if i < |s.hist| {
        assert MoveAt(s.hist, s.retain, i);
        assert forall k :: k in h[i - 1].keys && PrunedAt(s.hist, s.retain, i, k) ==> PrunedAt(h, s.retain, i, k);
      }
    }
  }

  lemma StoreKeeps(s: World, step: Step)
    requires Inv(s) && Enabled(s, step) && (step.Mutate? || step.Prune?)
    ensures Inv(Do(s, step))
  {
    var s' := Do(s, step);
    var v := s'.hist[|s.hist|];
    assert MoveAt(s'.hist, s.retain, |s.hist|);
    HistoryGrows(s, v);
    HistoryAppended(s, v);
  }

  // A call that moves on, with the caches smaller or grown by sound entries.
  lemma CallMoves(s: World, s': World, c: nat, pc: Pc)
    requires Inv(s) && c in s.calls
    requires s' == To(s, c, pc).(pos := s'.pos, neg := s'.neg, epoch := s'.epoch)
    requires forall t :: t in s'.pos ==> PosOk(s.hist, s.now, t, s'.pos[t])
    requires forall t :: t in s'.neg ==> NegOk(s.hist, s.now, t, s'.neg[t])
    requires CallOk(s, s.calls[c].(pc := pc))
    ensures Inv(s')
  {
    hide PosOk, NegOk, History;
    forall d | d in s'.calls ensures CallOk(s', s'.calls[d]) {
      if d == c {
        CallElsewhere(s, s', s.calls[c].(pc := pc));
      } else {
        CallElsewhere(s, s', s.calls[d]);
      }
    }
  }

  // CallOk looks at the store's history and the clock only.
  lemma CallElsewhere(s: World, s': World, c: Call)
    requires CallOk(s, c) && s'.hist == s.hist && s'.retain == s.retain && s'.ttl == s.ttl && s'.negTTL == s.negTTL
    requires s.now <= s'.now
    ensures CallOk(s', c)
  {
    hide StoreVerdict, PrunedAt, Justified;
    if c.pc.Done? && c.pc.answer.Granted? {
      var a, r := c.pc.answer, c.pc.read;
      var i :| c.start <= i < |s.hist| && VerdictAt(s, c, a, i) && (i >= r || PrunedAt(s.hist, s.retain, i + 1, c.token.kid));
      assert VerdictAt(s', c, a, i);
    } else if c.pc.Done? {
      StillJustified(s, s', c, c, c.pc.answer.why);
    } else if c.pc.DropPos? && c.pc.lapsed {
      StillJustified(s, s', c, c, Expired);
    }
  }

  lemma DirectGrantLinearizes(s: World, c: Call, r: nat, a: Answer, from: nat)
    requires c.start <= r <= from < |s.hist| && VerdictAt(s, c, a, from)
    ensures Linearized(s, c, r, a)
  {
  }

  lemma AskPosKeeps(s: World, c: nat, how: Outcome)
    requires Inv(s) && Enabled(s, Advance(c, how)) && s.calls[c].pc.AskPos?
    ensures Inv(Act(s, c, how))
  {
    hide History, StoreVerdict, Linearized, Justified, Inv, PosOk, NegOk;
    InvParts(s, c);
    var call := s.calls[c];
    var pc := LookPos(s, call);
    if pc.Done? {
      CacheHitLinearizes(s, call);
      DoneSame(s, call, call.(pc := pc));
    } else if pc.DropPos? && pc.lapsed {
      LapsedIsRefused(s, call);
      StillJustified(s, s, call, call.(pc := pc), Expired);
    }
    CallMoves(s, Act(s, c, how), c, pc);
  }

  // What a call caches is sound: read after its epoch, in a state still current at
  // its clock reading.
  lemma FetchedEntry(s: World, c: Call)
    requires History(s.hist, s.retain) && CallOk(s, c) && c.pc.Fetched?
    ensures match c.pc.answer
            case Granted(p, exp) => PosOk(s.hist, s.now, c.token, PosEntry(p, exp, c.now, c.pc.epoch, c.pc.from))
            case Refused(why) => NegOk(s.hist, s.now, c.token, NegEntry(why, c.now, c.pc.from))
  {
    hide History, StoreVerdict;
    Grows(s.hist, s.retain, c.pc.read, c.pc.from);
    if c.pc.from + 1 < |s.hist| { Grows(s.hist, s.retain, c.start + 1, c.pc.from + 1); }
  }

  lemma FetchedKeeps(s: World, c: nat, how: Outcome)
    requires Inv(s) && Enabled(s, Advance(c, how)) && s.calls[c].pc.Fetched?
    ensures Inv(Act(s, c, how))
  {
    hide History, StoreVerdict, Linearized, Justified, Inv, PosOk, NegOk;
    InvParts(s, c);
    var s' := Act(s, c, how);
    var call := s.calls[c];
    FetchedEntry(s, call);
    if call.pc.answer.Refused? {
      FetchedIsRefused(s, call, call.pc.answer.why, call.pc.from);
      StillJustified(s, s, call, s'.calls[c], call.pc.answer.why);
    }
    CallMoves(s, s', c, s'.calls[c].pc);
  }

  lemma ForgetKeeps(s: World, c: nat, how: Outcome)
    requires Inv(s) && Enabled(s, Advance(c, how)) && s.calls[c].pc.Forget?
    ensures Inv(Act(s, c, how))
  {
    hide History, StoreVerdict, Linearized, Justified, Inv, PosOk, NegOk;
    InvParts(s, c);
    var call := s.calls[c];
    var pc := Done(call.pc.epoch, call.pc.read, call.pc.answer);
    if pc.answer.Granted? {
      DirectGrantLinearizes(s, call, call.pc.read, call.pc.answer, call.pc.from);
      DoneSame(s, call, call.(pc := pc));
    } else {
      FetchedIsRefused(s, call, pc.answer.why, call.pc.from);
      StillJustified(s, s, call, call.(pc := pc), pc.answer.why);
    }
    CallMoves(s, Act(s, c, how), c, pc);
  }

  lemma AskStoreKeeps(s: World, c: nat, how: Outcome)
    requires Inv(s) && Enabled(s, Advance(c, how)) && s.calls[c].pc.AskStore?
    ensures Inv(Act(s, c, how))
  {
    hide History, StoreVerdict, Linearized, Inv, PosOk, NegOk;
    InvParts(s, c);
    var s' := Act(s, c, how);
    CallMoves(s, s', c, s'.calls[c].pc);
  }

  lemma DropPosKeeps(s: World, c: nat, how: Outcome)
    requires Inv(s) && Enabled(s, Advance(c, how)) && s.calls[c].pc.DropPos?
    ensures Inv(Act(s, c, how))
  {
    hide History, StoreVerdict, Linearized, Justified, Inv, PosOk, NegOk, VerdictAt;
    InvParts(s, c);
    var s' := Act(s, c, how);
    if s.calls[c].pc.lapsed { StillJustified(s, s, s.calls[c], s'.calls[c], Expired); }
    CallMoves(s, s', c, s'.calls[c].pc);
  }

  lemma AskNegKeeps(s: World, c: nat, how: Outcome)
    requires Inv(s) && Enabled(s, Advance(c, how)) && s.calls[c].pc.AskNeg?
    ensures Inv(Act(s, c, how))
  {
    hide History, StoreVerdict, Linearized, Justified, Inv, PosOk, NegOk, VerdictAt;
    InvParts(s, c);
    var call := s.calls[c];
    var pc := LookNeg(s, call);
    if pc.Done? {
      NegativeIsRefused(s, call);
      StillJustified(s, s, call, call.(pc := pc), pc.answer.why);
    }
    CallMoves(s, Act(s, c, how), c, pc);
  }

  lemma StartedKeeps(s: World, c: nat, how: Outcome)
    requires Inv(s) && Enabled(s, Advance(c, how)) && s.calls[c].pc.Started?
    ensures Inv(Act(s, c, how))
  {
    hide History, StoreVerdict, Linearized, RefusedAt, Inv, PosOk, NegOk, VerdictAt;
    InvParts(s, c);
    var s' := Act(s, c, how);
    CallMoves(s, s', c, s'.calls[c].pc);
  }

  lemma QuietKeeps(s: World, c: nat, how: Outcome)
    requires Inv(s) && Enabled(s, Advance(c, how))
    requires var pc := s.calls[c].pc; pc.GotEpoch? || pc.PurgePos? || pc.PurgeNeg? || pc.DropNeg?
    ensures Inv(Act(s, c, how))
  {
    hide History, StoreVerdict, Linearized, RefusedAt, Inv, PosOk, NegOk, VerdictAt;
    InvParts(s, c);
    var s' := Act(s, c, how);
    CallMoves(s, s', c, s'.calls[c].pc);
  }

  lemma BeginKeeps(s: World, c: nat, token: Token, want: Class)
    requires Inv(s) && Enabled(s, Begin(c, token, want))
    ensures Inv(Do(s, Begin(c, token, want)))
  {
    hide PosOk, NegOk, History;
    var s' := Do(s, Begin(c, token, want));
    forall d | d in s.calls ensures CallOk(s', s.calls[d]) { CallElsewhere(s, s', s.calls[d]); }
  }

  lemma EnvironmentKeeps(s: World, step: Step)
    requires Inv(s) && Enabled(s, step) && (step.Tick? || step.EvictPos? || step.EvictNeg?)
    ensures Inv(Do(s, step))
  {
    hide StoreVerdict, History;
    var s' := Do(s, step);
    forall d | d in s.calls ensures CallOk(s', s.calls[d]) { CallElsewhere(s, s', s.calls[d]); }
  }

  lemma StepKeeps(s: World, step: Step)
    requires Inv(s) && Enabled(s, step)
    ensures Inv(Do(s, step))
  {
    hide Inv, Act;
    match step
    case Mutate(_, _) => StoreKeeps(s, step);
    case Prune(_) => StoreKeeps(s, step);
    case Begin(c, token, want) => BeginKeeps(s, c, token, want);
    case Advance(c, how) =>
      var pc := s.calls[c].pc;
      if pc.Started? { StartedKeeps(s, c, how); }
      else if pc.AskPos? { AskPosKeeps(s, c, how); }
      else if pc.DropPos? { DropPosKeeps(s, c, how); }
      else if pc.AskNeg? { AskNegKeeps(s, c, how); }
      else if pc.AskStore? { AskStoreKeeps(s, c, how); }
      else if pc.Fetched? { FetchedKeeps(s, c, how); }
      else if pc.Forget? { ForgetKeeps(s, c, how); }
      else { QuietKeeps(s, c, how); }
    case _ => EnvironmentKeeps(s, step);
  }

  lemma {:induction false} AlwaysInv(tr: seq<World>, steps: seq<Step>, n: nat)
    requires IsRun(tr, steps) && n < |tr|
    ensures Inv(tr[n])
  {
    hide Inv, Enabled, Do;
    if n == 0 {
      InitInv(tr[0]);
    } else {
      AlwaysInv(tr, steps, n - 1);
      assert Enabled(tr[n - 1], steps[n - 1]) && tr[n - 1 + 1] == Do(tr[n - 1], steps[n - 1]);
      StepKeeps(tr[n - 1], steps[n - 1]);
    }
  }

  lemma InitInv(s: World)
    requires Init(s)
    ensures Inv(s)
  {
  }

  // Every grant any call ever returns, cached or not, in every interleaving:
  // the store itself gave that verdict, for this token, class and clock
  // reading, in some state between the call's clock reading and its return;
  // between its epoch read and its return, unless the key was pruned in
  // between. It names a principal of the class the listener asked for.
  lemma CachedAuthenticationIsLinearizable(tr: seq<World>, steps: seq<Step>, n: nat, c: nat)
    requires IsRun(tr, steps) && n < |tr| && c in tr[n].calls
    requires tr[n].calls[c].pc.Done? && tr[n].calls[c].pc.answer.Granted?
    ensures var s := tr[n]; var call := s.calls[c]; var a := call.pc.answer;
            && a.principal.cls == call.want && call.token.cls == call.want && a.principal.kid == call.token.kid
            && exists i :: call.start <= i < |s.hist| && StoreVerdict(s.hist[i].keys, call.token, call.want, call.now) == a
                 && (i >= call.pc.read || PrunedAt(s.hist, s.retain, i + 1, call.token.kid))
  {
    AlwaysInv(tr, steps, n);
    var s := tr[n];
    var call := s.calls[c];
    assert CallOk(s, call);
    var a, r := call.pc.answer, call.pc.read;
    var i :| call.start <= i < |s.hist| && VerdictAt(s, call, a, i) && (i >= r || PrunedAt(s.hist, s.retain, i + 1, call.token.kid));
    assert StoreVerdict(s.hist[i].keys, call.token, call.want, call.now) == a;
  }

  // Every refusal, too, is one the store itself gives, apart from backoff, an
  // unreadable store and a token of another class: in a state within the call at the
  // call's own clock reading; or, from the negative cache, at a clock reading less
  // than the negative lifetime before the call's and no later than the return, in a
  // state not superseded by that reading; or, for an expired grant, in the last state
  // that held the key, pruned before the call but within the positive lifetime of it.
  lemma RefusalsAreTheStores(tr: seq<World>, steps: seq<Step>, n: nat, c: nat)
    requires IsRun(tr, steps) && n < |tr| && c in tr[n].calls
    requires tr[n].calls[c].pc.Done? && tr[n].calls[c].pc.answer.Refused?
    ensures var s := tr[n]; var call := s.calls[c]; var why := call.pc.answer.why;
            || why == Limited || why == StoreError || (why == WrongClass && call.token.cls != call.want)
            || exists i: nat, t: Time :: RefusedAt(s, call, why, i, t)
  {
    AlwaysInv(tr, steps, n);
    assert CallOk(tr[n], tr[n].calls[c]);
  }

  lemma InvParts(s: World, c: nat)
    requires Inv(s) && c in s.calls
    ensures History(s.hist, s.retain) && CallOk(s, s.calls[c])
    ensures (forall t :: t in s.pos ==> PosOk(s.hist, s.now, t, s.pos[t])) && (forall t :: t in s.neg ==> NegOk(s.hist, s.now, t, s.neg[t]))
  {
    hide History, PosOk, NegOk, CallOk;
  }

  // A finished call's linearization point does not depend on where it is.
  lemma DoneSame(s: World, c: Call, d: Call)
    requires d == c.(pc := d.pc) && d.pc.Done? && d.pc.answer.Granted?
    requires Linearized(s, c, d.pc.read, d.pc.answer)
    ensures Linearized(s, d, d.pc.read, d.pc.answer)
  {
    hide StoreVerdict, PrunedAt;
    var a, r := d.pc.answer, d.pc.read;
    var i :| c.start <= i < |s.hist| && VerdictAt(s, c, a, i) && (i >= r || PrunedAt(s.hist, s.retain, i + 1, c.token.kid));
    assert VerdictAt(s, d, a, i);
  }

  // --- what the verdicts mean -----------------------------------------------------------

  // Key k opens this token for this class at this time.
  predicate Opens(k: Key, t: Token, want: Class, now: Time) {
    k.hmac == t.secret && k.cls == want && !k.revoked && (k.expiresAt.Some? ==> now <= k.expiresAt.value)
  }

  // What a refusal for this reason says about the store.
  predicate Because(keys: map<Kid, Key>, t: Token, want: Class, now: Time, why: Denial) {
    if t.kid !in keys then why == UnknownKey
    else
      var k := keys[t.kid];
      || (why == BadSecret && k.hmac != t.secret)
      || (why == WrongClass && k.hmac == t.secret && k.cls != want)
      || (why == Revoked && k.hmac == t.secret && k.cls == want && k.revoked)
      || (why == Expired && k.hmac == t.secret && k.cls == want && !k.revoked && k.expiresAt.Some? && now > k.expiresAt.value)
  }

  // A token is granted exactly when the stored key opens it, and refused for a reason
  // exactly when that reason is the first to hold of it.
  lemma VerdictExactly(keys: map<Kid, Key>, t: Token, want: Class, now: Time, why: Denial)
    ensures StoreVerdict(keys, t, want, now).Granted? <==> t.kid in keys && Opens(keys[t.kid], t, want, now)
    ensures StoreVerdict(keys, t, want, now) == Refused(why) <==> Because(keys, t, want, now, why)
  {
  }

  // The principal is the key's: its identity and scope, the admin role exactly for admin
  // keys, any other role exactly from the scope.
  predicate Speaks(p: Principal, kid: Kid, k: Key) {
    && p.kid == kid && p.name == k.name && p.cls == k.cls && p.scope == k.scope
    && (p.role == RoleAdmin <==> k.cls == Admin)
    && (k.cls != Admin ==> p.role == if k.scope.Some? then Scoped(k.scope.value) else NoRole)
  }

  // In every run, a call that is granted found, in some state between its clock reading
  // and its return, a key that opens its token, and speaks for exactly that key.
  lemma GrantMeans(tr: seq<World>, steps: seq<Step>, n: nat, c: nat)
    requires IsRun(tr, steps) && n < |tr| && c in tr[n].calls
    requires tr[n].calls[c].pc.Done? && tr[n].calls[c].pc.answer.Granted?
    ensures var s := tr[n]; var call := s.calls[c]; var a := call.pc.answer;
            exists i :: call.start <= i < |s.hist| && call.token.kid in s.hist[i].keys
              && Opens(s.hist[i].keys[call.token.kid], call.token, call.want, call.now)
              && Speaks(a.principal, call.token.kid, s.hist[i].keys[call.token.kid])
              && a.expiry == s.hist[i].keys[call.token.kid].expiresAt
  {
    hide IsRun;
    CachedAuthenticationIsLinearizable(tr, steps, n, c);
    var s := tr[n];
    var call := s.calls[c];
    var i :| call.start <= i < |s.hist| && StoreVerdict(s.hist[i].keys, call.token, call.want, call.now) == call.pc.answer;
    VerdictExactly(s.hist[i].keys, call.token, call.want, call.now, UnknownKey);
    assert Speaks(call.pc.answer.principal, call.token.kid, s.hist[i].keys[call.token.kid]);
  }

  // And one that is refused, apart from backoff, an unreadable store and a token of
  // another class, was refused for what its reason says of the store, in a state and at
  // a clock reading tied to the call as in RefusedAt.
  lemma RefusalMeans(tr: seq<World>, steps: seq<Step>, n: nat, c: nat)
    requires IsRun(tr, steps) && n < |tr| && c in tr[n].calls
    requires tr[n].calls[c].pc.Done? && tr[n].calls[c].pc.answer.Refused?
    ensures var s := tr[n]; var call := s.calls[c]; var why := call.pc.answer.why;
            || why == Limited || why == StoreError || (why == WrongClass && call.token.cls != call.want)
            || exists i: nat, t: Time :: RefusedAt(s, call, why, i, t) && Because(s.hist[i].keys, call.token, call.want, t, why)
  {
    hide IsRun, StoreVerdict;
    RefusalsAreTheStores(tr, steps, n, c);
    var s := tr[n];
    var call := s.calls[c];
    var why := call.pc.answer.why;
    if !(why == Limited || why == StoreError || (why == WrongClass && call.token.cls != call.want)) {
      var i: nat, t :| RefusedAt(s, call, why, i, t);
      VerdictExactly(s.hist[i].keys, call.token, call.want, t, why);
      assert RefusedAt(s, call, why, i, t) && Because(s.hist[i].keys, call.token, call.want, t, why);
    }
  }

  // The positive cache answers with a grant exactly when it holds one under the epoch just
  // read, younger than the lifetime, for a key that has not expired.
  lemma HitExactly(s: World, c: Call)
    requires c.pc.AskPos?
    ensures LookPos(s, c).Done? <==>
              && c.token in s.pos && s.pos[c.token].epoch == c.pc.epoch && c.now < s.pos[c.token].cachedAt + s.ttl
              && (s.pos[c.token].keyExpiry.Some? ==> c.now <= s.pos[c.token].keyExpiry.value)
    ensures LookPos(s, c).Done? ==> LookPos(s, c).answer == Granted(s.pos[c.token].principal, s.pos[c.token].keyExpiry)
  {
  }

  // An entry that cannot answer is dropped. One that is current but whose key has expired
  // is an answer: the call is refused without asking anyone else.
  lemma StaleIsDropped(s: World, c: nat, a: Outcome, b: Outcome)
    requires |s.hist| > 0 && c in s.calls && s.calls[c].pc.AskPos? && s.calls[c].token in s.pos && !LookPos(s, s.calls[c]).Done?
    ensures var call := s.calls[c]; var (e, r, x) := (call.pc.epoch, call.pc.read, s.pos[call.token]);
            var s1 := Act(s, c, a);
            && c in s1.calls && !s1.calls[c].pc.Done?
            && var s2 := Act(s1, c, b);
               && s2.pos == s.pos - {call.token} && s2.neg == s.neg && c in s2.calls
               && s2.calls[c].pc == if x.epoch == e && call.now < x.cachedAt + s.ttl then Done(e, r, Refused(Expired)) else AskNeg(e, r)
  {
    hide StoreVerdict, LookNeg;
  }

  // The negative cache repeats a refusal exactly while it is younger than its lifetime.
  lemma NegHitExactly(s: World, c: Call)
    requires c.pc.AskNeg?
    ensures LookNeg(s, c).Done? <==> c.token in s.neg && c.now < s.neg[c.token].cachedAt + s.negTTL
    ensures LookNeg(s, c).Done? ==> LookNeg(s, c).answer == Refused(s.neg[c.token].why)
  {
  }

  // A source that is backing off is refused whether it is the epoch or the store that is
  // asked, and so is any call when the epoch cannot be read; none of them leaves a trace. A
  // store that cannot be read refuses, and that is remembered as a refusal.
  lemma OutsideRefuses(s: World, c: nat, how: Outcome, b: Outcome)
    requires |s.hist| > 0 && c in s.calls && (s.calls[c].pc.Started? || s.calls[c].pc.AskStore?) && how != Fine
    ensures var call := s.calls[c];
            var s1 := Act(s, c, how);
            && s1.hist == s.hist && s1.pos == s.pos && s1.neg == s.neg && s1.epoch == s.epoch && c in s1.calls
            && if how == Throttled || call.pc.Started? then
                 s1.calls[c].pc.Done? && s1.calls[c].pc.answer == Refused(if how == Throttled then Limited else StoreError)
               else
                 && !s1.calls[c].pc.Done?
                 && var s2 := Act(s1, c, b);
                    && c in s2.calls && s2.calls[c].pc.Done? && s2.calls[c].pc.answer == Refused(StoreError)
                    && call.token in s2.neg && s2.neg[call.token].why == StoreError && s2.pos == s.pos
  {
    hide StoreVerdict, LookPos, LookNeg;
  }

  // A call that reads an epoch other than the one last seen empties both caches before it
  // looks in either, and a call that does not leaves them alone.
  lemma NewEpochPurges(s: World, c: nat, a: Outcome, b: Outcome, d: Outcome)
    requires |s.hist| > 0 && c in s.calls && s.calls[c].pc.GotEpoch?
    ensures var (e, r) := (s.calls[c].pc.epoch, s.calls[c].pc.read);
            var s1 := Act(s, c, a);
            && s1.epoch == Some(e) && s1.pos == s.pos && s1.neg == s.neg && c in s1.calls
            && if s.epoch == Some(e) then s1.calls[c].pc == AskPos(e, r)
               else
                 && s1.calls[c].pc == PurgePos(e, r)
                 && var s3 := Act(Act(s1, c, b), c, d);
                    s3.pos == map[] && s3.neg == map[] && c in s3.calls && s3.calls[c].pc == AskPos(e, r)
  {
    hide StoreVerdict, LookPos, LookNeg;
  }

  // A call that asks a readable store out of backoff, left to finish, returns what the
  // store says of its token and leaves the caches saying the same.
  lemma AskedIsAnswered(s: World, c: nat, a: Outcome, b: Outcome)
    requires |s.hist| > 0 && c in s.calls && s.calls[c].pc.AskStore?
    ensures var call := s.calls[c]; var (e, r) := (call.pc.epoch, call.pc.read); var keys := s.hist[Cur(s)].keys;
            var s1 := Act(s, c, Fine);
            && c in s1.calls && !s1.calls[c].pc.Done?
            && var s2 := Act(s1, c, a);
               if call.token.kid in keys && Opens(keys[call.token.kid], call.token, call.want, call.now) then
                 && c in s2.calls && !s2.calls[c].pc.Done? && call.token in s2.pos
                 && s2.pos[call.token].cachedAt == call.now && s2.pos[call.token].epoch == e
                 && var s3 := Act(s2, c, b);
                    && c in s3.calls && s3.calls[c].pc.Done? && s3.calls[c].pc.answer.Granted?
                    && s3.calls[c].pc.answer == Granted(s2.pos[call.token].principal, s2.pos[call.token].keyExpiry)
                    && Speaks(s3.calls[c].pc.answer.principal, call.token.kid, keys[call.token.kid]) && call.token !in s3.neg
               else
                 && c in s2.calls && s2.calls[c].pc.Done? && s2.calls[c].pc.answer.Refused? && call.token in s2.neg
                 && Because(keys, call.token, call.want, call.now, s2.calls[c].pc.answer.why)
                 && s2.neg[call.token].why == s2.calls[c].pc.answer.why && s2.neg[call.token].cachedAt == call.now
  {
    hide LookPos, LookNeg, StoreVerdict;
    var call := s.calls[c];
    var keys := s.hist[Cur(s)].keys;
    var v := StoreVerdict(keys, call.token, call.want, call.now);
    VerdictExactly(keys, call.token, call.want, call.now, if v.Refused? then v.why else UnknownKey);
    if v.Granted? { GrantSpeaks(keys, call.token, call.want, call.now); }
  }

  lemma GrantSpeaks(keys: map<Kid, Key>, t: Token, want: Class, now: Time)
    requires StoreVerdict(keys, t, want, now).Granted?
    ensures t.kid in keys && Speaks(StoreVerdict(keys, t, want, now).principal, t.kid, keys[t.kid])
  {
  }

  // --- after the epoch read, and exactly when ---------------------------------------

  // A call that reads the epoch in this step does so within gap of its clock reading.
  predicate StepSoon(s: World, step: Step, gap: nat) {
    step.Advance? && step.c in s.calls && s.calls[step.c].pc.Started? ==> s.now <= s.calls[step.c].now + gap
  }

  predicate ReadsWithin(tr: seq<World>, steps: seq<Step>, gap: nat)
    requires |tr| > |steps|
  {
    forall j :: 0 <= j < |steps| ==> StepSoon(tr[j], steps[j], gap)
  }

  // The state a call read the epoch in had come about within gap of its clock reading.
  predicate ReadBy(s: World, c: nat, gap: nat)
    requires c in s.calls
  {
    !s.calls[c].pc.Started? ==> s.calls[c].pc.read < |s.hist| && s.hist[s.calls[c].pc.read].at <= s.calls[c].now + gap
  }

  lemma LooksKeepRead(s: World, c: Call)
    ensures c.pc.AskPos? ==> !LookPos(s, c).Started? && LookPos(s, c).read == c.pc.read
    ensures c.pc.AskNeg? ==> !LookNeg(s, c).Started? && LookNeg(s, c).read == c.pc.read
  {
  }

  lemma ActReads(s: World, c: nat, how: Outcome)
    requires Enabled(s, Advance(c, how))
    ensures var (pc, s') := (s.calls[c].pc, Act(s, c, how));
            && c in s'.calls && !s'.calls[c].pc.Started? && s'.calls[c].now == s.calls[c].now
            && s'.calls[c].pc.read == if pc.Started? then Cur(s) else pc.read
  {
    hide StoreVerdict, LookPos, LookNeg;
    LooksKeepRead(s, s.calls[c]);
  }

  lemma ToElsewhere(s: World, c: nat, d: nat)
    requires c in s.calls
    ensures forall pc :: var s' := To(s, c, pc);
              s'.hist == s.hist && (d != c ==> (d in s'.calls <==> d in s.calls) && (d in s.calls ==> s'.calls[d] == s.calls[d]))
  {
  }

  lemma ActElsewhere(s: World, c: nat, how: Outcome, d: nat)
    requires Enabled(s, Advance(c, how))
    ensures var s' := Act(s, c, how);
            s'.hist == s.hist && (d != c ==> (d in s'.calls <==> d in s.calls) && (d in s.calls ==> s'.calls[d] == s.calls[d]))
  {
    hide StoreVerdict, LookPos, LookNeg, To;
    ToElsewhere(s, c, d);
  }

  lemma ReadByKept(s: World, step: Step, c: nat, gap: nat)
    requires Enabled(s, step) && StepSoon(s, step, gap) && s.hist[Cur(s)].at <= s.now
    requires c in s.calls ==> ReadBy(s, c, gap)
    requires c in Do(s, step).calls
    ensures ReadBy(Do(s, step), c, gap)
  {
    hide Act;
    if step.Advance? {
      ActReads(s, step.c, step.how);
      ActElsewhere(s, step.c, step.how, c);
    }
  }

  lemma {:induction false} ReadSoon(tr: seq<World>, steps: seq<Step>, n: nat, c: nat, gap: nat)
    requires IsRun(tr, steps) && ReadsWithin(tr, steps, gap) && n < |tr| && c in tr[n].calls
    ensures ReadBy(tr[n], c, gap)
  {
    hide Enabled, Do, ReadBy, CallOk, PosOk, NegOk, History;
    if n > 0 {
      assert Enabled(tr[n - 1], steps[n - 1]) && tr[n - 1 + 1] == Do(tr[n - 1], steps[n - 1]);
      AlwaysInv(tr, steps, n - 1);
      if c in tr[n - 1].calls { ReadSoon(tr, steps, n - 1, c, gap); }
      assert StepSoon(tr[n - 1], steps[n - 1], gap);
      SomeState(tr[n - 1], steps[n - 1]);
      ReadByKept(tr[n - 1], steps[n - 1], c, gap);
    }
  }

  lemma SomeState(s: World, step: Step)
    requires Enabled(s, step)
    ensures |s.hist| > 0
  {
  }

  // The grant is a verdict the store gave between the epoch read and the return.
  ghost predicate GrantedAfterRead(s: World, c: Call)
    requires c.pc.Done?
  {
    exists i: nat :: c.pc.read <= i < |s.hist| && VerdictAt(s, c, c.pc.answer, i)
  }

  lemma PromptGrant(tr: seq<World>, steps: seq<Step>, n: nat, c: nat, gap: nat)
    requires IsRun(tr, steps) && ReadsWithin(tr, steps, gap) && n < |tr| && c in tr[n].calls && gap <= tr[n].retain
    requires tr[n].calls[c].pc.Done? && tr[n].calls[c].pc.answer.Granted?
    ensures GrantedAfterRead(tr[n], tr[n].calls[c])
  {
    hide IsRun, ReadsWithin, PosOk, NegOk;
    AlwaysInv(tr, steps, n);
    ReadSoon(tr, steps, n, c, gap);
    var s := tr[n];
    var call := s.calls[c];
    assert CallOk(s, call);
    var i :| call.start <= i < |s.hist| && VerdictAt(s, call, call.pc.answer, i)
             && (i >= call.pc.read || PrunedAt(s.hist, s.retain, i + 1, call.token.kid));
    if i < call.pc.read { Grows(s.hist, s.retain, i + 1, call.pc.read); }
  }

  // --- a run that misses it -----------------------------------------------------------

  ghost predicate Timely(run: Run<World, Step>, gap: nat) {
    |run.tr| > 0 && IsRun(run.tr, run.steps) && ReadsWithin(run.tr, run.steps, gap)
  }

  lemma Take(run: Run<World, Step>, step: Step, gap: nat) returns (run': Run<World, Step>)
    requires Timely(run, gap) && Enabled(Now(run), step) && StepSoon(Now(run), step, gap)
    ensures Timely(run', gap) && |run'.tr| > 0 && Now(run') == Do(Now(run), step)
  {
    hide Enabled, Do, Init, StepSoon;
    run' := Run(run.tr + [Do(Now(run), step)], run.steps + [step]);
    forall i | 0 <= i < |run'.steps|
      ensures Enabled(run'.tr[i], run'.steps[i]) && run'.tr[i + 1] == Do(run'.tr[i], run'.steps[i])
      ensures StepSoon(run'.tr[i], run'.steps[i], gap)
    {
      if i < |run.steps| {
        assert Enabled(run.tr[i], run.steps[i]) && run.tr[i + 1] == Do(run.tr[i], run.steps[i]);
        assert StepSoon(run.tr[i], run.steps[i], gap);
      }
    }
  }

  const SAMPLE_KEY: Key := Key(0, Agent, 9, None, Some(10), false)
  const SAMPLE_TOKEN: Token := Token(1, Agent, 5, 9)
  const SAMPLE_STORE: Snapshot := Snapshot(map[5 := SAMPLE_KEY], 0, 0)

  lemma FirstTimely(s0: World, gap: nat)
    requires Init(s0)
    ensures Timely(Run([s0], []), gap)
  {
  }

  function SampleWorld(retain: nat, epoch: Option<nat>, pc: Pc): World {
    World([SAMPLE_STORE], 10, retain, 60, 5, map[], map[], epoch, map[0 := Call(SAMPLE_TOKEN, Agent, 10, 0, pc)])
  }

  // A first call, at the very expiry of its key, purges the caches...
  lemma FirstPurge(retain: nat, gap: nat) returns (run: Run<World, Step>)
    ensures Timely(run, gap) && |run.tr| > 0 && Now(run) == SampleWorld(retain, Some(0), AskPos(0, 0))
  {
    hide Timely, StoreVerdict, LookPos, LookNeg;
    var s0 := World([SAMPLE_STORE], 10, retain, 60, 5, map[], map[], None, map[]);
    run := Run([s0], []);
    assert Timely(run, gap) by { FirstTimely(s0, gap); }
    run := Take(run, Begin(0, SAMPLE_TOKEN, Agent), gap);
    assert Now(run) == SampleWorld(retain, None, Started);
    run := Take(run, Advance(0, Fine), gap);
    assert Now(run) == SampleWorld(retain, None, GotEpoch(0, 0));
    run := Take(run, Advance(0, Fine), gap);
    run := Take(run, Advance(0, Fine), gap);
    run := Take(run, Advance(0, Fine), gap);
  }

  // ... finds nothing in them...
  lemma FirstMiss(retain: nat, gap: nat) returns (run: Run<World, Step>)
    ensures Timely(run, gap) && |run.tr| > 0 && Now(run) == SampleWorld(retain, Some(0), AskStore(0, 0))
  {
    hide Timely, StoreVerdict;
    run := FirstPurge(retain, gap);
    run := Take(run, Advance(0, Fine), gap);
    assert Now(run) == SampleWorld(retain, Some(0), AskNeg(0, 0));
    run := Take(run, Advance(0, Fine), gap);
  }

  // ... and fills them from the store.
  lemma FirstCall(retain: nat, gap: nat) returns (run: Run<World, Step>)
    ensures Timely(run, gap) && |run.tr| > 0
    ensures var s := Now(run);
            && s.hist == [SAMPLE_STORE] && s.now == 10 && s.retain == retain && s.epoch == Some(0) && s.ttl == 60
            && SAMPLE_TOKEN in s.pos && 1 !in s.calls
            && s.pos[SAMPLE_TOKEN] == PosEntry(PrincipalFor(5, SAMPLE_KEY), Some(10), 10, 0, 0)
  {
    hide Timely;
    run := FirstMiss(retain, gap);
    run := Take(run, Advance(0, Fine), gap);
    assert Now(run).calls[0].pc == Fetched(0, 0, Granted(PrincipalFor(5, SAMPLE_KEY), Some(10)), 0);
    run := Take(run, Advance(0, Fine), gap);
  }

  // A second call reads its clock; gap later, more than the retention after the key's
  // expiry, the key is pruned and then the call reads the epoch; the cache still grants.
  lemma PrunedBetween(retain: nat, gap: nat) returns (run: Run<World, Step>)
    requires gap > retain
    ensures Timely(run, gap) && |run.tr| > 0 && Now(run).retain == retain
    ensures var s := Now(run);
            1 in s.calls && s.calls[1].pc.Done? && s.calls[1].pc.answer.Granted? && !GrantedAfterRead(s, s.calls[1])
  {
    hide Timely;
    run := FirstCall(retain, gap);
    run := Take(run, Begin(1, SAMPLE_TOKEN, Agent), gap);
    run := Take(run, Tick(10 + gap), gap);
    run := Take(run, Prune({5}), gap);
    assert Now(run).hist[1].keys == map[];
    run := Take(run, Advance(1, Fine), gap);
    assert Now(run).calls[1].pc == GotEpoch(0, 1);
    run := Take(run, Advance(1, Fine), gap);
    run := Take(run, Advance(1, Fine), gap);
  }

  ghost predicate AllGrantedAfterRead(retain: nat, gap: nat) {
    forall tr: seq<World>, steps: seq<Step>, n: nat, c: nat ::
      && IsRun(tr, steps) && ReadsWithin(tr, steps, gap) && n < |tr| && tr[n].retain == retain && c in tr[n].calls
      && tr[n].calls[c].pc.Done? && tr[n].calls[c].pc.answer.Granted? ==>
        GrantedAfterRead(tr[n], tr[n].calls[c])
  }

  // In every run whose calls read the epoch within gap of their clock, every success is
  // the verdict of a state between the epoch read and the return, exactly when gap is no
  // more than the time the store keeps an expired key.
  lemma AfterReadExactly(retain: nat, gap: nat)
    ensures AllGrantedAfterRead(retain, gap) <==> gap <= retain
  {
    hide Enabled, Do, Init, ReadsWithin, GrantedAfterRead;
    if gap <= retain {
      forall tr: seq<World>, steps: seq<Step>, n: nat, c: nat |
          && IsRun(tr, steps) && ReadsWithin(tr, steps, gap) && n < |tr| && tr[n].retain == retain && c in tr[n].calls
          && tr[n].calls[c].pc.Done? && tr[n].calls[c].pc.answer.Granted?
        ensures GrantedAfterRead(tr[n], tr[n].calls[c])
      {
        PromptGrant(tr, steps, n, c, gap);
      }
    } else {
      var run := PrunedBetween(retain, gap);
      assert IsRun(run.tr, run.steps) && 1 in run.tr[|run.tr| - 1].calls;
    }
  }
}
