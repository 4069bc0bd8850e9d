// Certificate revocation: what the denylist in the store holds over time, how
// stale a replica's cached copy can be, and whether a revoked certificate can
// come back through renewal.

module Denylist {
  import opened Wrappers
  import opened Pki

  type Serial = nat

  // One state of the store's denylist: the recorded expiry of every revoked
  // certificate, None for an entry recorded without one.
  datatype Listing = Listing(entries: map<Serial, Option<Time>>, epoch: nat, at: Time)

  predicate Droppable(notAfter: Option<Time>, now: Time, retain: int) { notAfter.Some? && now > notAfter.value + retain }

  // The admin API records the operator's expiry, or the longest lifetime the
  // hub can have issued; an expiry already past is refused.
  function RecordedExpiry(given: Option<Time>, now: Time, spokeTTL: int): (r: Result<Time>)
  {
    var notAfter := if given.Some? then given.value else now + spokeTTL;
    if notAfter < now then Failure else Success(notAfter)
  }

  // An expiry given by the operator is recorded as it is, unless it has passed; one that is
  // left out is recorded as the longest a leaf signed now could live.
  lemma RecordedExactly(given: Option<Time>, now: Time, spokeTTL: int, t: Time)
    requires spokeTTL >= 0
    ensures RecordedExpiry(given, now, spokeTTL) == Success(t) <==> (given == Some(t) && now <= t) || (given == None && t == now + spokeTTL)
    ensures RecordedExpiry(given, now, spokeTTL).Failure? <==> given.Some? && given.value < now
  {
  }

  // Left out, the recorded expiry covers a leaf signed by now exactly when the leaf's
  // lifetime, or its issuer's, ends within the lifetime now in force: always, unless
  // that has been shortened since.
  lemma OmittedExpiryCovers(m: Material, leaf: Leaf, issuedAt: Time, issuedTTL: int, now: Time, spokeTTL: int)
    requires issuedAt <= now && 0 < spokeTTL && Sign(m, issuedAt, issuedTTL, leaf.serial) == Success(leaf)
    ensures RecordedExpiry(None, now, spokeTTL) == Success(now + spokeTTL)
    ensures issuedTTL <= spokeTTL ==> leaf.notAfter <= now + spokeTTL
    ensures leaf.notAfter <= now + spokeTTL <==> issuedAt + issuedTTL <= now + spokeTTL || m.cert.notAfter <= now + spokeTTL
  {
  }

  // Consecutive states: a mutation raises the epoch and removes nothing; a
  // prune removes entries whose certificate expired more than retain ago and
  // leaves the epoch alone.
  ghost predicate MoveAt(hist: seq<Listing>, retain: int, i: nat) {
    && 0 < i < |hist| && hist[i - 1].at <= hist[i].at
    && if hist[i].epoch == hist[i - 1].epoch then
         && (forall s :: s in hist[i].entries ==> s in hist[i - 1].entries && hist[i].entries[s] == hist[i - 1].entries[s])
         && (forall s :: s in hist[i - 1].entries && s !in hist[i].entries ==> Droppable(hist[i - 1].entries[s], hist[i].at, retain))
       else
         hist[i].epoch > hist[i - 1].epoch && hist[i - 1].entries.Keys <= hist[i].entries.Keys
  }

  ghost predicate History(hist: seq<Listing>, retain: int) {
    |hist| > 0 && forall i :: 0 < i < |hist| ==> MoveAt(hist, retain, i)
  }

  // Every expiry ever recorded for the serial is at least the leaf's own.
  ghost predicate Covers(hist: seq<Listing>, serial: Serial, end: Time) {
    forall i :: 0 <= i < |hist| && serial in hist[i].entries && hist[i].entries[serial].Some? ==>
      hist[i].entries[serial].value >= end
  }

  // The serial was put on the list, or there again, in state q.
  predicate RevokedIn(hist: seq<Listing>, q: nat, serial: Serial) {
    0 < q < |hist| && hist[q].epoch > hist[q - 1].epoch && serial in hist[q].entries
  }

  lemma {:induction false} Grows(hist: seq<Listing>, retain: int, i: nat, j: nat)
    requires History(hist, retain) && i <= j < |hist|
    ensures hist[i].epoch <= hist[j].epoch && hist[i].at <= hist[j].at
  {
    if i < j {
      Grows(hist, retain, i, j - 1);
      assert MoveAt(hist, retain, j);
    }
  }

  // An entry stays on the list until retain past the leaf's own expiry.
  lemma {:induction false} EntrySurvives(hist: seq<Listing>, retain: int, q: nat, j: nat, serial: Serial, end: Time)
    requires History(hist, retain) && q <= j < |hist| && serial in hist[q].entries && Covers(hist, serial, end)
    ensures serial in hist[j].entries || hist[j].at > end + retain
  {
    if q < j {
      EntrySurvives(hist, retain, q, j - 1, serial, end);
      assert MoveAt(hist, retain, j);
    }
  }

  // --- renewal ---------------------------------------------------------------

  datatype Renewal = NotTrusted | IsRevoked | Proceeds

  // The part of handleRenew that decides about the certificate: the chain
  // first, at one clock reading, then a fresh read of the denylist.
  ghost function Renew(roots: seq<Certificate>, leaf: Leaf, now: Time, grace: int, listed: Listing): Renewal {
    if !RenewalVerdict(roots, leaf, now, grace).Accepted? then NotTrusted
    else if leaf.serial in listed.entries then IsRevoked
    else Proceeds
  }

  // Some certificate authority of the bundle, in force at t, signed this leaf, itself a
  // client certificate in force then.
  predicate VouchedAt(roots: seq<Certificate>, leaf: Leaf, t: Time) {
    && leaf.clientAuth && leaf.notBefore <= t <= leaf.notAfter
    && exists c :: c in roots && c.isCA && c.certSign && c.publicKey == leaf.signedBy && c.notBefore <= t <= c.notAfter
  }

  // A renewal proceeds exactly when the leaf is no more than the grace past its expiry, is
  // vouched for now or at its expiry, and is not listed; it is refused as revoked exactly
  // when only the last fails.
  lemma RenewExactly(roots: seq<Certificate>, leaf: Leaf, now: Time, grace: int, listed: Listing)
    ensures var t := if now < leaf.notAfter then now else leaf.notAfter;
            var vouched := now <= leaf.notAfter + (if grace > 0 then grace else 0) && VouchedAt(roots, leaf, t);
            && (Renew(roots, leaf, now, grace, listed) == Proceeds <==> vouched && leaf.serial !in listed.entries)
            && (Renew(roots, leaf, now, grace, listed) == IsRevoked <==> vouched && leaf.serial in listed.entries)
  {
    var t := if now < leaf.notAfter then now else leaf.notAfter;
    RenewalExactly(roots, leaf, now, grace);
    assert ChainsAt(roots, leaf, t) <==> VouchedAt(roots, leaf, t);
  }

  // The denylist is pruned retention + grace after an entry's recorded expiry.
  function Retain(retention: int, grace: int): int { retention + grace }

  // A revoked leaf is never renewed: not before its expiry, not in its grace,
  // not by a handler that reads the list up to retention after it checked the
  // chain.
  lemma RevokedNeverRenewed(
      hist: seq<Listing>, roots: seq<Certificate>, leaf: Leaf, q: nat, j: nat, now: Time, grace: int, retention: int)
    requires 0 <= grace && 0 <= retention && History(hist, Retain(retention, grace))
    requires q <= j < |hist| && leaf.serial in hist[q].entries && Covers(hist, leaf.serial, leaf.notAfter)
    requires hist[j].at <= now + retention
    ensures Renew(roots, leaf, now, grace, hist[j]) != Proceeds
  {
    EntrySurvives(hist, Retain(retention, grace), q, j, leaf.serial, leaf.notAfter);
  }

  // Every expiry recorded for the serial is the default, taken at a time and under a
  // lifetime that leaf's own does not exceed.
  ghost predicate DefaultExpiries(hist: seq<Listing>, serial: Serial, issuedAt: Time, issuedTTL: int) {
    forall i :: 0 <= i < |hist| && serial in hist[i].entries && hist[i].entries[serial].Some? ==>
      exists t, ttl :: issuedAt <= t && issuedTTL <= ttl && RecordedExpiry(None, t, ttl) == Success(hist[i].entries[serial].value)
  }

  // So a leaf revoked without a given expiry, under a lifetime that has not been
  // shortened since it was signed, is never renewed.
  lemma DefaultRevocationHolds(
      hist: seq<Listing>, roots: seq<Certificate>, m: Material, leaf: Leaf, issuedAt: Time, issuedTTL: int,
      q: nat, j: nat, now: Time, grace: int, retention: int)
    requires 0 < issuedTTL && Sign(m, issuedAt, issuedTTL, leaf.serial) == Success(leaf)
    requires 0 <= grace && 0 <= retention && History(hist, Retain(retention, grace))
    requires q <= j < |hist| && leaf.serial in hist[q].entries && DefaultExpiries(hist, leaf.serial, issuedAt, issuedTTL)
    requires hist[j].at <= now + retention
    ensures Renew(roots, leaf, now, grace, hist[j]) != Proceeds
  {
    hide History, RecordedExpiry, Sign;
    forall i | 0 <= i < |hist| && leaf.serial in hist[i].entries && hist[i].entries[leaf.serial].Some?
      ensures hist[i].entries[leaf.serial].value >= leaf.notAfter
    {
      var t, ttl :| issuedAt <= t && issuedTTL <= ttl && RecordedExpiry(None, t, ttl) == Success(hist[i].entries[leaf.serial].value);
      OmittedExpiryCovers(m, leaf, issuedAt, issuedTTL, t, ttl);
    }
    RevokedNeverRenewed(hist, roots, leaf, q, j, now, grace, retention);
  }

  // And no longer than that: whatever the settings, a handler that checks the
  // chain at the last instant of the grace and reads the list more than
  // retention later can find the entry pruned, and proceeds.
  lemma PruneRace(roots: seq<Certificate>, leaf: Leaf, grace: int, retention: int, late: int) returns (hist: seq<Listing>)
    requires 0 <= grace && 0 <= retention < late
    requires RenewalVerdict(roots, leaf, leaf.notAfter + grace, grace).Accepted?
    ensures History(hist, Retain(retention, grace)) && |hist| == 3
    ensures RevokedIn(hist, 1, leaf.serial) && Covers(hist, leaf.serial, leaf.notAfter)
    ensures hist[2].at == leaf.notAfter + grace + late
    ensures Renew(roots, leaf, leaf.notAfter + grace, grace, hist[2]) == Proceeds
  {
    var first := Listing(map[], 0, leaf.notAfter);
    var revoked := Listing(map[leaf.serial := Some(leaf.notAfter)], 1, leaf.notAfter);
    var pruned := Listing(map[], 1, leaf.notAfter + grace + late);
    hist := [first, revoked, pruned];
    assert MoveAt(hist, Retain(retention, grace), 1) && MoveAt(hist, Retain(retention, grace), 2);
  }

  // No handler whose list read lags its chain check by at most gap renews this
  // leaf once it has been revoked, whatever the history of the denylist.
  ghost predicate StaysRevoked(roots: seq<Certificate>, leaf: Leaf, grace: int, retention: int, gap: int) {
    forall hist: seq<Listing>, q: nat, j: nat, now: Time ::
      && History(hist, Retain(retention, grace)) && q <= j < |hist|
      && leaf.serial in hist[q].entries && Covers(hist, leaf.serial, leaf.notAfter) && hist[j].at <= now + gap
      ==> Renew(roots, leaf, now, grace, hist[j]) != Proceeds
  }

  lemma RevokedExactly(roots: seq<Certificate>, leaf: Leaf, grace: int, retention: int, gap: int)
    requires 0 <= grace && 0 <= retention && RenewalVerdict(roots, leaf, leaf.notAfter + grace, grace).Accepted?
    ensures StaysRevoked(roots, leaf, grace, retention, gap) <==> gap <= retention
  {
    hide RenewalVerdict, History, Covers;
    if gap <= retention {
      forall hist: seq<Listing>, q: nat, j: nat, now: Time |
        && History(hist, Retain(retention, grace)) && q <= j < |hist|
        && leaf.serial in hist[q].entries && Covers(hist, leaf.serial, leaf.notAfter) && hist[j].at <= now + gap
        ensures Renew(roots, leaf, now, grace, hist[j]) != Proceeds
      {
        RevokedNeverRenewed(hist, roots, leaf, q, j, now, grace, retention);
      }
    } else {
      var hist := PruneRace(roots, leaf, grace, retention, gap);
      assert leaf.serial in hist[1].entries;
    }
  }
}

// A replica's cached copy of the denylist (internal/hub/tunnel.go), with any
// number of concurrent checks, each of which may refresh it.
module RevocationCache {
  import opened Wrappers
  import opened Pki
  import opened Denylist

  // serials is what a check consults. The other fields trace where it came
  // from: the store states base and src in which the epoch and then the list
  // were read, the clock listedAt read after that, and the latest epoch read
  // that found nothing new, in state seen at time seenAt.
  datatype Cache = Cache(
    serials: set<Serial>, epoch: nat, fetched: Option<Time>,
    base: nat, src: nat, listedAt: Time, seen: nat, seenAt: Time)

  datatype Pc =
    | Wait
    | Recheck
    | NeedEpoch
    | GotEpoch(epoch: nat, seen: nat, seenAt: Time)
    | Unchanged(seen: nat, seenAt: Time)
    | WriteTime(seen: nat, seenAt: Time, stamp: Time)
    | NeedList(epoch: nat, seen: nat, seenAt: Time)
    | Listed(epoch: nat, seen: nat, seenAt: Time, src: nat)
    | WriteList(epoch: nat, seen: nat, seenAt: Time, src: nat, stamp: Time)
    | Final
    | Done(revoked: bool, failed: bool, at: Time)

  // A handshake's check; started is its first clock reading.
  datatype Check = Check(serial: Serial, started: Time, pc: Pc)

  // limit bounds one refresh, from its epoch read to its closing clock
  // reading: the deadline of the context it runs under.
  datatype World = World(
    hist: seq<Listing>, now: Time, retain: nat, ttl: nat, limit: nat,
    cache: Cache, lock: Option<nat>, checks: map<nat, Check>)

  datatype Step =
    | Tick(to: Time)
    | Mutate(entries: map<Serial, Option<Time>>, epoch: nat)
    | Prune(gone: set<Serial>)
    | Begin(c: nat, serial: Serial)
    | Go(c: nat, ok: bool)  // the check's next operation; ok: a store read succeeds

  function Cur(s: World): nat
    requires |s.hist| > 0
  {
    |s.hist| - 1
  }

  predicate Fresh(s: World) { s.cache.fetched.Some? && s.now - s.cache.fetched.value < s.ttl }

  // refresh keeps the entries whose certificate has not lapsed.
  function Unlapsed(entries: map<Serial, Option<Time>>, now: Time): set<Serial> {
    set s | s in entries && !Droppable(entries[s], now, 0)
  }

  predicate Holding(pc: Pc) { !pc.Wait? && !pc.Final? && !pc.Done? }

  predicate Enabled(s: World, step: Step) {
    |s.hist| > 0 &&
    match step
    case Tick(to) => s.now <= to
    case Mutate(entries, epoch) => epoch > s.hist[Cur(s)].epoch && s.hist[Cur(s)].entries.Keys <= entries.Keys
    case Prune(gone) =>
      && gone <= s.hist[Cur(s)].entries.Keys
      && forall x :: x in gone ==> Droppable(s.hist[Cur(s)].entries[x], s.now, s.retain)
    case Begin(c, serial) => c !in s.checks
    case Go(c, ok) =>
      && c in s.checks && !s.checks[c].pc.Done?
      && var pc := s.checks[c].pc;
         && (pc.Wait? ==> s.lock == None)
         && (pc.Unchanged? || pc.Listed? ==> s.now <= pc.seenAt + s.limit)
         && (pc.Listed? || pc.WriteList? ==> pc.src < |s.hist|)
  }

  function To(s: World, c: nat, pc: Pc): World
    requires c in s.checks
  {
    s.(checks := s.checks[c := s.checks[c].(pc := pc)], lock := if Holding(pc) then Some(c) else if s.lock == Some(c) then None else s.lock)
  }

  function Act(s: World, c: nat, ok: bool): World
    requires Enabled(s, Go(c, ok))
  {
    var check := s.checks[c];
    match check.pc
    case Wait => To(s, c, Recheck)
    case Recheck => To(s, c, if Fresh(s) then Final else NeedEpoch)
    case NeedEpoch =>
      if !ok then To(s, c, Done(false, true, s.now)) else To(s, c, GotEpoch(s.hist[Cur(s)].epoch, Cur(s), s.now))
    case GotEpoch(e, seen, seenAt) =>
      To(s, c, if e == s.cache.epoch && s.cache.fetched.Some? then Unchanged(seen, seenAt) else NeedList(e, seen, seenAt))
    case Unchanged(seen, seenAt) => To(s, c, WriteTime(seen, seenAt, s.now))
    case WriteTime(seen, seenAt, stamp) =>
      To(s, c, Final).(cache := s.cache.(fetched := Some(stamp), seen := seen, seenAt := seenAt))
    case NeedList(e, seen, seenAt) =>
      if !ok then To(s, c, Done(false, true, s.now)) else To(s, c, Listed(e, seen, seenAt, Cur(s)))
    case Listed(e, seen, seenAt, src) => To(s, c, WriteList(e, seen, seenAt, src, s.now))
    case WriteList(e, seen, seenAt, src, stamp) =>
      To(s, c, Final).(cache := Cache(Unlapsed(s.hist[src].entries, stamp), e, Some(stamp), seen, src, stamp, seen, seenAt))
    case Final => To(s, c, Done(check.serial in s.cache.serials, false, s.now))
  }

  function Do(s: World, step: Step): World
    requires Enabled(s, step)
  {
    match step
    case Tick(to) => s.(now := to)
    case Mutate(entries, epoch) => s.(hist := s.hist + [Listing(entries, epoch, s.now)])
    case Prune(gone) => s.(hist := s.hist + [Listing(s.hist[Cur(s)].entries - gone, s.hist[Cur(s)].epoch, s.now)])
    case Begin(c, serial) =>
      var pc := if serial in s.cache.serials then Done(true, false, s.now)
                else if Fresh(s) then Done(false, false, s.now) else Wait;
      s.(checks := s.checks[c := Check(serial, s.now, pc)])
    case Go(c, ok) => Act(s, c, ok)
  }

  // A check that waited for the lock asks the store only if the cache is still ttl old, and
  // fetches the list only if the epoch has moved or there has never been one.
  lemma RefreshExactly(s: World, c: nat, ok: bool)
    requires Enabled(s, Go(c, ok))
    ensures var (pc, pc', cache) := (s.checks[c].pc, Act(s, c, ok).checks[c].pc, s.cache);
            && (pc.Recheck? ==> pc' == if cache.fetched.Some? && s.now < cache.fetched.value + s.ttl then Final else NeedEpoch)
            && (pc.GotEpoch? ==> (pc'.Unchanged? || pc'.NeedList?) && (pc'.NeedList? <==> pc.epoch != cache.epoch || cache.fetched.None?))
            && ((pc.NeedEpoch? || pc.NeedList?) && !ok ==> pc'.Done? && pc'.failed)
  {
  }

  predicate Init(s: World) {
    && |s.hist| == 1 && s.hist[0].at <= s.now && s.ttl > 0 && s.checks == map[] && s.lock == None
    && s.cache == Cache({}, 0, None, 0, 0, s.now, 0, s.now)
  }

  predicate IsRun(tr: seq<World>, steps: seq<Step>) {
    && |tr| == |steps| + 1 && Init(tr[0])
    && forall i :: 0 <= i < |steps| ==> Enabled(tr[i], steps[i]) && tr[i + 1] == Do(tr[i], steps[i])
  }

  // --- the invariant -----------------------------------------------------------

  // State i was current at time t.
  predicate CurrentAt(hist: seq<Listing>, now: Time, i: nat, t: Time) {
    i < |hist| && hist[i].at <= t <= now && (i + 1 < |hist| ==> t <= hist[i + 1].at)
  }

  predicate CacheOk(s: World) {
    var c := s.cache;
    if c.fetched.None? then c.serials == {}
    else
      && c.base <= c.src < |s.hist| && c.base <= c.seen && CurrentAt(s.hist, s.now, c.seen, c.seenAt)
      && s.hist[c.base].epoch == c.epoch == s.hist[c.seen].epoch
      && c.serials == Unlapsed(s.hist[c.src].entries, c.listedAt) && c.listedAt <= s.now
      && c.fetched.value <= c.seenAt + s.limit && c.fetched.value <= s.now
  }

  // The cache is recent enough for a check started then.
  predicate RecentFor(cache: Cache, ttl: nat, started: Time) {
    cache.fetched.Some? && (cache.fetched.value + ttl > started || cache.seenAt >= started)
  }

  // No revocation in force by started - ttl - limit was missed, unless the
  // certificate itself had expired.
  ghost predicate Honest(s: World, serial: Serial, started: Time, at: Time) {
    forall q: nat, end: Time :: RevokedIn(s.hist, q, serial) && Covers(s.hist, serial, end) && started >= s.hist[q].at + s.ttl + s.limit
      ==> at > end
  }

  // The serial has been on the list.
  predicate EverListed(hist: seq<Listing>, serial: Serial) { exists i :: 0 <= i < |hist| && serial in hist[i].entries }

  // What the holder of the refresh lock has read so far.
  predicate ReadOk(s: World, started: Time, epoch: nat, seen: nat, seenAt: Time) {
    && CurrentAt(s.hist, s.now, seen, seenAt) && s.hist[seen].epoch == epoch && started <= seenAt
    && s.cache.seenAt <= seenAt && (s.cache.fetched.Some? ==> s.cache.fetched.value <= seenAt && s.cache.base <= seen)
  }

  ghost predicate CheckOk(s: World, c: nat)
    requires c in s.checks
  {
    var check := s.checks[c];
    && check.started <= s.now && (Holding(check.pc) ==> s.lock == Some(c))
    && match check.pc
       case GotEpoch(e, seen, seenAt) => ReadOk(s, check.started, e, seen, seenAt)
       case Unchanged(seen, seenAt) => s.cache.fetched.Some? && ReadOk(s, check.started, s.cache.epoch, seen, seenAt)
       case WriteTime(seen, seenAt, stamp) =>
         s.cache.fetched.Some? && ReadOk(s, check.started, s.cache.epoch, seen, seenAt) && seenAt <= stamp <= s.now && stamp <= seenAt + s.limit
       case NeedList(e, seen, seenAt) => ReadOk(s, check.started, e, seen, seenAt)
       case Listed(e, seen, seenAt, src) => ReadOk(s, check.started, e, seen, seenAt) && seen <= src < |s.hist|
       case WriteList(e, seen, seenAt, src, stamp) =>
         && ReadOk(s, check.started, e, seen, seenAt) && seen <= src < |s.hist|
         && seenAt <= stamp <= s.now && stamp <= seenAt + s.limit
       case Final => RecentFor(s.cache, s.ttl, check.started)
       case Done(revoked, failed, at) =>
         && at <= s.now && (revoked ==> EverListed(s.hist, check.serial))
         && (!revoked && !failed ==> Honest(s, check.serial, check.started, at))
       case _ => true
  }

  ghost predicate Inv(s: World) {
    && s.ttl > 0 && History(s.hist, s.retain) && s.hist[Cur(s)].at <= s.now && s.cache.seenAt <= s.now && CacheOk(s)
    && forall c :: c in s.checks ==> CheckOk(s, c)
  }

  // A serial that is not in the cache was revoked only after the latest epoch
  // read, or its certificate has expired.
  lemma MissingFromCache(s: World, serial: Serial, q: nat, end: Time)
    requires Inv(s) && s.cache.fetched.Some? && serial !in s.cache.serials
    requires RevokedIn(s.hist, q, serial) && Covers(s.hist, serial, end)
    ensures q > s.cache.seen || s.now > end
  {
    var c := s.cache;
    if q <= c.base {
      EntrySurvives(s.hist, s.retain, q, c.src, serial, end);
      Grows(s.hist, s.retain, c.src, Cur(s));
    } else if q <= c.seen {
      Grows(s.hist, s.retain, c.base, q - 1);
      Grows(s.hist, s.retain, q, c.seen);
    }
  }

  // A recent cache that does not list a serial answers honestly.
  lemma RecentIsHonest(s: World, serial: Serial, started: Time)
    requires Inv(s) && RecentFor(s.cache, s.ttl, started) && serial !in s.cache.serials
    ensures Honest(s, serial, started, s.now)
  {
    forall q: nat, end: Time | RevokedIn(s.hist, q, serial) && Covers(s.hist, serial, end) && started >= s.hist[q].at + s.ttl + s.limit
      ensures s.now > end
    {
      MissingFromCache(s, serial, q, end);
      if q > s.cache.seen {
        Grows(s.hist, s.retain, s.cache.seen + 1, q);
      }
    }
  }

  lemma CachedWasListed(s: World, serial: Serial)
    requires CacheOk(s) && serial in s.cache.serials
    ensures EverListed(s.hist, serial)
  {
    assert serial in s.hist[s.cache.src].entries;
  }

  // --- preservation --------------------------------------------------------------

  lemma ListedLater(hist: seq<Listing>, v: Listing, serial: Serial)
    requires EverListed(hist, serial)
    ensures EverListed(hist + [v], serial)
  {
    var i :| 0 <= i < |hist| && serial in hist[i].entries;
    assert serial in (hist + [v])[i].entries;
  }

  lemma HonestLater(s: World, s': World, serial: Serial, started: Time, at: Time)
    requires s'.ttl == s.ttl > 0 && s'.limit == s.limit && |s.hist| > 0 && s.hist <= s'.hist
    requires forall i :: |s.hist| <= i < |s'.hist| ==> s'.hist[i].at >= started
    requires Honest(s, serial, started, at)
    ensures Honest(s', serial, started, at)
  {
    forall q: nat, end: Time | RevokedIn(s'.hist, q, serial) && Covers(s'.hist, serial, end) && started >= s'.hist[q].at + s'.ttl + s'.limit
      ensures at > end
    {
      assert q < |s.hist| && RevokedIn(s.hist, q, serial);
      assert Covers(s.hist, serial, end) by {
        forall i | 0 <= i < |s.hist| ensures s.hist[i] == s'.hist[i] { }
      }
    }
  }

  lemma CheckAppended(s: World, s': World, v: Listing, c: nat)
    requires |s.hist| > 0 && s.ttl > 0 && s' == s.(hist := s.hist + [v]) && v.at == s.now
    requires c in s.checks && CheckOk(s, c)
    ensures CheckOk(s', c)
  {
    hide Honest, EverListed;
    var check := s.checks[c];
    if check.pc.Done? && check.pc.revoked { ListedLater(s.hist, v, check.serial); }
    if check.pc.Done? && !check.pc.revoked && !check.pc.failed {
      HonestLater(s, s', check.serial, check.started, check.pc.at);
    }
  }

  lemma HistoryAppended(s: World, s': World, v: Listing)
    requires Inv(s) && s' == s.(hist := s.hist + [v]) && v.at == s.now && History(s'.hist, s.retain)
    ensures Inv(s')
  {
    hide CheckOk, History;
    forall c | c in s.checks ensures CheckOk(s', c) {
      CheckAppended(s, s', v, c);
    }
  }

  lemma StoreKeeps(s: World, step: Step)
    requires Inv(s) && Enabled(s, step) && (step.Mutate? || step.Prune?)
    ensures Inv(Do(s, step))
  {
    hide CacheOk, CheckOk;
    var s' := Do(s, step);
    forall i | 0 < i < |s'.hist| ensures MoveAt(s'.hist, s.retain, i) {
      if i < |s.hist| {
        assert MoveAt(s.hist, s.retain, i);
      }
    }
    HistoryAppended(s, s', s'.hist[|s.hist|]);
  }

  lemma TickKeeps(s: World, to: Time)
    requires Inv(s) && s.now <= to
    ensures Inv(s.(now := to))
  {
    hide History, Honest, RecentFor;
    var s' := s.(now := to);
    forall c | c in s.checks ensures CheckOk(s', c) {
      assert CheckOk(s, c);
      var check := s.checks[c];
      if check.pc.Done? && !check.pc.revoked && !check.pc.failed {
        assert Honest(s', check.serial, check.started, check.pc.at) by { HonestLater(s, s', check.serial, check.started, check.pc.at); }
      }
    }
  }

  // A check that moves on without touching the cache.
  lemma CheckMoves(s: World, c: nat, pc: Pc)
    requires Inv(s) && c in s.checks && (Holding(pc) ==> s.lock == Some(c) || s.lock == None)
    requires CheckOk(To(s, c, pc), c)
    ensures Inv(To(s, c, pc))
  {
    hide History, Honest, RecentFor, ReadOk;
    var s' := To(s, c, pc);
    forall d | d in s'.checks ensures CheckOk(s', d) {
      if d != c {
        assert CheckOk(s, d);
        Elsewhere(s, s', d);
      }
    }
  }

  // CheckOk of another check survives anything that leaves store, clock and
  // cache alone and does not take the lock from it.
  lemma Elsewhere(s: World, s': World, d: nat)
    requires d in s.checks && d in s'.checks && s'.checks[d] == s.checks[d] && CheckOk(s, d)
    requires s' == s.(checks := s'.checks, lock := s'.lock)
    requires Holding(s.checks[d].pc) ==> s'.lock == s.lock
    ensures CheckOk(s', d)
  {
    var check := s.checks[d];
    if check.pc.Done? && !check.pc.revoked && !check.pc.failed && |s.hist| > 0 && s.ttl > 0 {
      HonestLater(s, s', check.serial, check.started, check.pc.at);
    }
  }

  // The lock holder publishes a cache that is at least as recent.
  lemma CacheWritten(s: World, c: nat, cache: Cache)
    requires Inv(s) && c in s.checks && Holding(s.checks[c].pc)
    requires cache.fetched.Some? && s.cache.seenAt <= cache.seenAt <= s.now && s.checks[c].started <= cache.seenAt
    requires s.cache.fetched.Some? ==> s.cache.fetched.value <= cache.fetched.value
    requires CacheOk(s.(cache := cache))
    ensures Inv(To(s, c, Final).(cache := cache))
  {
    hide History, Honest, ReadOk;
    var s' := To(s, c, Final).(cache := cache);
    assert CheckOk(s, c);
    assert CacheOk(s');
    forall d | d in s'.checks ensures CheckOk(s', d) {
      if d != c {
        assert CheckOk(s, d);
        var check := s.checks[d];
        if check.pc.Done? && !check.pc.revoked && !check.pc.failed {
          HonestLater(s, s', check.serial, check.started, check.pc.at);
        }
      }
    }
  }

  lemma WriteTimeKeeps(s: World, c: nat, ok: bool)
    requires Inv(s) && Enabled(s, Go(c, ok)) && s.checks[c].pc.WriteTime?
    ensures Inv(Act(s, c, ok))
  {
    hide History, Honest;
    assert CheckOk(s, c);
    var pc := s.checks[c].pc;
    var cache := s.cache.(fetched := Some(pc.stamp), seen := pc.seen, seenAt := pc.seenAt);
    CacheWritten(s, c, cache);
  }

  lemma WriteListKeeps(s: World, c: nat, ok: bool)
    requires Inv(s) && Enabled(s, Go(c, ok)) && s.checks[c].pc.WriteList?
    ensures Inv(Act(s, c, ok))
  {
    hide History, Honest;
    assert CheckOk(s, c);
    var pc := s.checks[c].pc;
    CacheWritten(s, c, Cache(Unlapsed(s.hist[pc.src].entries, pc.stamp), pc.epoch, Some(pc.stamp), pc.seen, pc.src, pc.stamp, pc.seen, pc.seenAt));
  }

  lemma FinalKeeps(s: World, c: nat, ok: bool)
    requires Inv(s) && Enabled(s, Go(c, ok)) && s.checks[c].pc.Final?
    ensures Inv(Act(s, c, ok))
  {
    hide History, Honest;
    assert CheckOk(s, c);
    var check := s.checks[c];
    var pc := Done(check.serial in s.cache.serials, false, s.now);
    if pc.revoked {
      CachedWasListed(s, check.serial);
    } else {
      RecentIsHonest(s, check.serial, check.started);
      HonestLater(s, To(s, c, pc), check.serial, check.started, s.now);
    }
    CheckMoves(s, c, pc);
  }

  lemma QuietKeeps(s: World, c: nat, ok: bool)
    requires Inv(s) && Enabled(s, Go(c, ok))
    requires var pc := s.checks[c].pc; !pc.WriteTime? && !pc.WriteList? && !pc.Final?
    ensures Inv(Act(s, c, ok))
  {
    hide History, Honest;
    assert CheckOk(s, c);
    CheckMoves(s, c, Act(s, c, ok).checks[c].pc);
  }

  lemma BeginKeeps(s: World, c: nat, serial: Serial)
    requires Inv(s) && Enabled(s, Begin(c, serial))
    ensures Inv(Do(s, Begin(c, serial)))
  {
    hide History, Honest;
    var s' := Do(s, Begin(c, serial));
    if serial in s.cache.serials {
      CachedWasListed(s, serial);
    } else if !s'.checks[c].pc.Wait? {
      RecentIsHonest(s, serial, s.now);
      HonestLater(s, s', serial, s.now, s.now);
    }
    forall d | d in s.checks ensures CheckOk(s', d) {
      assert CheckOk(s, d);
      Elsewhere(s, s', d);
    }
  }

  lemma StepKeeps(s: World, step: Step)
    requires Inv(s) && Enabled(s, step)
    ensures Inv(Do(s, step))
  {
    hide Inv, Act;
    match step
    case Tick(to) => TickKeeps(s, to);
    case Begin(c, serial) => BeginKeeps(s, c, serial);
    case Go(c, ok) =>
      var pc := s.checks[c].pc;
      if pc.WriteTime? { WriteTimeKeeps(s, c, ok); }
      else if pc.WriteList? { WriteListKeeps(s, c, ok); }
      else if pc.Final? { FinalKeeps(s, c, ok); }
      else { QuietKeeps(s, c, ok); }
    case _ => StoreKeeps(s, step);
  }

  lemma InitInv(s: World)
    requires Init(s)
    ensures Inv(s)
  {
  }

  lemma {:induction false} AlwaysInv(tr: seq<World>, steps: seq<Step>, n: nat)
    requires IsRun(tr, steps) && n < |tr|
    ensures Inv(tr[n])
  {
    hide Inv, Enabled, Do;
    if n == 0 {
      InitInv(tr[0]);
    } else {
      AlwaysInv(tr, steps, n - 1);
      assert Enabled(tr[n - 1], steps[n - 1]) && tr[n - 1 + 1] == Do(tr[n - 1], steps[n - 1]);
      StepKeeps(tr[n - 1], steps[n - 1]);
    }
  }

  // In every run, a check that starts at least ttl plus one refresh after a
  // revocation, and none of whose reads failed, reports the serial revoked; or
  // the certificate had expired by the time it answered, so that its chain no
  // longer verifies.
  lemma StalenessBound(tr: seq<World>, steps: seq<Step>, n: nat, c: nat, q: nat, leaf: Leaf, roots: seq<Certificate>)
    requires IsRun(tr, steps) && n < |tr| && c in tr[n].checks && tr[n].checks[c].pc.Done? && !tr[n].checks[c].pc.failed
    requires leaf.serial == tr[n].checks[c].serial && Covers(tr[n].hist, leaf.serial, leaf.notAfter)
    requires RevokedIn(tr[n].hist, q, leaf.serial)
    requires tr[n].checks[c].started >= tr[n].hist[q].at + tr[n].ttl + tr[n].limit
    ensures tr[n].checks[c].pc.revoked || !ChainsAt(roots, leaf, tr[n].checks[c].pc.at)
  {
    hide IsRun, CacheOk;
    AlwaysInv(tr, steps, n);
    assert CheckOk(tr[n], c);
  }

  // --- and exactly so ---------------------------------------------------------------

  // With these settings, no check that starts delay or more after a revocation, and
  // whose reads succeed, misses it while the certificate lives.
  ghost predicate NoneMissed(ttl: nat, limit: nat, retain: nat, delay: nat) {
    forall tr: seq<World>, steps: seq<Step>, n: nat, c: nat, q: nat, end: Time ::
      && IsRun(tr, steps) && n < |tr| && tr[n].ttl == ttl && tr[n].limit == limit && tr[n].retain == retain
      && c in tr[n].checks && tr[n].checks[c].pc.Done? && !tr[n].checks[c].pc.failed
      && Covers(tr[n].hist, tr[n].checks[c].serial, end) && RevokedIn(tr[n].hist, q, tr[n].checks[c].serial)
      && tr[n].checks[c].started >= tr[n].hist[q].at + delay ==>
        tr[n].checks[c].pc.revoked || tr[n].checks[c].pc.at > end
  }

  lemma NoneMissedAfter(tr: seq<World>, steps: seq<Step>, n: nat, c: nat, q: nat, end: Time)
    requires IsRun(tr, steps) && n < |tr| && c in tr[n].checks && tr[n].checks[c].pc.Done? && !tr[n].checks[c].pc.failed
    requires Covers(tr[n].hist, tr[n].checks[c].serial, end) && RevokedIn(tr[n].hist, q, tr[n].checks[c].serial)
    requires tr[n].checks[c].started >= tr[n].hist[q].at + tr[n].ttl + tr[n].limit
    ensures tr[n].checks[c].pc.revoked || tr[n].checks[c].pc.at > end
  {
    hide IsRun, CacheOk;
    AlwaysInv(tr, steps, n);
    assert CheckOk(tr[n], c);
  }

  ghost predicate Valid(run: Run<World, Step>) { |run.tr| > 0 && IsRun(run.tr, run.steps) }

  lemma Take(run: Run<World, Step>, step: Step) returns (run': Run<World, Step>)
    requires Valid(run) && Enabled(Now(run), step)
    ensures Valid(run') && |run'.tr| > 0 && Now(run') == Do(Now(run), step)
  {
    hide Enabled, Do, Init;
    run' := Run(run.tr + [Do(Now(run), step)], run.steps + [step]);
    forall i | 0 <= i < |run'.steps|
      ensures Enabled(run'.tr[i], run'.steps[i]) && run'.tr[i + 1] == Do(run'.tr[i], run'.steps[i])
    {
      if i < |run.steps| {
        assert Enabled(run.tr[i], run.steps[i]) && run.tr[i + 1] == Do(run.tr[i], run.steps[i]);
      }
    }
  }

  function FirstWorld(ttl: nat, limit: nat, retain: nat): World {
    World([Listing(map[], 0, 0)], 0, retain, ttl, limit, Cache({}, 0, None, 0, 0, 0, 0, 0), None, map[])
  }

  lemma FirstValid(ttl: nat, limit: nat, retain: nat)
    requires ttl > 0
    ensures Valid(Run([FirstWorld(ttl, limit, retain)], []))
  {
  }

  // A first check takes the refresh lock and reads the epoch and the empty list...
  lemma ListRead(ttl: nat, limit: nat, retain: nat) returns (run: Run<World, Step>)
    requires ttl > 0
    ensures Valid(run) && |run.tr| > 0
    ensures Now(run) == FirstWorld(ttl, limit, retain).(lock := Some(0), checks := map[0 := Check(5, 0, Listed(0, 0, 0, 0))])
  {
    hide Valid;
    run := Run([FirstWorld(ttl, limit, retain)], []);
    FirstValid(ttl, limit, retain);
    run := Take(run, Begin(0, 5));
    run := Take(run, Go(0, true));
    run := Take(run, Go(0, true));
    assert Now(run).checks[0].pc == NeedEpoch;
    run := Take(run, Go(0, true));
    run := Take(run, Go(0, true));
    assert Now(run).checks[0].pc == NeedList(0, 0, 0);
    run := Take(run, Go(0, true));
  }

  // ... the serial is revoked; the refresh takes all the time it may; and a check that
  // starts just before the cache goes stale finds it fresh.
  lemma MissedInTime(ttl: nat, limit: nat, retain: nat) returns (run: Run<World, Step>)
    requires ttl > 0
    ensures Valid(run) && |run.tr| > 0
    ensures var s := Now(run);
            && s.ttl == ttl && s.limit == limit && s.retain == retain
            && RevokedIn(s.hist, 1, 5) && s.hist[1].at == 0 && Covers(s.hist, 5, ttl + limit)
            && 1 in s.checks && s.checks[1] == Check(5, ttl + limit - 1, Done(false, false, ttl + limit - 1))
  {
    hide Valid;
    run := ListRead(ttl, limit, retain);
    run := Take(run, Mutate(map[5 := None], 1));
    run := Take(run, Tick(limit));
    run := Take(run, Go(0, true));
    assert Now(run).checks[0].pc == WriteList(0, 0, 0, 0, limit);
    run := Take(run, Go(0, true));
    assert Now(run).cache.serials == {} && Now(run).cache.fetched == Some(limit);
    run := Take(run, Tick(ttl + limit - 1));
    run := Take(run, Begin(1, 5));
  }

  // The bound on staleness, one cache lifetime plus one refresh, is exact.
  lemma StalenessExactly(ttl: nat, limit: nat, retain: nat, delay: nat)
    requires ttl > 0
    ensures NoneMissed(ttl, limit, retain, delay) <==> delay >= ttl + limit
  {
    hide IsRun, Covers;
    if delay >= ttl + limit {
      forall tr: seq<World>, steps: seq<Step>, n: nat, c: nat, q: nat, end: Time |
          && IsRun(tr, steps) && n < |tr| && tr[n].ttl == ttl && tr[n].limit == limit && tr[n].retain == retain
          && c in tr[n].checks && tr[n].checks[c].pc.Done? && !tr[n].checks[c].pc.failed
          && Covers(tr[n].hist, tr[n].checks[c].serial, end) && RevokedIn(tr[n].hist, q, tr[n].checks[c].serial)
          && tr[n].checks[c].started >= tr[n].hist[q].at + delay
        ensures tr[n].checks[c].pc.revoked || tr[n].checks[c].pc.at > end
      {
        NoneMissedAfter(tr, steps, n, c, q, end);
      }
    } else {
      var run := MissedInTime(ttl, limit, retain);
      var s := run.tr[|run.tr| - 1];
      assert IsRun(run.tr, run.steps) && 1 in s.checks;
      assert RevokedIn(s.hist, 1, s.checks[1].serial) && Covers(s.hist, s.checks[1].serial, ttl + limit);
    }
  }

  // And a serial reported revoked has been on the list.
  lemma NeverFalselyRevoked(tr: seq<World>, steps: seq<Step>, n: nat, c: nat)
    requires IsRun(tr, steps) && n < |tr| && c in tr[n].checks && tr[n].checks[c].pc.Done? && tr[n].checks[c].pc.revoked
    ensures exists i :: 0 <= i < |tr[n].hist| && tr[n].checks[c].serial in tr[n].hist[i].entries
  {
    hide IsRun, CacheOk;
    AlwaysInv(tr, steps, n);
    assert CheckOk(tr[n], c);
  }

  // The list a store read returns, in whatever order.
  ghost predicate IsListOf(entries: seq<(Serial, Option<Time>)>, m: map<Serial, Option<Time>>) {
    forall x, e :: (exists i :: 0 <= i < |entries| && entries[i] == (x, e)) <==> x in m && m[x] == e
  }

  // refresh's own loop over the list it read: the set the protocol above works with.
  method KeepUnlapsed(entries: seq<(Serial, Option<Time>)>, now: Time) returns (serials: seq<Serial>)
    ensures forall x :: x in serials <==> exists i :: 0 <= i < |entries| && entries[i].0 == x && (entries[i].1 == None || now <= entries[i].1.value)
    ensures forall m :: IsListOf(entries, m) ==> forall x :: x in serials <==> x in Unlapsed(m, now)
  {
    serials := [];
    for i := 0 to |entries|
      invariant forall x :: x in serials <==> exists j :: 0 <= j < i && entries[j].0 == x && (entries[j].1 == None || now <= entries[j].1.value)
    {
      if entries[i].1.Some? && now > entries[i].1.value { continue; }
      serials := serials + [entries[i].0];
    }
    forall m | IsListOf(entries, m) ensures forall x :: x in serials <==> x in Unlapsed(m, now) {
      UnlapsedList(entries, m, now, serials);
    }
  }

  lemma UnlapsedList(entries: seq<(Serial, Option<Time>)>, m: map<Serial, Option<Time>>, now: Time, serials: seq<Serial>)
    requires IsListOf(entries, m)
    requires forall x :: x in serials <==> exists i :: 0 <= i < |entries| && entries[i].0 == x && (entries[i].1 == None || now <= entries[i].1.value)
    ensures forall x :: x in serials <==> x in Unlapsed(m, now)
  {
    forall x ensures x in serials <==> x in Unlapsed(m, now) {
      if x in serials {
        var i :| 0 <= i < |entries| && entries[i].0 == x && (entries[i].1 == None || now <= entries[i].1.value);
        assert entries[i] == (x, entries[i].1);
      }
      if x in Unlapsed(m, now) {
        var i :| 0 <= i < |entries| && entries[i] == (x, m[x]);
        assert entries[i].0 == x;
      }
    }
  }
}
