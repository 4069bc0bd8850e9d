// The per-key token bucket with idle eviction (internal/mcptools/ratelimit.go).
// Floating-point seconds and tokens are modelled as reals.

module RateLimit {
  import opened Wrappers

  // seen is None until the call that creates the bucket finishes with it.
  datatype Bucket = Bucket(tokens: real, last: real, seen: Option<real>)
  datatype Limits = Limits(rps: real, burst: int)

  type Buckets = map<nat, Bucket>

  const IDLE: real := 3600.0

  // A rate without a burst still admits one call at a time.
  function Cap(l: Limits): (c: real)
    ensures c >= 1.0
  {
    if l.burst < 1 then 1.0 else l.burst as real
  }

  predicate Idle(b: Bucket, now: real) { b.seen.Some? && now - b.seen.value > IDLE }

  function EvictIdle(bs: Buckets, now: real): Buckets { map k | k in bs && !Idle(bs[k], now) :: bs[k] }

  // Tokens earned over dt seconds.
  function Earned(l: Limits, dt: real): real { dt * l.rps }

  function Refill(b: Bucket, l: Limits, now: real): Bucket {
    if now - b.last > 0.0 then
      var t := b.tokens + Earned(l, now - b.last);
      b.(tokens := if t < Cap(l) then t else Cap(l), last := now)
    else b
  }

  // A call on its bucket: the bucket it leaves, and whether it is admitted.
  function Draw(b: Bucket, l: Limits, now: real): (Bucket, bool) {
    var r := Refill(b, l, now).(seen := Some(now));
    if r.tokens < 1.0 then (r, false) else (r.(tokens := r.tokens - 1.0), true)
  }

  // evicts distinguishes the limiter from one that keeps every bucket forever.
  function Open(bs: Buckets, kid: nat, l: Limits, now: real, evicts: bool): (r: Buckets)
    ensures kid in r
  {
    if kid in bs then bs
    else
      var bs' := bs[kid := Bucket(Cap(l), now, None)];
      if evicts then EvictIdle(bs', now) else bs'
  }

  function Allow(bs: Buckets, kid: nat, l: Limits, now: real, evicts: bool): (Buckets, bool) {
    var table := Open(bs, kid, l, now, evicts);
    var (b, ok) := Draw(table[kid], l, now);
    (table[kid := b], ok)
  }

  class RateLimiter {
    var buckets: Buckets

    constructor ()
      ensures buckets == map[]
    {
      buckets := map[];
    }

    method EvictIdleLocked(now: real)
      modifies this
      ensures buckets == EvictIdle(old(buckets), now)
    {
      var all := buckets;
      var todo := all.Keys;
      while todo != {}
        invariant todo <= all.Keys
        invariant forall k :: k in buckets <==> k in all && (k in todo || !Idle(all[k], now))
        invariant forall k :: k in buckets ==> buckets[k] == all[k]
        decreases |todo|
      {
        var k :| k in todo;
        todo := todo - {k};
        if Idle(all[k], now) {
          buckets := buckets - {k};
        }
      }
      assert buckets == EvictIdle(all, now);
    }

    // No limits, or a rate of zero, is unlimited and leaves no trace. A refusal
    // says how long until a whole token exists: a call then is admitted, and a
    // call any earlier is not.
    method Call(kid: nat, limits: Option<Limits>, now: real) returns (ok: bool, retryAfter: real)
      modifies this
      ensures limits.None? || limits.value.rps <= 0.0 ==> ok && buckets == old(buckets)
      ensures limits.Some? && limits.value.rps > 0.0 ==> (buckets, ok) == Allow(old(buckets), kid, limits.value, now, true)
      ensures !ok ==> limits.Some? && kid in buckets
      ensures !ok && (kid in old(buckets) ==> old(buckets[kid].last) <= now) ==>
                && retryAfter > 0.0
                && Draw(buckets[kid], limits.value, now + retryAfter).1
                && forall t :: now <= t < now + retryAfter ==> !Draw(buckets[kid], limits.value, t).1
    {
      if limits.None? || limits.value.rps <= 0.0 { return true, 0.0; }
      var l := limits.value;
      if kid !in buckets {
        buckets := buckets[kid := Bucket(Cap(l), now, None)];
        EvictIdleLocked(now);
      }
      ghost var table := buckets;
      assert table == Open(old(buckets), kid, l, now, true);
      var b := buckets[kid];
      if now - b.last > 0.0 {
        var t := b.tokens + Earned(l, now - b.last);
        b := b.(tokens := if t < Cap(l) then t else Cap(l), last := now);
      }
      b := b.(seen := Some(now));
      assert b == Refill(table[kid], l, now).(seen := Some(now));
      if b.tokens < 1.0 {
        buckets := buckets[kid := b];
        retryAfter := (1.0 - b.tokens) / l.rps;
        if b.last == now { RetryAfter(b, l, now, retryAfter); }
        return false, retryAfter;
      }
      buckets := buckets[kid := b.(tokens := b.tokens - 1.0)];
      return true, 0.0;
    }
  }

  lemma Quotient(x: real, y: real)
    requires x > 0.0 && y > 0.0
    ensures x / y > 0.0
  {
  }

  lemma RetryAfter(b: Bucket, l: Limits, now: real, wait: real)
    requires l.rps > 0.0 && b.tokens < 1.0 && b.last == now && wait == (1.0 - b.tokens) / l.rps
    ensures wait > 0.0 && Draw(b, l, now + wait).1
    ensures forall t :: now <= t < now + wait ==> !Draw(b, l, t).1
  {
    assert wait * l.rps == 1.0 - b.tokens;
    Quotient(1.0 - b.tokens, l.rps);
    forall t | now <= t < now + wait ensures !Draw(b, l, t).1 {
      assert (t - now) * l.rps < wait * l.rps;
    }
  }

  // --- whole runs ----------------------------------------------------------------

  datatype Req = Req(kid: nat, at: real)

  // The clock does not go back.
  predicate Ordered(rs: seq<Req>) { forall i, j :: 0 <= i <= j < |rs| ==> rs[i].at <= rs[j].at }

  ghost predicate Rated(limits: nat -> Limits) { forall k :: limits(k).rps > 0.0 }

  function After(rs: seq<Req>, limits: nat -> Limits, evicts: bool): Buckets {
    if rs == [] then map[]
    else
      var r := rs[|rs| - 1];
      Allow(After(rs[..|rs| - 1], limits, evicts), r.kid, limits(r.kid), r.at, evicts).0
  }

  predicate Admitted(rs: seq<Req>, limits: nat -> Limits, evicts: bool, n: nat)
    requires n < |rs|
  {
    Allow(After(rs[..n], limits, evicts), rs[n].kid, limits(rs[n].kid), rs[n].at, evicts).1
  }

  // How many of the calls i..j of key kid were admitted.
  function Count(rs: seq<Req>, limits: nat -> Limits, evicts: bool, kid: nat, i: nat, j: nat): (n: nat)
    requires i <= j <= |rs|
    decreases j
  {
    if i == j then 0
    else Count(rs, limits, evicts, kid, i, j - 1)
         + if rs[j - 1].kid == kid && Admitted(rs, limits, evicts, j - 1) then 1 else 0
  }

  // What every bucket satisfies: used at its last refill, never overdrawn.
  predicate Sound(bs: Buckets, limits: nat -> Limits, now: real) {
    forall k :: k in bs ==>
      && bs[k].seen == Some(bs[k].last) && bs[k].last <= now
      && 0.0 <= bs[k].tokens <= Cap(limits(k))
  }

  lemma EarnedMonotone(l: Limits, x: real, y: real)
    requires l.rps > 0.0 && x <= y
    ensures Earned(l, 0.0) == 0.0 && Earned(l, x) <= Earned(l, y)
  {
  }

  lemma EarnedAdds(l: Limits, a: real, b: real, c: real)
    ensures Earned(l, b - a) + Earned(l, c - b) == Earned(l, c - a)
  {
  }

  lemma DrawSound(b: Bucket, l: Limits, now: real)
    requires l.rps > 0.0 && b.last <= now && 0.0 <= b.tokens <= Cap(l)
    ensures var (b', ok) := Draw(b, l, now);
            && b'.seen == Some(now) && b'.last == now && 0.0 <= b'.tokens <= Cap(l)
            && b'.tokens + (if ok then 1.0 else 0.0) <= Cap(l)
            && b'.tokens + (if ok then 1.0 else 0.0) <= b.tokens + Earned(l, now - b.last)
  {
    EarnedMonotone(l, 0.0, now - b.last);
  }

  // A call finds what was left plus the rate times the time since, up to the burst or one
  // if there is none, and is admitted exactly when that makes a whole token.
  lemma DrawExactly(b: Bucket, l: Limits, now: real)
    requires l.rps > 0.0 && b.last <= now && b.tokens <= Cap(l)
    ensures var (b', ok) := Draw(b, l, now);
            var most := if l.burst < 1 then 1.0 else l.burst as real;
            var accrued := b.tokens + (now - b.last) * l.rps;
            var found := if accrued < most then accrued else most;
            && (ok <==> found >= 1.0)
            && b' == Bucket(if ok then found - 1.0 else found, now, Some(now))
  {
    hide Draw, Earned, Cap;
    DrawFinds(b, l, now);
    EarnedIs(l, now - b.last);
    CapIs(l);
  }

  lemma DrawFinds(b: Bucket, l: Limits, now: real)
    requires l.rps > 0.0 && b.last <= now && b.tokens <= Cap(l)
    ensures var (b', ok) := Draw(b, l, now);
            var accrued := b.tokens + Earned(l, now - b.last);
            var found := if accrued < Cap(l) then accrued else Cap(l);
            (ok <==> found >= 1.0) && b' == Bucket(if ok then found - 1.0 else found, now, Some(now))
  {
    hide Earned, Cap;
    EarnedMonotone(l, 0.0, now - b.last);
  }

  lemma EarnedIs(l: Limits, dt: real)
    ensures Earned(l, dt) == dt * l.rps
  {
  }

  lemma CapIs(l: Limits)
    ensures Cap(l) == if l.burst < 1 then 1.0 else l.burst as real
  {
  }

  lemma AllowSound(bs: Buckets, limits: nat -> Limits, before: real, kid: nat, now: real, evicts: bool)
    requires Sound(bs, limits, before) && before <= now && limits(kid).rps > 0.0
    ensures Sound(Allow(bs, kid, limits(kid), now, evicts).0, limits, now)
  {
    DrawSound(Open(bs, kid, limits(kid), now, evicts)[kid], limits(kid), now);
  }

  lemma {:induction false} AfterSound(rs: seq<Req>, limits: nat -> Limits, evicts: bool, now: real)
    requires Ordered(rs) && Rated(limits) && (rs != [] ==> rs[|rs| - 1].at <= now)
    ensures Sound(After(rs, limits, evicts), limits, now)
  {
    if rs != [] {
      var rest, r := rs[..|rs| - 1], rs[|rs| - 1];
      AfterSound(rest, limits, evicts, r.at);
      AllowSound(After(rest, limits, evicts), limits, r.at, r.kid, r.at, evicts);
    }
  }

  // Admitted calls plus what is left in the bucket never exceed the burst plus
  // what accrued since the window opened.
  predicate WithinBudget(bs: Buckets, kid: nat, l: Limits, start: real, count: nat) {
    count > 0 ==> kid in bs && start <= bs[kid].last && count as real + bs[kid].tokens <= Cap(l) + Earned(l, bs[kid].last - start)
  }

  lemma CallWithinBudget(
      bs: Buckets, limits: nat -> Limits, kid: nat, start: real, count: nat, before: real, r: Req, evicts: bool)
    requires Sound(bs, limits, before) && start <= before <= r.at && Rated(limits)
    requires WithinBudget(bs, kid, limits(kid), start, count)
    requires evicts ==> r.at - start <= IDLE
    ensures var (bs', ok) := Allow(bs, r.kid, limits(r.kid), r.at, evicts);
            WithinBudget(bs', kid, limits(kid), start, count + if r.kid == kid && ok then 1 else 0)
  {
    hide Draw, Earned;
    var l := limits(r.kid);
    var table := Open(bs, r.kid, l, r.at, evicts);
    DrawSound(table[r.kid], l, r.at);
    if r.kid == kid {
      if count > 0 { EarnedAdds(l, start, bs[kid].last, r.at); }
      EarnedMonotone(l, 0.0, r.at - start);
    }
  }

  lemma {:induction false} WindowBudget(rs: seq<Req>, limits: nat -> Limits, evicts: bool, kid: nat, i: nat, n: nat)
    requires Ordered(rs) && Rated(limits) && i < n <= |rs| && (evicts ==> rs[n - 1].at - rs[i].at <= IDLE)
    ensures WithinBudget(After(rs[..n], limits, evicts), kid, limits(kid), rs[i].at, Count(rs, limits, evicts, kid, i, n))
  {
    var bs, r := After(rs[..n - 1], limits, evicts), rs[n - 1];
    assert rs[..n][..n - 1] == rs[..n - 1];
    if i < n - 1 {
      WindowBudget(rs, limits, evicts, kid, i, n - 1);
    }
    var before := if i < n - 1 then rs[n - 2].at else rs[i].at;
    AfterSound(rs[..n - 1], limits, evicts, before);
    CallWithinBudget(bs, limits, kid, rs[i].at, Count(rs, limits, evicts, kid, i, n - 1), before, r, evicts);
  }

  // The calls of one key admitted in any window of at most an hour, with other
  // keys calling and being evicted around it: at most the burst plus the rate
  // times the window. Without eviction, in any window at all.
  lemma RateBound(rs: seq<Req>, limits: nat -> Limits, evicts: bool, kid: nat, i: nat, j: nat)
    requires Ordered(rs) && Rated(limits) && i < j <= |rs| && (evicts ==> rs[j - 1].at - rs[i].at <= IDLE)
    ensures Count(rs, limits, evicts, kid, i, j) as real <= Cap(limits(kid)) + Earned(limits(kid), rs[j - 1].at - rs[i].at)
  {
    hide After, Count, Earned;
    WindowBudget(rs, limits, evicts, kid, i, j);
    AfterSound(rs[..j], limits, evicts, rs[j - 1].at);
    var bs := After(rs[..j], limits, evicts);
    EarnedMonotone(limits(kid), 0.0, rs[j - 1].at - rs[i].at);
    if Count(rs, limits, evicts, kid, i, j) > 0 {
      EarnedMonotone(limits(kid), bs[kid].last - rs[i].at, rs[j - 1].at - rs[i].at);
    }
  }

  // --- eviction is invisible exactly when an hour refills the burst -----------------

  predicate Covered(l: Limits) { Earned(l, IDLE) >= Cap(l) }

  ghost predicate AllCovered(limits: nat -> Limits) { forall k :: Covered(limits(k)) }

  // The limiter's table is the never-evicting one, less some buckets that have
  // been idle for over an hour.
  predicate Thinned(bs: Buckets, all: Buckets, now: real) {
    && (forall k :: k in bs ==> k in all && all[k] == bs[k])
    && (forall k :: k in all && k !in bs ==> now - all[k].last > IDLE)
  }

  lemma SameCall(bs: Buckets, all: Buckets, limits: nat -> Limits, before: real, r: Req)
    requires Thinned(bs, all, before) && Sound(all, limits, before) && before <= r.at
    requires Rated(limits) && AllCovered(limits)
    ensures Allow(bs, r.kid, limits(r.kid), r.at, true).1 == Allow(all, r.kid, limits(r.kid), r.at, false).1
    ensures Thinned(Allow(bs, r.kid, limits(r.kid), r.at, true).0, Allow(all, r.kid, limits(r.kid), r.at, false).0, r.at)
  {
    var l := limits(r.kid);
    var t, u := Open(bs, r.kid, l, r.at, true), Open(all, r.kid, l, r.at, false);
    if r.kid in all && r.kid !in bs {
      assert Covered(l);
      EarnedMonotone(l, IDLE, r.at - all[r.kid].last);
      assert Refill(u[r.kid], l, r.at).tokens == Cap(l);
    }
    assert Draw(t[r.kid], l, r.at) == Draw(u[r.kid], l, r.at);
  }

  lemma {:induction false} EvictionInvisible(rs: seq<Req>, limits: nat -> Limits, n: nat)
    requires Ordered(rs) && Rated(limits) && AllCovered(limits) && n < |rs|
    ensures Admitted(rs, limits, true, n) == Admitted(rs, limits, false, n)
    ensures Thinned(After(rs[..n + 1], limits, true), After(rs[..n + 1], limits, false), rs[n].at)
  {
    assert rs[..n + 1][..n] == rs[..n];
    var before := if n > 0 then rs[n - 1].at else rs[n].at;
    if n > 0 {
      EvictionInvisible(rs, limits, n - 1);
      assert rs[..n - 1 + 1] == rs[..n];
    }
    AfterSound(rs[..n], limits, false, before);
    SameCall(After(rs[..n], limits, true), After(rs[..n], limits, false), limits, before, rs[n]);
  }

  lemma {:induction false} SameCount(rs: seq<Req>, limits: nat -> Limits, kid: nat, i: nat, j: nat)
    requires Ordered(rs) && Rated(limits) && AllCovered(limits) && i <= j <= |rs|
    ensures Count(rs, limits, true, kid, i, j) == Count(rs, limits, false, kid, i, j)
  {
    hide Admitted, Thinned, AllCovered, Rated, Ordered, After;
    if i < j {
      SameCount(rs, limits, kid, i, j - 1);
      EvictionInvisible(rs, limits, j - 1);
    }
  }

  // So then the bound holds over windows of any length.
  lemma RateBoundAnyWindow(rs: seq<Req>, limits: nat -> Limits, kid: nat, i: nat, j: nat)
    requires Ordered(rs) && Rated(limits) && AllCovered(limits) && i < j <= |rs|
    ensures Count(rs, limits, true, kid, i, j) as real <= Cap(limits(kid)) + Earned(limits(kid), rs[j - 1].at - rs[i].at)
  {
    SameCount(rs, limits, kid, i, j);
    RateBound(rs, limits, false, kid, i, j);
  }

  // --- a key that stays within its rate is never refused ------------------------------

  // How many of the calls i..j are key kid's.
  function Asked(rs: seq<Req>, kid: nat, i: nat, j: nat): (n: nat)
    requires i <= j <= |rs|
    decreases j
  {
    if i == j then 0 else Asked(rs, kid, i, j - 1) + if rs[j - 1].kid == kid then 1 else 0
  }

  // Between any two of the key's calls it makes no more than the burst plus the rate
  // times the time between them.
  ghost predicate WithinRate(rs: seq<Req>, l: Limits, kid: nat) {
    forall i: nat, j: nat :: i < j <= |rs| && rs[i].kid == kid == rs[j - 1].kid ==>
      Asked(rs, kid, i, j) as real <= Cap(l) + Earned(l, rs[j - 1].at - rs[i].at)
  }

  // The bucket is short by what was asked for since call i found it full.
  predicate FullAt(rs: seq<Req>, l: Limits, kid: nat, b: Bucket, i: nat, n: nat) {
    && i < n <= |rs| && rs[i].kid == kid && rs[i].at <= b.last
    && b.tokens == Cap(l) + Earned(l, b.last - rs[i].at) - Asked(rs, kid, i, n) as real
  }

  ghost predicate Accounted(rs: seq<Req>, l: Limits, kid: nat, bs: Buckets, n: nat) {
    kid in bs ==> exists i: nat :: FullAt(rs, l, kid, bs[kid], i, n)
  }

  // The key's own call n.
  lemma OwnCall(rs: seq<Req>, l: Limits, kid: nat, bs: Buckets, n: nat, evicts: bool)
    requires WithinRate(rs, l, kid) && l.rps > 0.0 && n < |rs| && rs[n].kid == kid
    requires Accounted(rs, l, kid, bs, n)
    requires kid in bs ==> bs[kid].last <= rs[n].at && bs[kid].tokens <= Cap(l)
    ensures var (bs', ok) := Allow(bs, kid, l, rs[n].at, evicts); ok && Accounted(rs, l, kid, bs', n + 1)
  {
    hide WithinRate, Earned, Draw, Cap;
    var now := rs[n].at;
    var b := Open(bs, kid, l, now, evicts)[kid];
    var (bs', ok) := Allow(bs, kid, l, now, evicts);
    DrawFinds(b, l, now);
    EarnedMonotone(l, 0.0, 0.0);
    if kid in bs && b.tokens + Earned(l, now - b.last) < Cap(l) {
      var i: nat :| FullAt(rs, l, kid, b, i, n);
      AskedWithin(rs, l, kid, i, n + 1);
      EarnedAdds(l, rs[i].at, b.last, now);
      assert FullAt(rs, l, kid, bs'[kid], i, n + 1);
    } else {
      assert Asked(rs, kid, n, n + 1) == 1;
      assert FullAt(rs, l, kid, bs'[kid], n, n + 1);
    }
  }

  lemma AskedWithin(rs: seq<Req>, l: Limits, kid: nat, i: nat, j: nat)
    requires WithinRate(rs, l, kid) && i < j <= |rs| && rs[i].kid == kid == rs[j - 1].kid
    ensures Asked(rs, kid, i, j) as real <= Cap(l) + Earned(l, rs[j - 1].at - rs[i].at)
  {
  }

  // Another key's call n leaves the bucket alone or evicts it.
  lemma OthersCall(rs: seq<Req>, l: Limits, kid: nat, bs: Buckets, n: nat, other: Limits, evicts: bool)
    requires n < |rs| && rs[n].kid != kid && Accounted(rs, l, kid, bs, n)
    ensures Accounted(rs, l, kid, Allow(bs, rs[n].kid, other, rs[n].at, evicts).0, n + 1)
  {
    hide Draw, Earned;
    var bs' := Allow(bs, rs[n].kid, other, rs[n].at, evicts).0;
    if kid in bs' {
      var i: nat :| FullAt(rs, l, kid, bs[kid], i, n);
      assert FullAt(rs, l, kid, bs'[kid], i, n + 1);
    }
  }

  lemma {:induction false} NeverRefused(rs: seq<Req>, limits: nat -> Limits, evicts: bool, kid: nat, n: nat)
    requires Ordered(rs) && Rated(limits) && WithinRate(rs, limits(kid), kid) && n <= |rs|
    ensures Accounted(rs, limits(kid), kid, After(rs[..n], limits, evicts), n)
    ensures forall j :: 0 <= j < n && rs[j].kid == kid ==> Admitted(rs, limits, evicts, j)
  {
    hide WithinRate, Accounted, Allow;
    if n == 0 {
      EmptyAccounted(rs, limits(kid), kid);
    } else {
      NeverRefused(rs, limits, evicts, kid, n - 1);
      AfterOne(rs, limits, evicts, n - 1);
      var bs := After(rs[..n - 1], limits, evicts);
      if rs[n - 1].kid == kid {
        AfterSound(rs[..n - 1], limits, evicts, rs[n - 1].at);
        OwnCall(rs, limits(kid), kid, bs, n - 1, evicts);
      } else {
        OthersCall(rs, limits(kid), kid, bs, n - 1, limits(rs[n - 1].kid), evicts);
      }
    }
  }

  lemma EmptyAccounted(rs: seq<Req>, l: Limits, kid: nat)
    ensures Accounted(rs, l, kid, map[], 0)
  {
  }

  ghost predicate AllAdmitted(rs: seq<Req>, limits: nat -> Limits, evicts: bool, kid: nat) {
    forall n: nat :: n < |rs| && rs[n].kid == kid ==> Admitted(rs, limits, evicts, n)
  }

  lemma {:induction false} AllCounted(rs: seq<Req>, limits: nat -> Limits, evicts: bool, kid: nat, i: nat, j: nat)
    requires AllAdmitted(rs, limits, evicts, kid) && i <= j <= |rs|
    ensures Count(rs, limits, evicts, kid, i, j) == Asked(rs, kid, i, j)
  {
    hide Admitted;
    if i < j { AllCounted(rs, limits, evicts, kid, i, j - 1); }
  }

  // A key that stays within its rate has every call admitted, whatever other keys do and
  // with or without eviction; and where eviction goes unnoticed, only such a key has.
  lemma AdmittedExactly(rs: seq<Req>, limits: nat -> Limits, evicts: bool, kid: nat)
    requires Ordered(rs) && Rated(limits)
    ensures WithinRate(rs, limits(kid), kid) ==> AllAdmitted(rs, limits, evicts, kid)
    ensures !evicts || AllCovered(limits) ==> (WithinRate(rs, limits(kid), kid) <==> AllAdmitted(rs, limits, evicts, kid))
  {
    hide Rated, Ordered, Admitted, Earned, AllCovered, Asked, Count, Cap;
    if WithinRate(rs, limits(kid), kid) {
      NeverRefused(rs, limits, evicts, kid, |rs|);
    } else if AllAdmitted(rs, limits, evicts, kid) && (!evicts || AllCovered(limits)) {
      forall i: nat, j: nat | i < j <= |rs| && rs[i].kid == kid == rs[j - 1].kid
        ensures Asked(rs, kid, i, j) as real <= Cap(limits(kid)) + Earned(limits(kid), rs[j - 1].at - rs[i].at)
      {
        AllCounted(rs, limits, evicts, kid, i, j);
        if evicts { RateBoundAnyWindow(rs, limits, kid, i, j); } else { RateBound(rs, limits, evicts, kid, i, j); }
      }
    }
  }

  // --- where an hour does not refill the burst, eviction shows ---

  predicate Burst(rs: seq<Req>, kid: nat, at: real, i: nat, m: nat) {
    i + m <= |rs| && forall q :: i <= q < i + m ==> rs[q] == Req(kid, at)
  }

  lemma AfterOne(rs: seq<Req>, limits: nat -> Limits, evicts: bool, n: nat)
    requires n < |rs|
    ensures After(rs[..n + 1], limits, evicts)
            == Allow(After(rs[..n], limits, evicts), rs[n].kid, limits(rs[n].kid), rs[n].at, evicts).0
  {
    assert rs[..n + 1][..n] == rs[..n];
  }

  // The m-th call of a burst, while there is a whole token left.
  lemma BurstCall(bs: Buckets, kid: nat, l: Limits, at: real, m: nat)
    requires 0 < m && m as real <= Cap(l)
    requires if m == 1 then kid !in bs else kid in bs && bs[kid] == Bucket(Cap(l) - (m - 1) as real, at, Some(at))
    ensures var (bs', ok) := Allow(bs, kid, l, at, true);
            && ok && kid in bs' && bs'[kid] == Bucket(Cap(l) - m as real, at, Some(at))
            && forall k :: k != kid && k !in bs ==> k !in bs'
  {
  }

  // A key without a bucket has a whole burst admitted at once.
  lemma {:induction false} BurstAdmitted(rs: seq<Req>, limits: nat -> Limits, kid: nat, at: real, i: nat, m: nat)
    requires Burst(rs, kid, at, i, m) && m as real <= Cap(limits(kid))
    requires kid !in After(rs[..i], limits, true)
    ensures Count(rs, limits, true, kid, i, i + m) == m
    ensures var bs := After(rs[..i + m], limits, true);
            && (m > 0 ==> kid in bs && bs[kid] == Bucket(Cap(limits(kid)) - m as real, at, Some(at)))
            && (forall k :: k != kid && k !in After(rs[..i], limits, true) ==> k !in bs)
  {
    hide Allow, After, Cap;
    if m > 0 {
      BurstAdmitted(rs, limits, kid, at, i, m - 1);
      AfterOne(rs, limits, true, i + m - 1);
      assert rs[i + m - 1] == Req(kid, at);
      BurstCall(After(rs[..i + m - 1], limits, true), kid, limits(kid), at, m);
    }
  }

  lemma Evicted(bs: Buckets, kid: nat, other: nat, l: Limits, now: real)
    requires kid in bs && Idle(bs[kid], now) && other !in bs
    ensures kid !in Allow(bs, other, l, now, true).0
  {
  }

  lemma {:induction false} CountSplits(rs: seq<Req>, limits: nat -> Limits, evicts: bool, kid: nat, i: nat, j: nat, k: nat)
    requires i <= j <= k <= |rs|
    ensures Count(rs, limits, evicts, kid, i, k) == Count(rs, limits, evicts, kid, i, j) + Count(rs, limits, evicts, kid, j, k)
  {
    hide Admitted;
    if j < k { CountSplits(rs, limits, evicts, kid, i, j, k - 1); }
  }

  function Calls(kid: nat, at: real, m: nat): seq<Req> { seq(m, _ => Req(kid, at)) }

  // A burst, a call of another key just over an hour later, and a second burst.
  function TwoBursts(kid: nat, m: nat, gap: real): seq<Req> {
    Calls(kid, 0.0, m) + [Req(kid + 1, gap)] + Calls(kid, gap, m)
  }

  lemma BothBurstsAdmitted(limits: nat -> Limits, kid: nat, m: nat, gap: real)
    requires m > 0 && m as real == Cap(limits(kid)) && gap > IDLE
    ensures var rs := TwoBursts(kid, m, gap); Ordered(rs) && Count(rs, limits, true, kid, 0, |rs|) == 2 * m
  {
    hide Allow, Admitted;
    var rs := TwoBursts(kid, m, gap);
    BurstAdmitted(rs, limits, kid, 0.0, 0, m);
    assert rs[..0] == [] && rs[m] == Req(kid + 1, gap);
    AfterOne(rs, limits, true, m);
    Evicted(After(rs[..m], limits, true), kid, kid + 1, limits(kid + 1), gap);
    BurstAdmitted(rs, limits, kid, gap, m + 1, m);
    CountSplits(rs, limits, true, kid, 0, m, m + 1);
    CountSplits(rs, limits, true, kid, 0, m + 1, |rs|);
  }

  // A gap of over an hour that still earns less than the burst.
  lemma ShortGap(l: Limits) returns (gap: real)
    requires l.rps > 0.0 && !Covered(l)
    ensures gap > IDLE && Earned(l, gap) < Cap(l)
  {
    var full := Cap(l) / l.rps;
    assert Earned(l, full) == Cap(l);
    if full <= IDLE { EarnedMonotone(l, full, IDLE); }
    gap := (full + IDLE) / 2.0;
    assert Earned(l, gap) == (Earned(l, full) + Earned(l, IDLE)) / 2.0;
  }

  ghost predicate SameAnswers(limits: nat -> Limits, rs: seq<Req>) {
    forall n: nat :: n < |rs| ==> Admitted(rs, limits, true, n) == Admitted(rs, limits, false, n)
  }

  ghost predicate Bounded(limits: nat -> Limits, rs: seq<Req>) {
    forall kid: nat, i: nat, j: nat :: i < j <= |rs| ==>
      Count(rs, limits, true, kid, i, j) as real <= Cap(limits(kid)) + Earned(limits(kid), rs[j - 1].at - rs[i].at)
  }

  lemma {:induction false} SameAnswersSameCount(rs: seq<Req>, limits: nat -> Limits, kid: nat, i: nat, j: nat)
    requires i <= j <= |rs| && SameAnswers(limits, rs)
    ensures Count(rs, limits, true, kid, i, j) == Count(rs, limits, false, kid, i, j)
  {
    hide Admitted;
    if i < j { SameAnswersSameCount(rs, limits, kid, i, j - 1); }
  }

  lemma Uncovered(limits: nat -> Limits, kid: nat) returns (rs: seq<Req>)
    requires Rated(limits) && !Covered(limits(kid))
    ensures Ordered(rs) && !SameAnswers(limits, rs) && !Bounded(limits, rs)
  {
    hide SameAnswers, After, Admitted, Count, Earned;
    var l := limits(kid);
    var gap := ShortGap(l);
    var m: nat := if l.burst < 1 then 1 else l.burst;
    rs := TwoBursts(kid, m, gap);
    BothBurstsAdmitted(limits, kid, m, gap);
    assert rs[0].at == 0.0 && rs[|rs| - 1].at == gap;
    RateBound(rs, limits, false, kid, 0, |rs|);
    if SameAnswers(limits, rs) { SameAnswersSameCount(rs, limits, kid, 0, |rs|); }
  }

  // Evicting idle buckets goes unnoticed, and the rate bound holds over windows
  // of every length, exactly when an hour earns every key its whole burst.
  lemma EvictionInvisibleExactly(limits: nat -> Limits)
    requires Rated(limits)
    ensures AllCovered(limits) <==> forall rs: seq<Req> :: Ordered(rs) ==> SameAnswers(limits, rs)
    ensures AllCovered(limits) <==> forall rs: seq<Req> :: Ordered(rs) ==> Bounded(limits, rs)
  {
    hide Ordered, Admitted, Count, Covered, Earned;
    if AllCovered(limits) {
      forall rs: seq<Req> | Ordered(rs) ensures SameAnswers(limits, rs) {
        forall n: nat | n < |rs| ensures Admitted(rs, limits, true, n) == Admitted(rs, limits, false, n) {
          EvictionInvisible(rs, limits, n);
        }
      }
      forall rs: seq<Req> | Ordered(rs) ensures Bounded(limits, rs) {
        forall kid: nat, i: nat, j: nat | i < j <= |rs|
          ensures Count(rs, limits, true, kid, i, j) as real <= Cap(limits(kid)) + Earned(limits(kid), rs[j - 1].at - rs[i].at)
        {
          RateBoundAnyWindow(rs, limits, kid, i, j);
        }
      }
    } else {
      var kid: nat :| !Covered(limits(kid));
      var rs := Uncovered(limits, kid);
    }
  }
}
