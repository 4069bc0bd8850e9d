// The controller itself, as it runs on one replica: the issuer tracker, the
// compare-and-swap it writes through, and one poll.

module Rotator {
  import opened Wrappers
  import opened Pki
  import opened Rotation

  datatype Sighting = Sighting(root: Certificate, at: Time)

  const SIGHTING_GRACE: int := 120

  predicate IsIssuer(roots: seq<Certificate>, leaf: Leaf, c: Certificate) {
    c in roots && SigningCapable(c) && c.publicKey == leaf.signedBy
  }

  predicate HasIssuer(roots: seq<Certificate>, leaf: Leaf) { exists c :: c in roots && IsIssuer(roots, leaf, c) }

  predicate FirstIssuer(roots: seq<Certificate>, leaf: Leaf, i: nat) {
    i < |roots| && IsIssuer(roots, leaf, roots[i]) && forall j :: 0 <= j < i ==> !IsIssuer(roots, leaf, roots[j])
  }

  // Which root of the bundle signed this leaf: the first that did.
  method IssuerFingerprint(roots: seq<Certificate>, leaf: Leaf) returns (issuer: Option<Certificate>)
    ensures issuer.Some? <==> HasIssuer(roots, leaf)
    ensures issuer.Some? ==> exists i :: 0 <= i < |roots| && roots[i] == issuer.value && FirstIssuer(roots, leaf, i)
  {
    for i := 0 to |roots|
      invariant forall j :: 0 <= j < i ==> !IsIssuer(roots, leaf, roots[j])
    {
      if SigningCapable(roots[i]) && roots[i].publicKey == leaf.signedBy {
        assert FirstIssuer(roots, leaf, i) && roots[i] in roots;
        return Some(roots[i]);
      }
    }
    return None;
  }

  class IssuerTracker {
    var bySerial: map<nat, Sighting>

    constructor ()
      ensures bySerial == map[]
    {
      bySerial := map[];
    }

    // The evidence as the retirement gate weighs it.
    function View(live: set<nat>): Sightings
      reads this
    {
      Sightings(map serial | serial in bySerial :: bySerial[serial].root, live)
    }

    // Verifies against the bundle in force, then looks the issuer up in the bundle in
    // force by then: the first root there that signed the leaf goes on record. A
    // rejected chain leaves no trace, and neither does one without an issuer in the
    // second bundle, which takes a change of bundle in between.
    method Verify(roots: seq<Certificate>, later: seq<Certificate>, leaf: Leaf, now: Time, stamp: Time) returns (ok: bool)
      modifies this
      ensures ok == ChainsAt(roots, leaf, now)
      ensures !ok || !HasIssuer(later, leaf) ==> bySerial == old(bySerial)
      ensures ok && HasIssuer(later, leaf) ==>
                exists i: nat :: FirstIssuer(later, leaf, i) && bySerial == old(bySerial)[leaf.serial := Sighting(later[i], stamp)]
      ensures ok && later == roots ==> HasIssuer(later, leaf)
    {
      if !ChainsAt(roots, leaf, now) { return false; }
      assert HasIssuer(roots, leaf) by {
        var c :| c in roots && SigningCapable(c) && c.publicKey == leaf.signedBy;
        assert IsIssuer(roots, leaf, c);
      }
      var issuer := IssuerFingerprint(later, leaf);
      if issuer.Some? {
        bySerial := bySerial[leaf.serial := Sighting(issuer.value, stamp)];
      }
      return true;
    }

    // The count is the number of live certificates last verified under root,
    // and only the stale sightings of certificates without a session go.
    method HoldoutsOn(root: Option<Certificate>, live: set<nat>, now: Time) returns (n: nat)
      modifies this
      ensures n == |Holdouts(old(View(live)), root)|
      ensures Holdouts(View(live), root) == Holdouts(old(View(live)), root)
      ensures forall k :: k in bySerial <==> k in old(bySerial) && (k in live || now - old(bySerial)[k].at <= SIGHTING_GRACE)
      ensures forall k :: k in bySerial ==> bySerial[k] == old(bySerial)[k]
    {
      var all := bySerial;
      ghost var view := View(live);
      var todo := all.Keys;
      n := 0;
      ghost var counted: set<nat> := {};
      while todo != {}
        invariant todo <= all.Keys && counted !! todo && n == |counted|
        invariant forall k :: k in counted <==> k in all && k !in todo && k in live && root == Some(all[k].root)
        invariant forall k :: k in bySerial <==> k in all && (k in todo || k in live || now - all[k].at <= SIGHTING_GRACE)
        invariant forall k :: k in bySerial ==> bySerial[k] == all[k]
        decreases |todo|
      {
        var k :| k in todo;
        todo := todo - {k};
        if k !in live {
          if now - all[k].at > SIGHTING_GRACE {
            bySerial := bySerial - {k};
          }
        } else if root == Some(all[k].root) {
          n := n + 1;
          counted := counted + {k};
        }
      }
      assert counted == Holdouts(view, root);
      assert Holdouts(View(live), root) == Holdouts(view, root);
    }
  }

  // The Kubernetes object: an update names the version it replaces.
  class SecretObject {
    var current: Secret
    var version: nat

    constructor (sec: Secret)
      ensures current == sec && version == 0
    {
      current, version := sec, 0;
    }

    method Get() returns (sec: Secret, ver: nat)
      ensures sec == current && ver == version
    {
      return current, version;
    }

    method Update(sec: Secret, ver: nat) returns (ok: bool)
      modifies this
      ensures ok == (ver == old(version))
      ensures ok ==> current == sec && version == old(version) + 1
      ensures !ok ==> current == old(current) && version == old(version)
    {
      ok := ver == version;
      if ok {
        current, version := sec, version + 1;
      }
    }
  }

  class Controller {
    const cfg: Config
    const base: Pem
    const startedAt: Time
    const authority: Authority
    var appliedCert: Pem
    var appliedRoots: Pem
    ghost var appliedKey: Pem

    // What the fast path relies on: the live snapshot is what the remembered
    // bytes adopt to.
    ghost predicate Valid()
      reads this, authority
    {
      appliedCert != [] ==> Adopted(appliedCert, appliedKey, appliedRoots) == Success(authority.material)
    }

    constructor (cfg: Config, base: Pem, startedAt: Time, authority: Authority)
      ensures Valid() && this.cfg == cfg && this.base == base && this.startedAt == startedAt && this.authority == authority
      ensures appliedCert == [] && appliedRoots == []
    {
      this.cfg, this.base, this.startedAt, this.authority := cfg, base, startedAt, authority;
      appliedCert, appliedRoots, appliedKey := [], [], [];
    }

    // After a successful sync with a signer present the authority signs with
    // it and trusts exactly what the phase says; a failed one changes nothing.
    method Sync(st: State) returns (ok: bool)
      requires Valid()
      modifies this, authority
      ensures Valid()
      ensures ok && st.cert != [] ==>
                var extra := AdditionalRoots(ExtraRoots(st, base));
                && extra.Success? && SignerCert(st.cert) == Success(authority.material.cert)
                && authority.material.roots == AppendRoots([authority.material.cert], extra.value)
                && [authority.material.cert] <= authority.material.roots && Distinct(authority.material.roots)
                && forall c :: c in authority.material.roots <==> c == authority.material.cert || c in extra.value
      ensures !ok ==> Adopted(st.cert, st.key, ExtraRoots(st, base)).Failure?
      ensures !ok ==> authority.material == old(authority.material)
      ensures !ok ==> appliedCert == old(appliedCert) && appliedRoots == old(appliedRoots)
    {
      var roots := ExtraRoots(st, base);
      if st.cert != appliedCert || roots != appliedRoots {
        ok := authority.AdoptPEM(st.cert, st.key, roots);
        if !ok { return; }
        appliedCert, appliedRoots, appliedKey := st.cert, roots, st.key;
      }
      if appliedCert != [] {
        AppendRootsProperties([authority.material.cert], AdditionalRoots(roots).value);
      }
      return true;
    }

    // One plan, one compare-and-swap. A conflict means another replica's write
    // stands and this one's leaves no trace.
    method Advance(
        api: SecretObject, sec: Secret, ver: nat, st: State, seen: Sightings, mint: Option<Root>, now: Time, stamp: Time)
      returns (advanced: Option<State>)
      requires st == Read(sec)
      modifies api
      ensures var plan := MakePlan(st, Context(cfg, authority.material.cert, startedAt, seen, mint), now);
              && (advanced.Some? <==> plan.Some? && ver == old(api.version))
              && (advanced.Some? ==> api.current == Apply(sec, plan.value, stamp) && api.version == old(api.version) + 1
                                     && advanced.value == Read(api.current))
              && (advanced.None? ==> api.current == old(api.current) && api.version == old(api.version))
    {
      var plan := MakePlan(st, Context(cfg, authority.material.cert, startedAt, seen, mint), now);
      if plan.None? { return None; }
      var next := Apply(sec, plan.value, stamp);
      var ok := api.Update(next, ver);
      if !ok { return None; }
      return Some(Read(next));
    }

    // One uncontested poll: adopt, decide, and adopt what was decided.
    method Step(api: SecretObject, tracker: IssuerTracker, live: set<nat>, mint: Option<Root>, now: Time, stamp: Time)
      returns (ok: bool)
      requires Valid()
      modifies this, authority, api
      ensures Valid()
      ensures ok && Read(api.current).cert != [] ==> SignerCert(Read(api.current).cert) == Success(authority.material.cert)
      ensures ok && Read(old(api.current)).cert != [] ==>
                var st := old(Read(api.current));
                SignerCert(st.cert).Success? &&
                var plan := MakePlan(st, Context(cfg, SignerCert(st.cert).value, startedAt, old(tracker.View(live)), mint), now);
                api.current == if plan.None? then old(api.current) else Apply(old(api.current), plan.value, stamp)
    {
      hide MakePlan, Apply, Read, ExtraRoots, Adopted, SignerCert, AdditionalRoots, AppendRoots;
      var sec, ver := api.Get();
      var st := Read(sec);
      ok := Sync(st);
      if !ok { return; }
      var advanced := Advance(api, sec, ver, st, tracker.View(live), mint, now, stamp);
      if advanced.Some? {
        ok := Sync(advanced.value);
      }
    }
  }
}
