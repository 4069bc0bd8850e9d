// The hub's certificate authority: PEM material, the signer/bundle snapshot,
// issuance and chain verification (package internal/ca).
//
// A clock reading is a whole number of seconds. Signatures and digests are
// ideal: a key signs only its own leaves, and two certificates are the same
// certificate exactly when they are the same value.

module Wrappers {
  datatype Option<+T> = None | Some(value: T)
  datatype Result<+T> = Failure | Success(value: T)

  predicate Distinct<T(==)>(s: seq<T>) { forall i, j :: 0 <= i < j < |s| ==> s[i] != s[j] }

  // A run of a transition system: its states, and the steps between them.
  datatype Run<S, A> = Run(tr: seq<S>, steps: seq<A>)

  function Now<S, A>(run: Run<S, A>): S
    requires |run.tr| > 0
  {
    run.tr[|run.tr| - 1]
  }
}

module Pki {
  import opened Wrappers

  type Time = int

  datatype Certificate = Certificate(
    raw: nat, publicKey: nat, notBefore: Time, notAfter: Time,
    isCA: bool, certSign: bool, ecdsa: bool)

  datatype PrivateKey = PrivateKey(id: nat, p256: bool)

  // A PEM file is a sequence of blocks with text between them. OtherBlock is
  // a block of another type, or one whose contents do not parse.
  datatype Item = CertBlock(cert: Certificate) | KeyBlock(key: PrivateKey) | OtherBlock | Text | Blank
  type Pem = seq<Item>

  predicate IsBlock(i: Item) { !i.Text? && !i.Blank? }

  // What repeated pem.Decode calls yield: the blocks, in order.
  function Blocks(p: Pem): seq<Item>
  {
    if p == [] then [] else (if IsBlock(p[0]) then [p[0]] else []) + Blocks(p[1..])
  }

  lemma NextBlock(p: Pem)
    ensures Blocks(p) == if p == [] then [] else (if IsBlock(p[0]) then [p[0]] else []) + Blocks(p[1..])
  {
  }

  lemma {:induction false} BlocksConcat(a: Pem, b: Pem)
    ensures Blocks(a + b) == Blocks(a) + Blocks(b)
  {
    hide Blocks;
    NextBlock(a);
    if a == [] {
      assert a + b == b;
    } else {
      BlocksConcat(a[1..], b);
      NextBlock(a + b);
      assert (a + b)[1..] == a[1..] + b;
    }
  }

  // len(bytes.TrimSpace(p)) == 0
  predicate IsBlankPem(p: Pem) { forall i :: i in p ==> i.Blank? }

  lemma {:induction false} BlankHasNoBlocks(p: Pem)
    requires IsBlankPem(p)
    ensures Blocks(p) == []
  {
    if p != [] {
      assert p[0] in p;
      BlankHasNoBlocks(p[1..]);
    }
  }

  predicate SigningCapable(c: Certificate) { c.isCA && c.certSign }

  predicate AllRoots(bs: seq<Item>) {
    forall i :: 0 <= i < |bs| ==> bs[i].CertBlock? && SigningCapable(bs[i].cert)
  }

  function Certs(bs: seq<Item>): seq<Certificate>
    requires forall i :: 0 <= i < |bs| ==> bs[i].CertBlock?
  {
    seq(|bs|, i requires 0 <= i < |bs| => bs[i].cert)
  }

  // The trust anchors a bundle names: every block must be a signing CA
  // certificate, and there must be one.
  function TrustBundle(p: Pem): (r: Result<seq<Certificate>>)
    ensures r.Success? <==> Blocks(p) != [] && AllRoots(Blocks(p))
  {
    var bs := Blocks(p);
    if bs != [] && AllRoots(bs) then Success(Certs(bs)) else Failure
  }

  lemma {:induction false} BlocksAre(p: Pem, b: Item)
    ensures b in Blocks(p) <==> b in p && IsBlock(b)
  {
    if p != [] { BlocksAre(p[1..], b); }
  }

  // A bundle is accepted exactly when some block is in the file and every block in it
  // is a signing CA certificate, whatever text stands between; and it then names
  // exactly the certificates of the file.
  lemma BundleNames(p: Pem, c: Certificate)
    ensures TrustBundle(p).Success? <==>
              (exists b :: b in p && IsBlock(b)) && (forall b :: b in p && IsBlock(b) ==> b.CertBlock? && SigningCapable(b.cert))
    ensures TrustBundle(p).Success? ==> (c in TrustBundle(p).value <==> CertBlock(c) in p)
  {
    hide Blocks, SigningCapable;
    var bs := Blocks(p);
    forall b ensures b in bs <==> b in p && IsBlock(b) { BlocksAre(p, b); }
    if bs != [] { assert bs[0] in bs; }
    assert forall i :: 0 <= i < |bs| ==> bs[i] in bs;
    if TrustBundle(p).Success? {
      var cs := TrustBundle(p).value;
      assert forall i :: 0 <= i < |cs| ==> cs[i] == bs[i].cert;
      if CertBlock(c) in p {
        var i :| 0 <= i < |bs| && bs[i] == CertBlock(c);
        assert cs[i] == c;
      }
      if c in cs {
        var i :| 0 <= i < |cs| && cs[i] == c;
        assert bs[i] == CertBlock(c);
      }
    }
  }

  // One pass over the blocks, refusing the whole bundle at the first bad one.
  method ParseTrustBundlePEM(p: Pem) returns (r: Result<seq<Certificate>>)
    ensures r == TrustBundle(p)
  {
    hide Blocks;
    ghost var bs := Blocks(p);
    var roots: seq<Certificate> := [];
    var rest := p;
    while rest != []
      invariant |roots| <= |bs| && Blocks(rest) == bs[|roots|..]
      invariant forall i :: 0 <= i < |roots| ==> bs[i].CertBlock? && SigningCapable(bs[i].cert) && roots[i] == bs[i].cert
      decreases |rest|
    {
      var item := rest[0];
      NextBlock(rest);
      if IsBlock(item) {
        assert bs[|roots|] == item && bs[|roots| + 1..] == Blocks(rest[1..]);
        if !item.CertBlock? || !SigningCapable(item.cert) {
          return Failure;
        }
        roots := roots + [item.cert];
      }
      rest := rest[1..];
    }
    NextBlock(rest);
    if roots == [] { return Failure; }
    assert AllRoots(bs) && Certs(bs) == roots;
    return Success(roots);
  }

  // The signer file holds exactly one block, a certificate.
  function SignerCert(p: Pem): (r: Result<Certificate>) {
    var bs := Blocks(p);
    if |bs| == 1 && bs[0].CertBlock? then Success(bs[0].cert) else Failure
  }

  // The key file's first block decides.
  function SignerKey(p: Pem): (r: Result<PrivateKey>) {
    var bs := Blocks(p);
    if |bs| > 0 && bs[0].KeyBlock? && bs[0].key.p256 then Success(bs[0].key) else Failure
  }

  predicate Usable(c: Certificate, k: PrivateKey) {
    SigningCapable(c) && c.ecdsa && c.publicKey == k.id
  }

  // The immutable snapshot an authority signs with and verifies against.
  datatype Material = Material(cert: Certificate, key: PrivateKey, roots: seq<Certificate>)

  function AppendRoot(roots: seq<Certificate>, c: Certificate): seq<Certificate> {
    if c in roots then roots else roots + [c]
  }

  function AppendRoots(roots: seq<Certificate>, more: seq<Certificate>): seq<Certificate>
    decreases |more|
  {
    if more == [] then roots else AppendRoots(AppendRoot(roots, more[0]), more[1..])
  }

  lemma {:induction false} AppendRootsProperties(roots: seq<Certificate>, more: seq<Certificate>)
    requires Distinct(roots)
    ensures Distinct(AppendRoots(roots, more))
    ensures roots <= AppendRoots(roots, more)
    ensures forall c :: c in AppendRoots(roots, more) <==> c in roots || c in more
    decreases |more|
  {
    if more != [] {
      AppendRootsProperties(AppendRoot(roots, more[0]), more[1..]);
    }
  }

  lemma {:induction false} AppendRootsLast(roots: seq<Certificate>, more: seq<Certificate>, c: Certificate)
    ensures AppendRoots(roots, more + [c]) == AppendRoot(AppendRoots(roots, more), c)
    decreases |more|
  {
    if more == [] {
      assert more + [c] == [c];
    } else {
      AppendRootsLast(AppendRoot(roots, more[0]), more[1..], c);
      assert (more + [c])[1..] == more[1..] + [c];
    }
  }

  // Signer first, no duplicates, and as a set exactly the signer and the
  // additional roots.
  method NewMaterial(cert: Certificate, key: PrivateKey, additional: seq<Certificate>) returns (m: Material)
    ensures m.cert == cert && m.key == key
    ensures m.roots == AppendRoots([cert], additional)
    ensures [cert] <= m.roots && Distinct(m.roots)
    ensures forall c :: c in m.roots <==> c == cert || c in additional
  {
    var roots := [cert];
    for i := 0 to |additional|
      invariant roots == AppendRoots([cert], additional[..i])
    {
      AppendRootsLast([cert], additional[..i], additional[i]);
      assert additional[..i + 1] == additional[..i] + [additional[i]];
      if additional[i] !in roots {
        roots := roots + [additional[i]];
      }
    }
    assert additional[..|additional|] == additional;
    AppendRootsProperties([cert], additional);
    m := Material(cert, key, roots);
  }

  // Blank additional roots are the steady state; anything else must parse.
  function AdditionalRoots(p: Pem): Result<seq<Certificate>> {
    if IsBlankPem(p) then Success([]) else TrustBundle(p)
  }

  // The snapshot AdoptPEM would publish for this material.
  function Adopted(certPem: Pem, keyPem: Pem, rootsPem: Pem): (r: Result<Material>)
    ensures r.Success? ==> r.value.cert in r.value.roots && Usable(r.value.cert, r.value.key)
  {
    if SignerCert(certPem).Failure? || SignerKey(keyPem).Failure?
       || !Usable(SignerCert(certPem).value, SignerKey(keyPem).value)
       || AdditionalRoots(rootsPem).Failure?
    then Failure
    else
      var cert := SignerCert(certPem).value;
      AppendRootsProperties([cert], AdditionalRoots(rootsPem).value);
      Success(Material(cert, SignerKey(keyPem).value, AppendRoots([cert], AdditionalRoots(rootsPem).value)))
  }

  // Material is adopted exactly when the certificate file holds one block, a certificate
  // that may sign certificates with an ECDSA key; the key file's first block is its P-256
  // private key; and the other roots are blank or an acceptable bundle. What is adopted is
  // that pair and those roots.
  lemma AdoptedExactly(certPem: Pem, keyPem: Pem, rootsPem: Pem, cert: Certificate, key: PrivateKey)
    ensures var r := Adopted(certPem, keyPem, rootsPem);
            r.Success? && r.value.cert == cert && r.value.key == key <==>
            && Blocks(certPem) == [CertBlock(cert)] && cert.isCA && cert.certSign && cert.ecdsa
            && [KeyBlock(key)] <= Blocks(keyPem) && key.p256 && cert.publicKey == key.id
            && (IsBlankPem(rootsPem) || TrustBundle(rootsPem).Success?)
    ensures var r := Adopted(certPem, keyPem, rootsPem);
            r.Success? ==> forall c :: c in r.value.roots <==> c == r.value.cert || (!IsBlankPem(rootsPem) && CertBlock(c) in rootsPem)
  {
    hide Blocks;
    var r := Adopted(certPem, keyPem, rootsPem);
    if r.Success? {
      AppendRootsProperties([r.value.cert], AdditionalRoots(rootsPem).value);
      forall c ensures !IsBlankPem(rootsPem) ==> (c in AdditionalRoots(rootsPem).value <==> CertBlock(c) in rootsPem) {
        BundleNames(rootsPem, c);
      }
    }
    if Blocks(certPem) == [CertBlock(cert)] { assert |Blocks(certPem)| == 1; }
  }

  // The live authority: one handle whose snapshot is replaced whole.
  class Authority {
    var material: Material

    constructor (m: Material)
      ensures material == m
    {
      material := m;
    }

    // All or nothing: on any defect the snapshot in force is untouched.
    method AdoptPEM(certPem: Pem, keyPem: Pem, rootsPem: Pem) returns (ok: bool)
      modifies this
      ensures ok == Adopted(certPem, keyPem, rootsPem).Success?
      ensures material == if ok then Adopted(certPem, keyPem, rootsPem).value else old(material)
    {
      var cert := SignerCert(certPem);
      var key := SignerKey(keyPem);
      if cert.Failure? || key.Failure? || !Usable(cert.value, key.value) { return false; }
      var additional: Result<seq<Certificate>> := Success([]);
      if !IsBlankPem(rootsPem) { additional := ParseTrustBundlePEM(rootsPem); }
      if additional.Failure? { return false; }
      material := NewMaterial(cert.value, key.value, additional.value);
      return true;
    }
  }

  // A spoke certificate. signedBy is the key whose signature it carries.
  datatype Leaf = Leaf(serial: nat, signedBy: nat, notBefore: Time, notAfter: Time, clientAuth: bool)

  const CLOCK_SKEW: int := 300

  // Issuance: refused once the signer has expired, and clamped to its expiry.
  function Sign(m: Material, now: Time, ttl: int, serial: nat): (r: Result<Leaf>)
    ensures r.Success? <==> now < m.cert.notAfter
    ensures r.Success? ==> r.value.notAfter <= now + ttl && r.value.notAfter <= m.cert.notAfter
    ensures r.Success? ==> r.value.notAfter == now + ttl || r.value.notAfter == m.cert.notAfter
    ensures r.Success? && now + ttl <= m.cert.notAfter ==> r.value.notAfter == now + ttl
    ensures r.Success? ==> r.value.serial == serial && r.value.signedBy == m.key.id && r.value.notBefore + 300 == now
  {
    if now >= m.cert.notAfter then Failure
    else
      var end := now + ttl;
      Success(Leaf(serial, m.key.id, now - CLOCK_SKEW,
                   if end > m.cert.notAfter then m.cert.notAfter else end, true))
  }

  predicate ValidAt(c: Certificate, t: Time) { c.notBefore <= t <= c.notAfter }

  // x509 verification at one instant: a client certificate, inside its own
  // validity, signed by a CA of the pool that is itself inside its validity.
  predicate ChainsAt(roots: seq<Certificate>, leaf: Leaf, t: Time) {
    && leaf.clientAuth && leaf.notBefore <= t <= leaf.notAfter
    && exists c :: c in roots && SigningCapable(c) && c.publicKey == leaf.signedBy && ValidAt(c, t)
  }

  datatype Verdict = Accepted(expired: bool) | Untrusted | GraceExhausted

  // VerifyChainAllowingExpiry: expiry, and only expiry, is forgiven for grace.
  function RenewalVerdict(roots: seq<Certificate>, leaf: Leaf, now: Time, grace: int): (v: Verdict)
    ensures v.Accepted? ==> now <= leaf.notAfter + (if grace > 0 then grace else 0)
    ensures v.Accepted? ==> (v.expired <==> now > leaf.notAfter)
  {
    if ChainsAt(roots, leaf, now) then Accepted(false)
    else if grace <= 0 || now <= leaf.notAfter then Untrusted
    else if now > leaf.notAfter + grace then GraceExhausted
    else if ChainsAt(roots, leaf, leaf.notAfter) then Accepted(true)
    else Untrusted
  }

  function Least(a: int, b: int): int { if a < b then a else b }

  // Renewal accepts exactly the leaves that are no more than the grace past their
  // expiry and verify now, or did at the last instant of their life.
  lemma RenewalExactly(roots: seq<Certificate>, leaf: Leaf, now: Time, grace: int)
    ensures RenewalVerdict(roots, leaf, now, grace).Accepted? <==>
              now <= leaf.notAfter + (if grace > 0 then grace else 0) && ChainsAt(roots, leaf, Least(now, leaf.notAfter))
    ensures RenewalVerdict(roots, leaf, now, grace) == GraceExhausted <==> grace > 0 && now > leaf.notAfter + grace
  {
    hide ValidAt, SigningCapable;
    assert now > leaf.notAfter ==> !ChainsAt(roots, leaf, now);
  }

  // A pool that holds the leaf's own issuer accepts the leaf throughout its
  // life, and at renewal until its grace runs out.
  lemma IssuerAccepts(roots: seq<Certificate>, m: Material, leaf: Leaf, issuedAt: Time, ttl: int, now: Time, grace: int)
    requires ttl > 0 && Usable(m.cert, m.key) && m.cert in roots
    requires m.cert.notBefore <= issuedAt <= now
    requires Sign(m, issuedAt, ttl, leaf.serial) == Success(leaf)
    ensures now <= leaf.notAfter ==> ChainsAt(roots, leaf, now)
    ensures now <= leaf.notAfter || (0 < grace && now <= leaf.notAfter + grace)
            ==> RenewalVerdict(roots, leaf, now, grace).Accepted?
  {
    assert ValidAt(m.cert, leaf.notAfter) && SigningCapable(m.cert);
    if now <= leaf.notAfter {
      assert ValidAt(m.cert, now);
    }
  }
}
