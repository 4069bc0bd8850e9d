// The length-prefixed transcript both ends of a proof of possession sign
// (internal/certproof/certproof.go).

module Transcripts {
  import opened Wrappers

  type Byte = n: int | 0 <= n < 256
  type Bytes = seq<Byte>

  const MAX_FIELD_BYTES: nat := 65536

  function Ascii(s: string): (b: Bytes)
    requires forall i :: 0 <= i < |s| ==> s[i] as int < 256
    ensures |b| == |s| && forall i :: 0 <= i < |s| ==> b[i] == s[i] as int
  {
    seq(|s|, i requires 0 <= i < |s| => s[i] as int)
  }

  const DOMAIN_TAG: Bytes := Ascii("prometheus-mcp-fleet/tunnel-auth") + [0]
  const RENEW_VERSION: Bytes := Ascii("renew-v2")
  const TUNNEL_VERSION: Bytes := Ascii("v1")

  // A 32-bit big-endian length: the value modulo 2^32.
  function Prefix(n: nat): (p: Bytes)
    ensures |p| == 4
  {
    var a := n / 256;
    var b := a / 256;
    var c := b / 256;
    [c % 256, b % 256, a % 256, n % 256]
  }

  function Length(p: Bytes): (n: nat)
    requires |p| >= 4
  {
    ((p[0] as int * 256 + p[1] as int) * 256 + p[2] as int) * 256 + p[3] as int
  }

  function Encoded(fs: seq<Bytes>): Bytes {
    if fs == [] then [] else Prefix(|fs[0]|) + fs[0] + Encoded(fs[1..])
  }

  predicate Fits(fs: seq<Bytes>) { forall i :: 0 <= i < |fs| ==> |fs[i]| <= MAX_FIELD_BYTES }

  function Fields(nonce: Bytes, version: Bytes, cluster: Bytes, bindings: seq<Bytes>): seq<Bytes> {
    [nonce, version, cluster] + bindings
  }

  function Encode(fs: seq<Bytes>): Result<Bytes> {
    if Fits(fs) then Success(DOMAIN_TAG + Encoded(fs)) else Failure
  }

  // Reads a transcript back; nothing in the repository does.
  function DecodedFields(bs: Bytes): Option<seq<Bytes>> {
    if bs == [] then Some([])
    else if |bs| < 4 || |bs| - 4 < Length(bs) then None
    else
      match DecodedFields(bs[4 + Length(bs)..])
      case None => None
      case Some(rest) => Some([bs[4..4 + Length(bs)]] + rest)
  }

  function Decode(bs: Bytes): Option<seq<Bytes>> {
    if DOMAIN_TAG <= bs then DecodedFields(bs[|DOMAIN_TAG|..]) else None
  }

  // --- the encoder ------------------------------------------------------------------

  lemma {:induction false} EncodedAppends(fs: seq<Bytes>, f: Bytes)
    ensures Encoded(fs + [f]) == Encoded(fs) + Prefix(|f|) + f
  {
    if fs == [] {
      assert fs + [f] == [f] && [f][1..] == [];
    } else {
      EncodedAppends(fs[1..], f);
      assert (fs + [f])[1..] == fs[1..] + [f];
    }
  }

  lemma EncodedNone()
    ensures Encoded([]) == []
  {
  }

  // The buffer allocated up front is exactly the buffer filled.
  method Transcript(nonce: Bytes, version: Bytes, cluster: Bytes, bindings: seq<Bytes>) returns (r: Result<Bytes>, size: nat)
    ensures r == Encode(Fields(nonce, version, cluster, bindings))
    ensures r.Success? ==> size == |r.value|
  {
    hide Encoded, Prefix, Ascii;
    EncodedNone();
    var fields := [nonce, version, cluster] + bindings;
    size := |DOMAIN_TAG| + |fields| * 4;
    for i := 0 to |fields|
      invariant forall k :: 0 <= k < i ==> |fields[k]| <= MAX_FIELD_BYTES
      invariant size == |DOMAIN_TAG| + |fields| * 4 + |Encoded(fields[..i])| - 4 * i
    {
      if |fields[i]| > MAX_FIELD_BYTES { return Failure, size; }
      EncodedAppends(fields[..i], fields[i]);
      assert fields[..i + 1] == fields[..i] + [fields[i]];
      size := size + |fields[i]|;
    }
    assert fields[..|fields|] == fields;
    var buf := DOMAIN_TAG;
    for i := 0 to |fields|
      invariant buf == DOMAIN_TAG + Encoded(fields[..i])
    {
      EncodedAppends(fields[..i], fields[i]);
      assert fields[..i + 1] == fields[..i] + [fields[i]];
      buf := buf + Prefix(|fields[i]|) + fields[i];
    }
    return Success(buf), size;
  }

  // --- and its inverse ----------------------------------------------------------------

  lemma LengthPrefix(n: nat)
    ensures Length(Prefix(n)) == n % 0x1_0000_0000
  {
    var a := n / 256;
    var b := a / 256;
    var c := b / 256;
    var d := c / 256;
    assert n == 0x1_0000_0000 * d + Length(Prefix(n));
  }

  lemma PrefixLength(p: Bytes)
    requires |p| >= 4
    ensures Prefix(Length(p)) == p[..4]
  {
    var n := Length(p);
    assert n / 256 == (p[0] as int * 256 + p[1] as int) * 256 + p[2] as int;
    assert n / 256 / 256 == p[0] as int * 256 + p[1] as int;
  }

  lemma {:induction false} DecodesEncoded(fs: seq<Bytes>)
    requires forall i :: 0 <= i < |fs| ==> |fs[i]| < 0x1_0000_0000
    ensures DecodedFields(Encoded(fs)) == Some(fs)
  {
    if fs != [] {
      var f, rest := fs[0], Encoded(fs[1..]);
      DecodesEncoded(fs[1..]);
      LengthPrefix(|f|);
      var bs := Prefix(|f|) + f + rest;
      assert Length(bs) == Length(Prefix(|f|)) == |f|;
      assert bs[4 + |f|..] == rest && bs[4..4 + |f|] == f && [f] + fs[1..] == fs;
    }
  }

  lemma DecodedFirst(bs: Bytes)
    requires bs != [] && DecodedFields(bs).Some?
    ensures |bs| >= 4 && |bs| >= 4 + Length(bs)
    ensures var rest := DecodedFields(bs[4 + Length(bs)..]);
            rest.Some? && DecodedFields(bs).value == [bs[4..4 + Length(bs)]] + rest.value
  {
  }

  lemma EncodedFirst(f: Bytes, rest: seq<Bytes>)
    ensures Encoded([f] + rest) == Prefix(|f|) + f + Encoded(rest)
  {
    assert ([f] + rest)[1..] == rest;
  }

  lemma {:induction false} EncodesDecoded(bs: Bytes)
    requires DecodedFields(bs).Some?
    ensures Encoded(DecodedFields(bs).value) == bs
    decreases bs, 1
  {
    if bs != [] { EncodesDecodedFirst(bs); }
  }

  lemma {:induction false} EncodesDecodedFirst(bs: Bytes)
    requires bs != [] && DecodedFields(bs).Some?
    ensures Encoded(DecodedFields(bs).value) == bs
    decreases bs, 0
  {
    hide Prefix, Length, Encoded, DecodedFields;
    DecodedFirst(bs);
    var n := Length(bs);
    var f, rest := bs[4..4 + n], DecodedFields(bs[4 + n..]).value;
    EncodesDecoded(bs[4 + n..]);
    PrefixLength(bs);
    EncodedFirst(f, rest);
    assert bs == bs[..4] + f + bs[4 + n..];
  }

  // Decoding inverts encoding, and only transcripts decode.
  lemma RoundTrip(fs: seq<Bytes>, bs: Bytes)
    ensures Encode(fs).Success? ==> Decode(Encode(fs).value) == Some(fs)
    ensures Decode(bs) == Some(fs) && Fits(fs) ==> Encode(fs) == Success(bs)
  {
    if Fits(fs) {
      DecodesEncoded(fs);
      assert (DOMAIN_TAG + Encoded(fs))[|DOMAIN_TAG|..] == Encoded(fs);
    }
    if Decode(bs) == Some(fs) {
      EncodesDecoded(bs[|DOMAIN_TAG|..]);
      assert bs == DOMAIN_TAG + bs[|DOMAIN_TAG|..];
    }
  }

  // Equal transcripts have the same fields, as many bindings and each the same.
  lemma Injective(
      nonce: Bytes, version: Bytes, cluster: Bytes, bindings: seq<Bytes>,
      nonce': Bytes, version': Bytes, cluster': Bytes, bindings': seq<Bytes>)
    requires var t := Encode(Fields(nonce, version, cluster, bindings));
             t.Success? && t == Encode(Fields(nonce', version', cluster', bindings'))
    ensures nonce == nonce' && version == version' && cluster == cluster' && bindings == bindings'
  {
    var fs, gs := Fields(nonce, version, cluster, bindings), Fields(nonce', version', cluster', bindings');
    RoundTrip(fs, []);
    RoundTrip(gs, []);
    assert fs == gs;
    assert nonce == fs[0] && version == fs[1] && cluster == fs[2] && bindings == fs[3..];
    assert nonce' == gs[0] && version' == gs[1] && cluster' == gs[2] && bindings' == gs[3..];
  }

  // An empty binding is not an absent one, and what is signed for renewal is
  // never what is signed for the tunnel, whatever the other fields are.
  lemma Separated(
      nonce: Bytes, version: Bytes, cluster: Bytes, bindings: seq<Bytes>,
      nonce': Bytes, cluster': Bytes, bindings': seq<Bytes>)
    requires Encode(Fields(nonce, version, cluster, bindings)).Success?
    ensures Encode(Fields(nonce, version, cluster, bindings)) != Encode(Fields(nonce, version, cluster, bindings + [[]]))
    ensures version == RENEW_VERSION ==>
              Encode(Fields(nonce, version, cluster, bindings)) != Encode(Fields(nonce', TUNNEL_VERSION, cluster', bindings'))
  {
    var t := Encode(Fields(nonce, version, cluster, bindings));
    if t == Encode(Fields(nonce, version, cluster, bindings + [[]])) {
      Injective(nonce, version, cluster, bindings, nonce, version, cluster, bindings + [[]]);
      assert |bindings| == |bindings + [[]]|;
    }
    if version == RENEW_VERSION && t == Encode(Fields(nonce', TUNNEL_VERSION, cluster', bindings')) {
      Injective(nonce, version, cluster, bindings, nonce', TUNNEL_VERSION, cluster', bindings');
    }
  }

  // --- why fields are bounded -----------------------------------------------------------

  function Zeros(n: nat): (z: Bytes)
    ensures |z| == n
  {
    seq(n, _ => 0)
  }

  function Empties(k: nat): seq<Bytes> { seq(k, _ => []) }

  lemma {:induction false} EmptyFields(k: nat)
    ensures Encoded(Empties(k)) == Zeros(4 * k)
  {
    if k > 0 {
      EmptyFields(k - 1);
      assert Empties(k)[1..] == Empties(k - 1);
      assert Prefix(0) + [] + Zeros(4 * (k - 1)) == Zeros(4 * k);
    }
  }

  lemma TruncatedField(n: nat)
    requires Prefix(n) == Zeros(4)
    ensures Encoded([Zeros(n)]) == Zeros(4 + n)
  {
    assert [Zeros(n)][1..] == Empties(0);
  }

  // The length prefix holds 32 bits. One byte more than DecodesEncoded allows
  // and a single field reads like 2^30 + 1 empty ones.
  lemma UnboundedCollides()
    ensures exists fs: seq<Bytes>, gs: seq<Bytes> ::
              && |fs| != |gs| && Encoded(fs) == Encoded(gs)
              && (forall i :: 0 <= i < |fs| ==> |fs[i]| <= 0x1_0000_0000) && (forall i :: 0 <= i < |gs| ==> |gs[i]| == 0)
  {
    hide Encoded, Zeros, Prefix;
    TruncatedPrefix();
    TruncatedField(0x1_0000_0000);
    EmptyFields(0x4000_0001);
    var fs: seq<Bytes>, gs := [Zeros(0x1_0000_0000)], Empties(0x4000_0001);
    assert |fs| != |gs| && Encoded(fs) == Encoded(gs);
  }

  lemma TruncatedPrefix()
    ensures Prefix(0x1_0000_0000) == Zeros(4)
  {
  }
}
