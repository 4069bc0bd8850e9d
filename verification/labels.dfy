// Cluster labels in their "k=v,k=v" form (internal/config/labels.go). Strings are
// sequences of code points.

module Strings {
  // --- trimming ------------------------------------------------------------------

  predicate IsSpace(c: char) {
    c in {'\t', '\n', '\U{0B}', '\U{0C}', '\r', ' ', '\U{85}', '\U{A0}',
          '\U{1680}', '\U{2028}', '\U{2029}', '\U{202F}', '\U{205F}', '\U{3000}'}
    || '\U{2000}' <= c <= '\U{200A}'
  }

  function TrimLeft(s: string): string { if s != [] && IsSpace(s[0]) then TrimLeft(s[1..]) else s }

  function TrimRight(s: string): string {
    if s != [] && IsSpace(s[|s| - 1]) then TrimRight(s[..|s| - 1]) else s
  }

  function TrimSpace(s: string): string { TrimRight(TrimLeft(s)) }

  predicate Trimmed(s: string) { s != [] ==> !IsSpace(s[0]) && !IsSpace(s[|s| - 1]) }

  predicate Within(s: string, t: string) { forall i :: 0 <= i < |s| ==> s[i] in t }

  lemma {:induction false} TrimLeftTrims(s: string)
    ensures TrimLeft(s) != [] ==> !IsSpace(TrimLeft(s)[0])
    ensures Within(TrimLeft(s), s)
  {
    if s != [] && IsSpace(s[0]) { TrimLeftTrims(s[1..]); }
  }

  lemma {:induction false} TrimRightTrims(s: string)
    ensures var t := TrimRight(s); t <= s && (t != [] ==> !IsSpace(t[|t| - 1]))
  {
    if s != [] && IsSpace(s[|s| - 1]) { TrimRightTrims(s[..|s| - 1]); }
  }

  lemma TrimSpaceTrims(s: string)
    ensures Trimmed(TrimSpace(s)) && Within(TrimSpace(s), s) && (Trimmed(s) ==> TrimSpace(s) == s)
  {
    TrimLeftTrims(s);
    TrimRightTrims(TrimLeft(s));
  }

  predicate Blank(s: string) { forall i :: 0 <= i < |s| ==> IsSpace(s[i]) }

  lemma {:induction false} TrimLeftIs(l: string, m: string)
    requires Blank(l) && (m != [] ==> !IsSpace(m[0]))
    ensures TrimLeft(l + m) == m
  {
    hide IsSpace;
    if l == [] {
      assert l + m == m;
    } else {
      TrimLeftIs(l[1..], m);
      assert (l + m)[0] == l[0] && (l + m)[1..] == l[1..] + m;
    }
  }

  lemma {:induction false} TrimRightIs(m: string, r: string)
    requires Blank(r) && (m != [] ==> !IsSpace(m[|m| - 1]))
    ensures TrimRight(m + r) == m
  {
    hide IsSpace;
    if r == [] {
      assert m + r == m;
    } else {
      var n := |r| - 1;
      TrimRightIs(m, r[..n]);
      assert (m + r)[|m + r| - 1] == r[n] && (m + r)[..|m + r| - 1] == m + r[..n];
    }
  }

  lemma TrimSpaceIs(l: string, m: string, r: string)
    requires Blank(l) && Trimmed(m) && Blank(r)
    ensures TrimSpace(l + m + r) == m
  {
    hide IsSpace, TrimLeft, TrimRight;
    if m == [] {
      assert l + m + r == (l + r) + m;
      TrimLeftIs(l + r, m);
      TrimRightIs(m, []);
      assert m + [] == m;
    } else {
      assert l + m + r == l + (m + r);
      TrimLeftIs(l, m + r);
      TrimRightIs(m, r);
    }
  }

  lemma {:induction false} TrimLeftCuts(s: string) returns (l: string)
    ensures Blank(l) && s == l + TrimLeft(s)
  {
    hide IsSpace;
    l := "";
    if s != [] && IsSpace(s[0]) {
      l := TrimLeftCuts(s[1..]);
      l := [s[0]] + l;
      assert s == [s[0]] + s[1..];
    }
  }

  lemma {:induction false} TrimRightCuts(s: string) returns (r: string)
    ensures Blank(r) && s == TrimRight(s) + r
  {
    hide IsSpace;
    r := "";
    if s != [] && IsSpace(s[|s| - 1]) {
      var n := |s| - 1;
      r := TrimRightCuts(s[..n]);
      r := r + [s[n]];
      assert s == s[..n] + [s[n]];
    }
  }

  // Only space is cut off, at the two ends.
  lemma TrimSpaceCuts(s: string) returns (l: string, r: string)
    ensures Blank(l) && Blank(r) && s == l + TrimSpace(s) + r
  {
    l := TrimLeftCuts(s);
    r := TrimRightCuts(TrimLeft(s));
  }

  // --- splitting and joining on commas ------------------------------------------------

  function Split(s: string): (r: seq<string>)
    ensures |r| > 0
  {
    if s == [] then [""]
    else
      var rest := Split(s[1..]);
      if s[0] == ',' then [""] + rest else [[s[0]] + rest[0]] + rest[1..]
  }

  function Join(ps: seq<string>): string {
    if |ps| == 0 then "" else if |ps| == 1 then ps[0] else ps[0] + "," + Join(ps[1..])
  }

  lemma {:induction false} SplitAtComma(p: string, rest: string)
    requires ',' !in p
    ensures Split(p) == [p] && Split(p + "," + rest) == [p] + Split(rest)
  {
    if p == [] {
      assert p + "," + rest == "," + rest && ("," + rest)[1..] == rest;
    } else {
      SplitAtComma(p[1..], rest);
      assert (p + "," + rest)[1..] == p[1..] + "," + rest;
      assert [p[0]] + p[1..] == p;
    }
  }

  lemma {:induction false} SplitJoin(ps: seq<string>)
    requires |ps| > 0 && forall i :: 0 <= i < |ps| ==> ',' !in ps[i]
    ensures Split(Join(ps)) == ps
  {
    if |ps| > 1 {
      SplitJoin(ps[1..]);
      SplitAtComma(ps[0], Join(ps[1..]));
    } else {
      SplitAtComma(ps[0], "");
    }
  }

  lemma {:induction false} JoinSplit(s: string)
    ensures Join(Split(s)) == s
  {
    if s != [] {
      JoinSplit(s[1..]);
      var rest := Split(s[1..]);
      if s[0] == ',' {
        assert ([""] + rest)[1..] == rest;
        assert s == "" + "," + s[1..];
      } else {
        var first := [s[0]] + rest[0];
        assert ([first] + rest[1..])[1..] == rest[1..];
        assert s == [s[0]] + s[1..];
      }
    }
  }

  lemma {:induction false} PiecesHaveNoComma(s: string)
    ensures forall i :: 0 <= i < |Split(s)| ==> ',' !in Split(s)[i]
  {
    if s != [] { PiecesHaveNoComma(s[1..]); }
  }

  // --- the first equals sign ------------------------------------------------------------

  function EqualsAt(s: string): (i: nat)
    ensures i <= |s| && (forall k :: 0 <= k < i ==> s[k] != '=') && (i < |s| ==> s[i] == '=')
  {
    if s == [] || s[0] == '=' then 0 else 1 + EqualsAt(s[1..])
  }

  // --- order ------------------------------------------------------------------------------

  predicate Less(a: string, b: string) {
    b != [] && (a == [] || a[0] < b[0] || (a[0] == b[0] && Less(a[1..], b[1..])))
  }

  lemma {:induction false} LessIsTotal(a: string, b: string)
    ensures !Less(a, a) && (a == b || Less(a, b) || Less(b, a)) && !(Less(a, b) && Less(b, a))
  {
    if a != [] && b != [] {
      LessIsTotal(a[1..], b[1..]);
      assert a == [a[0]] + a[1..] && b == [b[0]] + b[1..];
    } else if a != [] {
      LessIsTotal(a[1..], b);
    }
  }

  lemma {:induction false} LessIsTransitive(a: string, b: string, c: string)
    requires Less(a, b) && Less(b, c)
    ensures Less(a, c)
  {
    if a != [] && a[0] == b[0] == c[0] { LessIsTransitive(a[1..], b[1..], c[1..]); }
  }

  predicate Sorted(ks: seq<string>) { forall i, j :: 0 <= i < j < |ks| ==> Less(ks[i], ks[j]) }

  function Elements(ks: seq<string>): set<string> { set k | k in ks }

  // Strings in increasing order are determined by the set they make up.
  lemma {:induction false} SortedIsUnique(ks: seq<string>, ls: seq<string>)
    requires Sorted(ks) && Sorted(ls) && Elements(ks) == Elements(ls)
    ensures ks == ls
  {
    assert forall i :: 0 <= i < |ks| ==> ks[i] in Elements(ks);
    assert forall i :: 0 <= i < |ls| ==> ls[i] in Elements(ls);
    if ks != [] && ls != [] {
      LessIsTotal(ks[0], ls[0]);
      assert ks[0] == ls[0];
      TailElements(ks);
      TailElements(ls);
      SortedIsUnique(ks[1..], ls[1..]);
    }
  }

  lemma TailElements(ks: seq<string>)
    requires Sorted(ks) && ks != []
    ensures Elements(ks[1..]) == Elements(ks) - {ks[0]}
  {
    LessIsTotal(ks[0], ks[0]);
    forall k | k in Elements(ks) - {ks[0]} ensures k in ks[1..] {
      var i :| 0 <= i < |ks| && ks[i] == k;
      assert ks[1..][i - 1] == k;
    }
  }

  lemma AppendElements(ks: seq<string>, k: string)
    ensures Elements(ks + [k]) == Elements(ks) + {k}
  {
    assert (ks + [k])[|ks|] == k;
    forall x | x in ks ensures x in ks + [k] {
      var i :| 0 <= i < |ks| && ks[i] == x;
      assert (ks + [k])[i] == x;
    }
  }

  lemma LastElement(ks: seq<string>)
    requires Sorted(ks) && ks != []
    ensures var n := |ks| - 1; Sorted(ks[..n]) && ks[n] !in Elements(ks[..n]) && Elements(ks) == Elements(ks[..n]) + {ks[n]}
  {
    var n := |ks| - 1;
    LessIsTotal(ks[n], ks[n]);
    assert ks == ks[..n] + [ks[n]];
    AppendElements(ks[..n], ks[n]);
  }

  lemma {:induction false} SortedSize(ks: seq<string>)
    requires Sorted(ks)
    ensures |Elements(ks)| == |ks|
  {
    if ks != [] {
      TailElements(ks);
      SortedSize(ks[1..]);
      assert ks[0] in Elements(ks);
    } else {
      assert Elements(ks) == {};
    }
  }

  // What sort.Strings does.
  function Insert(k: string, ks: seq<string>): seq<string> {
    if ks == [] || Less(k, ks[0]) then [k] + ks else [ks[0]] + Insert(k, ks[1..])
  }

  function Sort(ks: seq<string>): seq<string> { if ks == [] then [] else Insert(ks[0], Sort(ks[1..])) }

  lemma {:induction false} InsertSorts(k: string, ks: seq<string>)
    requires Sorted(ks) && k !in ks
    ensures Sorted(Insert(k, ks)) && Elements(Insert(k, ks)) == Elements(ks) + {k}
  {
    if ks == [] {
    } else if Less(k, ks[0]) {
      forall j | 0 <= j < |ks| ensures Less(k, ks[j]) {
        if j > 0 { LessIsTransitive(k, ks[0], ks[j]); }
      }
      assert ks[0] in ks;
    } else {
      InsertSorts(k, ks[1..]);
      LessIsTotal(k, ks[0]);
      var rest := Insert(k, ks[1..]);
      forall j | 0 <= j < |rest| ensures Less(ks[0], rest[j]) {
        assert rest[j] in Elements(rest);
      }
      assert ks == [ks[0]] + ks[1..];
    }
  }

  predicate Ascending(ks: seq<string>) { forall i, j :: 0 <= i < j < |ks| ==> !Less(ks[j], ks[i]) }

  lemma {:induction false} InsertAscends(k: string, ks: seq<string>)
    requires Ascending(ks)
    ensures Ascending(Insert(k, ks)) && multiset(Insert(k, ks)) == multiset(ks) + multiset{k}
  {
    if ks == [] {
    } else if Less(k, ks[0]) {
      forall j | 0 <= j < |ks| ensures !Less(ks[j], k) {
        LessIsTotal(k, ks[0]);
        if Less(ks[j], k) { LessIsTransitive(ks[j], k, ks[0]); }
      }
      assert [k] + ks == [k] + ks[..];
    } else {
      var rest := Insert(k, ks[1..]);
      InsertAscends(k, ks[1..]);
      assert ks == [ks[0]] + ks[1..];
      forall j | 0 <= j < |rest| ensures !Less(rest[j], ks[0]) {
        assert rest[j] in multiset(rest);
        assert rest[j] == k || rest[j] in ks[1..];
        if rest[j] != k {
          var h :| 0 <= h < |ks[1..]| && ks[1..][h] == rest[j];
          assert rest[j] == ks[h + 1];
        }
      }
    }
  }

  // Sorting orders any strings and keeps each as often as it was there.
  lemma {:induction false} SortAscends(ks: seq<string>)
    ensures Ascending(Sort(ks)) && multiset(Sort(ks)) == multiset(ks) && |Sort(ks)| == |ks|
  {
    if ks != [] {
      SortAscends(ks[1..]);
      InsertAscends(ks[0], Sort(ks[1..]));
      assert ks == [ks[0]] + ks[1..];
    }
    assert |multiset(Sort(ks))| == |multiset(ks)|;
  }

  lemma {:induction false} SortSorts(ks: seq<string>)
    requires forall i, j :: 0 <= i < j < |ks| ==> ks[i] != ks[j]
    ensures Sorted(Sort(ks)) && Elements(Sort(ks)) == Elements(ks)
  {
    if ks != [] {
      SortSorts(ks[1..]);
      assert ks == [ks[0]] + ks[1..];
      assert ks[0] !in Elements(ks[1..]);
      InsertSorts(ks[0], Sort(ks[1..]));
    }
  }
}

module Labels {
  import opened Wrappers
  import opened Strings

  type LabelMap = map<string, string>

  const MAX_CLUSTER_LABELS: nat := 32

  predicate IsLetter(c: char) { 'a' <= c <= 'z' || 'A' <= c <= 'Z' || c == '_' }

  predicate KeyOk(k: string) {
    k != [] && IsLetter(k[0]) && forall i :: 0 <= i < |k| ==> IsLetter(k[i]) || '0' <= k[i] <= '9'
  }

  predicate IsControl(c: char) { c < '\U{20}' || '\U{7F}' <= c <= '\U{9F}' }

  predicate NoControl(v: string) { forall i :: 0 <= i < |v| ==> !IsControl(v[i]) }

  function ParsePair(raw: string): Result<(string, string)> {
    var pair := TrimSpace(raw);
    var i := EqualsAt(pair);
    if i == |pair| then Failure
    else
      var key, value := TrimSpace(pair[..i]), TrimSpace(pair[i + 1..]);
      if KeyOk(key) && NoControl(value) then Success((key, value)) else Failure
  }

  function ParsePairs(pairs: seq<string>): Result<LabelMap> {
    if pairs == [] then Success(map[])
    else
      var n := |pairs| - 1;
      var before, last := ParsePairs(pairs[..n]), ParsePair(pairs[n]);
      if before.Failure? || last.Failure? || last.value.0 in before.value then Failure
      else Success(before.value[last.value.0 := last.value.1])
  }

  function Parse(s: string): Result<LabelMap> {
    if TrimSpace(s) == "" then Success(map[])
    else if |Split(s)| > MAX_CLUSTER_LABELS then Failure
    else ParsePairs(Split(s))
  }

  function Pairs(m: LabelMap, ks: seq<string>): (ps: seq<string>)
    requires forall i :: 0 <= i < |ks| ==> ks[i] in m
    ensures |ps| == |ks|
  {
    seq(|ks|, i requires 0 <= i < |ks| => ks[i] + "=" + m[ks[i]])
  }

  // s is a rendering of m: its keys in increasing order.
  ghost predicate Renders(m: LabelMap, ks: seq<string>, s: string) {
    Sorted(ks) && Elements(ks) == m.Keys && (forall i :: 0 <= i < |ks| ==> ks[i] in m) && s == Join(Pairs(m, ks))
  }

  // --- the parser and the printer -----------------------------------------------------

  lemma {:induction false} PrefixFails(pairs: seq<string>, i: nat)
    requires i <= |pairs| && ParsePairs(pairs[..i]).Failure?
    ensures ParsePairs(pairs).Failure?
    decreases |pairs|
  {
    hide ParsePair;
    if i < |pairs| {
      var n := |pairs| - 1;
      assert pairs[..n][..i] == pairs[..i];
      PrefixFails(pairs[..n], i);
    } else {
      assert pairs[..i] == pairs;
    }
  }

  lemma PairsSoFar(pairs: seq<string>, i: nat)
    requires i < |pairs| && ParsePairs(pairs[..i]).Success?
    ensures var (before, last) := (ParsePairs(pairs[..i]).value, ParsePair(pairs[i]));
            ParsePairs(pairs[..i + 1]) ==
            if last.Failure? || last.value.0 in before then Failure else Success(before[last.value.0 := last.value.1])
  {
    assert pairs[..i + 1][..i] == pairs[..i];
  }

  method ParseOne(raw: string) returns (r: Result<(string, string)>)
    ensures r == ParsePair(raw)
  {
    var pair := TrimSpace(raw);
    if pair == "" { return Failure; }
    var i := EqualsAt(pair);
    if i == |pair| { return Failure; }
    var key, value := TrimSpace(pair[..i]), TrimSpace(pair[i + 1..]);
    if key == "" { return Failure; }
    if !KeyOk(key) { return Failure; }
    if !NoControl(value) { return Failure; }
    return Success((key, value));
  }

  method ParseClusterLabels(s: string) returns (r: Result<LabelMap>)
    ensures r == Parse(s)
  {
    hide ParsePair, TrimSpace, Split;
    if TrimSpace(s) == "" { return Success(map[]); }
    var pairs := Split(s);
    if |pairs| > MAX_CLUSTER_LABELS { return Failure; }
    var out: LabelMap := map[];
    for i := 0 to |pairs|
      invariant ParsePairs(pairs[..i]) == Success(out)
    {
      PairsSoFar(pairs, i);
      var one := ParseOne(pairs[i]);
      if one.Failure? || one.value.0 in out {
        PrefixFails(pairs, i + 1);
        return Failure;
      }
      out := out[one.value.0 := one.value.1];
    }
    assert pairs[..|pairs|] == pairs;
    return Success(out);
  }

  // The keys of a map, in whatever order iteration gives them.
  method KeysOf(labels: LabelMap) returns (keys: seq<string>)
    ensures Elements(keys) == labels.Keys && forall i, j :: 0 <= i < j < |keys| ==> keys[i] != keys[j]
  {
    keys := [];
    var todo := labels.Keys;
    while todo != {}
      invariant todo <= labels.Keys && Elements(keys) == labels.Keys - todo
      invariant forall i, j :: 0 <= i < j < |keys| ==> keys[i] != keys[j]
      decreases |todo|
    {
      var k :| k in todo;
      AppendElements(keys, k);
      assert k !in Elements(keys);
      todo := todo - {k};
      keys := keys + [k];
    }
  }

  // However the keys are iterated, the text is the one rendering of the map.
  method FormatClusterLabels(labels: LabelMap) returns (s: string)
    ensures exists ks :: Renders(labels, ks, s)
    ensures forall ks, t :: Renders(labels, ks, t) ==> s == t
  {
    var keys := KeysOf(labels);
    SortSorts(keys);
    keys := Sort(keys);
    assert forall i :: 0 <= i < |keys| ==> keys[i] in Elements(keys);
    hide Elements, Sorted, Join;
    var pairs: seq<string> := [];
    for i := 0 to |keys|
      invariant |pairs| == i && forall j :: 0 <= j < i ==> pairs[j] == keys[j] + "=" + labels[keys[j]]
    {
      pairs := pairs + [keys[i] + "=" + labels[keys[i]]];
    }
    assert pairs == Pairs(labels, keys);
    s := Join(pairs);
    assert Renders(labels, keys, s);
    forall ks, t | Renders(labels, ks, t) ensures s == t { RenderingIsUnique(labels, keys, s, ks, t); }
  }

  lemma RenderingIsUnique(m: LabelMap, ks: seq<string>, s: string, ls: seq<string>, t: string)
    requires Renders(m, ks, s) && Renders(m, ls, t)
    ensures s == t
  {
    SortedIsUnique(ks, ls);
  }

  // --- round trip -----------------------------------------------------------------------

  predicate ValueOk(v: string) { NoControl(v) && ',' !in v && Trimmed(v) }

  predicate WellFormed(m: LabelMap) { |m| <= MAX_CLUSTER_LABELS && forall k :: k in m ==> KeyOk(k) && ValueOk(m[k]) }

  lemma ParsePairGives(raw: string)
    requires ',' !in raw && ParsePair(raw).Success?
    ensures var (k, v) := ParsePair(raw).value; KeyOk(k) && ValueOk(v)
  {
    TrimSpaceTrims(raw);
    var pair := TrimSpace(raw);
    TrimSpaceTrims(pair[EqualsAt(pair) + 1..]);
  }

  lemma {:induction false} ParsePairsGives(pairs: seq<string>)
    requires ParsePairs(pairs).Success? && forall i :: 0 <= i < |pairs| ==> ',' !in pairs[i]
    ensures var m := ParsePairs(pairs).value; |m| == |pairs| && forall k :: k in m ==> KeyOk(k) && ValueOk(m[k])
  {
    hide ParsePair, KeyOk, ValueOk;
    if pairs != [] {
      var n := |pairs| - 1;
      ParsePairsGives(pairs[..n]);
      ParsePairGives(pairs[n]);
      var m, k := ParsePairs(pairs[..n]).value, ParsePair(pairs[n]).value.0;
      assert ParsePairs(pairs).value.Keys == m.Keys + {k};
    }
  }

  lemma ParseGives(s: string)
    requires Parse(s).Success?
    ensures WellFormed(Parse(s).value)
  {
    if TrimSpace(s) != "" {
      PiecesHaveNoComma(s);
      ParsePairsGives(Split(s));
    }
  }

  lemma KeyIsPlain(k: string)
    requires KeyOk(k)
    ensures Trimmed(k) && forall i :: 0 <= i < |k| ==> k[i] != '=' && k[i] != ','
  {
  }

  lemma PrintedParts(k: string, v: string)
    requires KeyOk(k) && ValueOk(v)
    ensures var p := k + "=" + v; EqualsAt(p) == |k| && p[..|k|] == k && p[|k| + 1..] == v && Trimmed(p) && ',' !in p
  {
    hide KeyOk, IsSpace;
    KeyIsPlain(k);
    var p := k + "=" + v;
    assert forall i :: 0 <= i < |k| ==> p[i] == k[i];
    assert p[|k|] == '=' && p[|p| - 1] == if v == [] then '=' else v[|v| - 1];
    assert !IsSpace('=') by { EqualsIsNotSpace(); }
    assert p[..|k|] == k && p[|k| + 1..] == v;
  }

  lemma EqualsIsNotSpace()
    ensures !IsSpace('=')
  {
  }

  // A printed pair has its key before the first equals sign and no space to trim.
  lemma PrintedPair(k: string, v: string)
    requires KeyOk(k) && ValueOk(v)
    ensures ParsePair(k + "=" + v) == Success((k, v)) && ',' !in k + "=" + v
  {
    hide KeyOk, EqualsAt, TrimSpace, IsSpace;
    KeyIsPlain(k);
    PrintedParts(k, v);
    TrimSpaceTrims(k + "=" + v);
    TrimSpaceTrims(k);
    TrimSpaceTrims(v);
  }

  lemma {:induction false} ParsePrinted(m: LabelMap, ks: seq<string>)
    requires Sorted(ks) && forall i :: 0 <= i < |ks| ==> ks[i] in m
    requires WellFormed(m)
    ensures var r := ParsePairs(Pairs(m, ks)); r.Success? && r.value.Keys == Elements(ks) && forall k :: k in r.value ==> r.value[k] == m[k]
  {
    hide ParsePair, KeyOk, ValueOk;
    if ks != [] {
      hide Elements, Sorted;
      var n := |ks| - 1;
      LastElement(ks);
      ParsePrinted(m, ks[..n]);
      assert Pairs(m, ks)[..n] == Pairs(m, ks[..n]);
      PrintedPair(ks[n], m[ks[n]]);
    }
  }

  lemma PrintedNotBlank(m: LabelMap, ks: seq<string>)
    requires ks != [] && (forall i :: 0 <= i < |ks| ==> ks[i] in m) && WellFormed(m)
    ensures TrimSpace(Join(Pairs(m, ks))) != ""
  {
    var s := Join(Pairs(m, ks));
    assert KeyOk(ks[0]) && s[0] == ks[0][0];
    assert TrimLeft(s) == s;
    FirstSurvives(s);
  }

  lemma {:induction false} FirstSurvives(s: string)
    requires s != [] && !IsSpace(s[0])
    ensures TrimRight(s) != []
  {
    if IsSpace(s[|s| - 1]) { FirstSurvives(s[..|s| - 1]); }
  }

  lemma ParseRendered(m: LabelMap, ks: seq<string>, s: string)
    requires Renders(m, ks, s) && WellFormed(m)
    ensures Parse(s) == Success(m)
  {
    SortedSize(ks);
    if ks == [] {
      assert m == map[];
    } else {
      PrintedNotBlank(m, ks);
      forall i | 0 <= i < |ks| ensures ',' !in Pairs(m, ks)[i] { PrintedPair(ks[i], m[ks[i]]); }
      SplitJoin(Pairs(m, ks));
      ParsePrinted(m, ks);
      assert ParsePairs(Pairs(m, ks)).value == m;
    }
  }

  // Printing a map and parsing it gives the map back exactly when the parser
  // could have produced it.
  lemma RoundTripExactly(m: LabelMap, ks: seq<string>, s: string)
    requires Renders(m, ks, s)
    ensures Parse(s) == Success(m) <==> WellFormed(m)
  {
    if WellFormed(m) { ParseRendered(m, ks, s); }
    if Parse(s) == Success(m) { ParseGives(s); }
  }

  lemma RoundTrip(s: string, ks: seq<string>, t: string)
    requires Parse(s).Success? && Renders(Parse(s).value, ks, t)
    ensures Parse(t) == Parse(s)
  {
    ParseGives(s);
    ParseRendered(Parse(s).value, ks, t);
  }

  // --- what the parser accepts ------------------------------------------------------------

  ghost predicate Spaced(raw: string, a: string, k: string, b: string, c: string, v: string, d: string) {
    Blank(a) && Blank(b) && Blank(c) && Blank(d) && raw == a + k + b + "=" + c + v + d
  }

  // raw is k=v, with any amount of space around the two.
  ghost predicate Spells(raw: string, k: string, v: string) {
    KeyOk(k) && NoControl(v) && Trimmed(v) && exists a, b, c, d :: Spaced(raw, a, k, b, c, v, d)
  }

  lemma BlankHasNoEquals(s: string)
    requires Blank(s)
    ensures forall i :: 0 <= i < |s| ==> s[i] != '='
  {
  }

  lemma SpacedParts(k: string, b: string, c: string, v: string)
    requires KeyOk(k) && Blank(b) && Trimmed(v) && (v == [] ==> c == [])
    ensures var p := k + b + "=" + c + v;
            EqualsAt(p) == |k + b| && p[..|k + b|] == k + b && p[|k + b| + 1..] == c + v && Trimmed(p)
  {
    hide KeyOk, IsSpace;
    KeyIsPlain(k);
    BlankHasNoEquals(b);
    EqualsIsNotSpace();
    var p, n := k + b + "=" + c + v, |k + b|;
    assert forall i :: 0 <= i < n ==> p[i] == (k + b)[i];
    assert p[n] == '=' && p[0] == k[0] by { KeyNotEmpty(k); }
    assert p[|p| - 1] == if v == [] then '=' else v[|v| - 1];
    assert p[..n] == k + b && p[n + 1..] == c + v;
  }

  lemma KeyNotEmpty(k: string)
    requires KeyOk(k)
    ensures k != []
  {
  }

  lemma SpeltParses(raw: string, k: string, v: string)
    requires Spells(raw, k, v)
    ensures ParsePair(raw) == Success((k, v))
  {
    hide KeyOk, NoControl, EqualsAt, TrimSpace, IsSpace;
    var a, b, c, d :| Spaced(raw, a, k, b, c, v, d);
    var c', d' := if v == [] then "" else c, if v == [] then c + d else d;
    var p := k + b + "=" + c' + v;
    assert raw == a + p + d';
    SpacedParts(k, b, c', v);
    TrimSpaceIs(a, p, d');
    KeyIsPlain(k);
    TrimSpaceIs("", k, b);
    TrimSpaceIs(c', v, "");
    assert "" + k + b == k + b && c' + v + "" == c' + v;
  }

  lemma ParsedIsSpelt(raw: string)
    requires ParsePair(raw).Success?
    ensures var (k, v) := ParsePair(raw).value; Spells(raw, k, v)
  {
    hide KeyOk, NoControl, TrimSpace, IsSpace, Blank;
    var pair := TrimSpace(raw);
    var i := EqualsAt(pair);
    var l, r := TrimSpaceCuts(raw);
    var a, b := TrimSpaceCuts(pair[..i]);
    var c, d := TrimSpaceCuts(pair[i + 1..]);
    var k, v := TrimSpace(pair[..i]), TrimSpace(pair[i + 1..]);
    assert pair == pair[..i] + "=" + pair[i + 1..];
    Regroup(l, a, k, b, c, v, d, r);
    assert Spaced(raw, l + a, k, b, c, v, d + r);
    TrimSpaceTrims(pair[i + 1..]);
  }

  lemma Regroup(l: string, a: string, k: string, b: string, c: string, v: string, d: string, r: string)
    requires Blank(l) && Blank(a) && Blank(d) && Blank(r)
    ensures l + ((a + k + b) + "=" + (c + v + d)) + r == (l + a) + k + b + "=" + c + v + (d + r)
    ensures Blank(l + a) && Blank(d + r)
  {
    hide IsSpace;
    var u := c + v + d;
    assert l + ((a + k + b) + "=" + u) + r == (l + a) + k + b + "=" + (u + r);
    assert u + r == c + v + (d + r);
  }

  lemma ParsePairExactly(raw: string, k: string, v: string)
    ensures ParsePair(raw) == Success((k, v)) <==> Spells(raw, k, v)
  {
    hide ParsePair, Spells;
    if Spells(raw, k, v) { SpeltParses(raw, k, v); }
    if ParsePair(raw) == Success((k, v)) { ParsedIsSpelt(raw); }
  }

  // The pieces spell the entries of m, one each.
  ghost predicate SpellsMap(pairs: seq<string>, ks: seq<string>, m: LabelMap) {
    && |ks| == |pairs| && Elements(ks) == m.Keys
    && (forall i, j :: 0 <= i < j < |ks| ==> ks[i] != ks[j])
    && (forall i :: 0 <= i < |ks| ==> ks[i] in Elements(ks) && Spells(pairs[i], ks[i], m[ks[i]]))
  }

  lemma {:induction false} PairsAreSpelt(pairs: seq<string>) returns (ks: seq<string>)
    requires ParsePairs(pairs).Success?
    ensures SpellsMap(pairs, ks, ParsePairs(pairs).value)
  {
    hide ParsePair, Spells;
    if pairs == [] {
      ks := [];
    } else {
      var n := |pairs| - 1;
      ks := PairsAreSpelt(pairs[..n]);
      ParsedIsSpelt(pairs[n]);
      var k := ParsePair(pairs[n]).value.0;
      AppendElements(ks, k);
      assert forall i :: 0 <= i < n ==> ks[i] in Elements(ks);
      ks := ks + [k];
      assert k in Elements(ks);
    }
  }

  lemma {:induction false} SpeltPairsParse(pairs: seq<string>, ks: seq<string>, m: LabelMap)
    requires SpellsMap(pairs, ks, m)
    ensures ParsePairs(pairs) == Success(m)
  {
    hide ParsePair, Spells, SpellsMap;
    if pairs == [] {
      assert m == map[] by { NothingSpelt(ks, m); }
    } else {
      var n := |pairs| - 1;
      AllButLast(pairs, ks, m);
      var k := ks[n];
      var before := m - {k};
      SpeltPairsParse(pairs[..n], ks[..n], before);
      SpeltParses(pairs[n], k, m[k]);
      assert m == before[k := m[k]];
    }
  }

  lemma NothingSpelt(ks: seq<string>, m: LabelMap)
    requires SpellsMap([], ks, m)
    ensures m == map[]
  {
  }

  lemma AllButLast(pairs: seq<string>, ks: seq<string>, m: LabelMap)
    requires SpellsMap(pairs, ks, m) && pairs != []
    ensures var n := |pairs| - 1;
            |ks| == n + 1 && ks[n] in m && Spells(pairs[n], ks[n], m[ks[n]]) && SpellsMap(pairs[..n], ks[..n], m - {ks[n]})
  {
    hide Spells, Elements;
    var n := |pairs| - 1;
    var k, front := ks[n], ks[..n];
    assert ks == front + [k];
    AppendElements(front, k);
    ElementsAre(front);
    assert k !in front;
  }

  lemma ElementsAre(ks: seq<string>)
    ensures forall k :: k in Elements(ks) <==> k in ks
  {
  }

  // s is the pieces joined by commas.
  ghost predicate SpeltOut(s: string, ps: seq<string>, ks: seq<string>, m: LabelMap) {
    && 0 < |ps| <= MAX_CLUSTER_LABELS && s == Join(ps) && (forall i :: 0 <= i < |ps| ==> ',' !in ps[i])
    && SpellsMap(ps, ks, m)
  }

  // The parser reads m from s exactly when s is blank and m empty, or s spells out the
  // entries of m, each once, in any order and with any spacing.
  lemma ParseExactly(s: string, m: LabelMap)
    ensures Parse(s) == Success(m) <==> (Blank(s) && m == map[]) || exists ps, ks :: SpeltOut(s, ps, ks, m)
  {
    hide ParsePairs, TrimSpace, Split, Join, SpellsMap, Blank;
    BlankExactly(s);
    if TrimSpace(s) != "" && Parse(s) == Success(m) {
      var ks := PairsAreSpelt(Split(s));
      JoinSplit(s);
      PiecesHaveNoComma(s);
      assert SpeltOut(s, Split(s), ks, m);
    }
    forall ps, ks | SpeltOut(s, ps, ks, m) ensures Parse(s) == Success(m) {
      SplitJoin(ps);
      SpeltPairsParse(ps, ks, m);
      SpeltNotBlank(s, ps, ks, m);
    }
  }

  lemma BlankExactly(s: string)
    ensures TrimSpace(s) == "" <==> Blank(s)
  {
    hide IsSpace, TrimSpace;
    var l, r := TrimSpaceCuts(s);
    if Blank(s) {
      TrimSpaceIs(s, "", "");
      assert s + "" + "" == s;
    }
  }

  lemma SpeltNotBlank(s: string, ps: seq<string>, ks: seq<string>, m: LabelMap)
    requires SpeltOut(s, ps, ks, m)
    ensures !Blank(s)
  {
    hide IsSpace, KeyOk, NoControl, Trimmed;
    assert Spells(ps[0], ks[0], m[ks[0]]);
    var a, b, c, d :| Spaced(ps[0], a, ks[0], b, c, m[ks[0]], d);
    var n := |a + ks[0] + b|;
    assert ps[0][n] == '=';
    assert s[n] == ps[0][n];
    EqualsIsNotSpace();
  }

  // --- maps built in code -------------------------------------------------------------

  predicate Validated(m: LabelMap) { |m| <= MAX_CLUSTER_LABELS && forall k :: k in m ==> KeyOk(k) && NoControl(m[k]) }

  // The check on a map built in code admits values the parser could not have
  // produced, and such a map does not survive printing.
  lemma ValidatedIsNotEnough()
    ensures exists m: LabelMap, ks, s :: Validated(m) && Renders(m, ks, s) && Parse(s) != Success(m)
  {
    var m: LabelMap, ks := map["a" := " "], ["a"];
    var s := Join(Pairs(m, ks));
    assert !WellFormed(m) by { assert !Trimmed(m["a"]); }
    assert Renders(m, ks, s);
    RoundTripExactly(m, ks, s);
  }
}
