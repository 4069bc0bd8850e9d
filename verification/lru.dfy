// The bounded least-recently-used map behind the credential caches
// (internal/authn/lru.go): a map into an intrusive doubly linked list.

module Lru {
  import opened Wrappers

  class Node<K(==), V> {
    const key: K
    var val: V
    var prev: Node?<K, V>
    var next: Node?<K, V>

    constructor (key: K, val: V)
      ensures this.key == key && this.val == val && prev == null && next == null
    {
      this.key, this.val, this.prev, this.next := key, val, null, null;
    }
  }

  // --- the abstract cache: entries, most recently used first -----------------

  type Entries<K, V> = seq<(K, V)>

  function IndexOf<K(==), V>(s: Entries<K, V>, k: K): (i: nat)
    ensures i <= |s| && (i < |s| ==> s[i].0 == k) && (forall j :: 0 <= j < i ==> s[j].0 != k)
  {
    if s == [] || s[0].0 == k then 0 else 1 + IndexOf(s[1..], k)
  }

  predicate Has<K(==), V>(s: Entries<K, V>, k: K) { IndexOf(s, k) < |s| }

  function Drop<K(==), V>(s: Entries<K, V>, k: K): Entries<K, V> {
    var i := IndexOf(s, k);
    if i < |s| then s[..i] + s[i + 1..] else s
  }

  function Touch<K(==), V>(s: Entries<K, V>, k: K, v: V): Entries<K, V> { [(k, v)] + Drop(s, k) }

  function PutIn<K(==), V>(s: Entries<K, V>, k: K, v: V, cap: nat): Entries<K, V> {
    var t := Touch(s, k, v);
    if |t| > cap then t[..cap] else t
  }

  ghost function At<K, V>(order: seq<Node<K, V>>, i: int): Node?<K, V> {
    if 0 <= i < |order| then order[i] else null
  }

  ghost predicate DistinctKeys<K, V>(order: seq<Node<K, V>>) {
    forall i, j :: 0 <= i < j < |order| ==> order[i].key != order[j].key
  }

  ghost predicate Apart<K, V>(order: seq<Node<K, V>>) {
    forall i, j :: 0 <= i < j < |order| ==> order[i] != order[j]
  }

  ghost predicate LinkAt<K, V>(order: seq<Node<K, V>>, i: int)
    reads order`prev, order`next
  {
    0 <= i < |order| && order[i].prev == At(order, i - 1) && order[i].next == At(order, i + 1)
  }

  // Node k's links once its neighbour i is passed over.
  ghost predicate Joined<K, V>(order: seq<Node<K, V>>, i: int, k: int)
    reads order`prev, order`next
  {
    && 0 <= k < |order|
    && order[k].prev == At(order, if k == i + 1 then i - 1 else k - 1)
    && order[k].next == At(order, if k == i - 1 then i + 1 else k + 1)
  }

  ghost predicate Mapped<K, V>(m: map<K, Node<K, V>>, order: seq<Node<K, V>>) {
    |m| == |order| && Indexed(m, order) && Covered(m, order)
  }

  ghost predicate Indexed<K, V>(m: map<K, Node<K, V>>, order: seq<Node<K, V>>) {
    forall i :: 0 <= i < |order| ==> order[i].key in m && m[order[i].key] == order[i]
  }

  ghost predicate Covered<K, V>(m: map<K, Node<K, V>>, order: seq<Node<K, V>>) {
    forall k :: k in m ==> m[k] in order && m[k].key == k
  }

  lemma MappedMoved<K, V>(m: map<K, Node<K, V>>, order: seq<Node<K, V>>, i: nat)
    requires Mapped(m, order) && i < |order|
    ensures Mapped(m, [order[i]] + (order[..i] + order[i + 1..]))
  {
    assert order == order[..i] + [order[i]] + order[i + 1..];
  }

  lemma MappedAdd<K, V>(m: map<K, Node<K, V>>, order: seq<Node<K, V>>, n: Node<K, V>)
    requires Mapped(m, order) && n.key !in m
    ensures Mapped(m[n.key := n], [n] + order) && forall i :: 0 <= i < |order| ==> order[i].key != n.key
  {
    var m' := m[n.key := n];
    assert m'.Keys == m.Keys + {n.key};
  }

  lemma SizeWithout<K, V>(m: map<K, V>, k: K)
    requires k in m
    ensures |m - {k}| == |m| - 1
  {
    assert (m - {k}).Keys == m.Keys - {k};
  }

  lemma IndexedWithout<K, V>(m: map<K, Node<K, V>>, order: seq<Node<K, V>>, i: nat)
    requires Indexed(m, order) && DistinctKeys(order) && i < |order|
    ensures Indexed(m - {order[i].key}, order[..i] + order[i + 1..])
  {
    var rest := order[..i] + order[i + 1..];
    forall j | 0 <= j < |rest| ensures rest[j].key in m && rest[j].key != order[i].key && m[rest[j].key] == rest[j] {
      var h := if j < i then j else j + 1;
      assert rest[j] == order[h];
    }
  }

  lemma CoveredWithout<K, V>(m: map<K, Node<K, V>>, order: seq<Node<K, V>>, i: nat)
    requires Covered(m, order) && i < |order|
    ensures Covered(m - {order[i].key}, order[..i] + order[i + 1..])
  {
    var rest := order[..i] + order[i + 1..];
    forall k | k in m && k != order[i].key ensures m[k] in rest && m[k].key == k {
      var j :| 0 <= j < |order| && order[j] == m[k];
      assert rest[if j < i then j else j - 1] == order[j];
    }
  }

  lemma MappedWithout<K, V>(m: map<K, Node<K, V>>, order: seq<Node<K, V>>, i: nat)
    requires Mapped(m, order) && DistinctKeys(order) && i < |order|
    ensures Mapped(m - {order[i].key}, order[..i] + order[i + 1..])
  {
    assert order[i].key in m;
    hide Indexed, Covered, DistinctKeys;
    SizeWithout(m, order[i].key);
    IndexedWithout(m, order, i);
    CoveredWithout(m, order, i);
  }

  // Removing node i from a sequence: what each other node is then beside.
  lemma AtRemoved<K, V>(was: seq<Node<K, V>>, i: nat, j: nat)
    requires i < |was| && j < |was| - 1
    ensures var order := was[..i] + was[i + 1..];
            var k := if j < i then j else j + 1;
            && order[j] == was[k]
            && At(order, j - 1) == At(was, if k == i + 1 then i - 1 else k - 1)
            && At(order, j + 1) == At(was, if k == i - 1 then i + 1 else k + 1)
  {
  }

  lemma AtEnds<K, V>(was: seq<Node<K, V>>, i: nat)
    requires i < |was|
    ensures var order := was[..i] + was[i + 1..];
            && At(order, 0) == At(was, if i == 0 then 1 else 0)
            && At(order, |order| - 1) == At(was, if i == |was| - 1 then i - 1 else |was| - 1)
  {
  }

  lemma DistinctRemoved<K, V>(was: seq<Node<K, V>>, i: nat)
    requires DistinctKeys(was) && i < |was|
    ensures var order := was[..i] + was[i + 1..];
            DistinctKeys(order) && forall j :: 0 <= j < |order| ==> order[j].key != was[i].key
  {
  }

  // The nodes hold these entries.
  ghost predicate Hold<K, V>(order: seq<Node<K, V>>, s: Entries<K, V>)
    reads order`val
  {
    |s| == |order| && forall i :: 0 <= i < |s| ==> s[i] == (order[i].key, order[i].val)
  }

  lemma HoldRemoved<K, V>(order: seq<Node<K, V>>, s: Entries<K, V>, i: nat)
    requires Hold(order, s) && i < |order|
    ensures Hold(order[..i] + order[i + 1..], s[..i] + s[i + 1..])
    ensures Hold([order[i]] + (order[..i] + order[i + 1..]), [s[i]] + (s[..i] + s[i + 1..]))
  {
  }

  lemma HoldAdd<K, V>(order: seq<Node<K, V>>, s: Entries<K, V>, n: Node<K, V>)
    requires Hold(order, s)
    ensures Hold([n] + order, [(n.key, n.val)] + s)
  {
  }

  lemma HoldLast<K, V>(order: seq<Node<K, V>>, s: Entries<K, V>)
    requires Hold(order, s) && order != []
    ensures |s| == |order| && Hold(order[..|order| - 1], s[..|s| - 1])
  {
  }

  lemma WithoutLast<K, V>(order: seq<Node<K, V>>)
    requires order != []
    ensures var last := |order| - 1; order[..last] + order[last + 1..] == order[..last]
  {
  }

  lemma TouchOverwritten<K, V>(s: Entries<K, V>, k: K, v: V)
    requires Has(s, k)
    ensures var i := IndexOf(s, k); var s' := s[i := (k, v)];
            IndexOf(s', k) == i && Touch(s', k, v) == Touch(s, k, v) && |Touch(s, k, v)| == |s|
  {
    var i := IndexOf(s, k);
    var s' := s[i := (k, v)];
    assert s'[i].0 == k && forall h :: 0 <= h < i ==> s'[h] == s[h];
    assert s'[..i] == s[..i] && s'[i + 1..] == s[i + 1..];
  }

  ghost predicate Among<K, V>(a: seq<Node<K, V>>, b: seq<Node<K, V>>) { forall n :: n in a ==> n in b }

  lemma AmongItself<K, V>(order: seq<Node<K, V>>)
    ensures Among(order, order)
  {
  }

  lemma AmongMoved<K, V>(order: seq<Node<K, V>>, i: nat)
    requires i < |order|
    ensures Among([order[i]] + (order[..i] + order[i + 1..]), order)
  {
  }

  class LruCache<K(==), V> {
    const cap: nat
    var m: map<K, Node<K, V>>
    var head: Node?<K, V>
    var tail: Node?<K, V>
    ghost var order: seq<Node<K, V>>

    // Both link directions, the ends and the map describe one sequence of
    // distinct nodes with distinct keys.
    ghost predicate Linked()
      reads this`head, this`tail, this`order, order`prev, order`next
    {
      && DistinctKeys(order) && (forall i :: 0 <= i < |order| ==> LinkAt(order, i))
      && head == At(order, 0) && tail == At(order, |order| - 1)
    }

    // The abstract cache: the entries, most recently used first.
    ghost var entries: Entries<K, V>

    ghost predicate Valid()
      reads this, order`prev, order`next, order`val
    {
      cap >= 1 && Linked() && Mapped(m, order) && |order| <= cap && Hold(order, entries)
    }

    constructor (capacity: int)
      ensures Valid() && entries == [] && cap == if capacity < 1 then 1 else capacity
    {
      cap := if capacity < 1 then 1 else capacity;
      m, head, tail, order, entries := map[], null, null, [], [];
    }

    // --- the recency list -----------------------------------------------------

    method PushFront(n: Node<K, V>)
      requires Linked() && forall i :: 0 <= i < |order| ==> order[i].key != n.key
      modifies this`head, this`tail, this`order, n`prev, n`next, order`prev
      ensures Linked() && order == [n] + old(order)
    {
      ghost var was := order;
      n.prev := null;
      n.next := head;
      if head != null {
        head.prev := n;
      }
      head := n;
      if tail == null {
        tail := n;
      }
      order := [n] + order;
      forall i | 0 <= i < |order| ensures LinkAt(order, i) {
        if i > 0 {
          assert old(LinkAt(was, i - 1));
        }
      }
    }

    // The link updates of unlink: node i's neighbours are joined around it.
    method Bypass(n: Node<K, V>, ghost i: nat)
      requires Linked() && i < |order| && order[i] == n
      modifies this`head, this`tail, order`prev, order`next
      ensures forall k :: 0 <= k < |order| && k != i ==> Joined(order, i, k)
      ensures head == At(order, if i == 0 then 1 else 0)
      ensures tail == At(order, if i == |order| - 1 then i - 1 else |order| - 1)
    {
      ghost var was := order;
      assert LinkAt(was, i) && Apart(was);
      assert n.prev != null ==> n.prev == was[i - 1];
      assert n.next != null ==> n.next == was[i + 1];
      if n.prev != null {
        n.prev.next := n.next;
      } else {
        head := n.next;
      }
      if n.next != null {
        n.next.prev := n.prev;
      } else {
        tail := n.prev;
      }
      n.prev, n.next := null, null;
      forall k | 0 <= k < |was| && k != i ensures Joined(was, i, k) { assert old(LinkAt(was, k)); }
    }

    method Unlink(n: Node<K, V>, ghost i: nat)
      requires Linked() && i < |order| && order[i] == n
      modifies this`head, this`tail, this`order, order`prev, order`next
      ensures Linked() && order == old(order[..i] + order[i + 1..])
      ensures forall j :: 0 <= j < |order| ==> order[j].key != n.key
    {
      ghost var was := order;
      DistinctRemoved(was, i);
      AtEnds(was, i);
      Bypass(n, i);
      hide DistinctKeys;
      order := was[..i] + was[i + 1..];
      forall j | 0 <= j < |order| ensures LinkAt(order, j) {
        AtRemoved(was, i, j);
        assert Joined(was, i, if j < i then j else j + 1);
      }
    }

    method MoveToFront(n: Node<K, V>, ghost i: nat)
      requires Linked() && i < |order| && order[i] == n
      modifies this`head, this`tail, this`order, order`prev, order`next
      ensures Linked() && order == [n] + old(order[..i] + order[i + 1..])
    {
      if head == n {
        assert i == 0;
        assert order == [n] + (order[..0] + order[1..]);
        return;
      }
      Unlink(n, i);
      PushFront(n);
    }

    // The node of a present key sits where its entry does.
    ghost function Position(key: K): (i: nat)
      requires Valid() && key in m
      reads this, order
      ensures i < |order| == |entries| && order[i] == m[key] && order[i].key == key
      ensures entries[i] == (key, order[i].val) && IndexOf(entries, key) == i
    {
      var i :| 0 <= i < |order| && order[i] == m[key];
      assert entries[i].0 == key;
      i
    }

    lemma Absent(key: K)
      requires Valid() && key !in m
      ensures !Has(entries, key) && Drop(entries, key) == entries
    {
    }

    method Get(key: K) returns (r: Option<V>)
      requires Valid()
      modifies this`head, this`tail, this`order, this`entries, order`prev, order`next
      ensures Valid() && Among(order, old(order))
      ensures r.Some? <==> Has(old(entries), key)
      ensures r.Some? ==> r.value == old(entries)[IndexOf(old(entries), key)].1
      ensures entries == if r.Some? then Touch(old(entries), key, r.value) else old(entries)
    {
      hide LinkAt, At, DistinctKeys, Mapped, Hold, Among;
      if key !in m {
        Absent(key);
        AmongItself(order);
        return None;
      }
      var n := m[key];
      ghost var i := Position(key);
      ghost var s := entries;
      MappedMoved(m, order, i);
      HoldRemoved(order, entries, i);
      AmongMoved(order, i);
      MoveToFront(n, i);
      r := Some(n.val);
      entries := [s[i]] + (s[..i] + s[i + 1..]);
    }

    method Overwrite(n: Node<K, V>, ghost i: nat, val: V)
      requires Valid() && i < |order| && order[i] == n
      modifies n`val, this`entries
      ensures Valid() && entries == old(entries)[i := (n.key, val)]
    {
      hide LinkAt, At, Mapped;
      n.val := val;
      entries := entries[i := (n.key, val)];
    }

    method Replace(key: K, val: V)
      requires Valid() && key in m
      modifies this`head, this`tail, this`order, this`entries, order`prev, order`next, order`val
      ensures Valid() && Among(order, old(order))
      ensures entries == Touch(old(entries), key, val) && |entries| == |old(entries)|
    {
      hide Linked, Mapped, Hold, Among;
      ghost var i := Position(key);
      TouchOverwritten(entries, key, val);
      Overwrite(m[key], i, val);
      var r := Get(key);
    }

    method AddFront(key: K, val: V)
      requires Valid() && key !in m
      modifies this`head, this`tail, this`order, this`m, this`entries, order`prev
      ensures Linked() && Mapped(m, order) && Hold(order, entries)
      ensures |order| == |old(order)| + 1 && order[1..] == old(order) && fresh(order[0])
      ensures entries == [(key, val)] + old(entries)
    {
      hide LinkAt, DistinctKeys, At, Mapped, Hold;
      var n := new Node(key, val);
      MappedAdd(m, order, n);
      HoldAdd(order, entries, n);
      m := m[key := n];
      entries := [(key, val)] + entries;
      PushFront(n);
    }

    // Inserting a new key: the least recently used entry goes when there is
    // no room, and there is always one to go.
    method Insert(key: K, val: V)
      requires Valid() && key !in m
      modifies this`head, this`tail, this`order, this`m, this`entries, order`prev, order`next
      ensures Valid() && (forall n :: n in order ==> n in old(order) || fresh(n))
      ensures entries == PutIn(old(entries), key, val, cap)
    {
      hide LinkAt, DistinctKeys, At, Mapped, Hold;
      Absent(key);
      ghost var s := entries;
      AddFront(key, val);
      ghost var full, all := order, entries;
      SameSize(m, order, entries);
      while |m| > cap
        invariant Linked() && Mapped(m, order) && Hold(order, entries) && order <= full && entries <= all
        invariant |m| == |order| == |entries| && (order == full || |order| == cap)
        decreases |m|
      {
        EvictTail();
        SameSize(m, order, entries);
      }
      assert entries == PutIn(s, key, val, cap);
    }

    lemma SameSize(m: map<K, Node<K, V>>, order: seq<Node<K, V>>, s: Entries<K, V>)
      requires Mapped(m, order) && Hold(order, s)
      ensures |m| == |order| == |s|
    {
    }

    method Put(key: K, val: V)
      requires Valid()
      modifies this`head, this`tail, this`order, this`m, this`entries, order`prev, order`next, order`val
      ensures Valid() && (forall n :: n in order ==> n in old(order) || fresh(n))
      ensures entries == PutIn(old(entries), key, val, cap)
    {
      hide Linked, Mapped, Hold;
      SameSize(m, order, entries);
      if key in m {
        Replace(key, val);
      } else {
        Insert(key, val);
      }
    }

    lemma TailIsLast()
      requires Linked() && order != []
      ensures tail == order[|order| - 1] && DistinctKeys(order)
    {
    }

    method EvictTail()
      requires Linked() && Mapped(m, order) && Hold(order, entries) && order != []
      modifies this`head, this`tail, this`order, this`m, this`entries, order`prev, order`next
      ensures Linked() && Mapped(m, order) && Hold(order, entries)
      ensures order == old(order[..|order| - 1]) && entries == old(entries[..|entries| - 1])
    {
      hide LinkAt, At, DistinctKeys, Mapped, Hold;
      TailIsLast();
      ghost var was, last := order, |order| - 1;
      MappedWithout(m, order, last);
      HoldRemoved(order, entries, last);
      HoldLast(order, entries);
      var n := tail;
      Unlink(n, last);
      m := m - {n.key};
      ghost var s := entries;
      entries := s[..last] + s[last + 1..];
      WithoutLast(was);
      assert entries == s[..last];
    }

    method Remove(key: K) returns (found: bool)
      requires Valid()
      modifies this`head, this`tail, this`order, this`m, this`entries, order`prev, order`next
      ensures Valid() && found == Has(old(entries), key)
      ensures entries == Drop(old(entries), key)
    {
      hide LinkAt, At, DistinctKeys, Mapped, Hold;
      if key !in m {
        Absent(key);
        return false;
      }
      var n := m[key];
      ghost var i := Position(key);
      MappedWithout(m, order, i);
      HoldRemoved(order, entries, i);
      Unlink(n, i);
      m := m - {key};
      entries := entries[..i] + entries[i + 1..];
      return true;
    }

    method Purge()
      requires Valid()
      modifies this`head, this`tail, this`order, this`m, this`entries
      ensures Valid() && entries == []
    {
      m, head, tail, order, entries := map[], null, null, [], [];
    }
  }

  // --- what the order means ----------------------------------------------------

  datatype Op<K, V> = GetOp(key: K) | PutOp(key: K, val: V) | RemoveOp(key: K) | PurgeOp

  function Step<K(==), V>(s: Entries<K, V>, op: Op<K, V>, cap: nat): Entries<K, V> {
    match op
    case GetOp(k) => if Has(s, k) then Touch(s, k, s[IndexOf(s, k)].1) else s
    case PutOp(k, v) => PutIn(s, k, v, cap)
    case RemoveOp(k) => Drop(s, k)
    case PurgeOp => []
  }

  function After<K(==), V>(ops: seq<Op<K, V>>, cap: nat): Entries<K, V> {
    if ops == [] then [] else Step(After(ops[..|ops| - 1], cap), ops[|ops| - 1], cap)
  }

  predicate Uses<K(==), V>(op: Op<K, V>, k: K) { (op.GetOp? || op.PutOp?) && op.key == k }

  // The last operation that looked k up or stored it, and the last value stored.
  function LastUse<K(==), V>(ops: seq<Op<K, V>>, k: K): (i: int)
    ensures -1 <= i < |ops|
  {
    if ops == [] then -1 else if Uses(ops[|ops| - 1], k) then |ops| - 1 else LastUse(ops[..|ops| - 1], k)
  }

  function LastPut<K(==), V>(ops: seq<Op<K, V>>, k: K): Option<V> {
    if ops == [] then None
    else if ops[|ops| - 1].PutOp? && ops[|ops| - 1].key == k then Some(ops[|ops| - 1].val)
    else LastPut(ops[..|ops| - 1], k)
  }

  // Strictly by recency of use, each with the value last stored.
  ghost predicate ByRecency<K, V>(s: Entries<K, V>, ops: seq<Op<K, V>>) {
    && (forall i, j :: 0 <= i < j < |s| ==> LastUse(ops, s[i].0) > LastUse(ops, s[j].0))
    && (forall i :: 0 <= i < |s| ==> LastPut(ops, s[i].0) == Some(s[i].1))
  }

  lemma DropKeepsOrder<K, V>(s: Entries<K, V>, ops: seq<Op<K, V>>, k: K)
    requires ByRecency(s, ops)
    ensures ByRecency(Drop(s, k), ops)
    ensures forall i :: 0 <= i < |Drop(s, k)| ==> Drop(s, k)[i].0 != k
    ensures |Drop(s, k)| == if Has(s, k) then |s| - 1 else |s|
  {
    var d := Drop(s, k);
    var i := IndexOf(s, k);
    forall j | 0 <= j < |d| ensures d[j] == s[if j < i then j else j + 1] && d[j].0 != k {
    }
  }

  lemma OthersKeepOrder<K, V>(s: Entries<K, V>, ops: seq<Op<K, V>>, op: Op<K, V>)
    requires ByRecency(s, ops) && forall i :: 0 <= i < |s| ==> !Uses(op, s[i].0)
    ensures ByRecency(s, ops + [op])
  {
    var ops' := ops + [op];
    assert ops'[..|ops'| - 1] == ops;
  }

  lemma TouchKeepsOrder<K, V>(s: Entries<K, V>, ops: seq<Op<K, V>>, op: Op<K, V>, k: K, v: V)
    requires ByRecency(s, ops) && Uses(op, k) && LastPut(ops + [op], k) == Some(v)
    ensures ByRecency(Touch(s, k, v), ops + [op])
  {
    DropKeepsOrder(s, ops, k);
    OthersKeepOrder(Drop(s, k), ops, op);
    var t := Touch(s, k, v);
    assert (ops + [op])[..|ops|] == ops;
    forall i | 0 < i < |t| ensures t[i] == Drop(s, k)[i - 1] && LastUse(ops + [op], t[i].0) < |ops| {
    }
  }

  // After any operations: at most cap entries, ordered strictly by recency of
  // use, each with the value last stored under its key.
  lemma {:induction false} RecencyOrder<K, V>(ops: seq<Op<K, V>>, cap: nat)
    requires cap >= 1
    ensures ByRecency(After(ops, cap), ops) && |After(ops, cap)| <= cap
  {
    if ops != [] {
      var rest, op := ops[..|ops| - 1], ops[|ops| - 1];
      RecencyOrder(rest, cap);
      var s := After(rest, cap);
      assert ops == rest + [op];
      if !op.PurgeOp? {
        DropKeepsOrder(s, rest, op.key);
      }
      match op
      case GetOp(k) =>
        if Has(s, k) {
          TouchKeepsOrder(s, rest, op, k, s[IndexOf(s, k)].1);
        } else {
          OthersKeepOrder(s, rest, op);
        }
      case PutOp(k, v) => TouchKeepsOrder(s, rest, op, k, v);
      case RemoveOp(k) => OthersKeepOrder(Drop(s, k), rest, op);
      case PurgeOp =>
    }
  }

  // An insertion that finds no room loses exactly the entry whose last use is
  // the oldest, and no other operation loses anything it did not name.
  lemma EvictsLeastRecentlyUsed<K, V>(ops: seq<Op<K, V>>, cap: nat, key: K, val: V)
    requires cap >= 1
    ensures var s := After(ops, cap); var t := Step(s, PutOp(key, val), cap);
            && (Has(s, key) || |s| < cap ==> t == [(key, val)] + Drop(s, key))
            && (!Has(s, key) && |s| == cap ==>
                  && t == [(key, val)] + s[..cap - 1]
                  && forall i :: 0 <= i < cap - 1 ==> LastUse(ops, s[i].0) > LastUse(ops, s[cap - 1].0))
  {
    RecencyOrder(ops, cap);
    DropKeepsOrder(After(ops, cap), ops, key);
  }
}
