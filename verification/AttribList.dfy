/**
  The doubly linked attribute lists of daemons/mrpd, relinked in place: mvrp_add keeps one
  sorted list, mmrp_add keeps a list grouped by type and sorted within each type, and reclaiming
  unlinks a node. Keys are compared as memcmp compares them.
 */
module AttribList {
  import opened Mrpdu

  // ---------------------------------------------------------------- Order of keys

  /** memcmp on strings of equal length: the first differing byte decides. */
  function MemCmp(a: seq<byte>, b: seq<byte>): int
    requires |a| == |b|
  {
    if a == [] then 0 else if a[0] != b[0] then a[0] as int - b[0] as int else MemCmp(a[1..], b[1..])
  }

  lemma {:induction false} BigEndianFront(a: seq<byte>)
    requires a != []
    ensures BigEndian(a) == a[0] as int * Power256(|a| - 1) + BigEndian(a[1..])
  {
    if |a| == 1 {
      assert a[..0] == [] && a[1..] == [];
    } else {
      var n := |a| - 1;
      BigEndianFront(a[..n]);
      assert a[..n][1..] == a[1..][..n - 1] && a[1..][n - 1] == a[n];
      Shift(a[0], Power256(n - 1));
    }
  }

  lemma Shift(x: int, p: int)
    ensures x * (256 * p) == (x * p) * 256
  {
  }

  lemma Scale(x: int, y: int, p: nat)
    requires x < y
    ensures x * p + p <= y * p
  {
    assert (y - x - 1) * p >= 0;
  }

  /** Keys of equal length are ordered by memcmp exactly as the numbers they spell. */
  lemma {:induction false} MemCmpIsNumeric(a: seq<byte>, b: seq<byte>)
    requires |a| == |b|
    ensures MemCmp(a, b) < 0 <==> BigEndian(a) < BigEndian(b)
    ensures MemCmp(a, b) == 0 <==> a == b
  {
    if a != [] {
      BigEndianFront(a);
      BigEndianFront(b);
      BigEndianBound(a[1..]);
      BigEndianBound(b[1..]);
      MemCmpIsNumeric(a[1..], b[1..]);
      var p := Power256(|a| - 1);
      if a[0] < b[0] {
        Scale(a[0], b[0], p);
      } else if b[0] < a[0] {
        Scale(b[0], a[0], p);
      } else {
        assert a == [a[0]] + a[1..] && b == [b[0]] + b[1..];
      }
    }
  }

  // ---------------------------------------------------------------- The linked list

  class Node {
    const kind: nat
    const key: nat
    var prev: Node?
    var next: Node?

    constructor (kind: nat, key: nat)
      ensures this.kind == kind && this.key == key
    {
      this.kind, this.key := kind, key;
      prev, next := null, null;
    }
  }

  function NodeAt(s: seq<Node>, i: int): Node? {
    if 0 <= i < |s| then s[i] else null
  }

  ghost predicate Distinct(s: seq<Node>) {
    forall i, j :: 0 <= i < j < |s| ==> s[i] != s[j]
  }

  /** Every node points at its neighbours in `s`, and no node occurs twice. */
  ghost predicate Linked(s: seq<Node>)
    reads s
  {
    && Distinct(s)
    && forall i :: 0 <= i < |s| ==> s[i].prev == NodeAt(s, i - 1) && s[i].next == NodeAt(s, i + 1)
  }

  lemma NodeAtIs(s: seq<Node>, i: int)
    ensures 0 <= i < |s| ==> NodeAt(s, i) == s[i]
    ensures !(0 <= i < |s|) ==> NodeAt(s, i) == null
  {
  }

  function InsertedAt(s: seq<Node>, p: nat, r: Node): (t: seq<Node>)
    requires p <= |s|
    ensures |t| == |s| + 1
    ensures forall k :: 0 <= k < |t| ==> t[k] == if k < p then s[k] else if k == p then r else s[k - 1]
  {
    s[..p] + [r] + s[p..]
  }

  function RemovedAt(s: seq<Node>, p: nat): (t: seq<Node>)
    requires p < |s|
    ensures |t| == |s| - 1
    ensures forall k :: 0 <= k < |t| ==> t[k] == if k < p then s[k] else s[k + 1]
  {
    s[..p] + s[p + 1..]
  }

  lemma InsertedDistinct(s: seq<Node>, p: nat, r: Node)
    requires Distinct(s) && r !in s && p <= |s|
    ensures Distinct(InsertedAt(s, p, r))
  {
    var t := InsertedAt(s, p, r);
    forall i, j | 0 <= i < j < |t| ensures t[i] != t[j] {
    }
  }

  /** Only the new node and its two neighbours have changed, in the way insertion asks. */
  lemma LinkedInserted(s: seq<Node>, p: nat, r: Node)
    requires Distinct(s) && r !in s && p <= |s|
    requires r.prev == NodeAt(s, p - 1) && r.next == NodeAt(s, p)
    requires forall j :: 0 <= j < |s| ==> s[j].prev == if j == p then r else NodeAt(s, j - 1)
    requires forall j :: 0 <= j < |s| ==> s[j].next == if j == p - 1 then r else NodeAt(s, j + 1)
    ensures Linked(InsertedAt(s, p, r))
  {
    var t := InsertedAt(s, p, r);
    InsertedDistinct(s, p, r);
    forall k | 0 <= k < |t| ensures t[k].prev == NodeAt(t, k - 1) && t[k].next == NodeAt(t, k + 1) {
      if k < p {
        assert t[k] == s[k];
      } else if k > p {
        assert t[k] == s[k - 1];
      }
    }
  }

  /** The node at p is skipped by the links of the others. */
  ghost predicate Bypassed(s: seq<Node>, p: nat)
    reads s
  {
    && (forall j :: 0 <= j < |s| && j != p ==> s[j].prev == if j == p + 1 then NodeAt(s, p - 1) else NodeAt(s, j - 1))
    && (forall j :: 0 <= j < |s| && j != p ==> s[j].next == if j == p - 1 then NodeAt(s, p + 1) else NodeAt(s, j + 1))
  }

  lemma BypassedAt(s: seq<Node>, p: nat, j: nat)
    requires Bypassed(s, p) && j < |s| && j != p
    ensures s[j].prev == if j == p + 1 then NodeAt(s, p - 1) else NodeAt(s, j - 1)
    ensures s[j].next == if j == p - 1 then NodeAt(s, p + 1) else NodeAt(s, j + 1)
  {
    hide NodeAt;
  }

  lemma RemovedNeighbour(s: seq<Node>, p: nat, i: int)
    requires p < |s|
    ensures NodeAt(RemovedAt(s, p), i) == NodeAt(s, if i < p then i else i + 1)
  {
  }

  lemma RemovedLinks(s: seq<Node>, p: nat, k: nat)
    requires p < |s| && k < |s| - 1 && Bypassed(s, p)
    ensures var t := RemovedAt(s, p); t[k].prev == NodeAt(t, k - 1) && t[k].next == NodeAt(t, k + 1)
  {
    hide NodeAt, Bypassed;
    BypassedAt(s, p, if k < p then k else k + 1);
    RemovedNeighbour(s, p, k - 1);
    RemovedNeighbour(s, p, k + 1);
  }

  lemma LinkedRemoved(s: seq<Node>, p: nat)
    requires Distinct(s) && p < |s| && Bypassed(s, p)
    ensures Linked(RemovedAt(s, p))
  {
    hide NodeAt, Bypassed, Distinct;
    RemovedDistinct(s, p);
    forall k | 0 <= k < |s| - 1
      ensures var t := RemovedAt(s, p); t[k].prev == NodeAt(t, k - 1) && t[k].next == NodeAt(t, k + 1)
    {
      RemovedLinks(s, p, k);
    }
  }

  lemma RemovedDistinct(s: seq<Node>, p: nat)
    requires Distinct(s) && p < |s|
    ensures Distinct(RemovedAt(s, p))
  {
    var t := RemovedAt(s, p);
    forall i, j | 0 <= i < j < |t| ensures t[i] != t[j] {
      assert t[i] == s[if i < p then i else i + 1] && t[j] == s[if j < p then j else j + 1];
    }
  }

  ghost predicate Ascending(s: seq<Node>) {
    forall i, j :: 0 <= i < j < |s| ==> s[i].key < s[j].key
  }

  /** Each type's nodes are contiguous, and strictly ascending among themselves. */
  ghost predicate Grouped(s: seq<Node>) {
    && (forall i, j, k :: 0 <= i < j < k < |s| && s[i].kind == s[k].kind ==> s[j].kind == s[i].kind)
    && (forall i, j :: 0 <= i < j < |s| && s[i].kind == s[j].kind ==> s[i].key < s[j].key)
  }

  // ---------------------------------------------------------------- Where a node goes

  /** mvrp_add: before the first key that is not smaller. */
  function SortedPos(s: seq<Node>, key: nat, i: nat): (p: nat)
    requires i <= |s|
    ensures i <= p <= |s|
    ensures forall k :: i <= k < p ==> s[k].key < key
    ensures p < |s| ==> s[p].key >= key
    decreases |s| - i
  {
    if i == |s| || s[i].key >= key then i else SortedPos(s, key, i + 1)
  }

  /** mmrp_add: within the nodes of its type, or at the end of the list when there are none. */
  function GroupPos(s: seq<Node>, kind: nat, key: nat, i: nat): (p: nat)
    requires i <= |s|
    ensures i <= p <= |s|
    ensures forall k :: i <= k < p && s[k].kind == kind ==> s[k].key < key
    ensures p < |s| && s[p].kind == kind ==> s[p].key >= key
    ensures (p < |s| && s[p].kind == kind) || (p > i && s[p - 1].kind == kind)
            || (p == |s| && forall k :: i <= k < |s| ==> s[k].kind != kind)
    ensures forall k :: i <= k < p && s[k].kind == kind && p < |s| ==> s[p - 1].kind == kind
    decreases |s| - i
  {
    if i == |s| then i
    else if s[i].kind != kind then GroupPos(s, kind, key, i + 1)
    else if s[i].key >= key then i
    else if i + 1 < |s| && s[i + 1].kind == kind then GroupPos(s, kind, key, i + 1)
    else i + 1
  }

  lemma SortedInserted(s: seq<Node>, r: Node)
    requires Ascending(s) && forall i :: 0 <= i < |s| ==> s[i].key != r.key
    ensures Ascending(InsertedAt(s, SortedPos(s, r.key, 0), r))
  {
    var p := SortedPos(s, r.key, 0);
    var t := InsertedAt(s, p, r);
    forall i, j | 0 <= i < j < |t| ensures t[i].key < t[j].key {
      SortedPair(s, p, r, i, j);
    }
  }

  lemma SortedPair(s: seq<Node>, p: nat, r: Node, i: nat, j: nat)
    requires Ascending(s) && p <= |s| && i < j <= |s|
    requires (forall k :: 0 <= k < p ==> s[k].key < r.key) && (p < |s| ==> s[p].key > r.key)
    ensures var t := InsertedAt(s, p, r); t[i].key < t[j].key
  {
    var t := InsertedAt(s, p, r);
    var i', j' := if i < p then i else i - 1, if j < p then j else j - 1;
    if i == p {
      assert t[j] == s[j'] && (j' > p ==> s[p].key < s[j'].key);
    } else if j == p {
      assert t[i] == s[i];
    } else {
      assert t[i] == s[i'] && t[j] == s[j'] && s[i'].key < s[j'].key;
    }
  }

  ghost predicate NoneLike(s: seq<Node>, kind: nat, key: nat) {
    forall i :: 0 <= i < |s| ==> !(s[i].kind == kind && s[i].key == key)
  }

  lemma GroupedInserted(s: seq<Node>, r: Node)
    requires Grouped(s) && NoneLike(s, r.kind, r.key)
    ensures Grouped(InsertedAt(s, GroupPos(s, r.kind, r.key, 0), r))
  {
    var p := GroupPos(s, r.kind, r.key, 0);
    var t := InsertedAt(s, p, r);
    GroupSides(s, r.kind, r.key);
    forall i, j | 0 <= i < j < |t| && t[i].kind == t[j].kind ensures t[i].key < t[j].key {
      InsertedAscending(s, p, r, i, j);
    }
    forall i, j, k | 0 <= i < j < k < |t| && t[i].kind == t[k].kind ensures t[j].kind == t[i].kind {
      InsertedContiguous(s, p, r, i, j, k);
    }
  }

  lemma InsertedAscending(s: seq<Node>, p: nat, r: Node, i: nat, j: nat)
    requires Grouped(s) && p <= |s| && i < j <= |s|
    requires forall k :: 0 <= k < |s| && s[k].kind == r.kind ==> (if k < p then s[k].key < r.key else s[k].key > r.key)
    requires var t := InsertedAt(s, p, r); t[i].kind == t[j].kind
    ensures var t := InsertedAt(s, p, r); t[i].key < t[j].key
  {
    var t := InsertedAt(s, p, r);
    var i', j' := if i < p then i else i - 1, if j < p then j else j - 1;
    assert (i != p ==> t[i] == s[i']) && (j != p ==> t[j] == s[j']);
  }

  /** Nodes of the type that come after the position have larger keys. */
  lemma GroupSides(s: seq<Node>, kind: nat, key: nat)
    requires Grouped(s) && NoneLike(s, kind, key)
    ensures var p := GroupPos(s, kind, key, 0);
            forall k :: p <= k < |s| && s[k].kind == kind ==> s[k].key > key
  {
    var p := GroupPos(s, kind, key, 0);
    forall k | p <= k < |s| && s[k].kind == kind ensures s[k].key > key {
      if k > p {
        if s[p].kind == kind {
          assert s[p].key < s[k].key;
        }
      }
    }
  }

  lemma Between(s: seq<Node>, a: nat, b: nat, c: nat)
    requires Grouped(s) && a <= b <= c < |s| && s[a].kind == s[c].kind
    ensures s[b].kind == s[a].kind
  {
  }

  /** A position next to a node of the new node's type, or at the end when there is none, keeps types together. */
  lemma InsertedContiguous(s: seq<Node>, p: nat, r: Node, i: nat, j: nat, k: nat)
    requires Grouped(s) && p <= |s| && i < j < k <= |s|
    requires (p < |s| && s[p].kind == r.kind) || (p > 0 && s[p - 1].kind == r.kind)
             || (p == |s| && forall x :: 0 <= x < |s| ==> s[x].kind != r.kind)
    requires var t := InsertedAt(s, p, r); t[i].kind == t[k].kind
    ensures var t := InsertedAt(s, p, r); t[j].kind == t[i].kind
  {
    hide Grouped;
    var t := InsertedAt(s, p, r);
    var i', j', k' := if i < p then i else i - 1, if j < p then j else j - 1, if k < p then k else k - 1;
    assert (i != p ==> t[i] == s[i']) && (j != p ==> t[j] == s[j']) && (k != p ==> t[k] == s[k']);
    if j == p {
      Between(s, i, p - 1, k');
      Between(s, i, p, k');
    } else if i == p {
      Between(s, if s[p].kind == r.kind then p else p - 1, j', k');
    } else if k == p {
      Between(s, i, j, if s[p - 1].kind == r.kind then p - 1 else p);
    } else {
      Between(s, i', j', k');
    }
  }

  lemma RemovedKeepsOrder(s: seq<Node>, p: nat)
    requires p < |s|
    ensures (Ascending(s) ==> Ascending(RemovedAt(s, p))) && (Grouped(s) ==> Grouped(RemovedAt(s, p)))
  {
    var t := RemovedAt(s, p);
    if Grouped(s) {
      forall i, j, k | 0 <= i < j < k < |t| && t[i].kind == t[k].kind ensures t[j].kind == t[i].kind {
        Between(s, if i < p then i else i + 1, if j < p then j else j + 1, if k < p then k else k + 1);
      }
    }
  }

  class List {
    var head: Node?
    ghost var nodes: seq<Node>

    ghost predicate Valid()
      reads this, nodes
    {
      head == NodeAt(nodes, 0) && Linked(nodes)
    }

    constructor ()
      ensures Valid() && nodes == []
    {
      head, nodes := null, [];
    }

    /** Stitches r in before the node at index i. */
    method LinkBefore(at: Node, r: Node, ghost i: nat)
      requires Valid() && i < |nodes| && nodes[i] == at && r !in nodes
      modifies this, nodes, r
      ensures Valid() && nodes == InsertedAt(old(nodes), i, r)
    {
      hide NodeAt;
      ghost var s := nodes;
      NodeAtIs(s, i);
      NodeAtIs(s, i - 1);
      NodeAtIs(s, 0);
      r.next := at;
      r.prev := at.prev;
      at.prev := r;
      if r.prev != null {
        r.prev.next := r;
      } else {
        head := r;
      }
      LinkedInserted(s, i, r);
      nodes := InsertedAt(s, i, r);
      NodeAtIs(nodes, 0);
    }

    /** Stitches r in after the node at index i. */
    method LinkAfter(at: Node, r: Node, ghost i: nat)
      requires Valid() && i < |nodes| && nodes[i] == at && r !in nodes
      modifies this, nodes, r
      ensures Valid() && nodes == InsertedAt(old(nodes), i + 1, r)
    {
      hide NodeAt;
      ghost var s := nodes;
      NodeAtIs(s, i);
      NodeAtIs(s, i + 1);
      NodeAtIs(s, 0);
      r.next := at.next;
      r.prev := at;
      at.next := r;
      if r.next != null {
        r.next.prev := r;
      }
      LinkedInserted(s, i + 1, r);
      nodes := InsertedAt(s, i + 1, r);
      NodeAtIs(nodes, 0);
    }

    method LinkFirst(r: Node)
      requires Valid() && nodes == []
      modifies this, r
      ensures Valid() && nodes == [r]
    {
      r.next, r.prev := null, null;
      head := r;
      nodes := [r];
    }

    /** The unlinking in the conditional_reclaim functions; returns the next node. Both orders survive it. */
    method Unlink(x: Node, ghost i: nat) returns (next: Node?)
      requires Valid() && i < |nodes| && nodes[i] == x
      modifies this, nodes
      ensures Valid() && nodes == RemovedAt(old(nodes), i) && next == NodeAt(nodes, i)
      ensures old(Ascending(nodes)) ==> Ascending(nodes)
      ensures old(Grouped(nodes)) ==> Grouped(nodes)
    {
      hide NodeAt, Linked, Ascending, Grouped, RemovedAt;
      RemovedKeepsOrder(nodes, i);
      next := Detach(x, i);
    }

    method Detach(x: Node, ghost i: nat) returns (next: Node?)
      requires Valid() && i < |nodes| && nodes[i] == x
      modifies this, nodes
      ensures Valid() && nodes == RemovedAt(old(nodes), i) && next == NodeAt(nodes, i)
    {
      hide NodeAt;
      ghost var s := nodes;
      NodeAtIs(s, i - 1);
      NodeAtIs(s, i + 1);
      NodeAtIs(s, 0);
      if x.prev != null {
        x.prev.next := x.next;
      } else {
        head := x.next;
      }
      if x.next != null {
        x.next.prev := x.prev;
      }
      next := x.next;
      LinkedRemoved(s, i);
      nodes := RemovedAt(s, i);
      NodeAtIs(nodes, i);
      NodeAtIs(nodes, 0);
    }

    /** mvrp_lookup and mmrp_lookup: the first node with this type and key, or null. */
    method Lookup(kind: nat, key: nat) returns (n: Node?, ghost i: nat)
      requires Valid()
      ensures n == NodeAt(nodes, i) && i <= |nodes| && NoneLike(nodes[..i], kind, key)
      ensures n != null ==> n.kind == kind && n.key == key
      ensures n == null <==> NoneLike(nodes, kind, key)
    {
      hide NodeAt;
      n, i := head, 0;
      NodeAtIs(nodes, 0);
      while n != null && !(n.kind == kind && n.key == key)
        invariant 0 <= i <= |nodes| && n == NodeAt(nodes, i) && NoneLike(nodes[..i], kind, key)
        invariant n != null ==> i < |nodes| && n == nodes[i]
        decreases |nodes| - i
      {
        NodeAtIs(nodes, i + 1);
        n, i := n.next, i + 1;
      }
      NodeAtIs(nodes, i);
      assert n == null ==> nodes[..i] == nodes;
    }

    /** mvrp_add */
    method AddSorted(r: Node)
      requires Valid() && r !in nodes
      modifies this, nodes, r
      ensures Valid() && nodes == InsertedAt(old(nodes), SortedPos(old(nodes), r.key, 0), r)
      ensures old(Ascending(nodes)) && old(forall i :: 0 <= i < |nodes| ==> nodes[i].key != r.key) ==> Ascending(nodes)
    {
      hide NodeAt, Linked;
      ghost var s := nodes;
      if Ascending(s) && forall i :: 0 <= i < |s| ==> s[i].key != r.key {
        SortedInserted(s, r);
      }
      ghost var i := 0;
      NodeAtIs(s, 0);
      var at := head;
      if at == null {
        LinkFirst(r);
        return;
      }
      var node: Node := at;
      while node.key < r.key && node.next != null
        invariant nodes == s && Valid() && 0 <= i < |s| && node == s[i]
        invariant SortedPos(s, r.key, 0) == SortedPos(s, r.key, i)
        decreases |s| - i
      {
        NextOf(s, i);
        node := node.next;
        i := i + 1;
      }
      NextOf(s, i);
      if node.key < r.key {
        LinkAfter(node, r, i);
      } else {
        LinkBefore(node, r, i);
      }
    }

    /** mmrp_add */
    method AddGrouped(r: Node)
      requires Valid() && r !in nodes
      modifies this, nodes, r
      ensures Valid() && nodes == InsertedAt(old(nodes), GroupPos(old(nodes), r.kind, r.key, 0), r)
      ensures old(Grouped(nodes)) && old(NoneLike(nodes, r.kind, r.key)) ==> Grouped(nodes)
    {
      hide NodeAt, Linked;
      ghost var s := nodes;
      if Grouped(s) && NoneLike(s, r.kind, r.key) {
        GroupedInserted(s, r);
      }
      hide Grouped, NoneLike;
      ghost var i := 0;
      NodeAtIs(s, 0);
      if head == null {
        LinkFirst(r);
        return;
      }
      var node: Node := head;
      while node.next != null && (node.kind != r.kind || (node.key < r.key && node.next.kind == r.kind))
        invariant nodes == s && Valid() && 0 <= i < |s| && node == s[i]
        invariant GroupPos(s, r.kind, r.key, 0) == GroupPos(s, r.kind, r.key, i)
        decreases |s| - i
      {
        NextOf(s, i);
        node := node.next;
        i := i + 1;
      }
      NextOf(s, i);
      if node.kind == r.kind && node.key >= r.key {
        LinkBefore(node, r, i);
      } else {
        LinkAfter(node, r, i);
      }
    }
  }

  lemma NextOf(s: seq<Node>, i: nat)
    requires Linked(s) && i < |s|
    ensures s[i].next == if i + 1 < |s| then s[i + 1] else null
  {
  }
}
