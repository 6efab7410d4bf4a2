/**
  An attribute list as daemons/mrpd keeps it: doubly linked nodes, each with its attribute, that
  are walked from the head, updated in place, stitched in and unlinked. `items` is what the list
  holds, in order.
 */
module LinkedTable {
  import opened AttribList

  class Table<T> {
    const list: List
    var data: map<Node, T>
    ghost var items: seq<T>
    ghost var repr: set<Node>

    /** The links are sound, and each node carries the item at its place. */
    ghost predicate Valid()
      reads this, list, repr
    {
      && Owned(list.nodes, repr)
      && list.Valid() && Carries(list.nodes, data, items)
    }

    /** n is the node at place k, or null at the end. */
    ghost predicate At(n: Node?, k: nat)
      reads this, list
    {
      k <= |items| == |list.nodes| && n == NodeAt(list.nodes, k) && (n == null <==> k == |items|)
    }

    constructor ()
      ensures Valid() && items == [] && fresh(list) && repr == {}
    {
      list := new List();
      data, items := map[], [];
      repr := {};
    }

    method First() returns (n: Node?)
      requires Valid()
      ensures At(n, 0) && (n == null <==> items == [])
    {
      n := list.head;
    }

    method Next(n: Node, ghost k: nat) returns (m: Node?)
      requires Valid() && At(n, k)
      ensures At(m, k + 1) && k + 1 <= |items| && (m == null <==> k + 1 == |items|)
    {
      hide NodeAt, Linked;
      NodeAtIs(list.nodes, k);
      NextOf(list.nodes, k);
      NodeAtIs(list.nodes, k + 1);
      m := n.next;
    }

    method Get(n: Node, ghost k: nat) returns (a: T)
      requires Valid() && At(n, k)
      ensures k < |items| && a == items[k]
    {
      hide NodeAt, Linked;
      NodeAtIs(list.nodes, k);
      a := data[n];
    }

    method Set(n: Node, ghost k: nat, a: T)
      requires Valid() && At(n, k)
      modifies this`data, this`items
      ensures Valid() && At(n, k) && k < |old(items)| && items == old(items)[k := a]
    {
      hide NodeAt;
      NodeAtIs(list.nodes, k);
      data := data[n := a];
      items := items[k := a];
    }

    /** The items as a sequence, by walking the list. */
    method Collect() returns (s: seq<T>)
      requires Valid()
      ensures s == items
    {
      hide Valid, At;
      s := [];
      ghost var k := 0;
      var n := First();
      while n != null
        invariant Valid() && At(n, k) && k <= |items| && s == items[..k] && (n == null <==> k == |items|)
        decreases |items| - k
      {
        var a := Get(n, k);
        s := s + [a];
        n := Next(n, k);
        k := k + 1;
      }
    }

    method InsertFirst(a: T) returns (r: Node)
      requires Valid() && items == []
      modifies this, list, repr
      ensures Valid() && items == [a] && fresh(repr - old(repr)) && At(r, 0)
    {
      r := new Node(0, 0);
      list.LinkFirst(r);
      data, items, repr := data[r := a], [a], repr + {r};
    }

    /** The item goes in before the node at k. */
    method InsertBefore(n: Node, ghost k: nat, a: T) returns (r: Node)
      requires Valid() && At(n, k)
      modifies this, list, repr
      ensures Valid() && fresh(repr - old(repr)) && items == Inserted(old(items), k, a) && At(r, k)
    {
      hide NodeAt, Linked, InsertedAt, Inserted;
      NodeAtIs(list.nodes, k);
      r := new Node(0, 0);
      ghost var nodes := list.nodes;
      list.LinkBefore(n, r, k);
      CarriesInserted(nodes, data, items, k, r, a);
      OwnedInserted(nodes, repr, k, r);
      data, items := data[r := a], Inserted(items, k, a);
      repr := repr + {r};
      NodeAtIs(list.nodes, k);
    }

    /** The item goes in after the node at k. */
    method InsertAfter(n: Node, ghost k: nat, a: T) returns (r: Node)
      requires Valid() && At(n, k)
      modifies this, list, repr
      ensures Valid() && fresh(repr - old(repr)) && items == Inserted(old(items), k + 1, a) && At(r, k + 1)
    {
      hide NodeAt, Linked, InsertedAt, Inserted;
      NodeAtIs(list.nodes, k);
      r := new Node(0, 0);
      ghost var nodes := list.nodes;
      list.LinkAfter(n, r, k);
      CarriesInserted(nodes, data, items, k + 1, r, a);
      OwnedInserted(nodes, repr, k + 1, r);
      data, items := data[r := a], Inserted(items, k + 1, a);
      repr := repr + {r};
      NodeAtIs(list.nodes, k + 1);
    }

    /** Unlinks the node at k and returns the one behind it. */
    method Remove(n: Node, ghost k: nat) returns (m: Node?)
      requires Valid() && At(n, k)
      modifies this, list, repr
      ensures Valid() && fresh(repr - old(repr)) && k < |old(items)| && items == Removed(old(items), k) && At(m, k) && (m == null <==> k == |items|)
    {
      hide NodeAt, Linked, Removed, RemovedAt, Ascending, Grouped;
      NodeAtIs(list.nodes, k);
      ghost var nodes := list.nodes;
      m := list.Unlink(n, k);
      CarriesRemoved(nodes, data, items, k);
      OwnedRemoved(nodes, repr, k);
      items := Removed(items, k);
      NodeAtIs(list.nodes, k);
    }
  }

  ghost predicate Owned(nodes: seq<Node>, repr: set<Node>) {
    forall i :: 0 <= i < |nodes| ==> nodes[i] in repr
  }

  lemma OwnedInserted(nodes: seq<Node>, repr: set<Node>, k: nat, r: Node)
    requires Owned(nodes, repr) && k <= |nodes|
    ensures Owned(InsertedAt(nodes, k, r), repr + {r})
  {
    var t := InsertedAt(nodes, k, r);
    forall i | 0 <= i < |t| ensures t[i] in repr + {r} {
      assert t[i] == if i < k then nodes[i] else if i == k then r else nodes[i - 1];
    }
  }

  lemma OwnedRemoved(nodes: seq<Node>, repr: set<Node>, k: nat)
    requires Owned(nodes, repr) && k < |nodes|
    ensures Owned(RemovedAt(nodes, k), repr)
  {
    var t := RemovedAt(nodes, k);
    forall i | 0 <= i < |t| ensures t[i] in repr {
      assert t[i] == if i < k then nodes[i] else nodes[i + 1];
    }
  }

  ghost predicate Carries<T>(nodes: seq<Node>, data: map<Node, T>, items: seq<T>) {
    |items| == |nodes| && forall i :: 0 <= i < |items| ==> nodes[i] in data && data[nodes[i]] == items[i]
  }

  function Inserted<T>(s: seq<T>, k: nat, a: T): (t: seq<T>)
    requires k <= |s|
    ensures |t| == |s| + 1
  {
    s[..k] + [a] + s[k..]
  }

  function Removed<T>(s: seq<T>, k: nat): (t: seq<T>)
    requires k < |s|
    ensures |t| == |s| - 1
  {
    s[..k] + s[k + 1..]
  }

  lemma CarriesInserted<T>(nodes: seq<Node>, data: map<Node, T>, items: seq<T>, k: nat, r: Node, a: T)
    requires Carries(nodes, data, items) && r !in nodes && k <= |nodes|
    ensures Carries(InsertedAt(nodes, k, r), data[r := a], Inserted(items, k, a))
    ensures InsertedAt(nodes, k, r)[k] == r
  {
    var t, d, s := InsertedAt(nodes, k, r), data[r := a], Inserted(items, k, a);
    forall i | 0 <= i < |t| ensures t[i] in d && d[t[i]] == s[i] {
      if i != k {
        assert t[i] == nodes[if i < k then i else i - 1];
      }
    }
  }

  lemma CarriesRemoved<T>(nodes: seq<Node>, data: map<Node, T>, items: seq<T>, k: nat)
    requires Carries(nodes, data, items) && k < |nodes|
    ensures Carries(RemovedAt(nodes, k), data, Removed(items, k))
  {
  }
}
