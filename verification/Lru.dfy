/** The user-key cache as it is kept: a hash table and a circular doubly linked
    list over the same nodes, newest node first. */
module Lru {
  import opened LruSpec

  class Node {
    const key: string
    var next: Node?
    var prev: Node?

    constructor (key: string)
      ensures this.key == key && next == null && prev == null
    {
      this.key := key;
      next, prev := null, null;
    }
  }

  /** Each node points to its neighbours around the circle. */
  ghost predicate Circle(nodes: seq<Node>)
    reads nodes
  {
    && (forall i, j :: 0 <= i < j < |nodes| ==> nodes[i] != nodes[j])
    && (forall i {:trigger nodes[i].next} :: 0 <= i < |nodes| - 1 ==> nodes[i].next == nodes[i + 1])
    && (forall i {:trigger nodes[i].prev} :: 1 <= i < |nodes| ==> nodes[i].prev == nodes[i - 1])
    && (nodes != [] ==> nodes[|nodes| - 1].next == nodes[0] && nodes[0].prev == nodes[|nodes| - 1])
  }

  ghost function KeysOf(nodes: seq<Node>): (r: seq<string>)
    ensures |r| == |nodes| && forall i :: 0 <= i < |r| ==> r[i] == nodes[i].key
  {
    seq(|nodes|, i requires 0 <= i < |nodes| => nodes[i].key)
  }

  /** The table holds exactly these nodes, each under its key. */
  ghost predicate Hashed(hash: map<string, Node>, nodes: seq<Node>) {
    && (forall n :: n in nodes ==> n.key in hash && hash[n.key] == n)
    && forall k :: k in hash ==> hash[k] in nodes && hash[k].key == k
  }

  lemma HashedIsDistinct(hash: map<string, Node>, nodes: seq<Node>)
    requires Hashed(hash, nodes) && forall i, j :: 0 <= i < j < |nodes| ==> nodes[i] != nodes[j]
    ensures Distinct(KeysOf(nodes))
    ensures forall k :: k in hash <==> k in KeysOf(nodes)
  {
    forall k | k in hash
      ensures k in KeysOf(nodes)
    {
      var i :| 0 <= i < |nodes| && nodes[i] == hash[k];
      assert KeysOf(nodes)[i] == k;
    }
    forall k | k in KeysOf(nodes)
      ensures k in hash
    {
      var i :| 0 <= i < |nodes| && KeysOf(nodes)[i] == k;
      assert nodes[i] in nodes;
    }
    forall i, j | 0 <= i < j < |nodes|
      ensures KeysOf(nodes)[i] != KeysOf(nodes)[j]
    {
      assert nodes[i] in nodes && nodes[j] in nodes;
    }
  }

  class Lru {
    const capacity: nat
    var elements: nat
    var list: Node?
    var hash: map<string, Node>
    ghost var nodes: seq<Node>

    /** List and hash hold the same nodes. */
    ghost predicate Valid()
      reads this, nodes
    {
      && Circle(nodes)
      && list == (if nodes == [] then null else nodes[0])
      && elements == |nodes| <= capacity
      && Hashed(hash, nodes)
    }

    /** Keys held, newest first. */
    ghost function Keys(): seq<string>
      reads this`nodes
    {
      KeysOf(nodes)
    }

    constructor (capacity: nat)
      ensures Valid() && Keys() == [] && this.capacity == capacity && fresh(nodes)
    {
      this.capacity := capacity;
      elements, list, hash, nodes := 0, null, map[], [];
    }

    /** Unlinks the node at place `k` of the circle. */
    method Unlink(node: Node, ghost k: nat)
      requires Circle(nodes) && k < |nodes| && nodes[k] == node && list == nodes[0]
      modifies this`list, this`nodes, nodes
      ensures nodes == old(nodes)[..k] + old(nodes)[k + 1..]
      ensures Circle(nodes) && list == (if nodes == [] then null else nodes[0])
    {
      if list == node && list.next == list {
        assert |nodes| == 1;
        list := null;
      } else {
        node.next.prev := node.prev;
        node.prev.next := node.next;
        if node == list {
          list := node.next;
        }
      }
      nodes := nodes[..k] + nodes[k + 1..];
    }

    /** Links a node in front of the list. */
    method Prepend(node: Node)
      requires Circle(nodes) && node !in nodes && list == (if nodes == [] then null else nodes[0])
      modifies this`list, this`nodes, nodes, node
      ensures nodes == [node] + old(nodes) && list == node && Circle(nodes)
    {
      if list != null {
        node.prev := list.prev;
        node.next := list;
        list.prev := node;
        node.prev.next := node;
      } else {
        node.prev, node.next := node, node;
      }
      list := node;
      nodes := [node] + nodes;
    }

    /** `LDLRUInsert`. */
    method InsertKey(key: string) returns (status: Status)
      requires Valid()
      modifies this, nodes
      ensures Valid() && forall n :: n in nodes ==> n in old(nodes) || fresh(n)
      ensures (Keys(), status) == Insert(capacity, old(Keys()), key)
    {
      if capacity == 0 { return New; }
      HashedIsDistinct(hash, nodes);
      if key !in hash {
        InsertNew(key);
        status := New;
      } else {
        MoveToFront(key);
        status := Existed;
      }
    }

    method InsertNew(key: string)
      requires Valid() && capacity > 0 && key !in hash
      modifies this, nodes
      ensures Valid() && forall n :: n in nodes ==> n in old(nodes) || fresh(n)
      ensures Keys() == [key] + Take(old(Keys()), capacity - 1)
    {
      hide Circle, Hashed, KeysOf;
      if elements == capacity {
        DropOldest();
      } else {
        elements := elements + 1;
      }
      ghost var kept := nodes;
      var node := new Node(key);
      ghost var before := hash;
      Prepend(node);
      hash := hash[key := node];
      HashedAdd(before, kept, node);
      KeysOfFront(node, kept);
    }

    method MoveToFront(key: string)
      requires Valid() && key in hash && Distinct(Keys())
      modifies this`list, this`nodes, nodes
      ensures Valid() && forall n :: n in nodes ==> n in old(nodes)
      ensures Keys() == [key] + Without(old(Keys()), key)
    {
      hide Circle, KeysOf, Distinct, Without, Hashed;
      ghost var before := nodes;
      var node := hash[key];
      HashedNode(hash, nodes, key);
      ghost var k :| 0 <= k < |nodes| && nodes[k] == node;
      NotTwice(nodes, k);
      Unlink(node, k);
      Prepend(node);
      MovedNodes(hash, before, k);
    }

    /** Makes room: the node before the head is the oldest. */
    method DropOldest()
      requires Valid() && elements == capacity > 0
      modifies this`list, this`hash, this`nodes, nodes
      ensures nodes == old(nodes)[..capacity - 1] && Circle(nodes) && Hashed(hash, nodes)
      ensures KeysOf(nodes) == Take(old(Keys()), capacity - 1)
      ensures list == (if nodes == [] then null else nodes[0])
      ensures forall k :: k in hash ==> k in old(hash)
    {
      hide Hashed, KeysOf;
      var node := list.prev;
      ghost var before := nodes;
      hash := hash - {node.key};
      Unlink(node, capacity - 1);
      assert nodes == before[..capacity - 1];
      HashedDrop(old(hash), before);
    }

    /** `LDLRUClear`. */
    method Clear()
      requires Valid()
      modifies this, nodes
      ensures Valid() && Keys() == []
    {
      hash := map[];
      ghost var passed := 0;
      while list != null
        invariant Circle(nodes) && list == (if nodes == [] then null else nodes[0])
        invariant 0 <= passed <= |old(nodes)| && nodes == old(nodes)[passed..]
        decreases |nodes|
      {
        Unlink(list, 0);
        passed := passed + 1;
      }
      elements, list, hash := 0, null, map[];
    }
  }

  lemma HashedNode(hash: map<string, Node>, nodes: seq<Node>, key: string)
    requires Hashed(hash, nodes) && key in hash
    ensures hash[key] in nodes && hash[key].key == key
  {
  }

  lemma NotTwice(nodes: seq<Node>, k: nat)
    requires Circle(nodes) && k < |nodes|
    ensures nodes[k] !in nodes[..k] + nodes[k + 1..]
  {
  }

  lemma KeysOfFront(node: Node, nodes: seq<Node>)
    ensures KeysOf([node] + nodes) == [node.key] + KeysOf(nodes)
  {
  }

  lemma HashedAdd(hash: map<string, Node>, nodes: seq<Node>, node: Node)
    requires node.key !in hash && Hashed(hash, nodes)
    ensures Hashed(hash[node.key := node], [node] + nodes)
  {
  }

  lemma HashedDrop(hash: map<string, Node>, nodes: seq<Node>)
    requires nodes != [] && Hashed(hash, nodes) && forall i, j :: 0 <= i < j < |nodes| ==> nodes[i] != nodes[j]
    ensures
      var n := |nodes| - 1;
      Hashed(hash - {nodes[n].key}, nodes[..n]) && KeysOf(nodes[..n]) == Take(KeysOf(nodes), n)
  {
    var n := |nodes| - 1;
    var rest := hash - {nodes[n].key};
    forall m | m in nodes[..n]
      ensures m.key in rest && rest[m.key] == m
    {
      assert m in nodes && nodes[n] in nodes;
    }
    forall k | k in rest
      ensures rest[k] in nodes[..n]
    {
      var i :| 0 <= i < |nodes| && nodes[i] == hash[k];
      assert nodes[..n][i] == hash[k];
    }
  }

  lemma MovedNodes(hash: map<string, Node>, nodes: seq<Node>, k: nat)
    requires k < |nodes| && Hashed(hash, nodes) && Distinct(KeysOf(nodes))
    ensures
      var moved := [nodes[k]] + (nodes[..k] + nodes[k + 1..]);
      && |moved| == |nodes| && Hashed(hash, moved) && (forall n :: n in moved ==> n in nodes)
      && KeysOf(moved) == [nodes[k].key] + Without(KeysOf(nodes), nodes[k].key)
  {
    hide Distinct, Without, Hashed, KeysOf;
    var moved := [nodes[k]] + (nodes[..k] + nodes[k + 1..]);
    SameMembers(nodes, k);
    HashedSame(hash, nodes, moved);
    WithoutAt(KeysOf(nodes), k);
    KeysMoved(nodes, k);
  }

  lemma SameMembers(nodes: seq<Node>, k: nat)
    requires k < |nodes|
    ensures forall n :: n in [nodes[k]] + (nodes[..k] + nodes[k + 1..]) <==> n in nodes
  {
    assert nodes == nodes[..k] + [nodes[k]] + nodes[k + 1..];
  }

  lemma HashedSame(hash: map<string, Node>, nodes: seq<Node>, others: seq<Node>)
    requires Hashed(hash, nodes) && forall n :: n in others <==> n in nodes
    ensures Hashed(hash, others)
  {
  }

  lemma KeysMoved(nodes: seq<Node>, k: nat)
    requires k < |nodes|
    ensures var keys := KeysOf(nodes);
      KeysOf([nodes[k]] + (nodes[..k] + nodes[k + 1..])) == [nodes[k].key] + (keys[..k] + keys[k + 1..])
  {
  }
}
