/**
 The linked list behind every queue of the driver: nodes in a ring through a head that carries no
 data, and a length field.  The list refines a sequence.
 */
module LinkedList {
  import opened Basics

  /** struct lnx_shim_llist_node; the head of a list is a node without data. */
  class Node<T> {
    var next: Node?<T>
    var prev: Node?<T>
    const data: Option<T>

    constructor (data: Option<T>)
      ensures this.data == data
    {
      this.data := data;
      next, prev := null, null;
    }
  }

  /** The data of a run of nodes. */
  function DataOf<T>(nodes: seq<Node<T>>): (s: seq<T>)
    requires forall i | 0 <= i < |nodes| :: nodes[i].data.Some?
    ensures |s| == |nodes|
  {
    seq(|nodes|, i requires 0 <= i < |nodes| => nodes[i].data.value)
  }

  /**
   Visiting elements in order until the callback fails.  The result is a success when there is an
   element and no visit failed.
   */
  function Visit<T, A>(callback: (A, T) -> (A, bool), a: A, s: seq<T>): (A, bool) {
    if s == [] then (a, false)
    else
      var (b, ok) := callback(a, s[0]);
      if !ok || |s| == 1 then (b, ok) else Visit(callback, b, s[1..])
  }

  /** A visit that has failed does not go on; one that has not goes on where it was. */
  lemma {:induction false} VisitAppend<T, A>(callback: (A, T) -> (A, bool), a: A, s: seq<T>, t: seq<T>)
    requires s != [] && t != []
    ensures Visit(callback, a, s + t)
         == if Visit(callback, a, s).1 then Visit(callback, Visit(callback, a, s).0, t) else Visit(callback, a, s)
    decreases |s|
  {
    assert (s + t)[0] == s[0] && (s + t)[1..] == s[1..] + t;
    if |s| > 1 {
      VisitAppend(callback, callback(a, s[0]).0, s[1..], t);
    } else {
      assert s[1..] + t == t;
    }
  }

  /** Visiting one element is one call; visiting none is no success. */
  lemma VisitOne<T, A>(callback: (A, T) -> (A, bool), a: A, x: T)
    ensures Visit(callback, a, [x]) == callback(a, x) && Visit(callback, a, []) == (a, false)
  {
  }

  lemma {:induction false} WithoutStep<T(!new)>(kept: seq<T>, rest: seq<T>, x: T)
    requires rest != []
    ensures kept + Without(rest, x) == (if rest[0] == x then kept else kept + [rest[0]]) + Without(rest[1..], x)
  {
    if rest[0] != x {
      assert kept + ([rest[0]] + Without(rest[1..], x)) == kept + [rest[0]] + Without(rest[1..], x);
    }
  }

  lemma DataWithout<T>(nodes: seq<Node<T>>, i: nat)
    requires i < |nodes| && forall j | 0 <= j < |nodes| :: nodes[j].data.Some?
    ensures var rest := nodes[..i] + nodes[i + 1..];
            && (forall j | 0 <= j < |rest| :: rest[j].data.Some?)
            && DataOf(rest) == DataOf(nodes)[..i] + DataOf(nodes)[i + 1..]
  {
  }

  lemma SliceWithout<T>(r: seq<T>, i: nat)
    requires 1 <= i < |r| - 1
    ensures var rest, mid := r[..i] + r[i + 1..], r[1..|r| - 1];
            rest[1..|rest| - 1] == mid[..i - 1] + mid[i..]
  {
    var rest, mid := r[..i] + r[i + 1..], r[1..|r| - 1];
    var a, b := rest[1..|rest| - 1], mid[..i - 1] + mid[i..];
    assert |a| == |b|;
    forall k | 0 <= k < |a| ensures a[k] == b[k] {
      assert a[k] == rest[k + 1];
      assert b[k] == if k < i - 1 then r[k + 1] else r[k + 2];
    }
  }

  /** struct lnx_shim_llist. */
  class Llist<T(==, !new)> {
    const head: Node<T>
    var len: nat
    /** The ring, cut open at the head: the head, the nodes in order, and the head again. */
    ghost var ring: seq<Node<T>>
    /** The nodes that are, or have been, in the ring. */
    ghost var repr: set<Node<T>>

    ghost predicate Linked(i: nat)
      requires i + 1 < |ring|
      reads this, ring[i], ring[i + 1]
    {
      ring[i].next == ring[i + 1] && ring[i + 1].prev == ring[i]
    }

    ghost predicate Valid()
      reads this, repr
    {
      && (forall i | 0 <= i < |ring| :: ring[i] in repr)
      && |ring| == len + 2 && ring[0] == head && ring[len + 1] == head
      && (forall i | 0 <= i <= len :: Linked(i))
      && (forall i, j | 0 <= i < j <= len :: ring[i] != ring[j])
      && (forall i | 1 <= i <= len :: ring[i].data.Some?)
    }

    /** The sequence that the list stands for. */
    ghost function Contents(): (s: seq<T>)
      requires Valid()
      reads this, repr
      ensures |s| == len
    {
      DataOf(ring[1..len + 1])
    }

    /** lnx_shim_llist_alloc and lnx_shim_llist_init. */
    constructor ()
      ensures Valid() && fresh(repr) && Contents() == []
    {
      head := new Node(None);
      len := 0;
      new;
      head.next, head.prev := head, head;
      ring, repr := [head, head], {head};
    }

    // --------------------------------------------------------- the shim

    /** list_add_tail, and the length. */
    method AddNodeTail(node: Node<T>)
      requires Valid() && node !in repr && node.data.Some?
      modifies this, repr, node
      ensures Valid() && ring == old(ring)[..old(len) + 1] + [node, head] && repr == old(repr) + {node}
    {
      var last := head.prev;
      assert Linked(len);
      head.prev := node;
      node.next := head;
      node.prev := last;
      last.next := node;
      len := len + 1;
      ring, repr := ring[..len] + [node, head], repr + {node};
      forall i | 0 <= i <= len ensures Linked(i) {
        if i < len - 1 { assert old(Linked(i)); }
      }
    }

    /** The links on both sides of the node at place `i` of the ring, and the length. */
    method Unlink(node: Node<T>, ghost i: nat)
      requires Valid() && 1 <= i <= len && node == ring[i]
      modifies this, repr
      ensures Valid() && ring == old(ring)[..i] + old(ring)[i + 1..] && repr == old(repr)
    {
      assert Linked(i - 1) && Linked(i);
      ghost var was, n := ring, len;
      node.next.prev := node.prev;
      node.prev.next := node.next;
      len := len - 1;
      ring := was[..i] + was[i + 1..];
      forall k | 0 <= k <= n && k != i - 1 ensures was[k].next == old(was[k].next) {}
      forall k | 1 <= k <= n + 1 && k != i + 1 ensures was[k].prev == old(was[k].prev) {}
      forall j | 0 <= j <= len ensures Linked(j) {
        if j < i - 1 { assert old(Linked(j)); } else if j >= i { assert old(Linked(j + 1)); }
      }
    }

    /** lnx_shim_llist_del_node: unlink the node at place `i` of the ring. */
    method DelNode(node: Node<T>, ghost i: nat)
      requires Valid() && 1 <= i <= len && node == ring[i]
      modifies this, repr
      ensures Valid() && ring == old(ring)[..i] + old(ring)[i + 1..] && repr == old(repr)
      ensures Contents() == old(Contents())[..i - 1] + old(Contents())[i..]
    {
      SliceWithout(ring, i);
      DataWithout(ring[1..len + 1], i - 1);
      Unlink(node, i);
    }

    method GetNodeHead() returns (node: Node?<T>)
      requires Valid()
      ensures node == if len == 0 then null else ring[1]
    {
      if len == 0 {
        return null;
      }
      assert Linked(0);
      node := head.next;
    }

    method GetNodeNxt(node: Node<T>, ghost i: nat) returns (nxt: Node?<T>)
      requires Valid() && 1 <= i <= len && node == ring[i]
      ensures nxt == if i == len then null else ring[i + 1]
    {
      assert Linked(i);
      if node.next == head {
        return null;
      }
      nxt := node.next;
    }

    /** list_add, and the length: what the operating-system layer asks of a shim. */
    method AddNodeHead(node: Node<T>)
      requires Valid() && node !in repr && node.data.Some?
      modifies this, repr, node
      ensures Valid() && ring == [head, node] + old(ring)[1..] && repr == old(repr) + {node}
    {
      var first := head.next;
      assert Linked(0);
      first.prev := node;
      node.next := first;
      node.prev := head;
      head.next := node;
      len := len + 1;
      ring, repr := [head, node] + ring[1..], repr + {node};
      forall i | 0 <= i <= len ensures Linked(i) {
        if i > 1 { assert old(Linked(i - 1)); }
      }
    }

    // ------------------------------------------------------------ list.c

    method AddTail(data: T)
      requires Valid()
      modifies this, repr
      ensures Valid() && Contents() == old(Contents()) + [data] && fresh(repr - old(repr))
    {
      ghost var was := ring[1..len + 1];
      var node := new Node(Some(data));
      AddNodeTail(node);
      assert ring[1..len + 1] == was + [node];
    }

    method AddHead(data: T)
      requires Valid()
      modifies this, repr
      ensures Valid() && Contents() == [data] + old(Contents()) && fresh(repr - old(repr))
    {
      ghost var was := ring[1..len + 1];
      var node := new Node(Some(data));
      AddNodeHead(node);
      assert ring[1..len + 1] == [node] + was;
    }

    method DelHead() returns (data: Option<T>)
      requires Valid()
      modifies this, repr
      ensures Valid() && repr == old(repr)
      ensures old(Contents()) == [] ==> data == None && Contents() == []
      ensures old(Contents()) != [] ==> data == Some(old(Contents())[0]) && Contents() == old(Contents())[1..]
    {
      var node := GetNodeHead();
      if node == null {
        return None;
      }
      data := node.data;
      DelNode(node, 1);
    }

    method Peek() returns (data: Option<T>)
      requires Valid()
      ensures data == if Contents() == [] then None else Some(Contents()[0])
    {
      var node := GetNodeHead();
      if node == null {
        return None;
      }
      data := node.data;
    }

    method Len() returns (n: nat)
      requires Valid()
      ensures n == |Contents()|
    {
      n := len;
    }

    /** One round of the walk below; `kept` is what it has left standing, `rest` what it has yet to see. */
    method DelIfData(node: Node<T>, data: T, ghost kept: seq<T>, ghost rest: seq<T>)
      returns (nxt: Node?<T>, ghost kept': seq<T>)
      requires Valid() && Contents() == kept + rest && rest != [] && node == ring[|kept| + 1]
      modifies this, repr
      ensures Valid() && repr == old(repr)
      ensures kept' == if rest[0] == data then kept else kept + [rest[0]]
      ensures Contents() == kept' + rest[1..]
      ensures nxt == if |rest| == 1 then null else ring[|kept'| + 1]
    {
      assert node.data.value == Contents()[|kept|] == rest[0];
      nxt := GetNodeNxt(node, |kept| + 1);
      if node.data == Some(data) {
        kept' := kept;
        DelNode(node, |kept| + 1);
        assert (kept + rest)[..|kept|] == kept && (kept + rest)[|kept| + 1..] == rest[1..];
      } else {
        kept' := kept + [rest[0]];
        assert kept + rest == kept' + rest[1..];
      }
    }

    /** nrf_wifi_utils_list_del_node: every node that holds `data` is unlinked while the list is walked. */
    method DelData(data: T)
      requires Valid()
      modifies this, repr
      ensures Valid() && Contents() == Without(old(Contents()), data) && repr == old(repr)
    {
      ghost var all, kept, rest := Contents(), [], Contents();
      assert [] + rest == rest && [] + Without(rest, data) == Without(rest, data);
      var node := GetNodeHead();
      while node != null
        invariant Valid() && repr == old(repr)
        invariant Contents() == kept + rest && Without(all, data) == kept + Without(rest, data)
        invariant node == if rest == [] then null else ring[|kept| + 1]
        decreases |rest|
      {
        WithoutStep(kept, rest, data);
        node, kept := DelIfData(node, data, kept, rest);
        rest := rest[1..];
      }
    }

    /** nrf_wifi_utils_list_traverse; `a` is what the callback changes. */
    method Traverse<A>(callback: (A, T) -> (A, bool), a: A) returns (r: (A, bool))
      requires Valid()
      ensures r == Visit(callback, a, Contents())
    {
      var state, status := a, false;
      ghost var i := 1;
      var node := GetNodeHead();
      while node != null
        invariant 1 <= i <= len + 1 && node == if i == len + 1 then null else ring[i]
        invariant i > 1 ==> status
        invariant Visit(callback, a, Contents())
               == if i == len + 1 then (state, status) else Visit(callback, state, Contents()[i - 1..])
        decreases len + 1 - i
      {
        var step := callback(state, node.data.value);
        state, status := step.0, step.1;
        if !status {
          return (state, status);
        }
        node := GetNodeNxt(node, i);
        i := i + 1;
      }
      r := (state, status);
    }
  }
}