/** The kernel's doubly linked list: nodes relinked in place, with one cursor for iteration. */
module DoublyLinkedList {

  /** An address; 0 is NULL. */
  type Ptr = nat

  const NULL: Ptr := 0

  function IndexOf<T(==)>(s: seq<T>, x: T): (k: nat)
    ensures k <= |s| && (k < |s| ==> s[k] == x) && forall i :: 0 <= i < k ==> s[i] != x
    ensures k == |s| <==> x !in s
  {
    if s == [] then 0 else if s[0] == x then 0 else 1 + IndexOf(s[1..], x)
  }

  function RemoveAt<T>(s: seq<T>, k: nat): (r: seq<T>)
    requires k < |s|
    ensures |r| == |s| - 1
    ensures forall i :: 0 <= i < |r| ==> r[i] == if i < k then s[i] else s[i + 1]
  {
    s[..k] + s[k + 1..]
  }

  /** s without the first occurrence of x. */
  function RemoveFirst<T(==)>(s: seq<T>, x: T): seq<T> {
    if x in s then RemoveAt(s, IndexOf(s, x)) else s
  }

  class Node {
    var data: Ptr
    var prev: Node?
    var next: Node?

    constructor (data: Ptr, prev: Node?)
      ensures this.data == data && this.prev == prev && this.next == null
    {
      this.data := data;
      this.prev := prev;
      this.next := null;
    }
  }

  ghost predicate Distinct(s: seq<Node>) {
    forall i, j :: 0 <= i < j < |s| ==> s[i] != s[j]
  }

  /** Following `next` from first visits exactly ns. */
  ghost predicate NextChain(ns: seq<Node>, first: Node?)
    reads ns`next
  {
    && (ns == [] ==> first == null)
    && (ns != [] ==> first == ns[0] && ns[|ns| - 1].next == null)
    && forall i {:trigger ns[i].next} :: 0 <= i < |ns| - 1 ==> ns[i].next == ns[i + 1]
  }

  /** Following `prev` from last visits exactly ns, backwards. */
  ghost predicate PrevChain(ns: seq<Node>, last: Node?)
    reads ns`prev
  {
    && (ns == [] ==> last == null)
    && (ns != [] ==> last == ns[|ns| - 1] && ns[0].prev == null)
    && forall i {:trigger ns[i].prev} :: 1 <= i < |ns| ==> ns[i].prev == ns[i - 1]
  }

  lemma RemoveDistinct(s: seq<Node>, k: nat)
    requires Distinct(s) && k < |s|
    ensures Distinct(RemoveAt(s, k))
  {
  }

  lemma RemoveBoth(ns: seq<Node>, ds: seq<Ptr>, k: nat)
    requires |ns| == |ds| && k < |ns| && forall i {:trigger ns[i].data} :: 0 <= i < |ns| ==> ns[i].data == ds[i]
    ensures var r, s := RemoveAt(ns, k), RemoveAt(ds, k);
            && |r| == |s| && (forall x :: x in r ==> x in ns)
            && forall i {:trigger r[i].data} :: 0 <= i < |r| ==> r[i].data == s[i]
  {
    var r := RemoveAt(ns, k);
    assert forall i :: 0 <= i < |r| ==> r[i] == ns[if i < k then i else i + 1];
  }

  class List {
    var head: Node?
    var tail: Node?
    var current: Node?
    var size: int

    ghost var nodes: seq<Node>
    ghost var contents: seq<Ptr>
    /** The list object and every node it ever linked. */
    ghost var Repr: set<object>

    ghost predicate Valid()
      reads this, Repr
      ensures Valid() ==> this in Repr
    {
      && this in Repr
      && (forall i {:trigger nodes[i]} :: 0 <= i < |nodes| ==> nodes[i] in Repr)
      && Distinct(nodes)
      && size == |nodes| == |contents|
      && NextChain(nodes, head)
      && PrevChain(nodes, tail)
      && forall i {:trigger nodes[i].data} :: 0 <= i < |nodes| ==> nodes[i].data == contents[i]
    }

    /** The cursor stands before element k; k == |nodes| is the end. */
    ghost predicate CursorAt(k: nat)
      reads this
    {
      k <= |nodes| && current == if k == |nodes| then null else nodes[k]
    }

    constructor ()
      ensures Valid() && Repr == {this} && nodes == [] && contents == [] && current == null
    {
      head := null;
      tail := null;
      current := null;
      size := 0;
      nodes := [];
      contents := [];
      Repr := {this};
    }

    /** addNode; `granted` says whether mm_alloc had memory for the node. */
    method AddNode(data: Ptr, granted: bool) returns (node: Node?)
      requires Valid()
      modifies Repr
      ensures Valid() && current == old(current)
      ensures Repr == old(Repr) + (if node == null then {} else {node})
      ensures !granted ==> node == null && nodes == old(nodes) && contents == old(contents)
      ensures granted ==> node != null && fresh(node) && nodes == old(nodes) + [node] && contents == old(contents) + [data]
    {
      if !granted {
        return null;
      }
      var newNode := new Node(data, tail);
      if size > 0 {
        tail.next := newNode;
      } else {
        head := newNode;
      }
      tail := newNode;
      size := size + 1;
      nodes := nodes + [newNode];
      contents := contents + [data];
      Repr := Repr + {newNode};
      return newNode;
    }

    /** addNodeInFirst */
    method AddNodeInFirst(node: Node)
      requires Valid() && node !in Repr
      modifies Repr, node
      ensures Valid() && current == old(current)
      ensures Repr == old(Repr) + {node}
      ensures nodes == [node] + old(nodes) && contents == [node.data] + old(contents) && node.data == old(node.data)
    {
      node.prev := null;
      if size > 0 {
        head.prev := node;
      } else {
        tail := node;
      }
      node.next := head;
      head := node;
      size := size + 1;
      nodes := [node] + nodes;
      contents := [node.data] + contents;
      Repr := Repr + {node};
    }

    /** removeNode's first relinking: whatever pointed forward to the node now points past it. */
    method BypassForward(node: Node, ghost k: nat)
      requires Distinct(nodes) && k < |nodes| && node == nodes[k]
      requires NextChain(nodes, head) && PrevChain(nodes, tail)
      modifies this`head, nodes`next
      ensures NextChain(RemoveAt(nodes, k), head)
      ensures node.next == (if k + 1 == |nodes| then null else nodes[k + 1])
    {
      if node.prev != null {
        node.prev.next := node.next;
      } else {
        head := node.next;
      }
    }

    /** Its second relinking: whatever pointed backward to the node now points past it. */
    method BypassBackward(node: Node, ghost k: nat)
      requires Distinct(nodes) && k < |nodes| && node == nodes[k]
      requires node.next == (if k + 1 == |nodes| then null else nodes[k + 1]) && PrevChain(nodes, tail)
      modifies this`tail, nodes`prev
      ensures PrevChain(RemoveAt(nodes, k), tail)
    {
      if node.next != null {
        node.next.prev := node.prev;
      } else {
        tail := node.prev;
      }
    }

    method Relink(node: Node, ghost k: nat)
      requires Distinct(nodes) && k < |nodes| && node == nodes[k]
      requires NextChain(nodes, head) && PrevChain(nodes, tail)
      modifies this`head, this`tail, nodes`next, nodes`prev
      ensures NextChain(RemoveAt(nodes, k), head) && PrevChain(RemoveAt(nodes, k), tail)
    {
      hide NextChain, PrevChain, Distinct;
      ghost var rest := RemoveAt(nodes, k);
      assert forall x :: x in rest ==> x in nodes;
      hide RemoveAt;
      BypassForward(node, k);
      BypassBackward(node, k);
      assert NextChain(rest, head);
    }

    method Unlink(node: Node, ghost k: nat)
      requires Valid() && k < |nodes| && node == nodes[k]
      modifies Repr
      ensures Valid() && current == old(current) && Repr == old(Repr)
      ensures nodes == RemoveAt(old(nodes), k) && contents == RemoveAt(old(contents), k)
    {
      hide NextChain, PrevChain, Distinct;
      ghost var rest, kept := RemoveAt(nodes, k), RemoveAt(contents, k);
      RemoveDistinct(nodes, k);
      RemoveBoth(nodes, contents, k);
      assert |rest| == size - 1;
      hide RemoveAt;
      assert forall i {:trigger rest[i]} :: 0 <= i < |rest| ==> rest[i] in Repr;
      Relink(node, k);
      size, nodes, contents := size - 1, rest, kept;
    }

    /** removeNode: unlinks and frees the first node that holds data. The cursor is left where it is. */
    method RemoveNode(data: Ptr) returns (removed: Ptr)
      requires Valid()
      modifies Repr
      ensures Valid() && current == old(current) && Repr == old(Repr)
      ensures removed == if data in old(contents) then data else NULL
      ensures data == NULL || data !in old(contents) ==> nodes == old(nodes) && contents == old(contents)
      ensures data != NULL && data in old(contents) ==>
                var k := IndexOf(old(contents), data);
                nodes == RemoveAt(old(nodes), k) && contents == RemoveAt(old(contents), k)
    {
      if data == NULL {
        return NULL;
      }
      var node := head;
      ghost var k := 0;
      while node != null
        invariant 0 <= k <= |nodes| && node == if k == |nodes| then null else nodes[k]
        invariant data !in contents[..k]
        decreases |nodes| - k
      {
        if node.data == data {
          FirstAt(contents, data, k);
          Unlink(node, k);
          return data;
        }
        node := node.next;
        k := k + 1;
      }
      return NULL;
    }

    /** getFirstData: pops the head, except that a NULL element stays where it is. */
    method GetFirstData() returns (data: Ptr)
      requires Valid()
      modifies Repr
      ensures Valid() && current == old(current) && Repr == old(Repr)
      ensures old(contents) == [] || old(contents)[0] == NULL ==>
                data == NULL && nodes == old(nodes) && contents == old(contents)
      ensures old(contents) != [] && old(contents)[0] != NULL ==>
                data == old(contents)[0] && nodes == old(nodes)[1..] && contents == old(contents)[1..]
    {
      if size == 0 {
        return NULL;
      }
      FirstAt(contents, contents[0], 0);
      assert head.data == contents[0];
      data := RemoveNode(head.data);
    }

    method IsEmpty() returns (empty: bool)
      requires Valid()
      ensures empty <==> contents == []
    {
      empty := size == 0;
    }

    method ToBegin()
      requires Valid()
      modifies this`current
      ensures Valid() && CursorAt(0)
    {
      current := head;
    }

    method HasNext() returns (more: bool)
      ensures more <==> current != null
    {
      more := current != null;
    }

    /** nextInList, for a cursor that stands on a node of the list or at its end. */
    method NextInList(ghost k: nat) returns (data: Ptr)
      requires Valid() && CursorAt(k)
      modifies this`current
      ensures Valid()
      ensures if k < |nodes| then data == contents[k] && CursorAt(k + 1) else data == NULL && CursorAt(k)
    {
      if current == null {
        return NULL;
      }
      data := current.data;
      current := current.next;
    }

    /** freeLinkedListADT: what it hands to mm_free, the nodes, each after its successor was read, and then the list. */
    method FreeAll() returns (freed: seq<Node>, last: List)
      requires Valid()
      ensures freed == nodes && last == this
    {
      freed := [];
      var node := head;
      while node != null
        invariant |freed| <= |nodes| && freed == nodes[..|freed|]
        invariant node == if |freed| == |nodes| then null else nodes[|freed|]
        decreases |nodes| - |freed|
      {
        var next := node.next;
        freed := freed + [node];
        node := next;
      }
      last := this;
    }
  }

  lemma FirstAt(s: seq<Ptr>, x: Ptr, k: nat)
    requires k < |s| && s[k] == x && x !in s[..k]
    ensures IndexOf(s, x) == k && x in s
  {
    assert forall i :: 0 <= i < k ==> s[i] == s[..k][i];
  }
}
