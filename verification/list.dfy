/** What a list holds, as a sequence. */
module ListSpec {

  predicate NoDuplicates<T(==)>(s: seq<T>) { forall i, j :: 0 <= i < j < |s| ==> s[i] != s[j] }

  function InsertAt<T>(s: seq<T>, i: nat, x: T): seq<T>
    requires i <= |s|
  {
    s[..i] + [x] + s[i..]
  }

  lemma InsertedAt<T>(s: seq<T>, k: nat, x: T)
    requires k <= |s|
    ensures |InsertAt(s, k, x)| == |s| + 1
    ensures forall i :: 0 <= i < k ==> InsertAt(s, k, x)[i] == s[i]
    ensures InsertAt(s, k, x)[k] == x
    ensures forall i :: k < i <= |s| ==> InsertAt(s, k, x)[i] == s[i - 1]
  {
  }

  /** Without the element at k. */
  function Cut<T>(s: seq<T>, k: nat): seq<T>
    requires k < |s|
  {
    s[..k] + s[k + 1..]
  }

  lemma CutAt<T>(s: seq<T>, k: nat)
    requires k < |s|
    ensures |Cut(s, k)| == |s| - 1
    ensures forall i :: 0 <= i < k ==> Cut(s, k)[i] == s[i]
    ensures forall i :: k <= i < |s| - 1 ==> Cut(s, k)[i] == s[i + 1]
    ensures forall i :: 0 <= i < |s| - 1 ==> Cut(s, k)[i] in s
    ensures Cut(s, 0) == s[1..]
  {
  }

  /** Without the first occurrence of x. */
  function Without<T(==)>(s: seq<T>, x: T): seq<T> {
    if s == [] then [] else if s[0] == x then s[1..] else [s[0]] + Without(s[1..], x)
  }

  lemma {:induction false} WithoutElements<T>(s: seq<T>, x: T)
    requires NoDuplicates(s)
    ensures forall y :: y in Without(s, x) <==> y in s && y != x
    ensures NoDuplicates(Without(s, x))
  {
    if s != [] && s[0] != x {
      var w := Without(s[1..], x);
      WithoutElements(s[1..], x);
      assert s[0] !in s[1..];
      assert s[0] !in w;
    }
  }

  lemma {:induction false} WithoutMiddle<T>(s: seq<T>, x: T, t: seq<T>)
    requires x !in s
    ensures Without(s + [x] + t, x) == s + t
  {
    if s == [] {
      assert [] + [x] + t == [x] + t;
    } else {
      assert (s + [x] + t)[1..] == s[1..] + [x] + t;
      WithoutMiddle(s[1..], x, t);
      assert [s[0]] + (s[1..] + t) == s + t;
    }
  }

  lemma {:induction false} WithoutNothing<T>(s: seq<T>, x: T)
    requires x !in s
    ensures Without(s, x) == s
  {
    if s != [] {
      WithoutNothing(s[1..], x);
      assert s == [s[0]] + s[1..];
    }
  }
}

/** `util/list.c`: a doubly linked list whose last node is an empty sentinel, with its length in the
    node that happens to be the head. */
module LinkedList {
  import opened ListSpec

  /** An address of some element; 0 is NULL. */
  type Data = nat
  const NULL: Data := 0

  class Node {
    var data: Data
    var copied: bool
    var prev: Node?
    var next: Node?
    var size: nat

    /** c_list_new and c_list_new2. With `copied`, data is the address of the copy. */
    constructor (data: Data, copied: bool)
      ensures this.data == data && this.copied == copied && prev == null && next == null && size == 0
    {
      this.data, this.copied, prev, next, size := data, copied, null, null, 0;
    }
  }

  /** Nodes that follow one another in both directions, with one sentinel at the end. */
  ghost predicate Chain(nodes: seq<Node>)
    reads nodes
  {
    && |nodes| >= 1 && NoDuplicates(nodes)
    && nodes[0].prev == null
    && (forall i :: 0 <= i < |nodes| - 1 ==> nodes[i].next == nodes[i + 1])
    && (forall i :: 0 < i < |nodes| ==> nodes[i].prev == nodes[i - 1])
    && nodes[|nodes| - 1].next == null && nodes[|nodes| - 1].data == NULL && !nodes[|nodes| - 1].copied
  }

  lemma NextOf(nodes: seq<Node>, k: nat)
    requires Chain(nodes) && k < |nodes|
    ensures nodes[k].next == if k == |nodes| - 1 then null else nodes[k + 1]
    ensures nodes[k].prev == if k == 0 then null else nodes[k - 1]
  {
  }

  lemma DistinctFrom<T>(s: seq<T>, k: nat)
    requires NoDuplicates(s) && k < |s|
    ensures forall i :: 0 <= i < |s| && i != k ==> s[i] != s[k]
  {
  }

  lemma DistinctAppend<T>(s: seq<T>, x: T)
    requires NoDuplicates(s) && x !in s
    ensures NoDuplicates(s + [x])
  {
  }

  datatype Operation = Push(data: Data) | Insert(i: nat, data: Data) | Remove(data: Data) | Clear {
    predicate Ok() { Remove? ==> data != NULL }
  }

  function Operated(s: seq<Data>, op: Operation): seq<Data> {
    match op
    case Push(data) => s + [data]
    case Insert(i, data) => if i <= |s| then InsertAt(s, i, data) else s
    case Remove(data) => Without(s, data)
    case Clear => []
  }

  /** A new element stands where it was put with the others around it, and removing it restores the list. */
  lemma PutAndTaken(s: seq<Data>, op: Operation)
    requires (op.Push? || (op.Insert? && op.i <= |s|)) && op.data !in s
    ensures var r, k := Operated(s, op), if op.Push? then |s| else op.i;
      && |r| == |s| + 1 && r[k] == op.data && r[..k] == s[..k] && r[k + 1..] == s[k..]
      && Operated(r, Remove(op.data)) == s && Operated(r, Clear) == []
  {
    var k := if op.Push? then |s| else op.i;
    var r := Operated(s, op);
    assert r == s[..k] + [op.data] + s[k..];
    WithoutMiddle(s[..k], op.data, s[k..]);
    assert s[..k] + s[k..] == s;
  }

  /** Each operation on elements that are there: a place past the end changes nothing, and one removal takes
      the first occurrence only. */
  lemma OthersLeft(s: seq<Data>, i: nat, data: Data)
    ensures i > |s| ==> Operated(s, Insert(i, data)) == s
    ensures data !in s ==> Operated(s, Remove(data)) == s
    ensures multiset(Operated(s, Remove(data))) == multiset(s) - multiset{data}
  {
    if data !in s { WithoutNothing(s, data); }
    WithoutOnce(s, data);
  }

  lemma {:induction false} WithoutOnce(s: seq<Data>, data: Data)
    ensures multiset(Without(s, data)) == multiset(s) - multiset{data}
  {
    if s != [] {
      assert s == [s[0]] + s[1..];
      WithoutOnce(s[1..], data);
    }
  }

  function OperatedAll(s: seq<Data>, ops: seq<Operation>): seq<Data> {
    if ops == [] then s else Operated(OperatedAll(s, ops[..|ops| - 1]), ops[|ops| - 1])
  }

  /** The variable that holds the head. */
  class List {
    var head: Node
    ghost var nodes: seq<Node>
    ghost var contents: seq<Data>

    ghost predicate Valid()
      reads this, nodes
    {
      && Chain(nodes) && head == nodes[0] && head.size == |contents| == |nodes| - 1
      && forall i :: 0 <= i < |contents| ==> nodes[i].data == contents[i]
    }

    constructor ()
      ensures Valid() && contents == [] && fresh(nodes)
    {
      var sentinel := new Node(NULL, false);
      head := sentinel;
      nodes := [sentinel];
      contents := [];
    }

    /** The walk to the sentinel. */
    method End() returns (l: Node)
      requires Valid()
      ensures l == nodes[|nodes| - 1]
    {
      l := head;
      ghost var k := 0;
      while l.next != null
        invariant 0 <= k < |nodes| && l == nodes[k]
        decreases |nodes| - k
      {
        NextOf(nodes, k);
        l := l.next;
        k := k + 1;
      }
      NextOf(nodes, k);
    }

    /** A new sentinel follows the old one, which becomes an element. */
    method Extend(l: Node, data: Data, copied: bool)
      requires Chain(nodes) && head == nodes[0] && l == nodes[|nodes| - 1]
      modifies this`nodes, nodes
      ensures Chain(nodes) && |nodes| == |old(nodes)| + 1 && nodes[..|nodes| - 1] == old(nodes)
      ensures fresh(nodes[|nodes| - 1])
      ensures l.data == data && l.copied == copied && l.size == old(l.size)
      ensures forall n :: n in old(nodes) && n != l ==>
        n.data == old(n.data) && n.copied == old(n.copied) && n.size == old(n.size)
    {
      hide NoDuplicates;
      var sentinel := new Node(NULL, false);
      l.next := sentinel;
      l.next.prev := l;
      l.data := data;
      l.copied := copied;
      DistinctFrom(nodes, |nodes| - 1);
      DistinctAppend(nodes, sentinel);
      nodes := nodes + [sentinel];
    }

    /** c_list_push; `copied` is data_size > 0, and data is then the address of the copy. */
    method Push(data: Data, copied: bool) returns (r: Data)
      requires Valid()
      modifies this, nodes
      ensures Valid() && contents == old(contents) + [data] && r == data
      ensures |nodes| == |old(nodes)| + 1 && nodes[..|nodes| - 1] == old(nodes) && fresh(nodes[|nodes| - 1])
      ensures forall k :: 0 <= k < |nodes| ==> nodes[k] in old(nodes) || fresh(nodes[k])
    {
      hide NoDuplicates;
      var l := End();
      head.size := head.size + 1;
      ghost var was := nodes;
      assert forall k :: 0 <= k < |was| - 1 ==> was[k] != l by { DistinctFrom(was, |was| - 1); }
      Extend(l, data, copied);
      assert forall k :: 0 <= k < |was| ==>
        nodes[k] == was[k] by { assert forall k :: 0 <= k < |was| ==> nodes[..|was|][k] == was[k]; }
      contents := contents + [data];
      return l.data;
    }

    // ------------------------------------------------------------ c_list_insert, c_list_insert2

    method InsertFirst(data: Data, copied: bool) returns (r: Data)
      requires Valid() && |contents| > 0
      modifies this, nodes
      ensures Valid() && contents == [data] + old(contents) && r == data
      ensures |nodes| == |old(nodes)| + 1 && nodes[1..] == old(nodes) && fresh(nodes[0])
    {
      hide NoDuplicates;
      head.size := head.size + 1;
      var l := head;
      var added := new Node(data, copied);
      added.size := l.size;
      added.next := l;
      l.prev := added;
      head := added;
      DistinctFrom(nodes, 0);
      DistinctInsert(nodes, 0, added);
      nodes := InsertAt(nodes, 0, added);
      contents := [data] + contents;
      return added.data;
    }

    /** The four pointer assignments of the middle case. */
    method LinkBefore(l: Node, ghost k: nat, added: Node)
      requires Chain(nodes) && head == nodes[0] && 0 < k < |nodes| - 1 && l == nodes[k] && added !in nodes
      modifies this`nodes, nodes, added
      ensures Chain(nodes) && nodes == InsertAt(old(nodes), k, added)
      ensures forall n :: n in nodes ==> n.data == old(n.data) && n.copied == old(n.copied) && n.size == old(n.size)
    {
      hide NoDuplicates, InsertAt;
      NextOf(nodes, k);
      NextOf(nodes, k - 1);
      DistinctFrom(nodes, k);
      DistinctFrom(nodes, k - 1);
      DistinctInsert(nodes, k, added);
      InsertedAt(nodes, k, added);
      ghost var was := nodes;
      added.prev := l.prev;
      added.next := l;
      l.prev.next := added;
      l.prev := added;
      nodes := InsertAt(nodes, k, added);
      assert nodes[k - 1] == was[k - 1] && nodes[k] == added && nodes[k + 1] == l;
    }

    method InsertMiddle(l: Node, ghost k: nat, data: Data, copied: bool) returns (r: Data)
      requires Valid() && 0 < k < |nodes| - 1 && l == nodes[k]
      modifies this, nodes
      ensures Valid() && contents == InsertAt(old(contents), k, data) && r == data
      ensures |nodes| == |old(nodes)| + 1 && fresh(nodes[k]) && nodes == InsertAt(old(nodes), k, nodes[k])
    {
      hide NoDuplicates, InsertAt;
      head.size := head.size + 1;
      var added := new Node(data, copied);
      InsertedAt(nodes, k, added);
      InsertedAt(contents, k, data);
      LinkBefore(l, k, added);
      contents := InsertAt(contents, k, data);
      return added.data;
    }

    /** The three cases that both functions share. */
    method InsertHere(l: Node, ghost k: nat, data: Data, copied: bool) returns (r: Data)
      requires Valid() && k < |nodes| && l == nodes[k]
      modifies this, nodes
      ensures Valid() && contents == InsertAt(old(contents), k, data) && r == data
      ensures forall k :: 0 <= k < |nodes| ==> nodes[k] in old(nodes) || fresh(nodes[k])
      ensures forall n :: n in old(nodes) ==> n in nodes
    {
      NextOf(nodes, k);
      if l.prev == null && l.next != null {
        r := InsertFirst(data, copied);
        assert InsertAt(old(contents), 0, data) == [data] + old(contents);
        assert forall n :: n in nodes[1..] ==> n in nodes;
        assert nodes == [nodes[0]] + nodes[1..];
      } else if l.prev != null && l.next != null {
        r := InsertMiddle(l, k, data, copied);
      } else {
        r := Push(data, copied);
        assert InsertAt(old(contents), k, data) == old(contents) + [data];
        assert forall n :: n in nodes[..|nodes| - 1] ==> n in nodes;
        assert nodes == nodes[..|nodes| - 1] + [nodes[|nodes| - 1]];
      }
    }

    method Insert(i: nat, data: Data, copied: bool) returns (r: Data)
      requires Valid()
      modifies this, nodes
      ensures Valid()
      ensures i > |old(contents)| ==> r == NULL && contents == old(contents)
      ensures i <= |old(contents)| ==> r == data && contents == InsertAt(old(contents), i, data)
      ensures forall k :: 0 <= k < |nodes| ==> nodes[k] in old(nodes) || fresh(nodes[k])
    {
      if i > head.size { return NULL; }
      var l := Seek(i);
      r := InsertHere(l, i, data, copied);
    }

    /** The walk to the node at position i, or to the sentinel. */
    method Seek(i: nat) returns (l: Node)
      requires Valid() && i <= |contents|
      ensures l == nodes[i]
    {
      l := head;
      var ii := 0;
      while l.next != null
        invariant 0 <= ii <= i && ii < |nodes| && l == nodes[ii]
        decreases |nodes| - ii
      {
        if ii == i { break; }
        NextOf(nodes, ii);
        l := l.next;
        ii := ii + 1;
      }
      NextOf(nodes, ii);
    }

    /** c_list_insert2: before the given node, or at the end if it is the sentinel. */
    method Insert2(l: Node, ghost k: nat, data: Data, copied: bool) returns (r: Data)
      requires Valid() && k < |nodes| && l == nodes[k]
      modifies this, nodes
      ensures Valid() && contents == InsertAt(old(contents), k, data) && r == data
      ensures forall k :: 0 <= k < |nodes| ==> nodes[k] in old(nodes) || fresh(nodes[k])
    {
      r := InsertHere(l, k, data, copied);
    }

    // ------------------------------------------------------------ c_list_remove, c_list_clear

    /** The first node that holds data, if any. */
    method Find(data: Data) returns (l: Node?, ghost k: nat)
      requires Valid() && data != NULL
      ensures k <= |contents| && data !in contents[..k]
      ensures l == null <==> data !in contents
      ensures l != null ==> k < |contents| && l == nodes[k] && contents[k] == data
    {
      l := head;
      k := 0;
      while l != null
        invariant 0 <= k <= |nodes| && l == (if k < |nodes| then nodes[k] else null)
        invariant k <= |contents| ==> data !in contents[..k]
        invariant k > |contents| ==> data !in contents
        decreases |nodes| - k
      {
        NextOf(nodes, k);
        if l.data == data { return; }
        assert k < |contents| ==> contents[..k + 1] == contents[..k] + [contents[k]];
        assert k == |contents| ==> contents[..k] == contents;
        l := l.next;
        k := k + 1;
      }
      k := 0;
    }

    method RemoveFirst()
      requires Valid() && |contents| > 0
      modifies this, nodes
      ensures Valid() && contents == old(contents[1..]) && nodes == old(nodes[1..])
    {
      hide NoDuplicates;
      var l := head;
      NextOf(nodes, 0);
      DistinctFrom(nodes, 0);
      DistinctFrom(nodes, 1);
      DistinctRest(nodes);
      head := l.next;
      l.next.size := l.size;
      l.next.prev := null;
      head.size := head.size - 1;
      nodes := nodes[1..];
      contents := contents[1..];
    }

    /** The two pointer assignments of the middle case. */
    method UnlinkMiddle(l: Node, ghost k: nat)
      requires Chain(nodes) && head == nodes[0] && 0 < k < |nodes| - 1 && l == nodes[k]
      modifies this`nodes, nodes
      ensures Chain(nodes) && nodes == Cut(old(nodes), k)
      ensures forall n :: n in old(nodes) ==>
        n.data == old(n.data) && n.copied == old(n.copied) && n.size == old(n.size)
    {
      hide NoDuplicates, Cut;
      ghost var was := nodes;
      NextOf(nodes, k);
      DistinctFrom(nodes, k - 1);
      DistinctFrom(nodes, k);
      DistinctFrom(nodes, k + 1);
      DistinctWithout(nodes, k);
      l.prev.next := l.next;
      l.next.prev := l.prev;
      nodes := Cut(nodes, k);
      CutAt(was, k);
    }

    method RemoveMiddle(l: Node, ghost k: nat)
      requires Valid() && 0 < k < |contents| && l == nodes[k]
      modifies this, nodes
      ensures Valid() && contents == Cut(old(contents), k) && nodes == Cut(old(nodes), k)
    {
      hide NoDuplicates, Cut;
      DistinctFrom(nodes, 0);
      CutAt(nodes, k);
      CutAt(contents, k);
      contents := Cut(contents, k);
      head.size := head.size - 1;
      UnlinkMiddle(l, k);
    }

    /** The two cases of c_list_remove; the sentinel is never removed. */
    method RemoveAt(l: Node, ghost k: nat)
      requires Valid() && k < |contents| && l == nodes[k]
      modifies this, nodes
      ensures Valid() && contents == Cut(old(contents), k) && nodes == Cut(old(nodes), k)
    {
      hide NoDuplicates, Cut;
      NextOf(nodes, k);
      if l.prev == null && l.next != null {
        CutAt(nodes, 0);
        CutAt(contents, 0);
        RemoveFirst();
      } else if l.prev != null && l.next != null {
        RemoveMiddle(l, k);
      } else {
        assert false;
      }
    }

    /** c_list_remove. NULL would match the sentinel, so it is never asked for. */
    method Remove(data: Data) returns (ghost k: nat)
      requires Valid() && data != NULL
      modifies this, nodes
      ensures Valid() && contents == Without(old(contents), data)
      ensures data !in old(contents) ==> nodes == old(nodes)
      ensures data in old(contents) ==>
        k < |old(contents)| && old(contents)[k] == data && data !in old(contents)[..k] && nodes == Cut(old(nodes), k)
      ensures forall i :: 0 <= i < |nodes| ==> nodes[i] in old(nodes)
    {
      hide NoDuplicates, Without, Chain, Cut;
      var l;
      l, k := Find(data);
      if l != null {
        RemovedFrom(contents, k, data);
        CutAt(nodes, k);
        RemoveAt(l, k);
      } else {
        WithoutNothing(contents, data);
      }
    }

    /** c_list_clear: the head node is kept and becomes the sentinel. */
    method Clear()
      requires Valid()
      modifies this, nodes
      ensures Valid() && contents == [] && nodes == [old(nodes)[0]]
    {
      head.data, head.copied, head.prev, head.next, head.size := NULL, false, null, null, 0;
      nodes := [head];
      contents := [];
    }

    // ------------------------------------------------------------ any mix of operations

    method Apply(op: Operation)
      requires Valid() && op.Ok()
      modifies this, nodes
      ensures Valid() && contents == Operated(old(contents), op)
      ensures forall k :: 0 <= k < |nodes| ==> nodes[k] in old(nodes) || fresh(nodes[k])
    {
      match op {
        case Push(data) => var _ := Push(data, false);
        case Insert(i, data) => var _ := Insert(i, data, false);
        case Remove(data) => var _ := Remove(data);
        case Clear => Clear();
      }
    }

    method Run(ops: seq<Operation>)
      requires Valid() && forall i :: 0 <= i < |ops| ==> ops[i].Ok()
      modifies this, nodes
      ensures Valid() && contents == OperatedAll(old(contents), ops)
      ensures forall k :: 0 <= k < |nodes| ==> nodes[k] in old(nodes) || fresh(nodes[k])
    {
      var i := 0;
      while i < |ops|
        invariant 0 <= i <= |ops| && Valid()
        invariant contents == OperatedAll(old(contents), ops[..i])
        invariant forall k :: 0 <= k < |nodes| ==> nodes[k] in old(nodes) || fresh(nodes[k])
      {
        Apply(ops[i]);
        assert ops[..i + 1][..i] == ops[..i];
        i := i + 1;
      }
      assert ops[..i] == ops;
    }

    // ------------------------------------------------------------ c_list_get, c_list_idx

    method Get(index: nat) returns (r: Data)
      requires Valid()
      ensures r == if index < |contents| then contents[index] else NULL
    {
      var l := head;
      var i := 0;
      while l.next != null
        invariant 0 <= i <= index && i < |nodes| && l == nodes[i]
        decreases |nodes| - i
      {
        NextOf(nodes, i);
        if i == index { return l.data; }
        l := l.next;
        i := i + 1;
      }
      NextOf(nodes, i);
      return NULL;
    }

    method Idx(data: Data) returns (r: int)
      requires Valid()
      ensures r >= 0 ==> r < |contents| && contents[r] == data && data !in contents[..r]
      ensures r < 0 ==> r == -1 && data !in contents
    {
      var l := head;
      var i := 0;
      while l.next != null
        invariant 0 <= i < |nodes| && l == nodes[i]
        invariant data !in contents[..i]
        decreases |nodes| - i
      {
        NextOf(nodes, i);
        if l.data == data { return i; }
        assert contents[..i + 1] == contents[..i] + [contents[i]];
        l := l.next;
        i := i + 1;
      }
      NextOf(nodes, i);
      assert contents[..i] == contents;
      return -1;
    }
  }

  lemma DistinctInsert<T>(s: seq<T>, k: nat, x: T)
    requires NoDuplicates(s) && x !in s && k <= |s|
    ensures NoDuplicates(InsertAt(s, k, x))
  {
  }

  lemma DistinctRest<T>(s: seq<T>)
    requires NoDuplicates(s) && |s| > 0
    ensures NoDuplicates(s[1..])
  {
  }

  lemma DistinctWithout<T>(s: seq<T>, k: nat)
    requires NoDuplicates(s) && k < |s|
    ensures NoDuplicates(Cut(s, k))
  {
  }

  lemma RemovedFrom<T>(s: seq<T>, k: nat, x: T)
    requires k < |s| && s[k] == x && x !in s[..k]
    ensures Without(s, x) == Cut(s, k)
  {
    WithoutMiddle(s[..k], x, s[k + 1..]);
    assert s == s[..k] + [x] + s[k + 1..];
  }
}
