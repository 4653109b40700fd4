/** One client connection and the C primitives its request handlers are written in:
    `c_ref`, `c_unref`, pointer assignment, allocation and the object registry. */
module ClientState {
  import opened ListSpec
  import opened Memory
  import opened Erasure

  datatype Event = Done(id: Id) | DeleteId(id: Id) | Release(id: Id) | PresentedTo(id: Id) | Discarded(id: Id)

  const SERVER_BASE: Id := 0xFF000000

  /** The client hears of the end of its own ids, not of those the server allocates. */
  function DeletedId(id: Id): seq<Event> { if id < SERVER_BASE then [DeleteId(id)] else [] }

  class Client {
    var mem: map<Ptr, Block>
    var reg: map<Id, Object>
    var cbs: map<Ptr, Callback>
    var scene: map<nat, seq<Ptr>>
    var lists: map<OutputId, seq<Ptr>>
    var sent: seq<Event>

    function H(): Heap
      reads this
    {
      Heap(mem, reg, cbs, scene)
    }

    constructor ()
      ensures mem == map[] && reg == NEW_REGISTRY && cbs == map[] && scene == map[] && lists == map[] && sent == []
    {
      mem, reg, cbs, scene, lists, sent := map[], NEW_REGISTRY, map[], map[], map[], [];
    }

    // ------------------------------------------------------------ util/mem.c

    method Ref(p: Ptr)
      requires p in mem && p != NULL
      modifies this`mem
      ensures mem == old(mem)[p := Block(old(mem)[p].refs + 1, old(mem)[p].body)]
      ensures forall q :: q != NULL ==> Extra(H(), q) == Extra(old(H()), q) + Is(q == p)
      ensures forall t :: Target(H(), t) == Target(old(H()), t)
    {
      ghost var h := H();
      mem := mem[p := Block(mem[p].refs + 1, mem[p].body)];
      SameBodies(h, H());
      forall q | q != NULL ensures Extra(H(), q) == Extra(h, q) + Is(q == p) { CountChange(h, H(), q); }
    }

    method Unref(p: Ptr)
      requires Droppable(mem, p)
      modifies this`mem
      ensures mem == Drop(old(mem), p)
      ensures Shrinks(old(mem), mem, p)
      ensures forall q :: q != NULL ==> Extra(H(), q) == Extra(old(H()), q) - Is(q == p) + GivenBack(old(mem), p, q)
      ensures forall t :: Target(H(), t) == if Freed(old(mem), p) && Owns(t, p) then NULL else Target(old(H()), t)
      ensures !(Freed(old(mem), p) && HasCallback(old(mem)[p].body)) ==> Weakens(old(H()), H())
      ensures RolesKept(old(H()), H())
    {
      hide Extra, In, Target, Weakens, RolesKept, Shrinks, GivenBack;
      ghost var h := H();
      if mem[p].refs > 1 {
        mem := mem[p := Block(mem[p].refs - 1, mem[p].body)];
      } else {
        if mem[p].body.Buffer? {
          UnrefLeaf(mem[p].body.pixels);
          UnrefLeaf(mem[p].body.pool);
        }
        mem := mem - {p};
      }
      DropExtra(h, H(), p);
      DropShrinks(h.mem, p);
      DropWeakens(h, H(), p);
    }

    /** c_unref on an object that somebody else holds too. */
    method UnrefShared(p: Ptr)
      requires Droppable(mem, p) && mem[p].refs >= 2
      modifies this`mem
      ensures mem == old(mem)[p := Block(old(mem)[p].refs - 1, old(mem)[p].body)]
      ensures forall q :: q != NULL ==> Extra(H(), q) == Extra(old(H()), q) - Is(q == p)
      ensures forall t :: Target(H(), t) == Target(old(H()), t)
      ensures Weakens(old(H()), H()) && RolesKept(old(H()), H())
    {
      hide Extra, In, Target, Weakens, RolesKept;
      Unref(p);
    }

    method UnrefLeaf(p: Ptr)
      modifies this`mem
      ensures mem == DropLeaf(old(mem), p)
    {
      if p == NULL || p !in mem { return; }
      if mem[p].refs > 1 {
        mem := mem[p := Block(mem[p].refs - 1, mem[p].body)];
      } else {
        mem := mem - {p};
      }
    }

    method Alloc(p: Ptr, body: Body)
      requires p !in mem && p != NULL && forall f :: Get(body, f) == NULL
      requires body.Surface? ==> body.children == []
      modifies this`mem
      ensures mem == old(mem)[p := Block(1, body)]
      ensures forall q :: q != NULL ==> Extra(H(), q) == Extra(old(H()), q) + Is(q == p)
      ensures forall t :: Target(H(), t) == Target(old(H()), t)
    {
      ghost var h := H();
      mem := mem[p := Block(1, body)];
      forall t ensures Target(H(), t) == Target(h, t) {
        match t
        case Reg(id) =>
        case At(o, f) =>
        case Child(o, c) =>
        case Armed(a) =>
        case Quad(n, i) =>
      }
      forall q | q != NULL ensures Extra(H(), q) == Extra(h, q) + Is(q == p) { CountChange(h, H(), q); }
    }

    /** The assignment `o->f = v`. */
    method Set(o: Ptr, f: Field, v: Ptr)
      requires o in mem && Has(mem[o].body, f)
      modifies this`mem
      ensures mem == old(mem)[o := Block(old(mem)[o].refs, Put(old(mem)[o].body, f, v))]
      ensures forall q :: q != NULL ==>
        Extra(H(), q) == Extra(old(H()), q) + Is(Target(old(H()), At(o, f)) == q) - Is(v == q)
      ensures forall t :: Target(H(), t) == if t == At(o, f) then v else Target(old(H()), t)
      ensures LinkField(f) && v == NULL ==> Weakens(old(H()), H()) && RolesKept(old(H()), H())
    {
      ghost var h := H();
      mem := mem[o := Block(mem[o].refs, Put(mem[o].body, f, v))];
      PutWeakens(h, H(), o, f, v);
      forall t ensures Target(H(), t) == if t == At(o, f) then v else Target(h, t) {
        match t
        case Reg(id) =>
        case At(_, _) =>
        case Child(_, _) => PutKeepsChildren(h.mem[o].body, f, v);
        case Armed(a) =>
        case Quad(n, i) =>
      }
      SlotChange(h, H(), At(o, f));
    }

    /** Assignments that touch no counted pointer. */
    method Note(o: Ptr, b: Body)
      requires o in mem && SamePointers(mem[o].body, b)
      modifies this`mem
      ensures mem == old(mem)[o := Block(old(mem)[o].refs, b)]
      ensures forall q :: q != NULL ==> Extra(H(), q) == Extra(old(H()), q)
      ensures forall t :: Target(H(), t) == Target(old(H()), t)
    {
      ghost var h := H();
      mem := mem[o := Block(mem[o].refs, b)];
      forall t ensures Target(H(), t) == Target(h, t) {
        match t
        case Reg(id) =>
        case At(_, _) =>
        case Child(_, _) =>
        case Armed(a) =>
        case Quad(n, i) =>
      }
      forall q | q != NULL ensures Extra(H(), q) == Extra(h, q) { CountChange(h, H(), q); }
    }

    method SetRole(s: Ptr, role: Role)
      requires s in mem && mem[s].body.Surface?
      modifies this`mem
      ensures mem == old(mem)[s := Block(old(mem)[s].refs, old(mem)[s].body.(role := role))]
      ensures forall q :: q != NULL ==> Extra(H(), q) == Extra(old(H()), q)
      ensures forall t :: Target(H(), t) == Target(old(H()), t)
      ensures role == NoRole ==> Weakens(old(H()), H())
    {
      Note(s, mem[s].body.(role := role));
    }

    /** The C_WL_SURFACE_STATE_BUFFER bit of the pending state. */
    method SetAttached(s: Ptr, attached: bool)
      requires s in mem && mem[s].body.Surface?
      modifies this`mem
      ensures mem == old(mem)[s := Block(old(mem)[s].refs, old(mem)[s].body.(attached := attached))]
      ensures forall q :: q != NULL ==> Extra(H(), q) == Extra(old(H()), q)
      ensures forall t :: Target(H(), t) == Target(old(H()), t)
    {
      Note(s, mem[s].body.(attached := attached));
    }

    method SetFrames(s: Ptr, frames: seq<Id>, feedbacks: seq<Id>)
      requires s in mem && mem[s].body.Surface?
      modifies this`mem
      ensures mem == old(mem)[s := Block(old(mem)[s].refs, old(mem)[s].body.(frames := frames, feedbacks := feedbacks))]
      ensures forall q :: q != NULL ==> Extra(H(), q) == Extra(old(H()), q)
      ensures forall t :: Target(H(), t) == Target(old(H()), t)
    {
      Note(s, mem[s].body.(frames := frames, feedbacks := feedbacks));
    }

    method SetSurfaceCallbacks(s: Ptr, frameCb: Ptr, feedbackCb: Ptr)
      requires s in mem && mem[s].body.Surface?
      modifies this`mem
      ensures mem ==
        old(mem)[s := Block(old(mem)[s].refs, old(mem)[s].body.(frameCb := frameCb, feedbackCb := feedbackCb))]
      ensures forall q :: q != NULL ==> Extra(H(), q) == Extra(old(H()), q)
      ensures forall t :: Target(H(), t) == Target(old(H()), t)
    {
      Note(s, mem[s].body.(frameCb := frameCb, feedbackCb := feedbackCb));
    }

    method SetOutput(s: Ptr, o: OutputId)
      requires s in mem && mem[s].body.Surface?
      modifies this`mem
      ensures mem == old(mem)[s := Block(old(mem)[s].refs, old(mem)[s].body.(output := o))]
      ensures forall q :: q != NULL ==> Extra(H(), q) == Extra(old(H()), q)
      ensures forall t :: Target(H(), t) == Target(old(H()), t)
    {
      Note(s, mem[s].body.(output := o));
    }

    method SetBufferCallback(b: Ptr, cb: Ptr)
      requires b in mem && mem[b].body.Buffer?
      modifies this`mem
      ensures mem == old(mem)[b := Block(old(mem)[b].refs, old(mem)[b].body.(cb := cb))]
      ensures forall q :: q != NULL ==> Extra(H(), q) == Extra(old(H()), q)
      ensures forall t :: Target(H(), t) == Target(old(H()), t)
    {
      Note(b, mem[b].body.(cb := cb));
    }

    // ------------------------------------------------------------ lists of children

    method ChildPush(s: Ptr, ss: Ptr)
      requires s in mem && mem[s].body.Surface? && ss != NULL && ss !in mem[s].body.children
      modifies this`mem
      ensures mem ==
        old(mem)[s := Block(old(mem)[s].refs, old(mem)[s].body.(children := old(mem)[s].body.children + [ss]))]
      ensures forall q :: q != NULL ==> Extra(H(), q) == Extra(old(H()), q) - Is(q == ss)
      ensures forall t :: Target(H(), t) == if t == Child(s, ss) then ss else Target(old(H()), t)
    {
      ghost var h := H();
      mem := mem[s := Block(mem[s].refs, mem[s].body.(children := mem[s].body.children + [ss]))];
      forall t ensures Target(H(), t) == if t == Child(s, ss) then ss else Target(h, t) {
        match t
        case Reg(id) =>
        case At(o, f) =>
        case Child(o, c) =>
        case Armed(a) =>
        case Quad(n, i) =>
      }
      SlotChange(h, H(), Child(s, ss));
    }

    /** c_list_remove on a list of children: the first match goes. */
    method ChildRemove(s: Ptr, ss: Ptr)
      requires s in mem && mem[s].body.Surface? && NoDuplicates(mem[s].body.children) && ss != NULL
      modifies this`mem
      ensures mem.Keys == old(mem).Keys && Weakens(old(H()), H()) && RolesKept(old(H()), H())
      ensures forall q :: q in mem && q != s ==> mem[q] == old(mem)[q]
      ensures mem[s] == Block(old(mem)[s].refs, old(mem)[s].body.(children := Without(old(mem)[s].body.children, ss)))
      ensures forall q :: q != NULL ==>
        Extra(H(), q) == Extra(old(H()), q) + Is(q == ss && ss in old(mem)[s].body.children)
      ensures forall t :: Target(H(), t) == if t == Child(s, ss) then NULL else Target(old(H()), t)
    {
      ghost var h := H();
      WithoutElements(mem[s].body.children, ss);
      mem := mem[s := Block(mem[s].refs, mem[s].body.(children := Without(mem[s].body.children, ss)))];
      forall t ensures Target(H(), t) == if t == Child(s, ss) then NULL else Target(h, t) {
        match t
        case Reg(id) =>
        case At(o, f) =>
        case Child(o, c) =>
        case Armed(a) =>
        case Quad(n, i) =>
      }
      SlotChange(h, H(), Child(s, ss));
    }

    /** c_list_destroy on the list of children, and the NULL assignment after it. */
    method ChildrenDestroy(s: Ptr)
      requires s in mem && mem[s].body.Surface?
      modifies this`mem
      ensures mem == old(mem)[s := Block(old(mem)[s].refs, old(mem)[s].body.(children := []))]
      ensures Weakens(old(H()), H()) && RolesKept(old(H()), H())
      ensures forall q :: q != NULL ==> Extra(H(), q) == Extra(old(H()), q) + Is(q in old(mem)[s].body.children)
      ensures forall t :: Target(H(), t) == if t.Child? && t.owner == s then NULL else Target(old(H()), t)
    {
      ghost var h := H();
      mem := mem[s := Block(mem[s].refs, mem[s].body.(children := []))];
      ChildrenCleared(h, H(), s);
    }

    // ------------------------------------------------------------ output callback lists

    function List(o: OutputId): seq<Ptr>
      reads this
    {
      ListOf(lists, o)
    }

    /** c_output_listen: a node at address a joins the end of o's list. */
    method Listen(o: OutputId, l: Listener, p: Ptr, a: Ptr)
      requires a !in cbs && a != NULL && (l.BufferReleased? ==> p != NULL)
      modifies this`cbs, this`lists
      ensures cbs == old(cbs)[a := Callback(l, p, o)]
      ensures lists == old(lists)[o := old(List(o)) + [a]]
      ensures forall q :: q != NULL ==> Extra(H(), q) == Extra(old(H()), q) - Is(l.BufferReleased? && q == p)
      ensures forall t :: Target(H(), t) == if t == Armed(a) && l.BufferReleased? then p else Target(old(H()), t)
    {
      ghost var h := H();
      lists := lists[o := List(o) + [a]];
      cbs := cbs[a := Callback(l, p, o)];
      SlotChange(h, H(), Armed(a));
    }

    /** c_callback_remove on o's list. */
    method CallbackRemove(o: OutputId, a: Ptr)
      requires a in cbs && NoDuplicates(List(o))
      modifies this`cbs, this`lists
      ensures cbs == old(cbs) - {a}
      ensures lists == old(lists)[o := Without(old(List(o)), a)]
      ensures forall q :: q != NULL ==>
        Extra(H(), q) == Extra(old(H()), q) + Is(old(cbs)[a].listener.BufferReleased? && q == old(cbs)[a].userdata)
      ensures forall t :: Target(H(), t) == if t == Armed(a) then NULL else Target(old(H()), t)
    {
      ghost var h := H();
      lists := lists[o := Without(List(o), a)];
      cbs := cbs - {a};
      SlotChange(h, H(), Armed(a));
    }

    // ------------------------------------------------------------ wayland/server.c: registry

    method ObjectAdd(id: Id, kind: Kind, data: Ptr)
      requires id !in reg
      modifies this`reg
      ensures reg == old(reg)[id := Object(kind, data)]
      ensures forall q :: q != NULL ==> Extra(H(), q) == Extra(old(H()), q) - Is(q == data)
      ensures forall t :: Target(H(), t) == if t == Reg(id) then data else Target(old(H()), t)
    {
      ghost var h := H();
      reg := reg[id := Object(kind, data)];
      SlotChange(h, H(), Reg(id));
    }

    method ObjectDel(id: Id) returns (status: int)
      requires id in reg && reg[id].data != NULL ==> Droppable(mem, reg[id].data)
      modifies this`reg, this`mem, this`sent
      ensures id !in old(reg) ==> status == 1 && reg == old(reg) && mem == old(mem) && sent == old(sent)
      ensures id in old(reg) ==>
        && status == 0 && reg == old(reg) - {id} && sent == old(sent) + DeletedId(id)
        && var p := old(reg)[id].data;
        && (if p == NULL then mem == old(mem) else mem == Drop(old(mem), p) && Shrinks(old(mem), mem, p))
        && (forall q :: q != NULL ==>
             Extra(H(), q) == Extra(old(H()), q) + (if p == NULL then 0 else GivenBack(old(mem), p, q)))
        && (forall t :: Target(H(), t) ==
             if t == Reg(id) || (p != NULL && Freed(old(mem), p) && Owns(t, p)) then NULL else Target(old(H()), t))
        && (p == NULL || !Freed(old(mem), p) || !HasCallback(old(mem)[p].body) ==> Weakens(old(H()), H()))
        && RolesKept(old(H()), H())
    {
      hide Extra, In, Weakens, Shrinks, GivenBack;
      if id !in reg { return 1; }
      if reg[id].data != NULL {
        Unref(reg[id].data);
      }
      ghost var h := H();
      reg := reg - {id};
      SlotChange(h, H(), Reg(id));
      SameMemory(old(H()), h, H());
      sent := sent + DeletedId(id);
      return 0;
    }
  }

  function ListOf(lists: map<OutputId, seq<Ptr>>, o: OutputId): seq<Ptr> {
    if o in lists then lists[o] else []
  }

  /** The lists after a node joins the end of o's, if it does. */
  function Joined(lists: map<OutputId, seq<Ptr>>, joins: bool, o: OutputId, a: Ptr): map<OutputId, seq<Ptr>> {
    if joins then lists[o := ListOf(lists, o) + [a]] else lists
  }

  /** The lists after a node leaves o's, if it does. */
  function Parted(lists: map<OutputId, seq<Ptr>>, leaves: bool, o: OutputId, a: Ptr): map<OutputId, seq<Ptr>> {
    if leaves then lists[o := Without(ListOf(lists, o), a)] else lists
  }

  /** Each output's list holds exactly the nodes that name that output, each once. */
  ghost predicate ListsOk(lists: map<OutputId, seq<Ptr>>, cbs: map<Ptr, Callback>) {
    && (forall o, a :: a in ListOf(lists, o) <==> a in cbs && cbs[a].output == o)
    && (forall o :: NoDuplicates(ListOf(lists, o)))
  }

  lemma ListenKeepsLists(lists: map<OutputId, seq<Ptr>>, cbs: map<Ptr, Callback>, a: Ptr, k: Callback)
    requires ListsOk(lists, cbs) && a !in cbs
    ensures ListsOk(lists[k.output := ListOf(lists, k.output) + [a]], cbs[a := k])
  {
    var lists' := lists[k.output := ListOf(lists, k.output) + [a]];
    assert a !in ListOf(lists, k.output);
    forall o, b ensures b in ListOf(lists', o) <==> b in cbs[a := k] && cbs[a := k][b].output == o {
      if o != k.output { assert ListOf(lists', o) == ListOf(lists, o); }
    }
    forall o ensures NoDuplicates(ListOf(lists', o)) {
      assert o != k.output ==> ListOf(lists', o) == ListOf(lists, o);
    }
  }

  lemma RemoveKeepsLists(lists: map<OutputId, seq<Ptr>>, cbs: map<Ptr, Callback>, a: Ptr)
    requires ListsOk(lists, cbs) && a in cbs
    ensures var o := cbs[a].output; ListsOk(lists[o := Without(ListOf(lists, o), a)], cbs - {a})
  {
    var k := cbs[a].output;
    var lists' := lists[k := Without(ListOf(lists, k), a)];
    WithoutElements(ListOf(lists, k), a);
    forall o, b ensures b in ListOf(lists', o) <==> b in cbs - {a} && (cbs - {a})[b].output == o {
      if o != k { assert ListOf(lists', o) == ListOf(lists, o); }
    }
    forall o ensures NoDuplicates(ListOf(lists', o)) {
      assert o != k ==> ListOf(lists', o) == ListOf(lists, o);
    }
  }

  lemma ChildrenCleared(h: Heap, h': Heap, s: Ptr)
    requires s in h.mem && h.mem[s].body.Surface?
    requires h' == h.(mem := h.mem[s := Block(h.mem[s].refs, h.mem[s].body.(children := []))])
    ensures Weakens(h, h') && RolesKept(h, h')
    ensures forall q :: q != NULL ==> Extra(h', q) == Extra(h, q) + Is(q in h.mem[s].body.children)
    ensures forall t :: Target(h', t) == if t.Child? && t.owner == s then NULL else Target(h, t)
  {
    forall t ensures Target(h', t) == if t.Child? && t.owner == s then NULL else Target(h, t) {
      match t
      case Reg(id) =>
      case At(o, f) =>
      case Child(o, c) =>
      case Armed(a) =>
      case Quad(n, i) =>
    }
    forall q | q != NULL ensures Extra(h', q) == Extra(h, q) + Is(q in h.mem[s].body.children) {
      ChildCleared(h, h', s, q);
    }
  }

  lemma ChildCleared(h: Heap, h': Heap, s: Ptr, q: Ptr)
    requires s in h.mem && h.mem[s].body.Surface? && q != NULL && Refs(h', q) == Refs(h, q)
    requires forall t :: Target(h', t) == if t.Child? && t.owner == s then NULL else Target(h, t)
    ensures Extra(h', q) == Extra(h, q) + Is(q in h.mem[s].body.children)
  {
    var i := In(h, q);
    assert In(h', q) == i - {Child(s, q)};
    assert Child(s, q) in i <==> q in h.mem[s].body.children;
  }

  ghost predicate SamePointers(a: Body, b: Body) {
    && (forall f :: Get(a, f) == Get(b, f))
    && (a.Surface? <==> b.Surface?)
    && (a.Surface? ==> a.children == b.children)
  }

  lemma PutKeepsChildren(b: Body, f: Field, v: Ptr)
    requires Has(b, f)
    ensures Put(b, f, v).Surface? == b.Surface?
    ensures b.Surface? ==> Put(b, f, v).children == b.children
  {
  }

  lemma SameBodies(h: Heap, h': Heap)
    requires h'.reg == h.reg && h'.cbs == h.cbs && h'.scene == h.scene && h'.mem.Keys == h.mem.Keys
    requires forall p :: p in h.mem ==> h'.mem[p].body == h.mem[p].body
    ensures forall t :: Target(h', t) == Target(h, t)
  {
    forall t ensures Target(h', t) == Target(h, t) {
      match t
      case Reg(id) =>
      case At(o, f) =>
      case Child(o, c) =>
      case Armed(a) =>
      case Quad(n, i) =>
    }
  }

  lemma SameMemory(h: Heap, h': Heap, h'': Heap)
    requires h''.mem == h'.mem && h''.cbs == h'.cbs
    ensures Weakens(h, h') ==> Weakens(h, h'')
    ensures h.mem == h'.mem && h.cbs == h'.cbs ==> Weakens(h, h'')
  {
  }

  lemma PutWeakens(h: Heap, h': Heap, o: Ptr, f: Field, v: Ptr)
    requires o in h.mem && Has(h.mem[o].body, f)
    requires h' == h.(mem := h.mem[o := Block(h.mem[o].refs, Put(h.mem[o].body, f, v))])
    ensures LinkField(f) && v == NULL ==> Weakens(h, h') && RolesKept(h, h')
  {
  }
}
