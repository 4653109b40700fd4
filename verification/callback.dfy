/** `util/callback.h`: the walk that calls every listener of a list while listeners take themselves off
    that list. */
module CallbackWalk {
  import opened ListSpec
  import opened LinkedList

  /** What the walk leaves behind: the listeners that did not remove themselves, in order. */
  function Remaining(s: seq<Data>, leaving: set<Data>): seq<Data> {
    if s == [] then []
    else Remaining(s[..|s| - 1], leaving) + (if s[|s| - 1] in leaving then [] else [s[|s| - 1]])
  }

  lemma {:induction false} RemainingElements(s: seq<Data>, leaving: set<Data>)
    ensures forall x :: x in Remaining(s, leaving) <==> x in s && x !in leaving
    ensures |Remaining(s, leaving)| <= |s|
  {
    if s != [] {
      RemainingElements(s[..|s| - 1], leaving);
      assert s == s[..|s| - 1] + [s[|s| - 1]];
    }
  }

  /** The walk has called the first i listeners of `all`. */
  ghost predicate Called(list: List, all: seq<Data>, leaving: set<Data>, i: nat, l: Node?)
    reads list, list.nodes
  {
    && list.Valid() && i <= |all|
    && list.contents == Remaining(all[..i], leaving) + all[i..]
    && |Remaining(all[..i], leaving)| < |list.nodes| && l == list.nodes[|Remaining(all[..i], leaving)|]
  }

  lemma RemainingNext(all: seq<Data>, leaving: set<Data>, i: nat)
    requires i < |all|
    ensures Remaining(all[..i + 1], leaving) ==
      Remaining(all[..i], leaving) + (if all[i] in leaving then [] else [all[i]])
    ensures all[i..] == [all[i]] + all[i + 1..]
  {
    assert all[..i + 1][..i] == all[..i];
  }

  lemma Without1(done: seq<Data>, x: Data, rest: seq<Data>)
    requires x !in done
    ensures Without(done + ([x] + rest), x) == done + rest
  {
    assert done + ([x] + rest) == done + [x] + rest;
    WithoutMiddle(done, x, rest);
  }

  lemma PrefixMembers(s: seq<Data>, k: nat)
    requires k <= |s|
    ensures forall j :: 0 <= j < k ==> s[j] in s[..k]
  {
    forall j | 0 <= j < k ensures s[j] in s[..k] { assert s[..k][j] == s[j]; }
  }

  /** Where the first occurrence is, given that it is not among the first |done|. */
  lemma FoundAt(done: seq<Data>, x: Data, rest: seq<Data>, k: nat)
    requires x !in done && k < |done + ([x] + rest)| && (done + ([x] + rest))[k] == x
    requires x !in (done + ([x] + rest))[..k]
    ensures k == |done|
  {
    var s := done + ([x] + rest);
    assert forall j :: 0 <= j < |done| ==> s[j] == done[j];
    assert s[|done|] == x;
    PrefixMembers(s, k);
  }

  lemma NotCalledYet(all: seq<Data>, leaving: set<Data>, i: nat)
    requires NoDuplicates(all) && i < |all|
    ensures all[i] !in Remaining(all[..i], leaving)
  {
    RemainingElements(all[..i], leaving);
  }

  /** c_callback_remove on the listener that is being called: the one after it moves into its place. */
  method RemoveSelf(list: List, cb: Data, ghost done: seq<Data>, ghost rest: seq<Data>, ghost region: set<Node>)
    requires list.Valid() && cb != NULL && list.contents == done + ([cb] + rest) && cb !in done
    requires forall n :: n in list.nodes ==> n in region
    modifies list, region
    ensures list.Valid() && list.contents == done + rest && |done| + 1 < |old(list.nodes)|
    ensures list.nodes[|done|] == old(list.nodes)[|done| + 1]
    ensures forall n :: n in list.nodes ==> n in region
  {
    hide Chain, NoDuplicates, Without;
    assert list.contents[|done|] == cb;
    ghost var k := list.Remove(cb);
    FoundAt(done, cb, rest, k);
    Without1(done, cb, rest);
  }

  /** The body of the loop; a listener in `leaving` calls c_callback_remove on itself. */
  method NotifyOne(list: List, leaving: set<Data>, l: Node, ghost all: seq<Data>, ghost i: nat, ghost region: set<Node>)
    returns (next: Node?, cb: Data)
    requires Called(list, all, leaving, i, l) && l.next != null && NoDuplicates(all) && NULL !in all
    requires forall n :: n in list.nodes ==> n in region
    modifies list, region
    ensures i < |all| && cb == all[i] && Called(list, all, leaving, i + 1, next)
    ensures forall n :: n in list.nodes ==> n in region
  {
    hide Chain, Remaining, NoDuplicates, Without;
    ghost var done := Remaining(all[..i], leaving);
    NextOf(list.nodes, |done|);
    assert |list.contents| == |done| + |all[i..]|;
    RemainingNext(all, leaving, i);
    next := l.next;
    cb := l.data;
    if cb in leaving {
      NotCalledYet(all, leaving, i);
      RemoveSelf(list, cb, done, all[i + 1..], region);
    } else {
      assert done + [cb] + all[i + 1..] == done + ([cb] + all[i + 1..]);
    }
  }

  /** c_callback_notify_all: every listener present at the start is called once, in order. */
  method NotifyAll(list: List, leaving: set<Data>) returns (called: seq<Data>)
    requires list.Valid() && NoDuplicates(list.contents) && NULL !in list.contents
    modifies list, list.nodes
    ensures list.Valid()
    ensures called == old(list.contents)
    ensures list.contents == Remaining(old(list.contents), leaving)
  {
    hide Remaining, NoDuplicates, Chain, Called;
    ghost var all, region := list.contents, set n | n in list.nodes;
    called := [];
    var l: Node? := list.head;
    NoneCalled(list, leaving);
    ghost var i := 0;
    while l != null && l.next != null
      invariant i <= |all| && called == all[..i] && Called(list, all, leaving, i, l)
      invariant forall n :: n in list.nodes ==> n in region
      decreases |all| - i
    {
      var next, cb := NotifyOne(list, leaving, l, all, i, region);
      called := called + [cb];
      l := next;
      i := i + 1;
    }
    AllCalled(list, all, leaving, i, l);
    assert all[..i] == all;
  }

  lemma NoneCalled(list: List, leaving: set<Data>)
    requires list.Valid()
    ensures Called(list, list.contents, leaving, 0, list.head)
  {
    assert list.contents[..0] == [] && list.contents[0..] == list.contents;
  }

  lemma AllCalled(list: List, all: seq<Data>, leaving: set<Data>, i: nat, l: Node?)
    requires Called(list, all, leaving, i, l) && (l == null || l.next == null)
    ensures i == |all| && list.Valid() && list.contents == Remaining(all, leaving)
  {
    NextOf(list.nodes, |Remaining(all[..i], leaving)|);
    assert |list.contents| == |Remaining(all[..i], leaving)| + |all[i..]|;
    assert all[..|all|] == all;
  }
}
