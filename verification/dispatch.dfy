/** The second half of `c_wl_connection_dispatch`: the queued messages of a batch are dispatched in order
    until one fails, and the sync requests are answered after them. */
module Dispatching {
  import opened Wire
  import opened Messages

  const FATAL_ERR := -2

  /** What happens to a queued message: its object or opcode is refused before its arguments are read, or
      its handlers return a status. */
  datatype Reply = Refused | Handled(sig: Signature, status: int)

  function StatusOf(r: Reply): int { if r.Refused? then PROTO_ERR else r.status }

  predicate Stops(r: Reply) { StatusOf(r) == PROTO_ERR || StatusOf(r) == FATAL_ERR }

  datatype Call = Call(header: Header, args: seq<Arg>)

  /** How many messages are dispatched: up to the first that stops the loop, which is one of them. */
  function Served(replies: seq<Reply>): (n: nat)
    ensures n <= |replies|
    ensures forall k :: 0 <= k < n - 1 ==> !Stops(replies[k])
    ensures n < |replies| ==> n > 0 && Stops(replies[n - 1])
  {
    if replies == [] then 0 else if Stops(replies[0]) then 1 else 1 + Served(replies[1..])
  }

  lemma ServedFrom(replies: seq<Reply>, i: nat)
    requires i < |replies|
    ensures Served(replies[i..]) == if Stops(replies[i]) then 1 else 1 + Served(replies[i + 1..])
  {
    assert replies[i..][1..] == replies[i + 1..];
  }

  lemma ServedNothing(replies: seq<Reply>)
    ensures Served(replies[|replies|..]) == 0
  {
  }

  predicate Reads(b: seq<byte>, o: nat, r: Reply) {
    r.Handled? ==>
      o + HEADER_SIZE <= |b| && Readable(r.sig, b, o + HEADER_SIZE) && forall c :: c in r.sig ==> Supported(c)
  }

  lemma ReadsHandled(b: seq<byte>, o: nat, r: Reply)
    requires Reads(b, o, r) && r.Handled?
    ensures o + HEADER_SIZE <= |b| && Readable(r.sig, b, o + HEADER_SIZE)
    ensures forall k :: 0 <= k < |r.sig| ==> Supported(r.sig[k])
  {
    assert forall k :: 0 <= k < |r.sig| ==> r.sig[k] in r.sig;
  }

  /** The calls that handlers receive for the first n messages. */
  function Calls(b: seq<byte>, queued: seq<nat>, replies: seq<Reply>, n: nat): seq<Call>
    requires n <= |queued| == |replies| && forall k :: 0 <= k < |queued| ==> Reads(b, queued[k], replies[k])
  {
    if n == 0 then []
    else
      var o, r := queued[n - 1], replies[n - 1];
      Calls(b, queued, replies, n - 1) +
      (if r.Handled? then [Call(HeaderAt(b, o), ArgsAt(r.sig, b, o + HEADER_SIZE, |r.sig|))] else [])
  }

  /** Does the batch end before its sync requests are answered? */
  predicate Fatal(replies: seq<Reply>) {
    var n := Served(replies);
    n > 0 && StatusOf(replies[n - 1]) == FATAL_ERR
  }

  /** `ret` is not set when nothing is queued: then the caller sees whatever `unset` is. */
  method DispatchQueued(buffer: array<byte>, queued: seq<nat>, syncs: seq<u32>, replies: seq<Reply>, unset: int)
    returns (calls: seq<Call>, answered: seq<u32>, ret: int)
    requires |queued| == |replies| && forall k :: 0 <= k < |queued| ==> Reads(buffer[..], queued[k], replies[k])
    ensures calls == Calls(buffer[..], queued, replies, Served(replies))
    ensures answered == if Fatal(replies) then [] else syncs
    ensures ret ==
      if queued == [] then unset
      else if replies[Served(replies) - 1].Refused? then -1 else replies[Served(replies) - 1].status
  {
    hide Readable, ArgsAt, HeaderAt, Served, Reads;
    calls, answered, ret := [], [], unset;
    assert replies[0..] == replies;
    var i := 0;
    while i < |queued|
      invariant 0 <= i <= |queued| && calls == Calls(buffer[..], queued, replies, i)
      invariant Served(replies) == i + Served(replies[i..])
      invariant ret == if i == 0 then unset else StatusOf(replies[i - 1])
      invariant i > 0 ==> !Stops(replies[i - 1])
    {
      ServedFrom(replies, i);
      if replies[i].Handled? { ReadsHandled(buffer[..], queued[i], replies[i]); }
      match replies[i] {
        case Refused =>
          ret := PROTO_ERR;
        case Handled(sig, status) =>
          var header := ReadHeader(buffer, queued[i], buffer.Length);
          assert buffer[..buffer.Length] == buffer[..];
          var args := ReadArgs(buffer, queued[i], sig);
          calls := calls + [Call(header, args)];
          ret := status;
      }
      i := i + 1;
      if ret == PROTO_ERR { break; }
      if ret == FATAL_ERR { return; }
    }
    ServedNothing(replies);
    i := 0;
    while i < |syncs|
      invariant 0 <= i <= |syncs| && answered == syncs[..i]
    {
      answered := answered + [syncs[i]];
      i := i + 1;
    }
  }

  /** Did a message fail, by its code: refused, -1 a protocol error, -2 a fatal one? */
  predicate Failed(r: Reply) { r.Refused? || r.status == -1 || r.status == -2 }

  /** The first n messages are those dispatched: none but the last failed, and if there are more the last
      one did. */
  predicate Dispatched(replies: seq<Reply>, n: nat) {
    && n <= |replies| && (forall k :: 0 <= k < n - 1 ==> !Failed(replies[k]))
    && (n < |replies| ==> n > 0 && Failed(replies[n - 1]))
  }

  /** There is one such number. */
  lemma ServedExactly(replies: seq<Reply>, n: nat)
    ensures Dispatched(replies, n) <==> n == Served(replies)
  {
    assert forall r :: Failed(r) <==> Stops(r);
  }

  /** Whatever is queued behind a message that failed changes neither what is called nor what is returned. */
  lemma NothingBehind(buffer: seq<byte>, queued: seq<nat>, replies: seq<Reply>, n: nat)
    requires n <= |queued| == |replies| && forall k :: 0 <= k < |queued| ==> Reads(buffer, queued[k], replies[k])
    requires n > 0 && Failed(replies[n - 1])
    ensures Served(replies) == Served(replies[..n]) && Fatal(replies) == Fatal(replies[..n])
    ensures Calls(buffer, queued, replies, Served(replies)) ==
      Calls(buffer, queued[..n], replies[..n], Served(replies[..n]))
  {
    ServedBefore(replies, n);
    hide Reads, Served, Fatal;
    CallsPrefix(buffer, queued, replies, n, Served(replies));
  }

  lemma ServedBefore(replies: seq<Reply>, n: nat)
    requires 0 < n <= |replies| && Failed(replies[n - 1])
    ensures Served(replies) == Served(replies[..n]) <= n && Fatal(replies) == Fatal(replies[..n])
  {
    var s := Served(replies[..n]);
    ServedExactly(replies[..n], s);
    ServedExactly(replies, s);
    hide Served;
  }

  lemma {:induction false} CallsPrefix(b: seq<byte>, queued: seq<nat>, replies: seq<Reply>, n: nat, s: nat)
    requires s <= n <= |queued| == |replies| && forall k :: 0 <= k < |queued| ==> Reads(b, queued[k], replies[k])
    ensures Calls(b, queued[..n], replies[..n], s) == Calls(b, queued, replies, s)
  {
    hide Reads, Readable, ArgsAt, HeaderAt;
    if s > 0 {
      CallsPrefix(b, queued, replies, n, s - 1);
      assert Reads(b, queued[s - 1], replies[s - 1]);
      SameCall(b, queued, replies, n, s);
    }
  }

  lemma SameCall(b: seq<byte>, queued: seq<nat>, replies: seq<Reply>, n: nat, s: nat)
    requires 0 < s <= n <= |queued| == |replies| && Reads(b, queued[s - 1], replies[s - 1])
    ensures queued[..n][s - 1] == queued[s - 1] && replies[..n][s - 1] == replies[s - 1]
  {
  }

  /** The sync requests stay unanswered exactly when some dispatched message returned -2. */
  lemma FatalExactly(replies: seq<Reply>, n: nat)
    requires Dispatched(replies, n)
    ensures Fatal(replies) <==> exists k :: 0 <= k < n && replies[k].Handled? && replies[k].status == -2
  {
    ServedExactly(replies, n);
  }

  /** c_wl_connection_dispatch on what one recvmsg returned. `known` are the ids registered before. */
  method DispatchBatch(buffer: array<byte>, received: nat, known: set<u32>, replies: seq<Reply>, unset: int)
    returns (calls: seq<Call>, answered: seq<u32>, ret: int)
    requires received <= buffer.Length
    requires var r := Split(buffer[..received], 0, known);
      Manageable(r) && |replies| == |r.queued| &&
        forall k :: 0 <= k < |replies| ==> Reads(buffer[..], r.queued[k], replies[k])
    ensures var r := Split(buffer[..received], 0, known);
      if r.status != 0 then ret == r.status && calls == [] && answered == []
      else
        && calls == Calls(buffer[..], r.queued, replies, Served(replies))
        && answered == (if Fatal(replies) then [] else r.syncs)
        && ret == if r.queued == [] then unset
             else if replies[Served(replies) - 1].Refused? then -1 else replies[Served(replies) - 1].status
  {
    hide Split, Calls, Reads, Fatal;
    var queued, syncs, status := SplitBatch(buffer, received, known);
    if status != 0 { return [], [], status; }
    calls, answered, ret := DispatchQueued(buffer, queued, syncs, replies, unset);
  }

  // ---------------------------------------------------------------- from the sender to the handlers

  /** The calls that the first n of these messages stand for. */
  function Sent(ms: seq<Message>, replies: seq<Reply>, n: nat): seq<Call>
    requires n <= |ms| == |replies| && AllFit(ms)
  {
    if n == 0 then []
    else
      var m := ms[n - 1];
      Sent(ms, replies, n - 1) + (if replies[n - 1].Handled? then [Call(Header(m.id, m.op, Size(m)), m.args)] else [])
  }

  /** The receiver's table gives every opcode the signature its sender wrote by. */
  predicate Agreed(ms: seq<Message>, replies: seq<Reply>) {
    |replies| == |ms| && forall k :: 0 <= k < |ms| && replies[k].Handled? ==> replies[k].sig == SignatureOf(ms[k].args)
  }

  lemma OrdinaryFits(ms: seq<Message>)
    requires AllFit(ms)
    ensures AllFit(Ordinary(ms))
  {
    if ms != [] { OrdinaryFits(ms[1..]); }
  }

  lemma PrefixHolds(b: seq<byte>, n: nat, o: nat, m: Message)
    requires n <= |b| && HoldsAt(b[..n], o, m)
    ensures HoldsAt(b, o, m)
  {
    assert b[o..o + Size(m)] == b[..n][o..o + Size(m)];
  }

  lemma LettersSupported(args: seq<Arg>)
    ensures forall c :: c in SignatureOf(args) ==> Supported(c)
  {
    forall c | c in SignatureOf(args) ensures Supported(c) {
      var k :| 0 <= k < |args| && SignatureOf(args)[k] == c;
      assert c == Letter(args[k]);
    }
  }

  lemma {:induction false} CallsSent(b: seq<byte>, queued: seq<nat>, ms: seq<Message>, replies: seq<Reply>, n: nat)
    requires n <= |queued| == |ms| && Agreed(ms, replies) && AllFit(ms)
    requires forall k :: 0 <= k < |queued| ==> HoldsAt(b, queued[k], ms[k])
    ensures forall k :: 0 <= k < |queued| ==> Reads(b, queued[k], replies[k])
    ensures Calls(b, queued, replies, n) == Sent(ms, replies, n)
  {
    hide HoldsAt, HeaderAt, ArgsAt, Readable, SignatureOf, Size;
    forall k | 0 <= k < |queued| ensures Reads(b, queued[k], replies[k]) {
      Delivered(ms[k], b, queued[k]);
      LettersSupported(ms[k].args);
    }
    if n > 0 {
      CallsSent(b, queued, ms, replies, n - 1);
      MessageRead(ms[n - 1], b, queued[n - 1]);
    }
  }

  /** A batch from its sender to the handlers: each ordinary message up to the first that stops the batch
      arrives once, in order, with the arguments it was sent with, unless its object or opcode is unknown;
      and the sync requests have their ids. */
  lemma BatchServed(ms: seq<Message>, buffer: seq<byte>, received: nat, known: set<u32>, replies: seq<Reply>)
    requires AllFit(ms) && SyncsOk(ms, known) && received <= |buffer| && buffer[..received] == Concat(ms)
    requires Agreed(Ordinary(ms), replies)
    ensures AllFit(Ordinary(ms))
    ensures var r := Split(buffer[..received], 0, known);
      && r.status == 0 && r.syncs == SyncIds(ms, known) && |r.queued| == |replies|
      && (forall k :: 0 <= k < |replies| ==> Reads(buffer, r.queued[k], replies[k]))
      && forall n :: 0 <= n <= |replies| ==> Calls(buffer, r.queued, replies, n) == Sent(Ordinary(ms), replies, n)
  {
    hide Split, HoldsAt, Reads, Calls, Sent, Agreed;
    var b := buffer[..received];
    assert b[0..] == b;
    OrdinaryFits(ms);
    SplitConcat(ms, b, 0, known);
    var r := Split(b, 0, known);
    assert |Ordinary(ms)| == |replies| by { AgreedSize(Ordinary(ms), replies); }
    forall k | 0 <= k < |r.queued| ensures HoldsAt(buffer, r.queued[k], Ordinary(ms)[k]) {
      PrefixHolds(buffer, received, r.queued[k], Ordinary(ms)[k]);
    }
    CallsSent(buffer, r.queued, Ordinary(ms), replies, 0);
    forall n | 0 <= n <= |replies| ensures Calls(buffer, r.queued, replies, n) == Sent(Ordinary(ms), replies, n) {
      CallsSent(buffer, r.queued, Ordinary(ms), replies, n);
    }
  }

  lemma AgreedSize(ms: seq<Message>, replies: seq<Reply>)
    requires Agreed(ms, replies)
    ensures |ms| == |replies|
  {
  }
}
