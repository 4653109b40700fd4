/** Whole messages: `c_wl_connection_post` marshals its arguments, `dispatch` reads them back by
    signature, and `c_wl_connection_dispatch` cuts a batch into messages. */
module Messages {
  import opened Wire

  datatype Arg =
    | Int(i: i32)
    | Uint(u: u32)
    | Fixed(f: i32)
    | ObjectId(o: u32)
    | NewId(n: u32)
    | Enum(e: u32)
    | Str(s: seq<byte>)
    | NoStr

  type Signature = seq<char>

  function Letter(a: Arg): char {
    match a
    case Int(_) => 'i'
    case Uint(_) => 'u'
    case Fixed(_) => 'f'
    case ObjectId(_) => 'o'
    case NewId(_) => 'n'
    case Enum(_) => 'e'
    case Str(_) | NoStr => 's'
  }

  predicate Supported(c: char) { c in {'i', 'u', 'f', 'o', 'n', 'e', 's'} }

  /** A string the receiver accepts: no terminator inside, and short enough for its buffer. */
  predicate StringFits(s: seq<byte>) { |s| + 1 < STRING_SIZE && 0 !in s }

  /** What can be posted: `NoStr` is only ever received. */
  predicate ArgFits(a: Arg) { if a.Str? then StringFits(a.s) else !a.NoStr? }

  predicate ArgsFit(args: seq<Arg>) { forall k :: 0 <= k < |args| ==> ArgFits(args[k]) }

  function SignatureOf(args: seq<Arg>): (r: Signature)
    ensures |r| == |args|
  {
    seq(|args|, k requires 0 <= k < |args| => Letter(args[k]))
  }

  // ---------------------------------------------------------------- bytes of arguments

  /** The word an argument other than a string is written as. */
  function WordOf(a: Arg): u32
    requires !a.Str? && !a.NoStr?
  {
    match a
    case Int(i) => Unsigned(i)
    case Uint(u) => u
    case Fixed(f) => Unsigned(f)
    case ObjectId(o) => o
    case NewId(n) => n
    case Enum(e) => e
  }

  function ArgBytes(a: Arg): (r: seq<byte>)
    requires ArgFits(a)
    ensures |r| % 4 == 0 && |r| >= 4
  {
    if a.Str? then StringBytes(a.s) else Bytes32(WordOf(a))
  }

  function ArgsBytes(args: seq<Arg>): (r: seq<byte>)
    requires ArgsFit(args)
  {
    if args == [] then [] else ArgsBytes(args[..|args| - 1]) + ArgBytes(args[|args| - 1])
  }

  // ---------------------------------------------------------------- reading

  /** How many bytes the argument at offset o takes, if reading it stays inside b and passes the
      receiver's check; 0 otherwise. */
  function Width(c: char, b: seq<byte>, o: nat): nat {
    if !Supported(c) || o + 4 > |b| then 0
    else if c != 's' then 4
    else
      var n := Word32(b, o);
      if n < STRING_SIZE && o + 4 + Padded4(n) <= |b| then 4 + Padded4(n) else 0
  }

  function ArgAt(c: char, b: seq<byte>, o: nat): Arg
    requires Width(c, b, o) > 0
  {
    if c == 's' then (if Word32(b, o) == 0 then NoStr else Str(b[o + 4..o + 4 + Word32(b, o) - 1]))
    else
      var w := Word32(b, o);
      if c == 'i' then Int(Signed(w))
      else if c == 'u' then Uint(w)
      else if c == 'f' then Fixed(Signed(w))
      else if c == 'o' then ObjectId(w)
      else if c == 'n' then NewId(w)
      else Enum(w)
  }

  /** Where reading the first k arguments from offset o ends; None when one of them cannot be read. */
  datatype Place = Nowhere | Offset(at: nat)

  function After(sig: Signature, b: seq<byte>, o: nat, k: nat): Place
    requires k <= |sig|
  {
    if k == 0 then Offset(o)
    else
      match After(sig, b, o, k - 1)
      case Nowhere => Nowhere
      case Offset(at) => if Width(sig[k - 1], b, at) == 0 then Nowhere else Offset(at + Width(sig[k - 1], b, at))
  }

  predicate Readable(sig: Signature, b: seq<byte>, o: nat) { After(sig, b, o, |sig|).Offset? }

  lemma {:induction false} ReadableBefore(sig: Signature, b: seq<byte>, o: nat, k: nat, n: nat)
    requires k <= n <= |sig| && After(sig, b, o, n).Offset?
    ensures After(sig, b, o, k).Offset?
  {
    if k < n { ReadableBefore(sig, b, o, k, n - 1); }
  }

  function ArgsAt(sig: Signature, b: seq<byte>, o: nat, k: nat): (r: seq<Arg>)
    requires k <= |sig| && After(sig, b, o, k).Offset?
    ensures |r| == k
  {
    if k == 0 then []
    else ArgsAt(sig, b, o, k - 1) + [ArgAt(sig[k - 1], b, After(sig, b, o, k - 1).at)]
  }

  // ---------------------------------------------------------------- round trip

  /** Every argument starts, and every message ends, at a multiple of four. */
  lemma {:induction false} ArgsAligned(args: seq<Arg>, k: nat)
    requires ArgsFit(args) && k <= |args|
    ensures |ArgsBytes(args[..k])| % 4 == 0
  {
    hide ArgBytes, ArgsBytes;
    if k > 0 {
      ArgsPlus(args, k);
      ArgsAligned(args, k - 1);
    } else {
      NoArgs(args);
    }
  }

  lemma StringRead(s: seq<byte>, b: seq<byte>, o: nat)
    requires StringFits(s) && o + |StringBytes(s)| <= |b| && b[o..o + |StringBytes(s)|] == StringBytes(s)
    ensures Width('s', b, o) == |StringBytes(s)| && ArgAt('s', b, o) == Str(s)
  {
    var r := StringBytes(s);
    WordOfBytes(|s| + 1);
    assert r[..4] == Bytes32(|s| + 1);
    var t := b[o..o + |r|];
    assert forall i :: 0 <= i < |r| ==> t[i] == b[o + i];
    assert Word32(b, o) == |s| + 1;
    assert r[4..4 + |s|] == s;
    assert b[o + 4..o + 4 + |s|] == b[o..o + |r|][4..4 + |s|];
  }

  lemma WordRead(a: Arg, b: seq<byte>, o: nat)
    requires !a.Str? && !a.NoStr? && o + 4 <= |b| && b[o..o + 4] == Bytes32(WordOf(a))
    ensures Width(Letter(a), b, o) == 4 && ArgAt(Letter(a), b, o) == a
  {
    WordOfBytes(WordOf(a));
    var t := b[o..o + 4];
    assert forall i :: 0 <= i < 4 ==> t[i] == b[o + i];
    assert Word32(b, o) == WordOf(a);
    match a
    case Int(i) => SignedUnsigned(i);
    case Fixed(f) => SignedUnsigned(f);
    case _ =>
  }

  lemma ArgRead(a: Arg, b: seq<byte>, o: nat)
    requires ArgFits(a) && o + |ArgBytes(a)| <= |b| && b[o..o + |ArgBytes(a)|] == ArgBytes(a)
    ensures Width(Letter(a), b, o) == |ArgBytes(a)| && ArgAt(Letter(a), b, o) == a
  {
    if a.Str? { StringRead(a.s, b, o); } else { WordRead(a, b, o); }
  }

  lemma SlicePlus(b: seq<byte>, o: nat, p: seq<byte>, q: seq<byte>)
    requires o + |p| + |q| <= |b| && b[o..o + |p| + |q|] == p + q
    ensures b[o..o + |p|] == p && b[o + |p|..o + |p| + |q|] == q
  {
    var t := b[o..o + |p| + |q|];
    assert t[..|p|] == p && t[|p|..] == q;
    assert b[o..o + |p|] == t[..|p|] && b[o + |p|..o + |p| + |q|] == t[|p|..];
  }

  lemma ArgsPlus(args: seq<Arg>, k: nat)
    requires ArgsFit(args) && 0 < k <= |args|
    ensures ArgsBytes(args[..k]) == ArgsBytes(args[..k - 1]) + ArgBytes(args[k - 1])
    ensures args[..k] == args[..k - 1] + [args[k - 1]] && SignatureOf(args)[k - 1] == Letter(args[k - 1])
  {
    assert args[..k][..k - 1] == args[..k - 1];
  }

  /** Reading by the signature of some arguments recovers them from any buffer that holds their bytes at
      offset o. */
  lemma {:induction false} ArgsRead(args: seq<Arg>, b: seq<byte>, o: nat, k: nat)
    requires ArgsFit(args) && k <= |args|
    requires o + |ArgsBytes(args[..k])| <= |b| && b[o..o + |ArgsBytes(args[..k])|] == ArgsBytes(args[..k])
    ensures After(SignatureOf(args), b, o, k) == Offset(o + |ArgsBytes(args[..k])|)
    ensures ArgsAt(SignatureOf(args), b, o, k) == args[..k]
  {
    hide ArgsBytes, ArgBytes, Width, ArgAt, SignatureOf;
    if k > 0 {
      var p, q := ArgsBytes(args[..k - 1]), ArgBytes(args[k - 1]);
      ArgsPlus(args, k);
      SlicePlus(b, o, p, q);
      ArgsRead(args, b, o, k - 1);
      ArgRead(args[k - 1], b, o + |p|);
    } else {
      NoArgs(args);
    }
  }

  lemma NoArgs(args: seq<Arg>)
    ensures args[..0] == [] && ArgsBytes([]) == []
  {
  }

  // ---------------------------------------------------------------- messages

  datatype Message = Message(id: u32, op: u16, args: seq<Arg>)

  function Size(m: Message): nat
    requires ArgsFit(m.args)
  {
    HEADER_SIZE + |ArgsBytes(m.args)|
  }

  predicate Fits(m: Message) { ArgsFit(m.args) && Size(m) <= BUFFER_SIZE }

  /** The header's size field counts the whole message. */
  function MessageBytes(m: Message): (r: seq<byte>)
    requires Fits(m)
    ensures |r| == Size(m)
  {
    Bytes32(m.id) + Bytes16(m.op) + Bytes16(Size(m)) + ArgsBytes(m.args)
  }

  datatype Header = Header(id: u32, op: u16, size: u16)

  function HeaderAt(b: seq<byte>, o: nat): Header
    requires o + HEADER_SIZE <= |b|
  {
    Header(Word32(b, o), Word16(b, o + 4), Word16(b, o + 6))
  }

  predicate HoldsAt(b: seq<byte>, o: nat, m: Message) {
    Fits(m) && o + Size(m) <= |b| && b[o..o + Size(m)] == MessageBytes(m)
  }

  /** On the wire a message is its object, its opcode and its size, the least byte of each first, and then
      its arguments. */
  lemma MessageLayout(m: Message)
    requires Fits(m)
    ensures var b := MessageBytes(m);
      && |b| == HEADER_SIZE + |ArgsBytes(m.args)| && b[HEADER_SIZE..] == ArgsBytes(m.args)
      && Value(b[..4]) == m.id && Value(b[4..6]) == m.op && Value(b[6..8]) == |b|
  {
    LittleEndian(m.id);
    LittleEndian16(m.op);
    LittleEndian16(Size(m));
    hide Bytes32, Bytes16;
    var b := MessageBytes(m);
    assert b[..4] == Bytes32(m.id) && b[4..6] == Bytes16(m.op) && b[6..8] == Bytes16(Size(m));
  }

  /** Decoding undoes encoding, wherever in a buffer the message stands. */
  lemma MessageRead(m: Message, b: seq<byte>, o: nat)
    requires HoldsAt(b, o, m)
    ensures HeaderAt(b, o) == Header(m.id, m.op, Size(m))
    ensures Readable(SignatureOf(m.args), b, o + HEADER_SIZE)
    ensures ArgsAt(SignatureOf(m.args), b, o + HEADER_SIZE, |m.args|) == m.args
  {
    hide ArgsBytes, After, ArgsAt, SignatureOf;
    var r := MessageBytes(m);
    var t := b[o..o + |r|];
    assert forall i :: 0 <= i < |r| ==> t[i] == b[o + i];
    WordOfBytes(m.id);
    HalfOfBytes(m.op);
    HalfOfBytes(Size(m));
    assert m.args[..|m.args|] == m.args;
    assert b[o + 8..o + |r|] == t[8..] == ArgsBytes(m.args);
    ArgsRead(m.args, b, o + HEADER_SIZE, |m.args|);
  }

  // ---------------------------------------------------------------- c_wl_connection_post: marshalling

  method WriteArg(buffer: array<byte>, offset: nat, a: Arg) returns (offset': nat)
    requires ArgFits(a) && offset + |ArgBytes(a)| <= buffer.Length
    modifies buffer
    ensures offset' == offset + |ArgBytes(a)| && buffer[offset..offset'] == ArgBytes(a)
    ensures buffer[..offset] == old(buffer[..offset])
  {
    match a {
      case Int(i) => offset' := WriteI32(buffer, offset, i);
      case Enum(e) => offset' := WriteI32(buffer, offset, Signed(e));
      case Fixed(f) => offset' := WriteI32(buffer, offset, f);
      case Uint(u) => offset' := WriteU32(buffer, offset, u);
      case ObjectId(o) => offset' := WriteU32(buffer, offset, o);
      case NewId(n) => offset' := WriteU32(buffer, offset, n);
      case Str(s) => offset' := WriteString(buffer, offset, s);
    }
  }

  /** The temporary buffer that a post fills: header, arguments, and last the size. */
  method Marshal(buffer: array<byte>, m: Message) returns (size: nat)
    requires buffer.Length == BUFFER_SIZE && Fits(m)
    modifies buffer
    ensures size == Size(m) && buffer[..size] == MessageBytes(m)
  {
    hide ArgsBytes, ArgBytes, Bytes32, Bytes16;
    var offset := WriteU32(buffer, 0, m.id);
    offset := WriteU16(buffer, offset, m.op);
    assert buffer[..6] == Bytes32(m.id) + Bytes16(m.op) by {
      assert buffer[..6] == buffer[..4] + buffer[4..6];
      assert buffer[..4] == buffer[0..4];
    }
    offset := offset + 2;
    NoArgs(m.args);
    var i := 0;
    while i < |m.args|
      invariant 0 <= i <= |m.args| && offset == HEADER_SIZE + |ArgsBytes(m.args[..i])| <= Size(m)
      invariant buffer[..6] == Bytes32(m.id) + Bytes16(m.op)
      invariant buffer[HEADER_SIZE..offset] == ArgsBytes(m.args[..i])
    {
      ArgsPlus(m.args, i + 1);
      ArgsWithin(m.args, i + 1);
      ghost var was := buffer[..offset];
      var next := WriteArg(buffer, offset, m.args[i]);
      assert buffer[..6] == was[..6] && buffer[HEADER_SIZE..offset] == was[HEADER_SIZE..];
      assert buffer[HEADER_SIZE..next] == buffer[HEADER_SIZE..offset] + buffer[offset..next];
      offset := next;
      i := i + 1;
    }
    assert m.args[..i] == m.args;
    ghost var args := buffer[HEADER_SIZE..offset];
    var _ := WriteU16(buffer, 6, offset);
    assert buffer[..offset] == buffer[..6] + buffer[6..8] + buffer[8..][..offset - 8];
    size := offset;
  }

  lemma {:induction false} ArgsWithin(args: seq<Arg>, k: nat)
    requires ArgsFit(args) && k <= |args|
    ensures |ArgsBytes(args[..k])| <= |ArgsBytes(args)|
    decreases |args|
  {
    hide ArgBytes, ArgsBytes;
    var n := |args|;
    assert args[..n] == args;
    if k < n {
      assert args[..n - 1][..k] == args[..k];
      ArgsWithin(args[..n - 1], k);
      ArgsPlus(args, n);
    }
  }

  // ---------------------------------------------------------------- dispatch: reading the arguments

  /** The argument loop of dispatch, on the message at `data`; dispatch trusts the sizes it finds. */
  method ReadArgs(buffer: array<byte>, data: nat, sig: Signature) returns (args: seq<Arg>)
    requires data + HEADER_SIZE <= buffer.Length && Readable(sig, buffer[..], data + HEADER_SIZE)
    requires forall k :: 0 <= k < |sig| ==> Supported(sig[k])
    ensures args == ArgsAt(sig, buffer[..], data + HEADER_SIZE, |sig|)
  {
    hide Word32;
    args := [];
    var offset: nat := data + HEADER_SIZE;
    var i := 0;
    while i < |sig|
      invariant 0 <= i <= |sig| && After(sig, buffer[..], data + HEADER_SIZE, i) == Offset(offset)
      invariant args == ArgsAt(sig, buffer[..], data + HEADER_SIZE, i)
    {
      ReadableBefore(sig, buffer[..], data + HEADER_SIZE, i + 1, |sig|);
      var arg, next := ReadArg(buffer, offset, sig[i]);
      args := args + [arg];
      offset := next;
      i := i + 1;
    }
  }

  method ReadArg(buffer: array<byte>, offset: nat, c: char) returns (arg: Arg, offset': nat)
    requires Width(c, buffer[..], offset) > 0
    ensures arg == ArgAt(c, buffer[..], offset) && offset' == offset + Width(c, buffer[..], offset)
  {
    hide Word32;
    match c {
      case 'u' => var u; u, offset' := ReadU32(buffer, offset); arg := Uint(u);
      case 'i' => var i; i, offset' := ReadI32(buffer, offset); arg := Int(i);
      case 'f' => var u; u, offset' := ReadU32(buffer, offset); arg := Fixed(Signed(u));
      case 'o' => var u; u, offset' := ReadU32(buffer, offset); arg := ObjectId(u);
      case 'n' => var u; u, offset' := ReadU32(buffer, offset); arg := NewId(u);
      case 's' =>
        var present, s;
        present, s, offset' := ReadString(buffer, offset);
        arg := if present then Str(s) else NoStr;
      case 'e' => var i; i, offset' := ReadI32(buffer, offset); arg := Enum(Unsigned(i));
    }
  }

  // ---------------------------------------------------------------- c_wl_connection_dispatch: framing

  const MAX_MESSAGES := 128
  const MAX_SYNCS := 16
  const CLIENT_ERR := -3
  const PROTO_ERR := -1
  /** Not a status: the source would loop or read past its buffer here. */
  const UNDEFINED := -4

  /** Where the queued messages start, the callbacks of the sync requests, and the status. */
  datatype Batch = Batch(queued: seq<nat>, syncs: seq<u32>, status: int)

  predicate IsSync(h: Header) { h.id == 1 && h.op == 0 }

  function Split(b: seq<byte>, o: nat, registered: set<u32>): Batch
    decreases |b| - o
  {
    if o >= |b| then Batch([], [], 0)
    else if |b| - o < HEADER_SIZE then Batch([], [], CLIENT_ERR)
    else
      var h := HeaderAt(b, o);
      if h.size == 0 || (IsSync(h) && o + HEADER_SIZE + 4 > |b|) then Batch([], [], UNDEFINED)
      else if IsSync(h) then
        var id := Word32(b, o + HEADER_SIZE);
        if id in registered then Batch([], [], PROTO_ERR)
        else var rest := Split(b, o + h.size, registered + {id}); Batch(rest.queued, [id] + rest.syncs, rest.status)
      else var rest := Split(b, o + h.size, registered); Batch([o] + rest.queued, rest.syncs, rest.status)
  }

  predicate Manageable(r: Batch) { r.status != UNDEFINED && |r.queued| <= MAX_MESSAGES && |r.syncs| <= MAX_SYNCS }

  /** The loop over what one recvmsg returned. Sync requests are answered at the end of the batch, the
      others are dispatched in order. */
  method SplitBatch(buffer: array<byte>, received: nat, known: set<u32>)
    returns (queued: seq<nat>, syncs: seq<u32>, status: int)
    requires received <= buffer.Length && Manageable(Split(buffer[..received], 0, known))
    ensures Batch(queued, syncs, status) == Split(buffer[..received], 0, known)
  {
    hide Word32, Word16;
    queued, syncs := [], [];
    var registered := known;
    var offset := 0;
    ghost var all := Split(buffer[..received], 0, known);
    while offset < received
      invariant var rest := Split(buffer[..received], offset, registered);
        all == Batch(queued + rest.queued, syncs + rest.syncs, rest.status)
      decreases received - offset
    {
      if received - offset < HEADER_SIZE { return queued, syncs, CLIENT_ERR; }
      if |queued| > MAX_MESSAGES { return queued, syncs, CLIENT_ERR; }
      var header := ReadHeader(buffer, offset, received);
      if header.id == 1 && header.op == 0 {
        var id, _ := ReadU32(buffer, offset + HEADER_SIZE);
        assert id == Word32(buffer[..received],
          offset + HEADER_SIZE) by { PrefixWord(buffer[..], received, offset + HEADER_SIZE); }
        if id in registered { return queued, syncs, PROTO_ERR; }
        registered := registered + {id};
        syncs := syncs + [id];
      } else {
        queued := queued + [offset];
      }
      offset := offset + header.size;
    }
    status := 0;
  }

  method ReadHeader(buffer: array<byte>, offset: nat, received: nat) returns (h: Header)
    requires offset + HEADER_SIZE <= received <= buffer.Length
    ensures h == HeaderAt(buffer[..received], offset)
  {
    h := Header(Join(buffer[offset], buffer[offset + 1], buffer[offset + 2], buffer[offset + 3]),
      buffer[offset + 4] as int + 0x100 * buffer[offset + 5] as int,
        buffer[offset + 6] as int + 0x100 * buffer[offset + 7] as int);
  }

  lemma PrefixWord(b: seq<byte>, n: nat, o: nat)
    requires o + 4 <= n <= |b|
    ensures Word32(b[..n], o) == Word32(b, o)
  {
  }

  // ---------------------------------------------------------------- a batch of well-formed messages

  predicate AllFit(ms: seq<Message>) { forall k :: 0 <= k < |ms| ==> Fits(ms[k]) }

  function Concat(ms: seq<Message>): seq<byte>
    requires AllFit(ms)
  {
    if ms == [] then [] else MessageBytes(ms[0]) + Concat(ms[1..])
  }

  predicate Sync(m: Message) { m.id == 1 && m.op == 0 }

  /** Sync requests carry a fresh callback id each. */
  predicate SyncsOk(ms: seq<Message>, registered: set<u32>) {
    ms == [] ||
    if Sync(ms[0]) then
      |ms[0].args| == 1 && ms[0].args[0].NewId? && ms[0].args[0].n !in registered &&
        SyncsOk(ms[1..], registered + {ms[0].args[0].n})
    else SyncsOk(ms[1..], registered)
  }

  function SyncIds(ms: seq<Message>, registered: set<u32>): seq<u32>
    requires SyncsOk(ms, registered)
  {
    if ms == [] then []
    else if Sync(ms[0]) then [ms[0].args[0].n] + SyncIds(ms[1..], registered + {ms[0].args[0].n})
    else SyncIds(ms[1..], registered)
  }

  function Ordinary(ms: seq<Message>): seq<Message> {
    if ms == [] then [] else (if Sync(ms[0]) then [] else [ms[0]]) + Ordinary(ms[1..])
  }

  /** Cutting up a concatenation of messages finds exactly the ordinary ones, in order, each where it
      starts, and the ids of the sync requests. */
  lemma {:induction false} SplitConcat(ms: seq<Message>, b: seq<byte>, o: nat, registered: set<u32>)
    requires AllFit(ms) && SyncsOk(ms, registered) && o <= |b| && b[o..] == Concat(ms)
    ensures var r := Split(b, o, registered);
      && r.status == 0 && r.syncs == SyncIds(ms, registered) && |r.queued| == |Ordinary(ms)|
      && forall k :: 0 <= k < |r.queued| ==> HoldsAt(b, r.queued[k], Ordinary(ms)[k])
    decreases |ms|
  {
    hide Word32, HeaderAt, HoldsAt, SignatureOf, Readable, ArgsAt, Split;
    SplitEnd(b, registered);
    if ms == [] {
      NoMessages(b, o);
    } else {
      hide Concat;
      var m := ms[0];
      var n := Size(m);
      ConcatNext(ms, b, o);
      MessageRead(m, b, o);
      if Sync(m) {
        SyncRead(m, b, o);
        SplitSync(b, o, registered);
        SplitConcat(ms[1..], b, o + n, registered + {m.args[0].n});
      } else {
        SplitOrdinary(b, o, registered);
        SplitConcat(ms[1..], b, o + n, registered);
      }
    }
  }

  lemma NoMessages(b: seq<byte>, o: nat)
    requires o <= |b| && b[o..] == Concat([])
    ensures o == |b|
  {
  }

  lemma SplitEnd(b: seq<byte>, registered: set<u32>)
    ensures Split(b, |b|, registered) == Batch([], [], 0)
  {
  }

  lemma SplitSync(b: seq<byte>, o: nat, registered: set<u32>)
    requires o + HEADER_SIZE + 4 <= |b| && HeaderAt(b, o).size > 0 && IsSync(HeaderAt(b, o))
    requires Word32(b, o + HEADER_SIZE) !in registered
    ensures var id := Word32(b, o + HEADER_SIZE); var rest := Split(b, o + HeaderAt(b, o).size, registered + {id});
      Split(b, o, registered) == Batch(rest.queued, [id] + rest.syncs, rest.status)
  {
    hide Word32, HeaderAt;
  }

  lemma SplitOrdinary(b: seq<byte>, o: nat, registered: set<u32>)
    requires o + HEADER_SIZE <= |b| && HeaderAt(b, o).size > 0 && !IsSync(HeaderAt(b, o))
    ensures var rest := Split(b, o + HeaderAt(b, o).size, registered);
      Split(b, o, registered) == Batch([o] + rest.queued, rest.syncs, rest.status)
  {
    hide Word32, HeaderAt;
  }

  lemma ConcatNext(ms: seq<Message>, b: seq<byte>, o: nat)
    requires AllFit(ms) && ms != [] && o <= |b| && b[o..] == Concat(ms)
    ensures var n := Size(ms[0]); HoldsAt(b, o, ms[0]) && AllFit(ms[1..]) && b[o + n..] == Concat(ms[1..])
  {
    var n := Size(ms[0]);
    assert b[o..][..n] == MessageBytes(ms[0]) && b[o..][n..] == Concat(ms[1..]);
    assert b[o..o + n] == b[o..][..n] && b[o + n..] == b[o..][n..];
  }

  lemma SyncRead(m: Message, b: seq<byte>, o: nat)
    requires HoldsAt(b, o, m) && |m.args| == 1 && m.args[0].NewId?
    ensures Size(m) == HEADER_SIZE + 4 && Word32(b, o + HEADER_SIZE) == m.args[0].n
  {
    assert m.args[..0] == [] && ArgsBytes([]) == [];
    assert ArgsBytes(m.args) == Bytes32(m.args[0].n);
    var t := b[o..o + Size(m)];
    assert t[8..12] == Bytes32(m.args[0].n);
    assert forall i :: 0 <= i < 12 ==> t[i] == b[o + i];
    WordOfBytes(m.args[0].n);
    assert b[o + 8] == Bytes32(m.args[0].n)[0] && b[o + 9] == Bytes32(m.args[0].n)[1] &&
      b[o + 10] == Bytes32(m.args[0].n)[2] && b[o + 11] == Bytes32(m.args[0].n)[3];
  }

  /** Whatever follows well-formed messages decides how the batch ends. */
  lemma {:induction false} SplitBehind(ms: seq<Message>, b: seq<byte>, o: nat, n: nat, registered: set<u32>)
    requires AllFit(ms) && SyncsOk(ms, registered) && o <= n <= |b| && b[o..n] == Concat(ms)
    ensures exists known :: registered <= known && Split(b, o, registered).status == Split(b, n, known).status
    decreases |ms|
  {
    hide Word32, HeaderAt, HoldsAt, SignatureOf, Readable, ArgsAt, Split;
    if ms == [] {
      assert o == n;
      assert registered <= registered && Split(b, o, registered).status == Split(b, n, registered).status;
    } else {
      var m := ms[0];
      var k := Size(m);
      NextOfSlice(ms, b, o, n);
      MessageRead(m, b, o);
      if Sync(m) {
        SyncRead(m, b, o);
        SplitSync(b, o, registered);
        SplitBehind(ms[1..], b, o + k, n, registered + {m.args[0].n});
        var known :| registered + {m.args[0].n} <= known &&
          Split(b, o + k, registered + {m.args[0].n}).status == Split(b, n, known).status;
        assert registered <= known && Split(b, o, registered).status == Split(b, n, known).status;
      } else {
        SplitOrdinary(b, o, registered);
        SplitBehind(ms[1..], b, o + k, n, registered);
      }
    }
  }

  lemma NextOfSlice(ms: seq<Message>, b: seq<byte>, o: nat, n: nat)
    requires AllFit(ms) && ms != [] && o <= n <= |b| && b[o..n] == Concat(ms)
    ensures var k := Size(ms[0]);
      o + k <= n && HoldsAt(b, o, ms[0]) && AllFit(ms[1..]) && b[o + k..n] == Concat(ms[1..])
  {
    hide Size, MessageBytes;
    SliceParts(b, o, n, MessageBytes(ms[0]), Concat(ms[1..]));
  }

  lemma SliceParts(b: seq<byte>, o: nat, n: nat, x: seq<byte>, y: seq<byte>)
    requires o <= n <= |b| && b[o..n] == x + y
    ensures o + |x| <= n && b[o..o + |x|] == x && b[o + |x|..n] == y
  {
    assert b[o..n][..|x|] == x && b[o..n][|x|..] == y;
    assert b[o..o + |x|] == b[o..n][..|x|] && b[o + |x|..n] == b[o..n][|x|..];
  }

  /** A batch that ends inside a header is refused, whatever came before. */
  lemma SplitTruncated(ms: seq<Message>, tail: seq<byte>, registered: set<u32>)
    requires AllFit(ms) && SyncsOk(ms, registered) && 0 < |tail| < HEADER_SIZE
    ensures Split(Concat(ms) + tail, 0, registered).status == -3
  {
    var b, n := Concat(ms) + tail, |Concat(ms)|;
    assert b[0..n] == Concat(ms);
    hide Concat;
    SplitBehind(ms, b, 0, n, registered);
    var known :| registered <= known && Split(b, 0, registered).status == Split(b, n, known).status;
  }

  /** A sync request for an id that is registered is an error of the protocol. */
  lemma SplitTaken(ms: seq<Message>, m: Message, tail: seq<byte>, registered: set<u32>)
    requires AllFit(ms) && SyncsOk(ms, registered) && Fits(m) && Sync(m)
    requires |m.args| == 1 && m.args[0].NewId? && m.args[0].n in registered
    ensures Split(Concat(ms) + MessageBytes(m) + tail, 0, registered).status == -1
  {
    var b, n := Concat(ms) + MessageBytes(m) + tail, |Concat(ms)|;
    assert b[0..n] == Concat(ms) && b[n..n + Size(m)] == MessageBytes(m);
    hide Concat, MessageBytes, Size;
    SplitBehind(ms, b, 0, n, registered);
    var known :| registered <= known && Split(b, 0, registered).status == Split(b, n, known).status;
    hide HeaderAt, Word32;
    assert HoldsAt(b, n, m);
    MessageRead(m, b, n);
    SyncRead(m, b, n);
  }

  /** A whole batch, from the sender's arguments to the receiver's: every ordinary message is dispatched
      once, in order, with the object, opcode and arguments it was sent with. */
  lemma BatchRoundTrip(ms: seq<Message>, registered: set<u32>)
    requires AllFit(ms) && SyncsOk(ms, registered)
    ensures var b := Concat(ms); var r := Split(b, 0, registered);
      && r.status == 0 && r.syncs == SyncIds(ms, registered) && |r.queued| == |Ordinary(ms)|
      && forall k :: 0 <= k < |r.queued| ==> Delivers(b, r.queued[k], Ordinary(ms)[k])
  {
    hide Split, HoldsAt, Delivers;
    var b := Concat(ms);
    assert b[0..] == b;
    SplitConcat(ms, b, 0, registered);
    var r := Split(b, 0, registered);
    forall k | 0 <= k < |r.queued| ensures Delivers(b, r.queued[k], Ordinary(ms)[k]) {
      Delivered(Ordinary(ms)[k], b, r.queued[k]);
    }
  }

  predicate Delivers(b: seq<byte>, o: nat, m: Message) {
    && o + HEADER_SIZE <= |b| && HeaderAt(b, o).id == m.id && HeaderAt(b, o).op == m.op
    && Readable(SignatureOf(m.args), b, o + HEADER_SIZE)
    && ArgsAt(SignatureOf(m.args), b, o + HEADER_SIZE, |m.args|) == m.args
  }

  lemma Delivered(m: Message, b: seq<byte>, o: nat)
    requires HoldsAt(b, o, m)
    ensures Delivers(b, o, m)
  {
    hide HeaderAt, ArgsAt, Readable;
    MessageRead(m, b, o);
  }
}
