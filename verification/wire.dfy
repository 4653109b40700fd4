/** `wayland/util.c` and the marshalling loops of `wayland/server.c`: the Wire Format of the Wayland
    protocol documentation, for integers, fixed-point numbers, object ids, enums and strings. Words are
    in the machine's byte order, taken to be little endian. */
module Wire {

  type byte = x: int | 0 <= x < 0x100
  type u16 = x: int | 0 <= x < 0x1_0000
  type u32 = x: int | 0 <= x < 0x1_0000_0000
  type i32 = x: int | -0x8000_0000 <= x < 0x8000_0000

  const BUFFER_SIZE := 2048
  const HEADER_SIZE := 8
  const STRING_SIZE := BUFFER_SIZE - HEADER_SIZE - 4

  // ---------------------------------------------------------------- words

  function Bytes16(v: u16): (s: seq<byte>)
    ensures |s| == 2
  {
    [v % 0x100, v / 0x100]
  }

  function Bytes32(v: u32): (s: seq<byte>)
    ensures |s| == 4
  {
    [v % 0x100, v / 0x100 % 0x100, v / 0x1_0000 % 0x100, v / 0x100_0000]
  }

  function Join(b0: byte, b1: byte, b2: byte, b3: byte): u32 {
    b0 as int + 0x100 * b1 as int + 0x1_0000 * b2 as int + 0x100_0000 * b3 as int
  }

  function Word16(b: seq<byte>, o: nat): u16
    requires o + 2 <= |b|
  {
    Join(b[o], b[o + 1], 0, 0)
  }

  function Word32(b: seq<byte>, o: nat): u32
    requires o + 4 <= |b|
  {
    Join(b[o], b[o + 1], b[o + 2], b[o + 3])
  }

  /** The two's complement conversions between int32_t and uint32_t. */
  function Unsigned(i: i32): u32 { if i < 0 then i + 0x1_0000_0000 else i }

  function Signed(u: u32): (i: i32)
    ensures Unsigned(i) == u
  {
    if u < 0x8000_0000 then u else u - 0x1_0000_0000
  }

  lemma SignedUnsigned(i: i32)
    ensures Signed(Unsigned(i)) == i
  {
  }

  lemma WordOfBytes(v: u32)
    ensures Word32(Bytes32(v), 0) == v
  {
    var q1, q2, q3 := v / 0x100, v / 0x1_0000, v / 0x100_0000;
    assert v == 0x100 * q1 + v % 0x100;
    assert q1 == 0x100 * q2 + q1 % 0x100;
    assert q2 == 0x100 * q3 + q2 % 0x100;
  }

  /** The number whose digits to base 256 these are, the least first. */
  function Value(digits: seq<byte>): int {
    if digits == [] then 0 else digits[0] as int + 0x100 * Value(digits[1..])
  }

  lemma LittleEndian(v: u32)
    ensures Value(Bytes32(v)) == v
  {
    WordOfBytes(v);
    var b := Bytes32(v);
    assert Word32(b, 0) == v;
    hide Bytes32;
    FourDigits(b);
  }

  lemma FourDigits(b: seq<byte>)
    requires |b| == 4
    ensures Value(b) == b[0] as int + 0x100 * b[1] as int + 0x1_0000 * b[2] as int + 0x100_0000 * b[3] as int
  {
    assert b[1..][1..] == b[2..] && b[2..][1..] == b[3..] && b[3..][1..] == [];
    assert Value(b[3..]) == b[3] as int;
    assert Value(b[2..]) == b[2] as int + 0x100 * Value(b[3..]);
    assert Value(b[1..]) == b[1] as int + 0x100 * Value(b[2..]);
  }

  lemma LittleEndian16(v: u16)
    ensures Value(Bytes16(v)) == v
  {
    var b := Bytes16(v);
    assert b[1..] == [b[1]] && [b[1]][1..] == [] && Value([b[1]]) == b[1] as int;
  }

  lemma HalfOfBytes(v: u16)
    ensures Word16(Bytes16(v), 0) == v
  {
  }

  function Padded4(n: nat): (r: nat)
    ensures n <= r < n + 4 && r % 4 == 0
  {
    (n + 3) / 4 * 4
  }

  // ---------------------------------------------------------------- read_* and write_*

  method WriteU32(buffer: array<byte>, offset: nat, val: u32) returns (offset': nat)
    requires offset + 4 <= buffer.Length
    modifies buffer
    ensures offset' == offset + 4 && buffer[offset..offset'] == Bytes32(val)
    ensures buffer[..offset] == old(buffer[..offset]) && buffer[offset'..] == old(buffer[offset'..])
  {
    buffer[offset], buffer[offset + 1], buffer[offset + 2], buffer[offset + 3] :=
      val % 0x100, val / 0x100 % 0x100, val / 0x1_0000 % 0x100, val / 0x100_0000;
    return offset + 4;
  }

  method WriteI32(buffer: array<byte>, offset: nat, val: i32) returns (offset': nat)
    requires offset + 4 <= buffer.Length
    modifies buffer
    ensures offset' == offset + 4 && buffer[offset..offset'] == Bytes32(Unsigned(val))
    ensures buffer[..offset] == old(buffer[..offset]) && buffer[offset'..] == old(buffer[offset'..])
  {
    offset' := WriteU32(buffer, offset, Unsigned(val));
  }

  method WriteU16(buffer: array<byte>, offset: nat, val: u16) returns (offset': nat)
    requires offset + 2 <= buffer.Length
    modifies buffer
    ensures offset' == offset + 2 && buffer[offset..offset'] == Bytes16(val)
    ensures buffer[..offset] == old(buffer[..offset]) && buffer[offset'..] == old(buffer[offset'..])
  {
    buffer[offset], buffer[offset + 1] := val % 0x100, val / 0x100;
    return offset + 2;
  }

  method ReadU32(buffer: array<byte>, offset: nat) returns (val: u32, offset': nat)
    requires offset + 4 <= buffer.Length
    ensures val == Word32(buffer[..], offset) && offset' == offset + 4
  {
    return Join(buffer[offset], buffer[offset + 1], buffer[offset + 2], buffer[offset + 3]), offset + 4;
  }

  method ReadI32(buffer: array<byte>, offset: nat) returns (val: i32, offset': nat)
    requires offset + 4 <= buffer.Length
    ensures val == Signed(Word32(buffer[..], offset)) && offset' == offset + 4
  {
    var u;
    u, offset' := ReadU32(buffer, offset);
    return Signed(u), offset';
  }

  function Zeros(n: nat): (s: seq<byte>)
    ensures |s| == n && forall i :: 0 <= i < n ==> s[i] == 0
  {
    seq(n, _ => 0)
  }

  /** A string on the wire: its length with the terminator, the characters, and zeros up to a multiple
      of four. */
  function StringBytes(s: seq<byte>): (r: seq<byte>)
    requires |s| + 1 < 0x1_0000_0000
    ensures |r| == 4 + Padded4(|s| + 1)
  {
    Bytes32(|s| + 1) + s + Zeros(Padded4(|s| + 1) - |s|)
  }

  /** On the wire a string is the length with its terminator, the characters, at least one zero after them
      and as few more as make the whole a multiple of four. */
  lemma StringLayout(s: seq<byte>)
    requires |s| + 1 < 0x1_0000_0000
    ensures var r := StringBytes(s);
      && |r| % 4 == 0 && 4 + |s| < |r| <= 4 + |s| + 4
      && Value(r[..4]) == |s| + 1 && r[4..4 + |s|] == s && forall k :: 4 + |s| <= k < |r| ==> r[k] == 0
  {
    LittleEndian(|s| + 1);
    ThreeParts(Bytes32(|s| + 1), s, Zeros(Padded4(|s| + 1) - |s|));
    hide Bytes32;
  }

  lemma ThreeParts(x: seq<byte>, y: seq<byte>, z: seq<byte>)
    ensures var r := x + y + z;
      && r[..|x|] == x && r[|x|..|x| + |y|] == y && forall k :: |x| + |y| <= k < |r| ==> r[k] == z[k - |x| - |y|]
  {
  }

  /** write_string: memset of the padded size, then the characters; the terminator is already zero. */
  method WriteString(buffer: array<byte>, offset: nat, s: seq<byte>) returns (offset': nat)
    requires |s| + 1 < 0x1_0000_0000 && offset + 4 + Padded4(|s| + 1) <= buffer.Length
    modifies buffer
    ensures offset' == offset + |StringBytes(s)| && buffer[offset..offset'] == StringBytes(s)
    ensures buffer[..offset] == old(buffer[..offset]) && buffer[offset'..] == old(buffer[offset'..])
  {
    var padded := Padded4(|s| + 1);
    var start := WriteU32(buffer, offset, |s| + 1);
    var i := 0;
    while i < padded
      invariant 0 <= i <= padded
      invariant forall k :: start <= k < start + i ==> buffer[k] == 0
      invariant buffer[..start] == old(buffer[..offset]) + Bytes32(|s| + 1)
      invariant forall k :: start + padded <= k < buffer.Length ==> buffer[k] == old(buffer[k])
    {
      buffer[start + i] := 0;
      i := i + 1;
    }
    i := 0;
    while i < |s|
      invariant 0 <= i <= |s|
      invariant forall k :: start <= k < start + padded ==> buffer[k] == if k < start + i then s[k - start] else 0
      invariant buffer[..start] == old(buffer[..offset]) + Bytes32(|s| + 1)
      invariant forall k :: start + padded <= k < buffer.Length ==> buffer[k] == old(buffer[k])
    {
      buffer[start + i] := s[i];
      i := i + 1;
    }
    offset' := start + padded;
    assert buffer[offset..start] == Bytes32(|s| + 1) by { assert buffer[offset..start] == buffer[..start][offset..]; }
    assert buffer[start..offset'] == s + Zeros(padded - |s|);
    assert buffer[offset..offset'] == buffer[offset..start] + buffer[start..offset'];
    assert buffer[..offset] == buffer[..start][..offset];
  }

  /** read_string, with the size check it asserts: the characters up to the terminator. A string of size
      zero leaves the caller's characters as they were. */
  method ReadString(buffer: array<byte>, offset: nat) returns (present: bool, s: seq<byte>, offset': nat)
    requires offset + 4 <= buffer.Length
    requires var n := Word32(buffer[..], offset); n < STRING_SIZE && offset + 4 + Padded4(n) <= buffer.Length
    ensures var n := Word32(buffer[..], offset);
      && (present <==>
        n > 0) && (present ==> s == buffer[offset + 4..offset + 4 + n - 1]) && offset' == offset + 4 + Padded4(n)
  {
    var n, start := ReadU32(buffer, offset);
    if n == 0 { return false, [], start; }
    return true, buffer[start..start + n - 1], start + Padded4(n);
  }
}
