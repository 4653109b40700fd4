/** `utf8_char` and `utf8_len` of `cuts.c`, against the encoding of section 3 of RFC 3629. */
module Utf8 {

  type byte = bv8

  const REPLACEMENT: bv32 := 0xFFFD

  // ---------------------------------------------------------------- encoding

  /** The code points that have an encoding: no surrogates, nothing above U+10FFFF. */
  predicate Scalar(u: bv32) { u <= 0x10FFFF && !(0xD800 <= u <= 0xDFFF) }

  function Low6(u: bv32): byte { (u & 0x3F) as byte | 0x80 }

  function Encode(u: bv32): (r: seq<byte>)
    requires Scalar(u)
    ensures 1 <= |r| <= 4
  {
    if u < 0x80 then [(u & 0x7F) as byte]
    else if u < 0x800 then [((u >> 6) & 0x1F) as byte | 0xC0, Low6(u)]
    else if u < 0x10000 then [((u >> 12) & 0xF) as byte | 0xE0, Low6(u >> 6), Low6(u)]
    else [((u >> 18) & 0x7) as byte | 0xF0, Low6(u >> 12), Low6(u >> 6), Low6(u)]
  }

  // ---------------------------------------------------------------- decoding

  datatype Lead = Single(u: bv32) | Multi(u: bv32, more: nat) | Invalid

  /** What the first byte says: the character, or its first bits and how many bytes follow. */
  function LeadOf(c: byte): Lead {
    var u := c as bv32;
    if u < 0x80 then Single(u)
    else if u & 0xE0 == 0xC0 then Multi(u & 0x3F, 1)
    else if u & 0xF0 == 0xE0 then Multi(u & 0x1F, 2)
    else if u & 0xF8 == 0xF0 then Multi(u & 0xF, 3)
    else Invalid
  }

  function Shift(u: bv32, c: byte): bv32 { (u << 6) | (c & 0x3F) as bv32 }

  predicate Continues(c: byte) { c & 0x80 != 0 }

  datatype Decoded = Decoded(u: bv32, next: nat)

  /** Following bytes until the character is complete or a byte does not continue it. */
  function Follow(s: seq<byte>, i: nat, u: bv32, more: nat): Decoded
    decreases more
  {
    if more == 0 then Decoded(u, i)
    else if i >= |s| || !Continues(s[i]) then Decoded(REPLACEMENT, i)
    else Follow(s, i + 1, Shift(u, s[i]), more - 1)
  }

  function Decode(s: seq<byte>, i: nat): Decoded
    requires i < |s|
  {
    match LeadOf(s[i])
    case Single(u) => Decoded(u, i + 1)
    case Invalid => Decoded(REPLACEMENT, i + 1)
    case Multi(u, more) => Follow(s, i + 1, u, more)
  }

  // ---------------------------------------------------------------- the bits

  lemma TwoBytes(u: bv32)
    requires 0x80 <= u < 0x800
    ensures LeadOf(((u >> 6) & 0x1F) as byte | 0xC0) == Multi(u >> 6, 1)
    ensures Continues(Low6(u)) && Shift(u >> 6, Low6(u)) == u
  {
  }

  lemma ThreeBytes(u: bv32)
    requires 0x800 <= u < 0x10000
    ensures LeadOf(((u >> 12) & 0xF) as byte | 0xE0) == Multi(u >> 12, 2)
    ensures Continues(Low6(u >> 6)) && Shift(u >> 12, Low6(u >> 6)) == u >> 6
    ensures Continues(Low6(u)) && Shift(u >> 6, Low6(u)) == u
  {
  }

  lemma FourBytes(u: bv32)
    requires 0x10000 <= u <= 0x10FFFF
    ensures LeadOf(((u >> 18) & 0x7) as byte | 0xF0) == Multi(u >> 18, 3)
    ensures Continues(Low6(u >> 12)) && Shift(u >> 18, Low6(u >> 12)) == u >> 12
    ensures Continues(Low6(u >> 6)) && Shift(u >> 12, Low6(u >> 6)) == u >> 6
    ensures Continues(Low6(u)) && Shift(u >> 6, Low6(u)) == u
  {
  }

  lemma OneByte(u: bv32)
    requires u < 0x80
    ensures LeadOf((u & 0x7F) as byte) == Single(u)
  {
  }

  // ---------------------------------------------------------------- decoding undoes encoding

  lemma FollowNext(s: seq<byte>, i: nat, u: bv32, more: nat, v: bv32)
    requires more > 0 && i < |s| && Continues(s[i]) && Shift(u, s[i]) == v
    ensures Follow(s, i, u, more) == Follow(s, i + 1, v, more - 1)
  {
  }

  lemma FollowEnds(s: seq<byte>, i: nat, u: bv32)
    ensures Follow(s, i, u, 0) == Decoded(u, i)
  {
  }

  lemma RoundTrip(u: bv32, s: seq<byte>, i: nat)
    requires Scalar(u) && i + |Encode(u)| <= |s| && s[i..i + |Encode(u)|] == Encode(u)
    ensures Decode(s, i) == Decoded(u, i + |Encode(u)|)
  {
    hide LeadOf, Continues, Shift, Low6, Follow;
    var e := Encode(u);
    var t := s[i..i + |e|];
    assert forall k :: 0 <= k < |e| ==> t[k] == s[i + k];
    FollowEnds(s, i + |e|, u);
    if u < 0x80 {
      OneByte(u);
    } else if u < 0x800 {
      TwoBytes(u);
      assert s[i + 1] == t[1];
      FollowNext(s, i + 1, u >> 6, 1, u);
    } else if u < 0x10000 {
      ThreeBytes(u);
      assert s[i + 1] == t[1] && s[i + 2] == t[2];
      FollowNext(s, i + 1, u >> 12, 2, u >> 6);
      FollowNext(s, i + 2, u >> 6, 1, u);
    } else {
      FourBytes(u);
      assert s[i + 1] == t[1] && s[i + 2] == t[2] && s[i + 3] == t[3];
      FollowNext(s, i + 1, u >> 18, 3, u >> 12);
      FollowNext(s, i + 2, u >> 12, 2, u >> 6);
      FollowNext(s, i + 3, u >> 6, 1, u);
    }
  }

  /** A NUL-terminated string: the terminator is the last byte and the only zero. */
  predicate Terminated(s: seq<byte>) {
    |s| > 0 && s[|s| - 1] == 0 && forall i :: 0 <= i < |s| - 1 ==> s[i] != 0
  }

  lemma {:induction false} FollowStops(s: seq<byte>, i: nat, u: bv32, more: nat)
    requires Terminated(s) && i < |s|
    ensures i <= Follow(s, i, u, more).next < |s|
    decreases more
  {
    hide Shift;
    if more > 0 && Continues(s[i]) { FollowStops(s, i + 1, Shift(u, s[i]), more - 1); }
  }

  /** Whatever the bytes, a character takes at least one of them and never the terminator. */
  lemma DecodeProgress(s: seq<byte>, i: nat)
    requires Terminated(s) && i < |s| - 1
    ensures i < Decode(s, i).next < |s|
  {
    hide LeadOf;
    match LeadOf(s[i])
    case Multi(u, more) => FollowStops(s, i + 1, u, more);
    case _ =>
  }

  // ---------------------------------------------------------------- any bytes

  /** How many bytes follow a first byte, by its range. */
  datatype Following = Following(n: nat) | NoCharacter

  function FollowingOf(c: byte): Following {
    if c <= 0x7F then Following(0)
    else if 0xC0 <= c <= 0xDF then Following(1)
    else if 0xE0 <= c <= 0xEF then Following(2)
    else if 0xF0 <= c <= 0xF7 then Following(3)
    else NoCharacter
  }

  /** How many bytes from i on have their highest bit set, up to n. */
  function Run(s: seq<byte>, i: nat, n: nat): (k: nat)
    ensures k <= n && (i <= |s| ==> i + k <= |s|)
    decreases n
  {
    if n == 0 || i >= |s| || s[i] < 0x80 then 0 else 1 + Run(s, i + 1, n - 1)
  }

  /** The bits of a first byte that belong to the character when n bytes follow. */
  function FirstBits(c: byte, n: nat): bv32 {
    if n == 0 then c as bv32 else c as bv32 - (if n == 1 then 0xC0 else if n == 2 then 0xE0 else 0xF0)
  }

  /** The bits so far, followed by the last six of each of n bytes. */
  function Assembled(s: seq<byte>, i: nat, u: bv32, n: nat): bv32
    requires i + n <= |s|
  {
    if n == 0 then u else Assembled(s, i, u, n - 1) * 64 + (s[i + n - 1] as bv32) % 64
  }

  lemma LeadRange(c: byte)
    ensures match FollowingOf(c)
      case NoCharacter => LeadOf(c) == Invalid
      case Following(n) => LeadOf(c) == if n == 0 then Single(FirstBits(c, 0)) else Multi(FirstBits(c, n), n)
  {
  }

  lemma ContinuesRange(c: byte)
    ensures Continues(c) <==> c >= 0x80
  {
  }

  lemma SixBits(u: bv32, c: byte)
    ensures Shift(u, c) == u * 64 + c as bv32 % 64
  {
  }

  lemma {:induction false} AssembledFrom(s: seq<byte>, i: nat, u: bv32, n: nat)
    requires 0 < n && i + n <= |s|
    ensures Assembled(s, i, u, n) == Assembled(s, i + 1, Shift(u, s[i]), n - 1)
  {
    SixBits(u, s[i]);
    hide Shift;
    if n > 1 { AssembledFrom(s, i, u, n - 1); }
  }

  lemma {:induction false} FollowAny(s: seq<byte>, i: nat, u: bv32, n: nat)
    requires i <= |s|
    ensures var k := Run(s, i, n);
      Follow(s, i, u, n) == if k < n then Decoded(REPLACEMENT, i + k) else Decoded(Assembled(s, i, u, n), i + n)
    decreases n
  {
    if n > 0 && i < |s| {
      ContinuesRange(s[i]);
      hide Shift, Continues, Assembled;
      if s[i] >= 0x80 {
        FollowAny(s, i + 1, Shift(u, s[i]), n - 1);
        if Run(s, i, n) == n { AssembledFrom(s, i, u, n); }
      }
    }
  }

  /** Whatever the bytes: one that cannot start a character stands for the replacement character alone, a
      character that breaks off stands for it with the bytes it has, and any other is put together from the
      bits of all its bytes. */
  lemma DecodeAny(s: seq<byte>, i: nat)
    requires i < |s|
    ensures match FollowingOf(s[i])
      case NoCharacter => Decode(s, i) == Decoded(0xFFFD, i + 1)
      case Following(n) =>
        var k := Run(s, i + 1, n);
        Decode(s, i) ==
          if k < n then Decoded(0xFFFD, i + 1 + k)
          else Decoded(Assembled(s, i + 1, FirstBits(s[i], n), n), i + 1 + n)
  {
    LeadRange(s[i]);
    hide LeadOf, FollowingOf, FirstBits;
    match FollowingOf(s[i])
    case NoCharacter =>
    case Following(n) => if n > 0 { FollowAny(s, i + 1, FirstBits(s[i], n), n); }
  }

  // ---------------------------------------------------------------- utf8_char, utf8_len

  method Utf8Char(s: array<byte>, i: nat) returns (u: bv32, next: nat)
    requires Terminated(s[..]) && i < s.Length - 1
    ensures Decoded(u, next) == Decode(s[..], i) && i < next < s.Length
  {
    DecodeProgress(s[..], i);
    var c := s[i];
    u := c as bv32;
    var bytes := 0;
    next := i + 1;
    if u < 0x80 {
      return;
    } else if u & 0xE0 == 0xC0 {
      u := u & 0x3F;
      bytes := 1;
    } else if u & 0xF0 == 0xE0 {
      u := u & 0x1F;
      bytes := 2;
    } else if u & 0xF8 == 0xF0 {
      u := u & 0xF;
      bytes := 3;
    } else {
      return REPLACEMENT, next;
    }
    ghost var all := Follow(s[..], next, u, bytes);
    var j := 1;
    while j <= bytes
      invariant 1 <= j <= bytes + 1 && next < s.Length
      invariant Follow(s[..], next, u, bytes + 1 - j) == all
    {
      if s[next] & 0x80 == 0 { return REPLACEMENT, next; }
      u := (u << 6) | (s[next] & 0x3F) as bv32;
      j := j + 1;
      next := next + 1;
    }
  }

  /** How many characters the bytes from i on are read as. */
  function Count(s: seq<byte>, i: nat): nat
    requires Terminated(s) && i < |s|
    decreases |s| - i
  {
    if i == |s| - 1 then 0
    else
      DecodeProgress(s, i);
      1 + Count(s, Decode(s, i).next)
  }

  method Utf8Len(s: array<byte>) returns (n: nat)
    requires Terminated(s[..])
    ensures n == Count(s[..], 0)
  {
    var i := 0;
    n := 0;
    while s[i] != 0
      invariant 0 <= i < s.Length && n + Count(s[..], i) == Count(s[..], 0)
      decreases s.Length - i
    {
      var _, next := Utf8Char(s, i);
      i := next;
      n := n + 1;
    }
  }

  // ---------------------------------------------------------------- strings of characters

  predicate Text(us: seq<bv32>) { forall k :: 0 <= k < |us| ==> Scalar(us[k]) && us[k] != 0 }

  function EncodeAll(us: seq<bv32>): seq<byte>
    requires Text(us)
  {
    if us == [] then [] else Encode(us[0]) + EncodeAll(us[1..])
  }

  lemma SliceOfSlice(s: seq<byte>, i: nat, j: nat, k: nat)
    requires i + k <= j <= |s|
    ensures s[i..j][..k] == s[i..i + k] && s[i..j][k..] == s[i + k..j]
  {
  }

  lemma NotEnd(us: seq<bv32>, s: seq<byte>, i: nat)
    requires Text(us) && us != [] && Terminated(s) && i < |s| && s[i..|s| - 1] == EncodeAll(us)
    ensures i < |s| - 1
  {
    hide Encode, Scalar;
    assert |EncodeAll(us)| >= 1;
  }

  /** The encoding of a text has as many characters as the text. */
  lemma {:induction false} LengthOfText(us: seq<bv32>, s: seq<byte>, i: nat)
    requires Text(us) && Terminated(s) && i < |s| && s[i..|s| - 1] == EncodeAll(us)
    ensures Count(s, i) == |us|
    decreases |us|
  {
    hide Decode, Encode, Scalar;
    if us == [] {
    } else {
      NotEnd(us, s, i);
      var e := Encode(us[0]);
      var t := s[i..|s| - 1];
      assert t[..|e|] == e && t[|e|..] == EncodeAll(us[1..]);
      SliceOfSlice(s, i, |s| - 1, |e|);
      RoundTrip(us[0], s, i);
      DecodeProgress(s, i);
      LengthOfText(us[1..], s, i + |e|);
    }
  }
}
