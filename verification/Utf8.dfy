/** Decoding bytes as UTF-8 with replacement and encoding them again (section 3 of RFC 3629 says which
    sequences are well formed; a maximal part of an ill-formed one becomes one U+FFFD). */
module Utf8 {

  type Byte = b: int | 0 <= b < 256

  type Bytes = seq<Byte>

  /** U+FFFD, encoded. */
  const REPLACEMENT: Bytes := [0xEF, 0xBF, 0xBD]

  predicate Continues(b: Byte) { 0x80 <= b <= 0xBF }

  /** The length of a sequence that starts with `b`; 0 if none does. */
  function LengthFrom(b: Byte): nat {
    if b <= 0x7F then 1
    else if 0xC2 <= b <= 0xDF then 2
    else if 0xE0 <= b <= 0xEF then 3
    else if 0xF0 <= b <= 0xF4 then 4
    else 0
  }

  /** The second byte rules out overlong forms, surrogates and values above U+10FFFF. */
  predicate SecondFits(b: Byte, c: Byte) {
    && Continues(c)
    && (b == 0xE0 ==> c >= 0xA0) && (b == 0xED ==> c <= 0x9F)
    && (b == 0xF0 ==> c >= 0x90) && (b == 0xF4 ==> c <= 0x8F)
  }

  /** How many bytes the decoder takes next: a whole character, or an ill-formed part. */
  datatype Chunk = Character(size: nat) | IllFormed(size: nat)

  function NextChunk(s: Bytes): (c: Chunk)
    requires s != []
    ensures 1 <= c.size <= 4 && c.size <= |s| && (c.IllFormed? ==> c.size <= 3)
  {
    var n := LengthFrom(s[0]);
    if n == 1 then Character(1)
    else if n == 0 || |s| < 2 || !SecondFits(s[0], s[1]) then IllFormed(1)
    else if n == 2 then Character(2)
    else if |s| < 3 || !Continues(s[2]) then IllFormed(2)
    else if n == 3 then Character(3)
    else if |s| < 4 || !Continues(s[3]) then IllFormed(3)
    else Character(4)
  }

  /** `s.decode("utf-8", errors="replace").encode("utf-8")`. */
  function Reencode(s: Bytes): Bytes
    decreases |s|
  {
    if s == [] then [] else
    var c := NextChunk(s);
    (if c.Character? then s[..c.size] else REPLACEMENT) + Reencode(s[c.size..])
  }

  predicate WellFormed(s: Bytes)
    decreases |s|
  {
    s == [] || (NextChunk(s).Character? && WellFormed(s[NextChunk(s).size..]))
  }

  predicate Ascii(s: Bytes) {
    forall i :: 0 <= i < |s| ==> s[i] <= 0x7F
  }

  lemma {:induction false} AsciiIsWellFormed(s: Bytes)
    requires Ascii(s)
    ensures WellFormed(s)
    decreases |s|
  {
    if s != [] { AsciiIsWellFormed(s[1..]); }
  }

  /** Nothing changes iff the bytes are well formed... */
  lemma {:induction false} WellFormedStays(s: Bytes)
    requires WellFormed(s)
    ensures Reencode(s) == s
    decreases |s|
  {
    hide NextChunk;
    if s != [] { WellFormedStays(s[NextChunk(s).size..]); }
  }

  /** ...what comes out is always well formed, and at most three times as long. */
  lemma {:induction false} ReencodedIsWellFormed(s: Bytes)
    ensures WellFormed(Reencode(s)) && |Reencode(s)| <= 3 * |s|
    decreases |s|
  {
    hide NextChunk;
    if s != [] {
      var c := NextChunk(s);
      var rest := Reencode(s[c.size..]);
      ReencodedIsWellFormed(s[c.size..]);
      if c.Character? { CharacterBefore(s, rest); } else { ReplacementBefore(rest); }
    }
  }

  lemma ReplacementBefore(rest: Bytes)
    requires WellFormed(rest)
    ensures WellFormed(REPLACEMENT + rest)
  {
    assert (REPLACEMENT + rest)[3..] == rest;
  }

  /** What the decoder takes depends on the bytes it takes, and on what follows only by whether that
      could have continued them. */
  lemma ChunkOfPrefix(s: Bytes, t: Bytes)
    requires s != [] && t != [] && NextChunk(s).Character?
    requires |t| >= NextChunk(s).size && t[..NextChunk(s).size] == s[..NextChunk(s).size]
    ensures NextChunk(t) == NextChunk(s)
  {
    var n := NextChunk(s).size;
    assert forall i :: 0 <= i < n ==> t[i] == t[..n][i] == s[..n][i] == s[i];
  }

  lemma CharacterBefore(s: Bytes, rest: Bytes)
    requires s != [] && NextChunk(s).Character? && WellFormed(rest)
    ensures WellFormed(s[..NextChunk(s).size] + rest)
  {
    hide NextChunk;
    var n := NextChunk(s).size;
    var t := s[..n] + rest;
    assert t[..n] == s[..n] && t[n..] == rest;
    ChunkOfPrefix(s, t);
  }

  /** A well-formed part in front is untouched. */
  lemma {:induction false} WellFormedBefore(a: Bytes, b: Bytes)
    requires WellFormed(a)
    ensures Reencode(a + b) == a + Reencode(b)
    decreases |a|
  {
    hide NextChunk;
    if a == [] {
      assert a + b == b;
    } else {
      var n := NextChunk(a).size;
      assert (a + b)[..n] == a[..n] && (a + b)[n..] == a[n..] + b;
      ChunkOfPrefix(a, a + b);
      WellFormedBefore(a[n..], b);
      assert a == a[..n] + a[n..];
    }
  }

  /** Cutting a well-formed text inside its last character costs at most two bytes more. */
  lemma {:induction false} CutHead(s: Bytes, k: nat, next: Bytes)
    requires WellFormed(s) && k <= |s| && WellFormed(next) && (next != [] ==> !Continues(next[0]))
    ensures |Reencode(s[..k] + next)| <= k + 2 + |next|
    decreases |s|
  {
    hide NextChunk, Continues;
    if k == 0 {
      assert s[..k] + next == next;
      WellFormedStays(next);
    } else {
      var n := NextChunk(s).size;
      var t := s[..k] + next;
      if k >= n {
        assert t[..n] == s[..n] && t[n..] == s[n..][..k - n] + next;
        ChunkOfPrefix(s, t);
        CutHead(s[n..], k - n, next);
      } else {
        CutCharacter(s, k, next);
        assert t[k..] == next;
        WellFormedStays(next);
      }
    }
  }

  lemma CutCharacter(s: Bytes, k: nat, next: Bytes)
    requires s != [] && NextChunk(s).Character? && 0 < k < NextChunk(s).size
    requires next != [] ==> !Continues(next[0])
    ensures NextChunk(s[..k] + next) == IllFormed(k)
  {
    var t := s[..k] + next;
    assert forall i :: 0 <= i < k ==> t[i] == s[i];
    assert next != [] ==> t[k] == next[0];
  }

  /** Starting inside a character costs at most two bytes more for each byte of it that is left. */
  lemma {:induction false} CutTail(s: Bytes, k: nat)
    requires WellFormed(s) && k <= |s|
    ensures |Reencode(s[k..])| <= |s| - k + 6
    decreases |s|
  {
    hide NextChunk;
    if k == 0 {
      assert s[k..] == s;
      WellFormedStays(s);
    } else {
      var n := NextChunk(s).size;
      if k >= n {
        assert s[n..][k - n..] == s[k..];
        CutTail(s[n..], k - n);
      } else {
        RestOfCharacter(s);
        assert s[k..] == s[k..n] + s[n..];
        LoneContinuations(s[k..n], s[n..]);
        WellFormedStays(s[n..]);
      }
    }
  }

  lemma RestOfCharacter(s: Bytes)
    requires s != [] && NextChunk(s).Character?
    ensures forall i :: 0 < i < NextChunk(s).size ==> Continues(s[i])
  {
  }

  lemma {:induction false} LoneContinuations(a: Bytes, b: Bytes)
    requires forall i :: 0 <= i < |a| ==> Continues(a[i])
    ensures |Reencode(a + b)| == 3 * |a| + |Reencode(b)|
    decreases |a|
  {
    if a == [] {
      assert a + b == b;
    } else {
      assert (a + b)[0] == a[0] && (a + b)[1..] == a[1..] + b;
      LoneContinuations(a[1..], b);
    }
  }

  /** Bytes come back unchanged iff they are well formed. */
  lemma UnchangedIffWellFormed(s: Bytes)
    ensures Reencode(s) == s <==> WellFormed(s)
  {
    hide Reencode, WellFormed;
    ReencodedIsWellFormed(s);
    if WellFormed(s) { WellFormedStays(s); }
  }

  lemma ChunkBeforeAscii(a: Bytes, b: Bytes)
    requires a != [] && b != [] && b[0] <= 0x7F
    ensures NextChunk(a + b) == NextChunk(a)
  {
    assert forall i :: 0 <= i < |a| ==> (a + b)[i] == a[i];
    assert (a + b)[|a|] == b[0];
  }

  /** No character reaches across a byte that starts an ASCII one. */
  lemma {:induction false} AsciiSplits(a: Bytes, b: Bytes)
    requires b != [] && b[0] <= 0x7F
    ensures Reencode(a + b) == Reencode(a) + Reencode(b)
    decreases |a|
  {
    hide NextChunk;
    if a == [] {
      assert a + b == b;
    } else {
      var n := NextChunk(a).size;
      ChunkBeforeAscii(a, b);
      assert (a + b)[..n] == a[..n] && (a + b)[n..] == a[n..] + b;
      AsciiSplits(a[n..], b);
      var first := if NextChunk(a).Character? then a[..n] else REPLACEMENT;
      assert first + (Reencode(a[n..]) + Reencode(b)) == first + Reencode(a[n..]) + Reencode(b);
    }
  }

  // ---------------------------------------------------------------- what well formed means

  /** A Unicode scalar value: a code point that is no surrogate. */
  predicate Scalar(u: nat) {
    u <= 0x10FFFF && !(0xD800 <= u <= 0xDFFF)
  }

  /** The table of section 3 of RFC 3629. */
  function Encoded(u: nat): (r: Bytes)
    requires Scalar(u)
    ensures r != []
  {
    if u <= 0x7F then [u]
    else if u <= 0x7FF then [0xC0 + u / 64, 0x80 + u % 64]
    else if u <= 0xFFFF then [0xE0 + u / 4096, 0x80 + u / 64 % 64, 0x80 + u % 64]
    else [0xF0 + u / 262144, 0x80 + u / 4096 % 64, 0x80 + u / 64 % 64, 0x80 + u % 64]
  }

  ghost predicate Scalars(us: seq<nat>) {
    forall i :: 0 <= i < |us| ==> Scalar(us[i])
  }

  ghost function Text(us: seq<nat>): Bytes
    requires Scalars(us)
  {
    if us == [] then [] else Encoded(us[0]) + Text(us[1..])
  }

  lemma EncodedBytes(u: nat)
    requires Scalar(u)
    ensures var r := Encoded(u);
      && LengthFrom(r[0]) == |r| && 1 <= |r| <= 4 && (|r| >= 2 ==> SecondFits(r[0], r[1]))
      && (|r| >= 3 ==> Continues(r[2])) && (|r| >= 4 ==> Continues(r[3]))
  {
  }

  lemma EncodedIsCharacter(u: nat, rest: Bytes)
    requires Scalar(u)
    ensures NextChunk(Encoded(u) + rest) == Character(|Encoded(u)|)
  {
    hide Encoded, LengthFrom, SecondFits, Continues, Scalar;
    EncodedBytes(u);
    var r := Encoded(u);
    var all := r + rest;
    assert forall i :: 0 <= i < |r| ==> all[i] == r[i];
  }

  lemma TwoBytes(a: Byte, b: Byte) returns (u: nat)
    requires LengthFrom(a) == 2 && SecondFits(a, b)
    ensures Scalar(u) && Encoded(u) == [a, b]
  {
    var x: int, y: int := a - 0xC0, b - 0x80;
    u := x * 64 + y;
    assert u / 64 == x && u % 64 == y;
  }

  lemma ThreeBytes(a: Byte, b: Byte, c: Byte) returns (u: nat)
    requires LengthFrom(a) == 3 && SecondFits(a, b) && Continues(c)
    ensures Scalar(u) && Encoded(u) == [a, b, c]
  {
    var x: int, y: int, z: int := a - 0xE0, b - 0x80, c - 0x80;
    u := x * 4096 + y * 64 + z;
    assert u / 4096 == x && u / 64 == x * 64 + y && u / 64 % 64 == y && u % 64 == z;
  }

  lemma FourBytes(a: Byte, b: Byte, c: Byte, d: Byte) returns (u: nat)
    requires LengthFrom(a) == 4 && SecondFits(a, b) && Continues(c) && Continues(d)
    ensures Scalar(u) && Encoded(u) == [a, b, c, d]
  {
    var w: int, x: int, y: int, z: int := a - 0xF0, b - 0x80, c - 0x80, d - 0x80;
    u := w * 262144 + x * 4096 + y * 64 + z;
    assert u / 262144 == w && u / 4096 == w * 64 + x && u / 4096 % 64 == x;
    assert u / 64 == w * 4096 + x * 64 + y && u / 64 % 64 == y && u % 64 == z;
  }

  lemma CharacterIsEncoded(s: Bytes) returns (u: nat)
    requires s != [] && NextChunk(s).Character?
    ensures Scalar(u) && Encoded(u) == s[..NextChunk(s).size]
  {
    OneByte(s[0]);
    FourAtMost(s[0]);
    hide Encoded, LengthFrom, SecondFits, Continues, Scalar;
    var n := NextChunk(s).size;
    if n == 1 {
      u := s[0];
      assert s[..1] == [s[0]];
    } else if n == 2 {
      u := TwoBytes(s[0], s[1]);
      assert s[..2] == [s[0], s[1]];
    } else if n == 3 {
      u := ThreeBytes(s[0], s[1], s[2]);
      assert s[..3] == [s[0], s[1], s[2]];
    } else {
      u := FourBytes(s[0], s[1], s[2], s[3]);
      assert s[..4] == [s[0], s[1], s[2], s[3]];
    }
  }

  lemma OneByte(b: Byte)
    ensures LengthFrom(b) == 1 ==> Scalar(b) && Encoded(b) == [b]
  {
  }

  lemma FourAtMost(b: Byte)
    ensures LengthFrom(b) <= 4
  {
  }

  lemma {:induction false} TextIsWellFormed(us: seq<nat>)
    requires Scalars(us)
    ensures WellFormed(Text(us))
    decreases |us|
  {
    hide NextChunk, Encoded;
    if us != [] {
      var r, rest := Encoded(us[0]), Text(us[1..]);
      TextIsWellFormed(us[1..]);
      EncodedIsCharacter(us[0], rest);
      assert (r + rest)[|r|..] == rest;
    }
  }

  /** The well-formed byte sequences are exactly the encodings of sequences of scalar values. */
  lemma {:induction false} WellFormedIsText(s: Bytes) returns (us: seq<nat>)
    requires WellFormed(s)
    ensures Scalars(us) && Text(us) == s
    decreases |s|
  {
    hide NextChunk, Encoded, Scalar;
    us := [];
    if s != [] {
      var n := NextChunk(s).size;
      var u := CharacterIsEncoded(s);
      var rest := WellFormedIsText(s[n..]);
      us := [u] + rest;
      assert us[1..] == rest && s == s[..n] + s[n..];
    }
  }
}
