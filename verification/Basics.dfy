/** Values shared by the other modules: optional values, outcomes, bytes and text. */
module Basics {

  datatype Option<+T> = None | Some(value: T) {
    predicate IsFailure() { None? }
    function PropagateFailure<U>(): Option<U> requires None? { None }
    function Extract(): T requires Some? { value }
  }

  datatype Result<+T, +E> = Ok(value: T) | Err(error: E)

  type byte = b: int | 0 <= b < 256

  /** The twelve permission bits of a file. */
  type Mode = m: nat | m < 4096

  /** A server as the program names it: host and port. */
  type HostPort = (string, nat)

  predicate Contains(text: string, part: string) {
    exists i | 0 <= i <= |text| - |part| :: PartAt(text, part, i)
  }

  predicate PartAt(text: string, part: string, i: nat)
    requires i + |part| <= |text|
  {
    text[i..i + |part|] == part
  }

  predicate StartsWith(text: string, part: string) {
    part <= text
  }

  predicate IsWhite(c: char) {
    var u := c as int;
    0x09 <= u <= 0x0D || u == 0x20 || u == 0x85 || u == 0xA0 || u == 0x1680 || 0x2000 <= u <= 0x200A
    || u == 0x2028 || u == 0x2029 || u == 0x202F || u == 0x205F || u == 0x3000
  }

  function LowerChar(c: char): char {
    if 'A' <= c <= 'Z' then (c as int + 32) as char else c
  }

  function Lower(text: string): (r: string)
    ensures |r| == |text|
  {
    seq(|text|, i requires 0 <= i < |text| => LowerChar(text[i]))
  }

  function TrimStart(text: string): (r: string)
    ensures r != [] ==> !IsWhite(r[0])
    ensures |r| <= |text| && r == text[|text| - |r|..]
  {
    if text != [] && IsWhite(text[0]) then TrimStart(text[1..]) else text
  }

  function TrimEnd(text: string): (r: string)
    ensures r != [] ==> !IsWhite(r[|r| - 1])
    ensures r <= text
  {
    if text != [] && IsWhite(text[|text| - 1]) then TrimEnd(text[..|text| - 1]) else text
  }

  function Trim(text: string): (r: string)
    ensures |r| <= |text|
  {
    TrimEnd(TrimStart(text))
  }

  /** Text with no white space at either end. */
  predicate Trimmed(text: string) {
    text == [] || (!IsWhite(text[0]) && !IsWhite(text[|text| - 1]))
  }

  lemma TrimResult(text: string)
    ensures Trimmed(Trim(text))
    ensures Trimmed(text) <==> Trim(text) == text
  {
    var start := TrimStart(text);
    var r := TrimEnd(start);
    if r != [] { assert r[0] == start[0]; }
  }

  predicate AllWhite(text: string) {
    forall i | 0 <= i < |text| :: IsWhite(text[i])
  }

  lemma {:induction false} StartDropsWhite(text: string)
    ensures AllWhite(text[..|text| - |TrimStart(text)|])
  {
    if text != [] && IsWhite(text[0]) {
      StartDropsWhite(text[1..]);
      assert forall i | 0 < i < |text| :: text[i] == text[1..][i - 1];
    }
  }

  lemma {:induction false} EndDropsWhite(text: string)
    ensures AllWhite(text[|TrimEnd(text)|..])
  {
    if text != [] && IsWhite(text[|text| - 1]) { EndDropsWhite(text[..|text| - 1]); }
  }

  /** Trimming takes away white space at the two ends, and nothing else. */
  lemma TrimDropsWhite(text: string) returns (before: string, after: string)
    ensures text == before + Trim(text) + after && AllWhite(before) && AllWhite(after)
  {
    var start := TrimStart(text);
    StartDropsWhite(text);
    EndDropsWhite(start);
    before, after := text[..|text| - |start|], start[|Trim(text)|..];
    Halves(text, before, start, Trim(text), after);
  }

  lemma Halves(text: string, before: string, start: string, middle: string, after: string)
    requires |start| <= |text| && |middle| <= |start|
    requires start == text[|text| - |start|..] && before == text[..|text| - |start|]
    requires middle == start[..|middle|] && after == start[|middle|..]
    ensures text == before + middle + after
  {
    assert start == middle + after && text == before + start;
  }

  /** UTF-8 validity of a byte string (what String::from_utf8 checks). */
  predicate ValidUtf8(b: seq<byte>) {
    if b == [] then true
    else if b[0] < 0x80 then ValidUtf8(b[1..])
    else if 0xC2 <= b[0] <= 0xDF then |b| >= 2 && Tail(b[1]) && ValidUtf8(b[2..])
    else if 0xE0 <= b[0] <= 0xEF then
      |b| >= 3 && Tail(b[1]) && Tail(b[2]) && ValidUtf8(b[3..])
      && (b[0] == 0xE0 ==> b[1] >= 0xA0) && (b[0] == 0xED ==> b[1] <= 0x9F)
    else if 0xF0 <= b[0] <= 0xF4 then
      |b| >= 4 && Tail(b[1]) && Tail(b[2]) && Tail(b[3]) && ValidUtf8(b[4..])
      && (b[0] == 0xF0 ==> b[1] >= 0x90) && (b[0] == 0xF4 ==> b[1] <= 0x8F)
    else false
  }

  predicate Tail(b: byte) {
    0x80 <= b <= 0xBF
  }

  /** Which characters are lower-cased, and to what. */
  lemma LowerCaseIs(c: char)
    ensures 65 <= c as int <= 90 ==> LowerChar(c) as int == c as int + 32
    ensures !(65 <= c as int <= 90) ==> LowerChar(c) == c
  {
  }

  /** Which characters are white space: those with the Unicode property White_Space. */
  lemma WhiteSpaceIs(c: char)
    ensures IsWhite(c) <==>
      c as int in {9, 10, 11, 12, 13, 32, 133, 160, 5760, 8192, 8193, 8194, 8195, 8196, 8197, 8198, 8199, 8200, 8201,
                   8202, 8232, 8233, 8239, 8287, 12288}
  {
  }

  // ----- UTF-8 against its definition -----

  /** The encoding of one character. */
  function EncodeChar(c: char): seq<byte> {
    var u := c as int;
    if u < 0x80 then [u]
    else if u < 0x800 then [0xC0 + u / 64, 0x80 + u % 64]
    else if u < 0x1_0000 then [0xE0 + u / 4096, 0x80 + u / 64 % 64, 0x80 + u % 64]
    else [0xF0 + u / 262144, 0x80 + u / 4096 % 64, 0x80 + u / 64 % 64, 0x80 + u % 64]
  }

  function EncodeText(text: string): seq<byte> {
    if text == "" then [] else EncodeChar(text[0]) + EncodeText(text[1..])
  }

  /** Every text encodes to valid bytes. */
  lemma {:induction false} EncodedIsValid(text: string)
    ensures ValidUtf8(EncodeText(text))
  {
    if text != "" {
      EncodedIsValid(text[1..]);
      FrontIsValid(text[0], EncodeText(text[1..]));
    }
  }

  lemma FrontIsValid(c: char, rest: seq<byte>)
    requires ValidUtf8(rest)
    ensures ValidUtf8(EncodeChar(c) + rest)
  {
    var front := EncodeChar(c);
    OneIsValid(c);
    assert (front + rest)[|front|..] == rest;
  }

  /** The bytes of one character: a first byte that says how many follow, in the ranges the encoding allows. */
  predicate OneChar(b: seq<byte>) {
    || (|b| == 1 && b[0] < 0x80)
    || (|b| == 2 && 0xC2 <= b[0] <= 0xDF && Tail(b[1]))
    || (|b| == 3 && 0xE0 <= b[0] <= 0xEF && Tail(b[1]) && Tail(b[2])
        && (b[0] == 0xE0 ==> b[1] >= 0xA0) && (b[0] == 0xED ==> b[1] <= 0x9F))
    || (|b| == 4 && 0xF0 <= b[0] <= 0xF4 && Tail(b[1]) && Tail(b[2]) && Tail(b[3])
        && (b[0] == 0xF0 ==> b[1] >= 0x90) && (b[0] == 0xF4 ==> b[1] <= 0x8F))
  }

  lemma OneIsValid(c: char)
    ensures OneChar(EncodeChar(c))
  {
  }

  /** And all valid bytes are the encoding of some text. */
  lemma {:induction false} ValidIsEncoded(b: seq<byte>) returns (text: string)
    requires ValidUtf8(b)
    ensures EncodeText(text) == b
    decreases |b|
  {
    if b == [] {
      text := "";
    } else {
      var c, n := FrontIsEncoded(b);
      var more := ValidIsEncoded(b[n..]);
      text := [c] + more;
      assert text[1..] == more && b == b[..n] + b[n..];
    }
  }

  lemma FrontIsEncoded(b: seq<byte>) returns (c: char, n: nat)
    requires b != [] && ValidUtf8(b)
    ensures 0 < n <= |b| && EncodeChar(c) == b[..n] && ValidUtf8(b[n..])
  {
    if b[0] < 0x80 {
      c, n := b[0] as char, 1;
    } else if b[0] <= 0xDF {
      n := 2;
      c := CharOfTwo(b[0], b[1]);
    } else if b[0] <= 0xEF {
      n := 3;
      c := CharOfThree(b[0], b[1], b[2]);
    } else {
      n := 4;
      c := CharOfFour(b[0], b[1], b[2], b[3]);
    }
  }

  lemma CharOfTwo(x: byte, y: byte) returns (c: char)
    requires 0xC2 <= x <= 0xDF && Tail(y)
    ensures EncodeChar(c) == [x, y]
  {
    var u: int := 64 * x + y - 0x3080;
    c := u as char;
  }

  lemma CharOfThree(x: byte, y: byte, z: byte) returns (c: char)
    requires 0xE0 <= x <= 0xEF && Tail(y) && Tail(z) && (x == 0xE0 ==> y >= 0xA0) && (x == 0xED ==> y <= 0x9F)
    ensures EncodeChar(c) == [x, y, z]
  {
    var u: int := 4096 * x + 64 * y + z - 0xE2080;
    c := u as char;
  }

  lemma CharOfFour(x: byte, y: byte, z: byte, w: byte) returns (c: char)
    requires 0xF0 <= x <= 0xF4 && Tail(y) && Tail(z) && Tail(w) && (x == 0xF0 ==> y >= 0x90)
    requires x == 0xF4 ==> y <= 0x8F
    ensures EncodeChar(c) == [x, y, z, w]
  {
    var top: int := 64 * x + y - 0x3C80;
    var u: int := Shifted(top, z, w);
    c := u as char;
    assert top / 64 == x - 0xF0 && top % 64 == y - 0x80;
    assert u / 262144 == u / 4096 / 64;
  }

  /** Twelve low bits below a number, six at a time. */
  lemma Shifted(top: int, z: byte, w: byte) returns (u: int)
    requires 0 <= top && Tail(z) && Tail(w)
    ensures u / 4096 == top && u / 64 % 64 == z - 0x80 && u % 64 == w - 0x80
    ensures 4096 * top <= u < 4096 * top + 4096
  {
    var h: int := 64 * top + z - 0x80;
    u := 64 * h + w - 0x80;
    assert u / 64 == h && u % 64 == w - 0x80;
    assert h / 64 == top && h % 64 == z - 0x80;
    assert u / 4096 == u / 64 / 64;
  }
}
