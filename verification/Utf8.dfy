/** Text as UTF-8 (RFC 3629): the bytes taken for text are exactly those that encode characters. */
module Utf8 {
  import opened Bytes

  // A Unicode scalar value: any code point but the surrogates.
  predicate IsCharacter(c: nat) {
    c < 0xd800 || 0xe000 <= c < 0x11_0000
  }

  // Section 3: six bits in each byte after the first.
  function Encoding(c: nat): bytes
    requires IsCharacter(c)
  {
    if c < 0x80 then [c]
    else if c < 0x800 then [0xc0 + c / 0x40, 0x80 + c % 0x40]
    else if c < 0x1_0000 then [0xe0 + c / 0x1000, 0x80 + c / 0x40 % 0x40, 0x80 + c % 0x40]
    else [0xf0 + c / 0x4_0000, 0x80 + c / 0x1000 % 0x40, 0x80 + c / 0x40 % 0x40, 0x80 + c % 0x40]
  }

  predicate AreCharacters(text: seq<nat>) {
    forall i :: 0 <= i < |text| ==> IsCharacter(text[i])
  }

  function EncodingOf(text: seq<nat>): bytes
    requires AreCharacters(text)
  {
    if text == [] then [] else Encoding(text[0]) + EncodingOf(text[1..])
  }

  lemma {:induction false} CharacterIsUtf8(c: nat, rest: bytes)
    requires IsCharacter(c) && IsUtf8(rest)
    ensures IsUtf8(Encoding(c) + rest)
  {
    var head := Encoding(c);
    var s := head + rest;
    assert s[|head|..] == rest;
    assert forall i :: 0 <= i < |head| ==> s[i] == head[i];
    HeadDecides(s, |head|);
  }

  // What the bytes of one character must be.
  predicate IsHead(s: bytes, n: nat)
    requires 1 <= n <= 4 && n <= |s|
  {
    match n
    case 1 => s[0] < 0x80
    case 2 => 0xc2 <= s[0] < 0xe0 && Continues(s, 1)
    case 3 =>
      0xe0 <= s[0] < 0xf0 && Continues(s, 2) && (s[0] == 0xe0 ==> 0xa0 <= s[1]) && (s[0] == 0xed ==> s[1] < 0xa0)
    case 4 =>
      0xf0 <= s[0] < 0xf5 && Continues(s, 3) && (s[0] == 0xf0 ==> 0x90 <= s[1]) && (s[0] == 0xf4 ==> s[1] < 0x90)
  }

  lemma {:induction false} HeadDecides(s: bytes, n: nat)
    requires 1 <= n <= 4 && n <= |s| && IsHead(s, n)
    ensures IsUtf8(s) <==> IsUtf8(s[n..])
  {
  }

  lemma {:induction false} EncodedIsUtf8(text: seq<nat>)
    requires AreCharacters(text)
    ensures IsUtf8(EncodingOf(text))
  {
    if text != [] {
      EncodedIsUtf8(text[1..]);
      CharacterIsUtf8(text[0], EncodingOf(text[1..]));
    }
  }

  lemma {:induction false} Two(a: nat, b: nat) returns (c: nat)
    requires 0xc2 <= a < 0xe0 && 0x80 <= b < 0xc0
    ensures IsCharacter(c) && Encoding(c) == [a, b]
  {
    c := (a - 0xc0) * 0x40 + (b - 0x80);
  }

  lemma {:induction false} Three(a: nat, b: nat, d: nat) returns (c: nat)
    requires 0xe0 <= a < 0xf0 && 0x80 <= b < 0xc0 && 0x80 <= d < 0xc0
    requires (a == 0xe0 ==> 0xa0 <= b) && (a == 0xed ==> b < 0xa0)
    ensures IsCharacter(c) && Encoding(c) == [a, b, d]
  {
    var high := (a - 0xe0) * 0x40 + (b - 0x80);
    c := high * 0x40 + (d - 0x80);
    assert c / 0x40 == high && c / 0x1000 == high / 0x40;
  }

  lemma {:induction false} Four(a: nat, b: nat, d: nat, e: nat) returns (c: nat)
    requires 0xf0 <= a < 0xf5 && 0x80 <= b < 0xc0 && 0x80 <= d < 0xc0 && 0x80 <= e < 0xc0
    requires (a == 0xf0 ==> 0x90 <= b) && (a == 0xf4 ==> b < 0x90)
    ensures IsCharacter(c) && Encoding(c) == [a, b, d, e]
  {
    var high := (a - 0xf0) * 0x40 + (b - 0x80);
    var middle := high * 0x40 + (d - 0x80);
    c := middle * 0x40 + (e - 0x80);
    assert c / 0x40 == middle && c / 0x1000 == middle / 0x40 == high && c / 0x4_0000 == high / 0x40;
  }

  // The character at the head of some text.
  lemma {:induction false} CharacterRead(s: bytes) returns (c: nat)
    requires s != [] && IsUtf8(s)
    ensures IsCharacter(c) && |Encoding(c)| <= |s| && s == Encoding(c) + s[|Encoding(c)|..]
    ensures IsUtf8(s[|Encoding(c)|..])
  {
    hide Encoding, IsCharacter;
    if s[0] < 0x80 {
      c := One(s[0]);
      assert s == [s[0]] + s[1..];
    } else if s[0] < 0xe0 {
      c := Two(s[0], s[1]);
      assert s == [s[0], s[1]] + s[2..];
    } else if s[0] < 0xf0 {
      c := Three(s[0], s[1], s[2]);
      assert s == [s[0], s[1], s[2]] + s[3..];
    } else {
      c := Four(s[0], s[1], s[2], s[3]);
      assert s == [s[0], s[1], s[2], s[3]] + s[4..];
    }
  }

  lemma {:induction false} One(a: nat) returns (c: nat)
    requires a < 0x80
    ensures IsCharacter(c) && Encoding(c) == [a]
  {
    c := a;
  }

  lemma {:induction false} TextRead(s: bytes) returns (text: seq<nat>)
    requires IsUtf8(s)
    ensures AreCharacters(text) && EncodingOf(text) == s
    decreases |s|
  {
    text := [];
    if s != [] {
      var c := CharacterRead(s);
      var rest := TextRead(s[|Encoding(c)|..]);
      text := [c] + rest;
      assert text[1..] == rest;
    }
  }

  /** Bytes are taken for text if and only if they are the encoding of some characters. */
  lemma {:induction false} Utf8IsText(s: bytes)
    ensures IsUtf8(s) <==> exists text :: AreCharacters(text) && EncodingOf(text) == s
  {
    if IsUtf8(s) {
      var text := TextRead(s);
    }
    forall text | AreCharacters(text) && EncodingOf(text) == s ensures IsUtf8(s) {
      EncodedIsUtf8(text);
    }
  }
}
