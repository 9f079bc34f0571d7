/** Bytes and fixed-width big- and little-endian integers. */
module Bytes {
  type byte = x: int | 0 <= x < 0x100
  type bytes = seq<byte>

  const U16_LIMIT: nat := 0x1_0000
  const U32_LIMIT: nat := 0x1_0000_0000
  const U64_MAX: nat := 0xffff_ffff_ffff_ffff

  type u64 = x: nat | x <= U64_MAX

  function Be16(n: nat): bytes
    requires n < U16_LIMIT
  {
    [n / 0x100, n % 0x100]
  }

  function FromBe16(b: bytes): nat
    requires |b| == 2
  {
    b[0] as nat * 0x100 + b[1]
  }

  function Be32(n: nat): bytes
    requires n < U32_LIMIT
  {
    [n / 0x100_0000, n / 0x1_0000 % 0x100, n / 0x100 % 0x100, n % 0x100]
  }

  function FromBe32(b: bytes): nat
    requires |b| == 4
  {
    b[0] as nat * 0x100_0000 + b[1] as nat * 0x1_0000 + b[2] as nat * 0x100 + b[3]
  }

  function FromLe16(b: bytes): nat
    requires |b| == 2
  {
    b[1] as nat * 0x100 + b[0]
  }

  function FromLe32(b: bytes): nat
    requires |b| == 4
  {
    b[3] as nat * 0x100_0000 + b[2] as nat * 0x1_0000 + b[1] as nat * 0x100 + b[0]
  }

  function Le32(n: nat): bytes
    requires n < U32_LIMIT
  {
    [n % 0x100, n / 0x100 % 0x100, n / 0x1_0000 % 0x100, n / 0x100_0000]
  }

  lemma {:induction false} BigEndianRoundTrip(n: nat)
    ensures n < U16_LIMIT ==> FromBe16(Be16(n)) == n
    ensures n < U32_LIMIT ==> FromBe32(Be32(n)) == n
  {
    if n < U32_LIMIT {
      assert n / 0x1_0000 == (n / 0x100) / 0x100;
      assert n / 0x100_0000 == (n / 0x1_0000) / 0x100;
    }
  }

  lemma {:induction false} LittleEndianRoundTrip(n: nat)
    requires n < U32_LIMIT
    ensures FromLe32(Le32(n)) == n
  {
    assert n / 0x1_0000 == (n / 0x100) / 0x100;
    assert n / 0x100_0000 == (n / 0x1_0000) / 0x100;
  }

  lemma {:induction false} LittleEndianBytes(b: bytes)
    requires |b| == 4
    ensures FromLe32(b) < U32_LIMIT && Le32(FromLe32(b)) == b
  {
    var n := FromLe32(b);
    assert n / 0x1_0000 == b[3] as nat * 0x100 + b[2] as nat;
    assert n / 0x100 == b[3] as nat * 0x1_0000 + b[2] as nat * 0x100 + b[1] as nat;
  }

  // Well-formed UTF-8 (RFC 3629, section 4), the condition under which `str::from_utf8` succeeds.
  predicate IsUtf8(s: bytes) {
    if s == [] then true
    else if s[0] < 0x80 then IsUtf8(s[1..])
    else if 0xc2 <= s[0] < 0xe0 then Continues(s, 1) && IsUtf8(s[2..])
    else if 0xe0 <= s[0] < 0xf0 then
      && Continues(s, 2)
      && (s[0] == 0xe0 ==> 0xa0 <= s[1]) && (s[0] == 0xed ==> s[1] < 0xa0)
      && IsUtf8(s[3..])
    else
      && 0xf0 <= s[0] < 0xf5 && Continues(s, 3)
      && (s[0] == 0xf0 ==> 0x90 <= s[1]) && (s[0] == 0xf4 ==> s[1] < 0x90)
      && IsUtf8(s[4..])
  }

  predicate Continues(s: bytes, n: nat) {
    n < |s| && forall i :: 1 <= i <= n ==> 0x80 <= s[i] < 0xc0
  }
}
