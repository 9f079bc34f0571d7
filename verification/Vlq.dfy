/** Variable-length quantities of Standard MIDI Files 1.0 ("Conventions"). */
module VariableLength {
  import opened Wrappers
  import opened Bytes

  const VLQ_LIMIT: nat := 0x1000_0000
  const MAX_BYTES: nat := 4

  // The leading bytes of a quantity: seven bits each, continuation bit set.
  function High(value: nat): bytes {
    if value == 0 then [] else High(value / 128) + [value % 128 + 128]
  }

  function Encoded(value: nat): bytes {
    High(value / 128) + [value % 128]
  }

  function ReadFrom(rest: bytes, value: nat, limit: nat): Option<(nat, bytes)>
    decreases limit
  {
    if limit == 0 || rest == [] then None
    else
      var value' := value * 128 + rest[0] % 128;
      if rest[0] < 128 then Some((value', rest[1..])) else ReadFrom(rest[1..], value', limit - 1)
  }

  /** The quantity at the head of the input, and what follows it. */
  function Read(rest: bytes): Option<(nat, bytes)> {
    ReadFrom(rest, 0, MAX_BYTES)
  }

  lemma {:induction false} ReadSuffix(rest: bytes, value: nat, limit: nat)
    ensures var r := ReadFrom(rest, value, limit);
      r.Some? ==> 0 < |rest| - |r.value.1| <= limit && r.value.1 == rest[|rest| - |r.value.1|..]
    decreases limit
  {
    if limit != 0 && rest != [] && rest[0] >= 128 {
      ReadSuffix(rest[1..], value * 128 + rest[0] % 128, limit - 1);
    }
  }

  method ReadVlq(input: bytes, start: nat) returns (r: Option<(nat, nat)>)
    requires start <= |input|
    ensures r.Some? <==> Read(input[start..]).Some?
    ensures r.Some? ==>
      && start < r.value.1 <= |input|
      && Read(input[start..]) == Some((r.value.0, input[r.value.1..]))
  {
    var value: nat, cursor := 0, start;
    for i := 0 to MAX_BYTES
      invariant start + i == cursor <= |input|
      invariant ReadFrom(input[cursor..], value, MAX_BYTES - i) == Read(input[start..])
    {
      if cursor >= |input| {
        return None;
      }
      var byte: nat := input[cursor];
      assert input[cursor..][1..] == input[cursor + 1..];
      cursor := cursor + 1;
      value := value * 128 + byte % 128;
      if byte < 128 {
        return Some((value, cursor));
      }
    }
    return None;
  }

  // 128 to the power n: what n bytes can hold.
  function Capacity(n: nat): nat {
    if n == 0 then 1 else 128 * Capacity(n - 1)
  }

  lemma {:induction false} HighLength(value: nat, n: nat)
    requires value < Capacity(n)
    ensures |High(value)| <= n
  {
    if value != 0 {
      HighLength(value / 128, n - 1);
    }
  }

  method EncodeVlq(v: nat) returns (r: Option<bytes>)
    ensures r == if v < 0x1000_0000 then Some(Encoded(v)) else None
  {
    if v >= VLQ_LIMIT {
      return None;
    }
    var value: nat := v;
    var buffer := new byte[MAX_BYTES](_ => 0);
    var index: nat := 3;
    buffer[index] := value % 128;
    value := value / 128;
    assert Capacity(3) == 128 * 128 * 128;
    while value != 0
      invariant buffer.Length == MAX_BYTES
      invariant 0 <= index <= 3 && value < Capacity(index)
      invariant High(value) + buffer[index..] == Encoded(v)
    {
      ghost var tail := buffer[index..];
      index := index - 1;
      buffer[index] := value % 128 + 128;
      assert buffer[index..] == [buffer[index]] + tail;
      assert High(value) + tail == High(value / 128) + buffer[index..];
      value := value / 128;
    }
    assert High(value) + buffer[index..] == buffer[index..];
    return Some(buffer[index..]);
  }

  lemma {:induction false} ReadHigh(value: nat, rest: bytes, limit: nat)
    requires |High(value)| <= limit
    ensures ReadFrom(High(value) + rest, 0, limit) == ReadFrom(rest, value, limit - |High(value)|)
  {
    if value == 0 {
      assert High(value) + rest == rest;
    } else {
      var next := [value % 128 + 128];
      assert High(value) + rest == High(value / 128) + (next + rest);
      ReadHigh(value / 128, next + rest, limit);
      assert (next + rest)[1..] == rest;
    }
  }

  /** Every quantity up to 0x0fffffff reads back, leaving the cursor just past it. */
  lemma {:induction false} RoundTrip(value: nat, rest: bytes)
    requires value < 0x1000_0000
    ensures |Encoded(value)| <= 4
    ensures Read(Encoded(value) + rest) == Some((value, rest))
  {
    assert Capacity(3) == 128 * 128 * 128;
    HighLength(value / 128, 3);
    var last := [value % 128];
    assert Encoded(value) + rest == High(value / 128) + (last + rest);
    ReadHigh(value / 128, last + rest, MAX_BYTES);
    assert (last + rest)[1..] == rest;
  }

  lemma {:induction false} ScaleUp(a: nat, b: nat, c: nat)
    requires a <= 128 * b
    ensures a * c <= b * (128 * c)
  {
    assert b * (128 * c) == a * c + (128 * b - a) * c;
  }

  lemma {:induction false} ReadBound(rest: bytes, value: nat, limit: nat)
    requires ReadFrom(rest, value, limit).Some?
    ensures var (v, tail) := ReadFrom(rest, value, limit).value;
      |rest| >= |tail| && v < (value + 1) * Capacity(|rest| - |tail|)
    decreases limit
  {
    var (v, tail) := ReadFrom(rest, value, limit).value;
    ReadSuffix(rest, value, limit);
    if rest[0] >= 128 {
      var value' := value * 128 + rest[0] % 128;
      ReadBound(rest[1..], value', limit - 1);
      ReadSuffix(rest[1..], value', limit - 1);
      var c := Capacity(|rest| - 1 - |tail|);
      assert Capacity(|rest| - |tail|) == 128 * c;
      ScaleUp(value' + 1, value + 1, c);
    } else {
      assert Capacity(1) == 128;
    }
  }

  /** No encoding that reads back as a value is shorter than the one written, and no larger value is readable. */
  lemma {:induction false} Shortest(rest: bytes)
    requires Read(rest).Some?
    ensures var (value, tail) := Read(rest).value;
      value < 0x1000_0000 && |Encoded(value)| <= |rest| - |tail|
  {
    var (value, tail) := Read(rest).value;
    ReadBound(rest, 0, MAX_BYTES);
    ReadSuffix(rest, 0, MAX_BYTES);
    var n := |rest| - |tail|;
    assert Capacity(n) == 128 * Capacity(n - 1);
    assert Capacity(2) == 128 * 128 && Capacity(3) == 128 * Capacity(2) && Capacity(4) == 128 * Capacity(3);
    HighLength(value / 128, n - 1);
  }
}
