/** Byte strings and the host-independent integer encoding of `utils::to_array` / `utils::from_array`. */
module Bytes {
  type byte = x: int | 0 <= x < 256

  /** `size()` of a C++ vector is a 64-bit number, so every payload is shorter than this. */
  const U64_LIMIT: nat := 0x1_0000_0000_0000_0000

  function Pow256(n: nat): (r: nat)
    ensures r > 0
  {
    if n == 0 then 1 else 256 * Pow256(n - 1)
  }

  lemma Pow256Eight()
    ensures Pow256(8) == U64_LIMIT
  {
    assert Pow256(4) == 0x1_0000_0000;
    assert Pow256(8) == 256 * (256 * (256 * (256 * Pow256(4))));
  }

  function LittleEndian(value: nat, width: nat): (r: seq<byte>)
    ensures |r| == width
  {
    if width == 0 then [] else [value % 256] + LittleEndian(value / 256, width - 1)
  }

  function FromLittleEndian(s: seq<byte>): nat {
    if s == [] then 0 else s[0] + 256 * FromLittleEndian(s[1..])
  }

  lemma {:induction false} DecodeEncode(value: nat, width: nat)
    requires value < Pow256(width)
    ensures FromLittleEndian(LittleEndian(value, width)) == value
  {
    if width == 0 {
    } else {
      DecodeEncode(value / 256, width - 1);
      assert LittleEndian(value, width)[1..] == LittleEndian(value / 256, width - 1);
    }
  }

  lemma {:induction false} EncodeDecode(s: seq<byte>)
    ensures FromLittleEndian(s) < Pow256(|s|)
    ensures LittleEndian(FromLittleEndian(s), |s|) == s
  {
    if s == [] {
    } else {
      EncodeDecode(s[1..]);
      var rest := FromLittleEndian(s[1..]);
      assert (s[0] + 256 * rest) % 256 == s[0] && (s[0] + 256 * rest) / 256 == rest;
    }
  }

  /** The byte at position `i` is the digit of weight 256^i, whatever the width. */
  lemma {:induction false} Digit(value: nat, width: nat, i: nat)
    requires i < width
    ensures LittleEndian(value, width)[i] == (value / Pow256(i)) % 256
  {
    if i > 0 {
      Digit(value / 256, width - 1, i - 1);
      DivideTwice(value, Pow256(i - 1));
    }
  }

  lemma DivideTwice(value: nat, d: nat)
    requires d > 0
    ensures value / 256 / d == value / (256 * d)
  {
    var q := value / 256 / d;
    var r := value / 256 - q * d;
    var low := value % 256;
    assert value == 256 * (q * d + r) + low == q * (256 * d) + (256 * r + low);
    assert 0 <= r <= d - 1 && 256 * r <= 256 * (d - 1) && 0 <= 256 * r + low < 256 * d;
    QuotientIs(value, 256 * d, q, 256 * r + low);
  }

  lemma QuotientIs(value: nat, d: nat, q: nat, r: nat)
    requires r < d && value == q * d + r
    ensures value / d == q
  {
    var p: int, s: int := value / d, value % d;
    assert p * d + s == q * d + r && 0 <= s < d;
    assert (p - q) * d == r - s;
    Multiples(p - q, d);
  }

  lemma Multiples(n: int, d: nat)
    ensures n >= 1 ==> n * d >= d
    ensures n <= -1 ==> n * d + d <= 0
  {
    assert n * d == (n - 1) * d + d == (n + 1) * d - d;
  }

  // ---- Host memory: what memcpy of an integer writes, and what memcpy into an integer reads ----

  datatype Host = LittleHost | BigHost

  function BigEndian(value: nat, width: nat): (r: seq<byte>)
    ensures |r| == width
  {
    if width == 0 then [] else BigEndian(value / 256, width - 1) + [value % 256]
  }

  function FromBigEndian(s: seq<byte>): nat {
    if s == [] then 0 else 256 * FromBigEndian(s[..|s| - 1]) + s[|s| - 1]
  }

  function Store(host: Host, value: nat, width: nat): (r: seq<byte>)
    ensures |r| == width
  {
    if host.BigHost? then BigEndian(value, width) else LittleEndian(value, width)
  }

  function Load(host: Host, memory: seq<byte>): nat {
    if host.BigHost? then FromBigEndian(memory) else FromLittleEndian(memory)
  }

  function Reversed(s: seq<byte>): (r: seq<byte>)
    ensures |r| == |s|
    ensures forall i :: 0 <= i < |s| ==> r[i] == s[|s| - 1 - i]
  {
    seq(|s|, i requires 0 <= i < |s| => s[|s| - 1 - i])
  }

  lemma {:induction false} ReversedBigEndian(value: nat, width: nat)
    ensures Reversed(BigEndian(value, width)) == LittleEndian(value, width)
  {
    if width == 0 {
    } else {
      ReversedBigEndian(value / 256, width - 1);
      var high := BigEndian(value / 256, width - 1);
      assert Reversed(high + [value % 256]) == [value % 256] + Reversed(high);
    }
  }

  lemma {:induction false} LoadReversed(s: seq<byte>)
    ensures FromBigEndian(Reversed(s)) == FromLittleEndian(s)
  {
    if s == [] {
    } else {
      LoadReversed(s[1..]);
      assert Reversed(s)[..|s| - 1] == Reversed(s[1..]);
    }
  }

  /** `std::reverse` over a whole local array. */
  method ReverseInPlace(a: array<byte>)
    modifies a
    ensures a[..] == Reversed(old(a[..]))
  {
    var i := 0;
    while i < a.Length / 2
      invariant 0 <= i <= a.Length / 2
      invariant forall k :: 0 <= k < i ==> a[k] == old(a[a.Length - 1 - k]) && a[a.Length - 1 - k] == old(a[k])
      invariant forall k :: i <= k < a.Length - i ==> a[k] == old(a[k])
    {
      a[i], a[a.Length - 1 - i] := a[a.Length - 1 - i], a[i];
      i := i + 1;
    }
  }

  /** `std::memcpy` of a byte string to the start of an array. */
  method CopyTo(source: seq<byte>, target: array<byte>, at: nat)
    requires at + |source| <= target.Length
    modifies target
    ensures target[..] == old(target[..at]) + source + old(target[at + |source|..])
  {
    for i := 0 to |source|
      invariant target[..at] == old(target[..at])
      invariant target[at..at + i] == source[..i]
      invariant target[at + i..] == old(target[at + i..])
    {
      target[at + i] := source[i];
    }
    assert target[..] == target[..at] + target[at..at + |source|] + target[at + |source|..];
  }

  /** Whatever the host's byte order, the bytes on the wire are little-endian. */
  method ToArray(host: Host, value: nat, width: nat) returns (retval: array<byte>)
    ensures fresh(retval)
    ensures retval[..] == LittleEndian(value, width)
  {
    retval := new byte[width];
    CopyTo(Store(host, value, width), retval, 0);
    if host.BigHost? {
      ReverseInPlace(retval);
      ReversedBigEndian(value, width);
    }
  }

  /** `from_array` reads the same number on either host. */
  method FromArray(host: Host, data: seq<byte>, width: nat) returns (value: nat)
    requires width <= |data|
    ensures value == FromLittleEndian(data[..width])
  {
    var temp := new byte[width];
    CopyTo(data[..width], temp, 0);
    assert temp[..] == data[..width];
    if host.BigHost? {
      ReverseInPlace(temp);
      LoadReversed(data[..width]);
    }
    value := Load(host, temp[..]);
  }

  /** A value written by `to_array` on one host is read back by `from_array` on any other. */
  method AcrossHosts(writer: Host, reader: Host, value: nat, width: nat) returns (got: nat)
    requires value < Pow256(width)
    ensures got == value
  {
    var wire := ToArray(writer, value, width);
    got := FromArray(reader, wire[..], width);
    DecodeEncode(value, width);
    assert wire[..][..width] == wire[..];
  }

  // ---- Sequences ----

  lemma AppendAssociates<T>(a: seq<T>, b: seq<T>, c: seq<T>)
    ensures a + (b + c) == a + b + c
  {
  }

  lemma AppendNothing<T>(a: seq<T>)
    ensures a + [] == a == [] + a
  {
  }
}
