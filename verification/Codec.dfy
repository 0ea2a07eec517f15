/** `codec<T>`, `concat`, `consume` and `map`: typed values written one after the other into one buffer and taken
    off again by a moving cursor. */
module Codec {
  import opened Bytes

  /** Integers of every width, signed or not; floating-point and character types are their bit patterns. */
  datatype Type = Integer(width: nat, signed: bool) | Boolean | Text

  datatype Value =
    | Number(width: nat, signed: bool, n: int)
    | Flag(on: bool)
    | Str(chars: seq<byte>)
    | Arr(elements: seq<Value>)

  predicate Typed(v: Value) {
    match v
    case Number(w, signed, n) =>
      w > 0 && if signed then 0 <= Pow256(w) + 2 * n && 2 * n < Pow256(w) else 0 <= n < Pow256(w)
    case Flag(_) => true
    case Str(_) => true
    case Arr(elements) => forall e :: e in elements ==> Typed(e)
  }

  predicate AllTyped(vs: seq<Value>) { forall v :: v in vs ==> Typed(v) }

  /** `codec<T[N]>` has no `deserialize`. */
  predicate Flat(vs: seq<Value>) { forall v :: v in vs ==> !v.Arr? }

  function TypeOf(v: Value): Type
    requires !v.Arr?
  {
    match v
    case Number(w, signed, _) => Integer(w, signed)
    case Flag(_) => Boolean
    case Str(_) => Text
  }

  /** Two's complement. */
  function Bits(width: nat, n: int): int { if n < 0 then n + Pow256(width) else n }

  function FromBits(width: nat, signed: bool, bits: nat): int {
    if signed && 2 * bits >= Pow256(width) then bits - Pow256(width) else bits
  }

  function Size(v: Value): nat {
    match v
    case Number(w, _, _) => w
    case Flag(_) => 1
    case Str(s) => |s|
    case Arr(elements) => Sizes(elements)
  }

  function Sizes(vs: seq<Value>): nat {
    if vs == [] then 0 else Size(vs[0]) + Sizes(vs[1..])
  }

  function Serial(v: Value): seq<byte>
    requires Typed(v)
  {
    match v
    case Number(w, _, n) => LittleEndian(Bits(w, n), w)
    case Flag(on) => [if on then 1 else 0]
    case Str(s) => s
    case Arr(elements) => Serials(elements)
  }

  /** The bytes of values one after the other; an array field is just its elements. */
  function Serials(vs: seq<Value>): seq<byte>
    requires AllTyped(vs)
  {
    if vs == [] then [] else Serial(vs[0]) + Serials(vs[1..])
  }

  lemma {:induction false} SerialSize(v: Value)
    requires Typed(v)
    ensures |Serial(v)| == Size(v)
    decreases v, 1
  {
    if v.Arr? { SerialsSize(v.elements); }
  }

  lemma {:induction false} SerialsSize(vs: seq<Value>)
    requires AllTyped(vs)
    ensures |Serials(vs)| == Sizes(vs)
    decreases vs, 0
  {
    if vs != [] {
      SerialSize(vs[0]);
      SerialsSize(vs[1..]);
    }
  }

  lemma {:induction false} SerialsAppend(vs: seq<Value>, v: Value)
    requires AllTyped(vs) && Typed(v)
    ensures AllTyped(vs + [v]) && Serials(vs + [v]) == Serials(vs) + Serial(v)
  {
    if vs == [] {
      assert vs + [v] == [v];
    } else {
      SerialsAppend(vs[1..], v);
      assert (vs + [v])[1..] == vs[1..] + [v];
    }
  }

  lemma {:induction false} SizesAppend(vs: seq<Value>, v: Value)
    ensures Sizes(vs + [v]) == Sizes(vs) + Size(v)
  {
    if vs == [] {
      assert vs + [v] == [v];
    } else {
      SizesAppend(vs[1..], v);
      assert (vs + [v])[1..] == vs[1..] + [v];
    }
  }

  // ---- Writing in place ----

  /** `codec<T>::size`; for `T[N]` a loop over the elements. */
  method SizeOf(v: Value) returns (size: nat)
    ensures size == Size(v)
    decreases v
  {
    match v
    case Number(w, _, _) => size := w;
    case Flag(_) => size := 1;
    case Str(s) => size := |s|;
    case Arr(elements) =>
      size := 0;
      for i := 0 to |elements|
        invariant size == Sizes(elements[..i])
      {
        var one := SizeOf(elements[i]);
        assert elements[..i + 1] == elements[..i] + [elements[i]];
        SizesAppend(elements[..i], elements[i]);
        size := size + one;
      }
      assert elements[..|elements|] == elements;
  }

  /** `codec<T>::serialize` at `output + at`; for `T[N]` a loop that advances by what each element took. */
  method Serialize(host: Host, output: array<byte>, at: nat, v: Value) returns (n: nat)
    requires Typed(v) && at + Size(v) <= output.Length
    modifies output
    ensures n == Size(v) == |Serial(v)| && output[..] == Spliced(old(output[..]), at, Serial(v))
    decreases v, 1
  {
    SerialSize(v);
    match v
    case Number(w, _, value) =>
      var typed := ToArray(host, Bits(w, value), w);
      CopyTo(typed[..], output, at);
      n := w;
    case Flag(on) =>
      CopyTo([if on then 1 else 0], output, at);
      n := 1;
    case Str(s) =>
      CopyTo(s, output, at);
      n := |s|;
    case Arr(elements) =>
      n := SerializeEach(host, output, at, elements);
  }

  /** The loop of `codec<T[N]>::serialize`, which is also the fold of `concat_into`: no byte is skipped and no earlier
      segment overwritten. */
  method SerializeEach(host: Host, output: array<byte>, at: nat, vs: seq<Value>) returns (n: nat)
    requires AllTyped(vs) && at + Sizes(vs) <= output.Length
    modifies output
    ensures n == Sizes(vs) == |Serials(vs)| && output[..] == Spliced(old(output[..]), at, Serials(vs))
    decreases vs, 0
  {
    hide Typed, Serial, Size;
    n := 0;
    SerialsSize(vs);
    ghost var original := output[..];
    for i := 0 to |vs|
      invariant n == Sizes(vs[..i]) == |Serials(vs[..i])|
      invariant n + Sizes(vs[i..]) == Sizes(vs)
      invariant at + n <= output.Length && output[..] == Spliced(original, at, Serials(vs[..i]))
    {
      assert vs[i..][0] == vs[i] && vs[i..][1..] == vs[i + 1..];
      assert vs[..i + 1] == vs[..i] + [vs[i]];
      SerialsAppend(vs[..i], vs[i]);
      SizesAppend(vs[..i], vs[i]);
      var one := Serialize(host, output, at + n, vs[i]);
      SplicedTwice(original, at, Serials(vs[..i]), Serial(vs[i]));
      n := n + one;
    }
    assert vs[..|vs|] == vs;
  }

  function Spliced(s: seq<byte>, at: nat, part: seq<byte>): seq<byte>
    requires at + |part| <= |s|
  {
    s[..at] + part + s[at + |part|..]
  }

  /** Writing a part and then another right after it is writing both at once. */
  lemma SplicedTwice(s: seq<byte>, at: nat, part: seq<byte>, more: seq<byte>)
    requires at + |part| + |more| <= |s|
    ensures Spliced(Spliced(s, at, part), at + |part|, more) == Spliced(s, at, part + more)
  {
  }

  /** `concat_into(buffer, data...)`. */
  method ConcatInto(host: Host, buffer: array<byte>, vs: seq<Value>) returns (n: nat)
    requires AllTyped(vs) && Sizes(vs) <= buffer.Length
    modifies buffer
    ensures n == Sizes(vs) && buffer[..] == Serials(vs) + old(buffer[n..])
  {
    n := SerializeEach(host, buffer, 0, vs);
  }

  /** `concat(data...)`: the message is sized by `codec::size` and filled exactly. */
  method Concat(host: Host, vs: seq<Value>) returns (message: array<byte>)
    requires AllTyped(vs)
    ensures fresh(message) && message[..] == Serials(vs) && message.Length == Sizes(vs)
  {
    var total := 0;
    for i := 0 to |vs|
      invariant total == Sizes(vs[..i])
    {
      var one := SizeOf(vs[i]);
      assert vs[..i + 1] == vs[..i] + [vs[i]];
      SizesAppend(vs[..i], vs[i]);
      total := total + one;
    }
    assert vs[..|vs|] == vs;
    message := new byte[total];
    var n := ConcatInto(host, message, vs);
  }

  // ---- Taking off ----

  /** A scalar that the payload is too short for is read out of bounds in the source. */
  datatype Consumed = Took(value: Value, rest: seq<byte>) | OutOfBounds

  function Take(t: Type, data: seq<byte>): Consumed {
    match t
    case Integer(w, signed) =>
      if |data| < w then OutOfBounds
      else Took(Number(w, signed, FromBits(w, signed, FromLittleEndian(data[..w]))), data[w..])
    case Boolean => if |data| < 1 then OutOfBounds else Took(Flag(data[0] != 0), data[1..])
    case Text => Took(Str(data), [])
  }

  /** The `data` pointer and `size` that `consume` moves. */
  class Cursor {
    const memory: seq<byte>
    var at: nat
    var size: nat

    predicate Valid() reads this { at + size == |memory| }

    function Rest(): seq<byte> reads this requires Valid() { memory[at..] }

    constructor (memory: seq<byte>)
      ensures Valid() && Rest() == memory
    {
      this.memory, at, size := memory, 0, |memory|;
    }

    /** `consume<T>`. */
    method Consume(host: Host, t: Type) returns (r: Consumed)
      requires Valid()
      modifies this
      ensures Valid() && r == Take(t, old(Rest()))
      ensures Rest() == if r.Took? then r.rest else old(Rest())
    {
      var data := memory[at..];
      var value;
      match t {
        case Integer(w, signed) =>
          if size < w { return OutOfBounds; }
          var bits := FromArray(host, data, w);
          value := Number(w, signed, FromBits(w, signed, bits));
        case Boolean =>
          if size < 1 { return OutOfBounds; }
          value := Flag(data[0] != 0);
        case Text =>
          value := Str(data[..size]);
      }
      var consumed := SizeOf(value);
      size := size - consumed;
      at := at + consumed;
      return Took(value, memory[at..]);
    }
  }

  datatype Taken = AllTook(values: seq<Value>, rest: seq<byte>) | Short

  function TakeAll(ts: seq<Type>, data: seq<byte>): Taken
    decreases |ts|
  {
    if ts == [] then AllTook([], data) else
    match Take(ts[0], data)
    case OutOfBounds => Short
    case Took(v, rest) =>
      match TakeAll(ts[1..], rest)
      case Short => Short
      case AllTook(vs, end) => AllTook([v] + vs, end)
  }

  method ConsumeAll(host: Host, ts: seq<Type>, data: seq<byte>) returns (r: Taken)
    ensures r == TakeAll(ts, data)
  {
    hide Take, TakeAll;
    NoneTaken(ts, data);
    var cursor := new Cursor(data);
    var values := [];
    for i := 0 to |ts|
      invariant cursor.Valid()
      invariant TakeAll(ts, data) == After(values, TakeAll(ts[i..], cursor.Rest()))
    {
      assert ts[i..][0] == ts[i] && ts[i..][1..] == ts[i + 1..];
      AfterOne(values, ts[i..], cursor.Rest());
      var one := cursor.Consume(host, ts[i]);
      if one.OutOfBounds? {
        return Short;
      }
      values := values + [one.value];
    }
    NoneTaken([], cursor.Rest());
    AppendNothing(values);
    return AllTook(values, cursor.Rest());
  }

  /** What was taken, with values taken before it. */
  function After(values: seq<Value>, taken: Taken): Taken {
    match taken
    case Short => Short
    case AllTook(vs, end) => AllTook(values + vs, end)
  }

  lemma NoneTaken(ts: seq<Type>, data: seq<byte>)
    ensures After([], TakeAll(ts, data)) == TakeAll(ts, data)
    ensures TakeAll([], data) == AllTook([], data)
  {
    var taken := TakeAll(ts, data);
    if taken.AllTook? { AppendNothing(taken.values); }
  }

  lemma AfterOne(values: seq<Value>, ts: seq<Type>, data: seq<byte>)
    requires ts != []
    ensures var one := Take(ts[0], data);
            After(values, TakeAll(ts, data))
              == if one.OutOfBounds? then Short else After(values + [one.value], TakeAll(ts[1..], one.rest))
  {
    var one := Take(ts[0], data);
    if one.Took? {
      var rest := TakeAll(ts[1..], one.rest);
      if rest.AllTook? { AppendAssociates(values, [one.value], rest.values); }
    }
  }

  function TypesOf(vs: seq<Value>): (ts: seq<Type>)
    requires Flat(vs)
    ensures |ts| == |vs|
  {
    if vs == [] then [] else [TypeOf(vs[0])] + TypesOf(vs[1..])
  }

  /** A string takes all that is left, so nothing may be left after it. */
  predicate StringsLast(vs: seq<Value>) {
    forall i :: 0 <= i < |vs| && vs[i].Str? ==> Sizes(vs[i + 1..]) == 0
  }

  /** One scalar is read back, whatever follows it, signed and boolean included. */
  lemma TakeSerial(v: Value, more: seq<byte>)
    requires Typed(v) && !v.Arr?
    ensures Take(TypeOf(v), Serial(v) + more) == if v.Str? then Took(Str(v.chars + more), []) else Took(v, more)
  {
    match v
    case Number(w, signed, n) =>
      DecodeEncode(Bits(w, n), w);
      assert (Serial(v) + more)[..w] == Serial(v);
      assert (Serial(v) + more)[w..] == more;
    case Flag(_) =>
      assert (Serial(v) + more)[1..] == more;
    case Str(_) =>
  }

  lemma StringsLastTail(vs: seq<Value>)
    requires vs != []
    ensures StringsLast(vs) <==> StringsLast(vs[1..]) && (vs[0].Str? ==> Sizes(vs[1..]) == 0)
  {
    forall i | 0 <= i < |vs| - 1 ensures vs[1..][i] == vs[i + 1] && vs[1..][i + 1..] == vs[i + 1 + 1..] {}
    if StringsLast(vs[1..]) && (vs[0].Str? ==> Sizes(vs[1..]) == 0) {
      forall i | 0 <= i < |vs| && vs[i].Str? ensures Sizes(vs[i + 1..]) == 0 {
        if i > 0 { assert vs[1..][i - 1] == vs[i] && vs[1..][i - 1 + 1..] == vs[i + 1..]; }
      }
    }
  }

  /** What single values look like on the wire, and which bytes are taken for true. */
  lemma OnTheWire()
    ensures Serial(Flag(true)) == [1] && Serial(Flag(false)) == [0]
    ensures Serial(Number(1, true, -1)) == [255] && Serial(Number(2, false, 258)) == [2, 1]
    ensures Serials([Number(2, true, -2), Flag(true), Str([104, 105])]) == [254, 255, 1, 104, 105]
    ensures forall b: byte, more :: Take(Boolean, [b] + more) == Took(Flag(b != 0), more)
    ensures forall data :: Take(Text, data) == Took(Str(data), [])
  {
    assert Pow256(2) == 65536 && Pow256(1) == 256;
    LittleEndianTwo(258);
    LittleEndianTwo(65534);
    LittleEndianOne(255);
    var vs := [Number(2, true, -2), Flag(true), Str([104, 105])];
    assert vs[1..] == [Flag(true), Str([104, 105])] && vs[1..][1..] == [Str([104, 105])] && vs[1..][1..][1..] == [];
    forall b: byte, more: seq<byte> ensures Take(Boolean, [b] + more) == Took(Flag(b != 0), more) {
      assert ([b] + more)[1..] == more;
    }
  }

  lemma LittleEndianOne(n: nat)
    requires n < 256
    ensures LittleEndian(n, 1) == [n]
  {
    assert LittleEndian(n / 256, 0) == [];
  }

  lemma LittleEndianTwo(n: nat)
    requires n < 65536
    ensures LittleEndian(n, 2) == [n % 256, n / 256]
  {
    LittleEndianOne(n / 256);
  }

  /** The round trip, and exactly when it holds: consuming the types of the values that were concatenated gives the
      values back with nothing left over iff no string has bytes after it. */
  lemma {:induction false} RoundTrip(vs: seq<Value>)
    requires AllTyped(vs) && Flat(vs)
    ensures TakeAll(TypesOf(vs), Serials(vs)) == AllTook(vs, []) <==> StringsLast(vs)
  {
    if vs == [] {
    } else {
      var v, rest := vs[0], vs[1..];
      RoundTrip(rest);
      StringsLastTail(vs);
      TakeSerial(v, Serials(rest));
      SerialsSize(rest);
      assert vs == [v] + rest;
      if v.Str? {
        if Serials(rest) == [] {
          assert v.chars + [] == v.chars;
        } else {
          assert |(v.chars + Serials(rest))| > |v.chars|;
        }
      }
    }
  }

  /** Whatever is taken off has the types that were asked for. */
  lemma {:induction false} TakenTypes(ts: seq<Type>, data: seq<byte>)
    ensures var taken := TakeAll(ts, data); taken.AllTook? ==> Flat(taken.values) && TypesOf(taken.values) == ts
  {
    if ts != [] {
      var one := Take(ts[0], data);
      if one.Took? {
        TakenTypes(ts[1..], one.rest);
        var taken := TakeAll(ts[1..], one.rest);
        if taken.AllTook? {
          assert ([one.value] + taken.values)[1..] == taken.values;
          assert !one.value.Arr? && TypeOf(one.value) == ts[0];
        }
      }
    }
  }

  /** Taking other types off a message than were put there never gives its values with nothing left over; taking the
      same ones does, unless bytes follow a string. */
  lemma ExactTypes(ts: seq<Type>, vs: seq<Value>)
    requires AllTyped(vs) && Flat(vs)
    ensures TakeAll(ts, Serials(vs)) == AllTook(vs, []) <==> ts == TypesOf(vs) && StringsLast(vs)
  {
    TakenTypes(ts, Serials(vs));
    RoundTrip(vs);
  }

  /** An array field is taken off element by element. */
  lemma ArrayIsItsElements(elements: seq<Value>, more: seq<Value>)
    requires AllTyped(elements) && AllTyped(more)
    ensures Typed(Arr(elements)) && Serials([Arr(elements)] + more) == Serials(elements + more)
  {
    SerialsJoin(elements, more);
    assert ([Arr(elements)] + more)[1..] == more;
  }

  lemma {:induction false} SerialsJoin(a: seq<Value>, b: seq<Value>)
    requires AllTyped(a) && AllTyped(b)
    ensures AllTyped(a + b) && Serials(a + b) == Serials(a) + Serials(b)
  {
    if a == [] {
      assert a + b == b;
    } else {
      SerialsJoin(a[1..], b);
      assert (a + b)[1..] == a[1..] + b;
    }
  }

  // ---- map ----

  /** `mapping(tag, handler)`: the handler with the types that it consumes. */
  datatype Mapping = Mapping(tag: Value, handler: nat, types: seq<Type>)

  /** What the returned callback does: call the handler of a mapping with what is left, or nothing. */
  datatype Routed = Called(mapping: Mapping, rest: seq<byte>) | NoHandler | BadTag

  /** The handler of the first mapping with this tag. */
  predicate IsFirst(table: seq<Mapping>, tag: Value, i: nat) {
    && i < |table| && table[i].tag == tag
    && forall j :: 0 <= j < i ==> table[j].tag != tag
  }

  method Route(host: Host, t: Type, table: seq<Mapping>, payload: seq<byte>) returns (r: Routed)
    ensures r.BadTag? <==> Take(t, payload).OutOfBounds?
    ensures r.Called? ==> exists i: nat :: IsFirst(table, Take(t, payload).value, i) && r.mapping == table[i]
                                      && r.rest == Take(t, payload).rest
    ensures r.NoHandler? ==> forall i :: 0 <= i < |table| ==> table[i].tag != Take(t, payload).value
  {
    var cursor := new Cursor(payload);
    var value := cursor.Consume(host, t);
    if value.OutOfBounds? {
      return BadTag;
    }
    for i := 0 to |table|
      invariant forall j :: 0 <= j < i ==> table[j].tag != value.value
    {
      if value.value == table[i].tag {
        assert IsFirst(table, value.value, i);
        return Called(table[i], cursor.Rest());
      }
    }
    return NoHandler;
  }
}
