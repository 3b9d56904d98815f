/**
 Recursive length prefix encoding as Appendix B of the Ethereum Yellow Paper defines it: the encoder
 used for CREATE addresses and transaction estimates, and a decoder that accepts canonical input only.
 */
module Rlp {
  import opened Wrappers

  type Byte = n: nat | n < 0x100
  type Nibble = n: nat | n < 16

  datatype Value = Bytes(data: seq<Byte>) | List(items: seq<Value>)

  const MAX_PAYLOAD: nat := 0x1_0000_0000_0000_0000

  // ---------------------------------------------------------------- integers

  /** `toString(16)`: hexadecimal digits, most significant first. */
  function HexDigits(n: nat): (h: seq<Nibble>)
    ensures |h| >= 1
  {
    if n < 16 then [n] else HexDigits(n / 16) + [n % 16]
  }

  function PairNibbles(h: seq<Nibble>): seq<Byte>
    requires |h| % 2 == 0
  {
    if h == [] then []
    else
      var high: nat, low: nat := h[|h| - 2], h[|h| - 1];
      PairNibbles(h[..|h| - 2]) + [16 * high + low]
  }

  /** `bigintBytes`: the hexadecimal text, padded to whole bytes; zero has no bytes. */
  function BigintBytes(n: nat): seq<Byte> {
    if n == 0 then []
    else
      var h := HexDigits(n);
      PairNibbles(if |h| % 2 == 0 then h else [0] + h)
  }

  function BigEndianValue(s: seq<Byte>): nat {
    if s == [] then 0 else 0x100 * BigEndianValue(s[..|s| - 1]) + s[|s| - 1]
  }

  predicate Minimal(s: seq<Byte>) { s != [] ==> s[0] != 0 }

  /** The minimal big-endian form, byte by byte. */
  function BigEndian(n: nat): seq<Byte> {
    if n == 0 then [] else BigEndian(n / 0x100) + [n % 0x100]
  }

  function HexValue(h: seq<Nibble>): nat {
    if h == [] then 0 else 16 * HexValue(h[..|h| - 1]) + h[|h| - 1]
  }

  lemma {:induction false} HexDigitsMeaning(n: nat)
    ensures HexValue(HexDigits(n)) == n && (n > 0 ==> HexDigits(n)[0] != 0)
  {
    var h := HexDigits(n);
    if n < 16 {
      assert h[..0] == [];
    } else {
      HexDigitsMeaning(n / 16);
      assert h[..|h| - 1] == HexDigits(n / 16);
    }
  }

  lemma {:induction false} LeadingZeroKeepsValue(h: seq<Nibble>)
    ensures HexValue([0] + h) == HexValue(h)
  {
    if h == [] {
      assert ([0] + h)[..0] == [];
    } else {
      LeadingZeroKeepsValue(h[..|h| - 1]);
      assert ([0] + h)[..|h|] == [0] + h[..|h| - 1];
    }
  }

  lemma {:induction false} PairedValue(h: seq<Nibble>)
    requires |h| % 2 == 0
    ensures BigEndianValue(PairNibbles(h)) == HexValue(h)
    ensures h != [] ==> PairNibbles(h) != [] && PairNibbles(h)[0] == 16 * (h[0] as int) + h[1]
  {
    if h != [] {
      var init := h[..|h| - 2];
      PairedValue(init);
      var s := PairNibbles(h);
      assert s[..|s| - 1] == PairNibbles(init);
      assert h[..|h| - 1][..|h| - 2] == init;
      if init != [] {
        assert s[0] == PairNibbles(init)[0] && init[0] == h[0] && init[1] == h[1];
      }
    }
  }

  lemma {:induction false} BigEndianMeaning(n: nat)
    ensures BigEndianValue(BigEndian(n)) == n && Minimal(BigEndian(n))
    ensures n > 0 ==> BigEndian(n) != []
  {
    if n > 0 {
      BigEndianMeaning(n / 0x100);
      var s := BigEndian(n);
      assert s[..|s| - 1] == BigEndian(n / 0x100);
    }
  }

  lemma {:induction false} MinimalIsUnique(s: seq<Byte>)
    requires Minimal(s)
    ensures s == BigEndian(BigEndianValue(s))
    ensures s != [] ==> BigEndianValue(s) > 0
  {
    if s != [] {
      var init := s[..|s| - 1];
      if init != [] {
        assert init[0] == s[0];
      }
      MinimalIsUnique(init);
      assert s == init + [s[|s| - 1]];
      var v := BigEndianValue(init);
      assert (0x100 * v + s[|s| - 1]) / 0x100 == v && (0x100 * v + s[|s| - 1]) % 0x100 == s[|s| - 1];
    }
  }

  lemma HexBytesAreBigEndian(n: nat)
    ensures BigintBytes(n) == BigEndian(n)
  {
    if n > 0 {
      var h := HexDigits(n);
      var padded := if |h| % 2 == 0 then h else [0] + h;
      HexDigitsMeaning(n);
      hide HexDigits, PairNibbles, HexValue, BigEndianValue, BigEndian;
      LeadingZeroKeepsValue(h);
      PairedValue(padded);
      MinimalIsUnique(PairNibbles(padded));
    } else {
      assert BigEndian(0) == [];
    }
  }

  /** The integer encoding is the one byte string without leading zero that has the integer's value. */
  lemma BigintBytesIsTheMinimalForm(n: nat, s: seq<Byte>)
    ensures BigEndianValue(BigintBytes(n)) == n && Minimal(BigintBytes(n))
    ensures Minimal(s) && BigEndianValue(s) == n <==> s == BigintBytes(n)
  {
    HexBytesAreBigEndian(n);
    BigEndianMeaning(n);
    if Minimal(s) && BigEndianValue(s) == n {
      MinimalIsUnique(s);
    }
  }

  lemma {:induction false} BigEndianLength(n: nat, k: nat)
    requires n < Pow256(k)
    ensures |BigEndian(n)| <= k
  {
    if n > 0 {
      assert k > 0;
      BigEndianLength(n / 0x100, k - 1);
    }
  }

  function Pow256(k: nat): nat { if k == 0 then 1 else 0x100 * Pow256(k - 1) }

  // ---------------------------------------------------------------- encoder

  /** `rlpLength`; `Uint8Array.of` keeps the low eight bits of its argument. */
  function LengthPrefix(length: nat, offset: Byte): seq<Byte> {
    if length < 56 then [(offset + length) % 0x100]
    else
      var lengthBytes := BigintBytes(length);
      [(offset + 55 + |lengthBytes|) % 0x100] + lengthBytes
  }

  function Encode(v: Value): seq<Byte>
    decreases v, 1
  {
    match v
    case List(items) =>
      var payload := EncodeAll(items);
      LengthPrefix(|payload|, 0xC0) + payload
    case Bytes(data) =>
      if |data| == 1 && data[0] < 0x80 then data
      else LengthPrefix(|data|, 0x80) + data
  }

  function EncodeAll(items: seq<Value>): seq<Byte>
    decreases items, 0
  {
    if items == [] then [] else Encode(items[0]) + EncodeAll(items[1..])
  }

  /** Every payload in the value is short enough for an eight-byte length. */
  predicate Encodable(v: Value)
    decreases v, 1
  {
    match v
    case List(items) => |EncodeAll(items)| < MAX_PAYLOAD && AllEncodable(items)
    case Bytes(data) => |data| < MAX_PAYLOAD
  }

  predicate AllEncodable(items: seq<Value>)
    decreases items, 0
  {
    items != [] ==> Encodable(items[0]) && AllEncodable(items[1..])
  }

  // ---------------------------------------------------------------- decoder

  /** Splits `length` leading bytes off. */
  function Take(s: seq<Byte>, length: nat): (r: Option<(seq<Byte>, seq<Byte>)>)
    ensures r.Some? ==> s == r.value.0 + r.value.1 && |r.value.0| == length
  {
    if length <= |s| then Some((s[..length], s[length..])) else None
  }

  /** A payload whose length follows in `lengthSize` bytes: minimal, and at least 56. */
  function TakeLong(s: seq<Byte>, lengthSize: nat): (r: Option<(seq<Byte>, seq<Byte>)>)
    requires lengthSize > 0
    ensures r.Some? ==> |r.value.0| + |r.value.1| < |s|
  {
    match Take(s, lengthSize)
    case None => None
    case Some((lengthBytes, rest)) =>
      if lengthBytes[0] == 0 || BigEndianValue(lengthBytes) < 56 then None
      else Take(rest, BigEndianValue(lengthBytes))
  }

  function DecodeBytes(r: Option<(seq<Byte>, seq<Byte>)>): Option<(Value, seq<Byte>)> {
    match r
    case None => None
    case Some((data, rest)) =>
      if |data| == 1 && data[0] < 0x80 then None else Some((Bytes(data), rest))
  }

  /** One item and what follows it, or nothing when the input does not start with a canonical item. */
  function Decode(s: seq<Byte>): (r: Option<(Value, seq<Byte>)>)
    ensures r.Some? ==> |r.value.1| < |s|
    decreases |s|, 0
  {
    if s == [] then None
    else
      var first, rest := s[0], s[1..];
      if first < 0x80 then Some((Bytes([first]), rest))
      else if first < 0xB8 then DecodeBytes(Take(rest, first - 0x80))
      else if first < 0xC0 then DecodeBytes(TakeLong(rest, first - 0xB7))
      else
        match (if first < 0xF8 then Take(rest, first - 0xC0) else TakeLong(rest, first - 0xF7))
        case None => None
        case Some((payload, after)) =>
          match DecodeAll(payload)
          case None => None
          case Some(items) => Some((List(items), after))
  }

  function DecodeAll(s: seq<Byte>): Option<seq<Value>>
    decreases |s|, 1
  {
    if s == [] then Some([])
    else
      match Decode(s)
      case None => None
      case Some((v, rest)) =>
        match DecodeAll(rest)
        case None => None
        case Some(items) => Some([v] + items)
  }

  // ---------------------------------------------------------------- decode undoes encode

  lemma LengthBytesFit(length: nat)
    requires 56 <= length < MAX_PAYLOAD
    ensures 1 <= |BigintBytes(length)| <= 8
    ensures BigintBytes(length)[0] != 0 && BigEndianValue(BigintBytes(length)) == length
  {
    BigintBytesIsTheMinimalForm(length, []);
    HexBytesAreBigEndian(length);
    assert Pow256(8) == MAX_PAYLOAD;
    BigEndianLength(length, 8);
  }

  lemma TakeExact(a: seq<Byte>, b: seq<Byte>)
    ensures Take(a + b, |a|) == Some((a, b))
  {
    assert (a + b)[..|a|] == a && (a + b)[|a|..] == b;
  }

  /** A long payload is recovered from its length prefix. */
  lemma LongPrefixIsTaken(payload: seq<Byte>, offset: Byte, s: seq<Byte>)
    requires 56 <= |payload| < MAX_PAYLOAD && (offset == 0x80 || offset == 0xC0)
    ensures var whole := LengthPrefix(|payload|, offset) + payload + s;
            var size := |BigintBytes(|payload|)|;
      && whole[0] == offset + 55 + size
      && 1 <= size <= 8
      && TakeLong(whole[1..], size) == Some((payload, s))
  {
    hide BigintBytes, BigEndianValue;
    LengthBytesFit(|payload|);
    var lengthBytes := BigintBytes(|payload|);
    var whole := LengthPrefix(|payload|, offset) + payload + s;
    assert whole[1..] == lengthBytes + (payload + s);
    TakeExact(lengthBytes, payload + s);
    TakeExact(payload, s);
  }

  lemma ShortPrefixIsTaken(payload: seq<Byte>, offset: Byte, s: seq<Byte>)
    requires |payload| < 56 && (offset == 0x80 || offset == 0xC0)
    ensures var whole := LengthPrefix(|payload|, offset) + payload + s;
      && whole[0] == offset + |payload|
      && Take(whole[1..], |payload|) == Some((payload, s))
  {
    var whole := LengthPrefix(|payload|, offset) + payload + s;
    assert whole[1..] == payload + s;
    TakeExact(payload, s);
  }

  lemma {:induction false} DecodeEncode(v: Value, s: seq<Byte>)
    requires Encodable(v)
    ensures Decode(Encode(v) + s) == Some((v, s))
    decreases v, 1
  {
    match v
    case Bytes(data) =>
      if |data| == 1 && data[0] < 0x80 {
        assert (data + s)[0] == data[0] && (data + s)[1..] == s;
        assert data == [data[0]];
      } else if |data| < 56 {
        ShortPrefixIsTaken(data, 0x80, s);
      } else {
        LongPrefixIsTaken(data, 0x80, s);
      }
    case List(items) =>
      var payload := EncodeAll(items);
      DecodeEncodeAll(items);
      if |payload| < 56 {
        ShortPrefixIsTaken(payload, 0xC0, s);
      } else {
        LongPrefixIsTaken(payload, 0xC0, s);
      }
  }

  lemma {:induction false} DecodeEncodeAll(items: seq<Value>)
    requires AllEncodable(items)
    ensures DecodeAll(EncodeAll(items)) == Some(items)
    decreases items, 0
  {
    if items != [] {
      DecodeEncode(items[0], EncodeAll(items[1..]));
      DecodeEncodeAll(items[1..]);
      assert items == [items[0]] + items[1..];
    }
  }

  /** The code is prefix-free, hence injective, on all values with representable lengths. */
  lemma PrefixFree(a: Value, b: Value, s: seq<Byte>, t: seq<Byte>)
    requires Encodable(a) && Encodable(b)
    requires Encode(a) + s == Encode(b) + t
    ensures a == b && s == t
  {
    DecodeEncode(a, s);
    DecodeEncode(b, t);
  }

  // ---------------------------------------------------------------- decode accepts only encodings

  lemma TakenLongHasItsPrefix(s: seq<Byte>, size: nat, offset: Byte)
    requires 1 <= size <= 8 && TakeLong(s, size).Some? && (offset == 0x80 || offset == 0xC0)
    ensures var (payload, rest) := TakeLong(s, size).value;
      && 56 <= |payload| < MAX_PAYLOAD
      && [offset + 55 + size] + s == LengthPrefix(|payload|, offset) + payload + rest
  {
    var (payload, rest) := TakeLong(s, size).value;
    var lengthBytes := s[..size];
    assert s == lengthBytes + payload + rest;
    BigintBytesIsTheMinimalForm(|payload|, lengthBytes);
    assert Pow256(8) == MAX_PAYLOAD;
    BigEndianBound(lengthBytes);
    PowMonotone(size, 8);
  }

  lemma {:induction false} BigEndianBound(s: seq<Byte>)
    ensures BigEndianValue(s) < Pow256(|s|)
  {
    if s != [] {
      BigEndianBound(s[..|s| - 1]);
    }
  }

  lemma {:induction false} PowMonotone(a: nat, b: nat)
    requires a <= b
    ensures Pow256(a) <= Pow256(b)
  {
    if a < b {
      PowMonotone(a, b - 1);
    }
  }

  lemma OneByteIsItself(s: seq<Byte>)
    requires s != [] && s[0] < 0x80
    ensures Decode(s) == Some((Bytes([s[0]]), s[1..])) && s == Encode(Bytes([s[0]])) + s[1..]
  {
  }

  lemma ShortBytesEncode(first: Byte, data: seq<Byte>, rest: seq<Byte>)
    requires |data| <= 55 && first == 0x80 + |data| && !(|data| == 1 && data[0] < 0x80)
    ensures Encodable(Bytes(data)) && Encode(Bytes(data)) + rest == [first] + (data + rest)
  {
    hide BigintBytes;
    assert LengthPrefix(|data|, 0x80) == [first];
  }

  lemma ShortBytesAreEncodings(s: seq<Byte>)
    requires Decode(s).Some? && 0x80 <= s[0] < 0xB8
    ensures var (v, rest) := Decode(s).value; Encodable(v) && s == Encode(v) + rest
  {
    hide Encode, Encodable, LengthPrefix, DecodeAll;
    var first, tail := s[0], s[1..];
    var (data, rest) := Take(tail, first - 0x80).value;
    ShortBytesEncode(first, data, rest);
    assert tail == data + rest && s == [first] + tail;
  }

  lemma LongBytesAreEncodings(s: seq<Byte>)
    requires Decode(s).Some? && 0xB8 <= s[0] < 0xC0
    ensures var (v, rest) := Decode(s).value; Encodable(v) && s == Encode(v) + rest
  {
    hide BigintBytes, BigEndianValue, Minimal;
    var first, tail := s[0], s[1..];
    assert s == [first] + tail;
    TakenLongHasItsPrefix(tail, first - 0xB7, 0x80);
  }

  /** Whatever decodes was produced by the encoder: each value has exactly one accepted encoding. */
  lemma {:induction false} DecodeAcceptsOnlyEncodings(s: seq<Byte>)
    requires Decode(s).Some?
    ensures var (v, rest) := Decode(s).value; Encodable(v) && s == Encode(v) + rest
    decreases |s|, 0
  {
    hide BigintBytes, BigEndianValue, Minimal;
    var first, tail := s[0], s[1..];
    if first < 0x80 {
      OneByteIsItself(s);
    } else if first < 0xB8 {
      ShortBytesAreEncodings(s);
    } else if first < 0xC0 {
      LongBytesAreEncodings(s);
    } else if first < 0xF8 {
      var (payload, rest) := Take(tail, first - 0xC0).value;
      DecodeAllAcceptsOnlyEncodings(payload);
      assert s == LengthPrefix(|payload|, 0xC0) + payload + rest;
    } else {
      TakenLongHasItsPrefix(tail, first - 0xF7, 0xC0);
      var (payload, rest) := TakeLong(tail, first - 0xF7).value;
      DecodeAllAcceptsOnlyEncodings(payload);
    }
  }

  lemma {:induction false} DecodeAllAcceptsOnlyEncodings(s: seq<Byte>)
    requires DecodeAll(s).Some?
    ensures AllEncodable(DecodeAll(s).value) && s == EncodeAll(DecodeAll(s).value)
    decreases |s|, 1
  {
    if s != [] {
      var (v, rest) := Decode(s).value;
      DecodeAcceptsOnlyEncodings(s);
      DecodeAllAcceptsOnlyEncodings(rest);
      var items := DecodeAll(s).value;
      assert items[0] == v && items[1..] == DecodeAll(rest).value;
    }
  }

  // ---------------------------------------------------------------- consequences

  /** Two CREATE preimages agree only for the same sender and nonce. */
  lemma CreatePreimageIsInjective(sender: seq<Byte>, nonce: nat, sender': seq<Byte>, nonce': nat)
    requires |sender| == 20 == |sender'|
    requires nonce < MAX_PAYLOAD && nonce' < MAX_PAYLOAD
    requires Encode(List([Bytes(sender), Bytes(BigintBytes(nonce))]))
             == Encode(List([Bytes(sender'), Bytes(BigintBytes(nonce'))]))
    ensures sender == sender' && nonce == nonce'
  {
    CreatePreimageIsEncodable(sender, nonce);
    CreatePreimageIsEncodable(sender', nonce');
    var a := List([Bytes(sender), Bytes(BigintBytes(nonce))]);
    var b := List([Bytes(sender'), Bytes(BigintBytes(nonce'))]);
    assert Encode(a) + [] == Encode(b) + [];
    PrefixFree(a, b, [], []);
    assert a.items[0] == b.items[0] && a.items[1] == b.items[1];
    BigintBytesIsTheMinimalForm(nonce, []);
    BigintBytesIsTheMinimalForm(nonce', []);
  }

  lemma CreatePreimageIsEncodable(sender: seq<Byte>, nonce: nat)
    requires |sender| == 20 && nonce < MAX_PAYLOAD
    ensures Encodable(List([Bytes(sender), Bytes(BigintBytes(nonce))]))
  {
    HexBytesAreBigEndian(nonce);
    assert Pow256(8) == MAX_PAYLOAD;
    BigEndianLength(nonce, 8);
    var a, b := Bytes(sender), Bytes(BigintBytes(nonce));
    assert |BigintBytes(nonce)| <= 8;
    ShortBytesAreShort(sender);
    ShortBytesAreShort(BigintBytes(nonce));
    hide Encode, EncodeAll, Encodable, AllEncodable, BigintBytes;
    PairEncodes(a, b);
  }

  lemma ShortBytesAreShort(data: seq<Byte>)
    requires |data| < 56
    ensures |Encode(Bytes(data))| <= |data| + 1 && Encodable(Bytes(data))
  {
  }

  lemma PairEncodes(a: Value, b: Value)
    requires Encodable(a) && Encodable(b) && |Encode(a)| + |Encode(b)| < MAX_PAYLOAD
    ensures Encodable(List([a, b]))
  {
    hide Encode;
    assert [a, b][1..] == [b] && [b][1..] == [];
    assert EncodeAll([]) == [] && AllEncodable([]);
    assert EncodeAll([b]) == Encode(b) + [] && AllEncodable([b]);
    assert EncodeAll([a, b]) == Encode(a) + EncodeAll([b]) && AllEncodable([a, b]);
  }

  /** `result.set(value, offset)`. */
  method SetAt(result: array<Byte>, offset: nat, value: seq<Byte>)
    requires offset + |value| <= result.Length
    modifies result
    ensures result[..] == old(result[..offset]) + value + old(result[offset + |value|..])
    ensures result[..offset + |value|] == old(result[..offset]) + value
  {
    for j := 0 to |value|
      invariant result[..offset] == old(result[..offset])
      invariant result[offset..offset + j] == value[..j]
      invariant result[offset + |value|..] == old(result[offset + |value|..])
    {
      result[offset + j] := value[j];
    }
    assert result[..offset + |value|] == result[..offset] + result[offset..offset + |value|];
    assert result[..] == result[..offset + |value|] + result[offset + |value|..];
  }

  /** `concatBytes`: one buffer of the total length, filled piece by piece. */
  method ConcatBytes(values: seq<seq<Byte>>) returns (result: array<Byte>)
    ensures fresh(result) && result[..] == Flatten(values)
  {
    var total := 0;
    for i := 0 to |values|
      invariant total == |Flatten(values[..i])|
    {
      assert values[..i + 1][..i] == values[..i];
      total := total + |values[i]|;
    }
    assert values[..|values|] == values;
    result := new Byte[total];
    var offset := 0;
    for i := 0 to |values|
      invariant offset == |Flatten(values[..i])| <= total
      invariant result[..offset] == Flatten(values[..i])
    {
      assert values[..i + 1][..i] == values[..i];
      FlattenMonotone(values, i + 1);
      SetAt(result, offset, values[i]);
      offset := offset + |values[i]|;
    }
    assert result[..] == result[..offset];
  }

  function Flatten(values: seq<seq<Byte>>): seq<Byte> {
    if values == [] then [] else Flatten(values[..|values| - 1]) + values[|values| - 1]
  }

  lemma {:induction false} FlattenMonotone(values: seq<seq<Byte>>, k: nat)
    requires k <= |values|
    ensures |Flatten(values[..k])| <= |Flatten(values)|
  {
    if k == |values| {
      assert values[..k] == values;
    } else {
      var init := values[..|values| - 1];
      assert init[..k] == values[..k];
      FlattenMonotone(init, k);
    }
  }
}
