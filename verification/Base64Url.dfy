/**
 * Unpadded base64url (sections 3.2 and 5 of RFC 4648) with the canonical form of section 3.5:
 * the encoder and the decoder of capability tokens, for byte strings of any length.
 */
module Base64Url {
  import opened Prelude
  import opened BigEndian

  const TOKEN_BYTES: nat := 32
  const TOKEN_ENCODED_LEN: nat := 43

  type Sextet = n: nat | n < 64

  /** The alphabet of section 5: A-Z, a-z, 0-9, then minus and underline. */
  function Letter(v: Sextet): char {
    if v < 26 then 'A' + v as char
    else if v < 52 then 'a' + (v - 26) as char
    else if v < 62 then '0' + (v - 52) as char
    else if v == 62 then '-' else '_'
  }

  const UPPER_CASE: string := "ABCDEFGHIJKLMNOPQRSTUVWXYZ"
  const LOWER_CASE: string := "abcdefghijklmnopqrstuvwxyz"
  const REST: string := "0123456789-_"
  const ALPHABET: string := UPPER_CASE + LOWER_CASE + REST

  lemma UpperCase(v: Sextet)
    requires v < 26
    ensures |UPPER_CASE| == 26 && Letter(v) == UPPER_CASE[v]
  {
    assert |UPPER_CASE| == 26;
    if v < 13 {
    }
  }

  lemma LowerCase(v: Sextet)
    requires 26 <= v < 52
    ensures |LOWER_CASE| == 26 && Letter(v) == LOWER_CASE[v - 26]
  {
    assert |LOWER_CASE| == 26;
    if v < 39 {
    }
  }

  /** The letters are those of the standard, in its order. */
  lemma LetterIs(v: Sextet)
    ensures |ALPHABET| == 64 && Letter(v) == ALPHABET[v]
  {
    assert |UPPER_CASE| == 26 && |LOWER_CASE| == 26 && |REST| == 12;
    if v < 26 {
      UpperCase(v);
    } else if v < 52 {
      LowerCase(v);
    }
  }

  function ValueOf(c: char): (v: Option<Sextet>)
    ensures v.Some? ==> Letter(v.value) == c
  {
    if 'A' <= c <= 'Z' then Some(c as int - 'A' as int)
    else if 'a' <= c <= 'z' then Some(c as int - 'a' as int + 26)
    else if '0' <= c <= '9' then Some(c as int - '0' as int + 52)
    else if c == '-' then Some(62)
    else if c == '_' then Some(63)
    else None
  }

  function Letters(values: seq<Sextet>): string {
    seq(|values|, k requires 0 <= k < |values| => Letter(values[k]))
  }

  lemma LetterValue(v: Sextet)
    ensures ValueOf(Letter(v)) == Some(v)
  {
  }

  // Three bytes as four sextets: shifts and masks written as division and remainder.

  function First(x: Byte): Sextet {
    x / 4
  }

  function Second(x: Byte, y: Byte): Sextet {
    x % 4 * 16 + y / 16
  }

  function Third(y: Byte, z: Byte): Sextet {
    y % 16 * 4 + z / 64
  }

  function Fourth(z: Byte): Sextet {
    z % 64
  }

  /** The 6-bit groups of a byte string, the last one filled with zero bits. */
  function Sextets(bytes: seq<Byte>): seq<Sextet> {
    if |bytes| == 0 then []
    else if |bytes| == 1 then [First(bytes[0]), Second(bytes[0], 0)]
    else if |bytes| == 2 then [First(bytes[0]), Second(bytes[0], bytes[1]), Third(bytes[1], 0)]
    else [First(bytes[0]), Second(bytes[0], bytes[1]), Third(bytes[1], bytes[2]), Fourth(bytes[2])] + Sextets(bytes[3..])
  }

  // Four sextets as three bytes.

  function Upper(a: Sextet, b: Sextet): Byte {
    a * 4 + b / 16
  }

  function Middle(b: Sextet, c: Sextet): Byte {
    b % 16 * 16 + c / 4
  }

  function Lower(c: Sextet, e: Sextet): Byte {
    c % 4 * 64 + e
  }

  lemma GroupOfBytes(x: Byte, y: Byte, z: Byte)
    ensures Upper(First(x), Second(x, y)) == x
    ensures Middle(Second(x, y), Third(y, z)) == y
    ensures Lower(Third(y, z), Fourth(z)) == z
  {
  }

  lemma GroupOfSextets(a: Sextet, b: Sextet, c: Sextet, e: Sextet)
    ensures First(Upper(a, b)) == a
    ensures Second(Upper(a, b), Middle(b, c)) == b
    ensures Third(Middle(b, c), Lower(c, e)) == c
    ensures Fourth(Lower(c, e)) == e
  {
  }

  /** What the decoder carries: bits not yet output, how many, and the bytes so far. */
  datatype Decoder = Decoder(accumulator: nat, bits: nat, bytes: seq<Byte>) {
    /** The accumulator holds no more than the buffered bits. */
    predicate Bounded() {
      (bits == 0 && accumulator == 0) || (bits == 2 && accumulator < 4)
      || (bits == 4 && accumulator < 16) || (bits == 6 && accumulator < 64)
    }
  }

  /** Two to the number of buffered bits. */
  function Unit(bits: nat): nat {
    if bits == 0 then 1 else if bits == 2 then 4 else if bits == 4 then 16 else 64
  }

  function Push(d: Decoder, v: Sextet): (r: Decoder)
    requires d.Bounded()
    ensures r.Bounded()
  {
    var accumulator := d.accumulator * 64 + v;
    if d.bits + 6 < 8 then Decoder(accumulator, d.bits + 6, d.bytes)
    else
      var bits := d.bits + 6 - 8;
      Decoder(accumulator % Unit(bits), bits, d.bytes + [accumulator / Unit(bits)])
  }

  const START: Decoder := Decoder(0, 0, [])

  function PushAll(d: Decoder, values: seq<Sextet>): (r: Decoder)
    requires d.Bounded()
    ensures r.Bounded()
    decreases |values|
  {
    if values == [] then d else PushAll(Push(d, values[0]), values[1..])
  }

  lemma {:induction false} PushAppend(d: Decoder, left: seq<Sextet>, right: seq<Sextet>)
    requires d.Bounded()
    ensures PushAll(d, left + right) == PushAll(PushAll(d, left), right)
    decreases |left|
  {
    if left == [] {
      assert left + right == right;
    } else {
      PushAppend(Push(d, left[0]), left[1..], right);
      assert (left + right)[1..] == left[1..] + right;
    }
  }

  lemma {:induction false} PushAllFrom(d: Decoder, prefix: seq<Byte>, values: seq<Sextet>)
    requires d.Bounded()
    ensures var r := PushAll(d, values);
            PushAll(d.(bytes := prefix + d.bytes), values) == r.(bytes := prefix + r.bytes)
    decreases |values|
  {
    if values != [] {
      var next := Push(d, values[0]);
      PushAllFrom(next, prefix, values[1..]);
      assert Push(d.(bytes := prefix + d.bytes), values[0]) == next.(bytes := prefix + next.bytes);
    }
  }

  lemma PushOne(d: Decoder, v: Sextet)
    requires d.Bounded()
    ensures PushAll(d, [v]) == Push(d, v)
  {
    var values := [v];
    assert values[1..] == [];
  }

  /** The second letter of a group: its upper two bits finish the first byte. */
  lemma PushSecond(a: Sextet, b: Sextet)
    ensures Push(Decoder(a, 6, []), b) == Decoder(b % 16, 4, [Upper(a, b)])
  {
    assert (a * 64 + b) / 16 == a * 4 + b / 16 && (a * 64 + b) % 16 == b % 16;
  }

  lemma PushTwo(a: Sextet, b: Sextet)
    ensures PushAll(START, [a] + [b]) == Decoder(b % 16, 4, [Upper(a, b)])
  {
    PushAppend(START, [a], [b]);
    PushOne(START, a);
    PushOne(Push(START, a), b);
    PushSecond(a, b);
  }

  /** The third letter of a group: its upper four bits finish the second byte. */
  lemma PushThird(b: Sextet, c: Sextet, bytes: seq<Byte>)
    ensures Push(Decoder(b % 16, 4, bytes), c) == Decoder(c % 4, 2, bytes + [Middle(b, c)])
  {
    var low := b % 16;
    assert (low * 64 + c) / 4 == low * 16 + c / 4 && (low * 64 + c) % 4 == c % 4;
  }

  lemma PushThree(a: Sextet, b: Sextet, c: Sextet)
    ensures PushAll(START, [a] + [b] + [c]) == Decoder(c % 4, 2, [Upper(a, b), Middle(b, c)])
  {
    PushTwo(a, b);
    PushAppend(START, [a] + [b], [c]);
    PushOne(Decoder(b % 16, 4, [Upper(a, b)]), c);
    PushThird(b, c, [Upper(a, b)]);
  }

  /** Decoding a group of four sextets leaves nothing buffered. */
  lemma PushGroup(a: Sextet, b: Sextet, c: Sextet, e: Sextet)
    ensures PushAll(START, [a] + [b] + [c] + [e]) == Decoder(0, 0, [Upper(a, b), Middle(b, c), Lower(c, e)])
  {
    PushThree(a, b, c);
    PushAppend(START, [a] + [b] + [c], [e]);
    PushOne(Decoder(c % 4, 2, [Upper(a, b), Middle(b, c)]), e);
  }

  lemma PushFour(a: Sextet, b: Sextet, c: Sextet, e: Sextet, rest: seq<Sextet>)
    ensures var r := PushAll(START, rest);
            PushAll(START, [a, b, c, e] + rest) == r.(bytes := [Upper(a, b), Middle(b, c), Lower(c, e)] + r.bytes)
  {
    var head, group := [a] + [b] + [c] + [e], [Upper(a, b), Middle(b, c), Lower(c, e)];
    PushGroup(a, b, c, e);
    PushAppend(START, head, rest);
    PushAllFrom(START, group, rest);
    assert group + [] == group;
    assert head == [a, b, c, e];
  }

  lemma DecodeGroup(x: Byte, y: Byte, z: Byte, rest: seq<Sextet>)
    ensures var r := PushAll(START, rest);
            PushAll(START, [First(x), Second(x, y), Third(y, z), Fourth(z)] + rest) == r.(bytes := [x, y, z] + r.bytes)
  {
    PushFour(First(x), Second(x, y), Third(y, z), Fourth(z), rest);
    GroupOfBytes(x, y, z);
  }

  lemma FillerIsZero(x: Byte)
    ensures Second(x, 0) % 16 == 0 && Third(x, 0) % 4 == 0
  {
  }

  lemma DecodePair(x: Byte)
    ensures PushAll(START, [First(x), Second(x, 0)]) == Decoder(0, 4, [x])
  {
    assert [First(x)] + [Second(x, 0)] == [First(x), Second(x, 0)];
    PushTwo(First(x), Second(x, 0));
    GroupOfBytes(x, 0, 0);
    FillerIsZero(x);
  }

  lemma DecodeTriple(x: Byte, y: Byte)
    ensures PushAll(START, [First(x), Second(x, y), Third(y, 0)]) == Decoder(0, 2, [x, y])
  {
    assert [First(x)] + [Second(x, y)] + [Third(y, 0)] == [First(x), Second(x, y), Third(y, 0)];
    PushThree(First(x), Second(x, y), Third(y, 0));
    GroupOfBytes(x, y, 0);
    FillerIsZero(y);
  }

  /** How many filler bits the encoding of a byte string ends with. */
  function LeftOver(length: nat): nat {
    if length % 3 == 0 then 0 else if length % 3 == 1 then 4 else 2
  }

  lemma OneMoreGroup(bytes: seq<Byte>, rest: seq<Sextet>)
    requires |bytes| >= 3
    requires PushAll(START, rest) == Decoder(0, LeftOver(|bytes| - 3), bytes[3..])
    ensures PushAll(START, [First(bytes[0]), Second(bytes[0], bytes[1]), Third(bytes[1], bytes[2]), Fourth(bytes[2])] + rest)
            == Decoder(0, LeftOver(|bytes|), bytes)
  {
    DecodeGroup(bytes[0], bytes[1], bytes[2], rest);
    assert [bytes[0], bytes[1], bytes[2]] + bytes[3..] == bytes;
  }

  /** Decoding what was encoded gives the bytes back, with nothing left over but zero bits. */
  lemma {:induction false} DecodeAfterEncode(bytes: seq<Byte>)
    ensures PushAll(START, Sextets(bytes)) == Decoder(0, LeftOver(|bytes|), bytes)
    decreases |bytes|
  {
    if |bytes| == 0 {
    } else if |bytes| == 1 {
      DecodePair(bytes[0]);
      assert bytes == [bytes[0]];
    } else if |bytes| == 2 {
      DecodeTriple(bytes[0], bytes[1]);
      assert bytes == [bytes[0], bytes[1]];
    } else {
      DecodeAfterEncode(bytes[3..]);
      OneMoreGroup(bytes, Sextets(bytes[3..]));
    }
  }

  lemma EncodeGroup(a: Sextet, b: Sextet, c: Sextet, e: Sextet, bytes: seq<Byte>)
    ensures Sextets([Upper(a, b), Middle(b, c), Lower(c, e)] + bytes) == [a, b, c, e] + Sextets(bytes)
  {
    GroupOfSextets(a, b, c, e);
    assert ([Upper(a, b), Middle(b, c), Lower(c, e)] + bytes)[3..] == bytes;
  }

  lemma OneByte(bytes: seq<Byte>)
    requires |bytes| == 1
    ensures Sextets(bytes) == [First(bytes[0])] + [Second(bytes[0], 0)]
  {
  }

  lemma EncodePair(a: Sextet, b: Sextet)
    requires b % 16 == 0
    ensures Sextets([Upper(a, b)]) == [a] + [b]
  {
    OneByte([Upper(a, b)]);
    GroupOfSextets(a, b, 0, 0);
  }

  lemma EncodeTriple(a: Sextet, b: Sextet, c: Sextet)
    requires c % 4 == 0
    ensures Sextets([Upper(a, b), Middle(b, c)]) == [a] + [b] + [c]
  {
    GroupOfSextets(a, b, c, 0);
    var bytes := [Upper(a, b), Middle(b, c)];
    assert bytes[0] == Upper(a, b) && bytes[1] == Middle(b, c) && Third(bytes[1], 0) == c;
  }

  lemma EncodeTail(values: seq<Sextet>)
    requires 2 <= |values| <= 3 && PushAll(START, values).accumulator == 0
    ensures Sextets(PushAll(START, values).bytes) == values
  {
    var a, b := values[0], values[1];
    if |values| == 2 {
      assert values == [a] + [b];
      PushTwo(a, b);
      EncodePair(a, b);
    } else {
      var c := values[2];
      assert values == [a] + [b] + [c];
      PushThree(a, b, c);
      EncodeTriple(a, b, c);
    }
  }

  /** If the left-over bits are zero, encoding what was decoded gives the sextets back. */
  predicate Survives(values: seq<Sextet>) {
    PushAll(START, values).accumulator == 0 ==> Sextets(PushAll(START, values).bytes) == values
  }

  lemma OneMoreQuartet(values: seq<Sextet>)
    requires |values| >= 4 && Survives(values[4..])
    ensures Survives(values)
  {
    var a, b, c, e, rest := values[0], values[1], values[2], values[3], values[4..];
    assert values == [a, b, c, e] + rest;
    PushFour(a, b, c, e, rest);
    EncodeGroup(a, b, c, e, PushAll(START, rest).bytes);
  }

  /** Sextets survive decoding and encoding unless their last group is a single sextet. */
  lemma {:induction false} EncodeAfterDecode(values: seq<Sextet>)
    requires |values| % 4 != 1
    ensures Survives(values)
    decreases |values|
  {
    if |values| >= 4 {
      EncodeAfterDecode(values[4..]);
      OneMoreQuartet(values);
    } else if |values| == 0 {
      NothingToEncode(values);
    } else if PushAll(START, values).accumulator == 0 {
      EncodeTail(values);
    }
  }

  lemma NothingToEncode(values: seq<Sextet>)
    requires |values| == 0
    ensures Survives(values)
  {
  }

  /** How many bytes come out, and how many bits stay behind, depends on the length alone. */
  lemma {:induction false} DecodedLength(values: seq<Sextet>)
    ensures var r := PushAll(START, values); 8 * |r.bytes| + r.bits == 6 * |values|
  {
    PushLength(START, values);
  }

  lemma {:induction false} PushLength(d: Decoder, values: seq<Sextet>)
    requires d.Bounded()
    ensures var r := PushAll(d, values); 8 * |r.bytes| + r.bits == 8 * |d.bytes| + d.bits + 6 * |values|
    decreases |values|
  {
    if values != [] {
      PushLength(Push(d, values[0]), values[1..]);
    }
  }

  lemma {:induction false} SextetsLength(bytes: seq<Byte>)
    ensures |Sextets(bytes)| == |bytes| / 3 * 4 + (if |bytes| % 3 == 0 then 0 else |bytes| % 3 + 1)
    decreases |bytes|
  {
    if |bytes| >= 3 {
      SextetsLength(bytes[3..]);
    }
  }

  // The text as a number.

  function Power(base: nat, n: nat): nat {
    if n == 0 then 1 else base * Power(base, n - 1)
  }

  /** The number with these digits, the most significant first. */
  function Number(base: nat, digits: seq<nat>): nat {
    if digits == [] then 0 else Number(base, digits[..|digits| - 1]) * base + digits[|digits| - 1]
  }

  lemma {:induction false} NumberAppend(base: nat, left: seq<nat>, right: seq<nat>)
    ensures Number(base, left + right) == Number(base, left) * Power(base, |right|) + Number(base, right)
    decreases |right|
  {
    if right == [] {
      assert left + right == left;
    } else {
      var n := |right| - 1;
      var all := left + right;
      NumberAppend(base, left, right[..n]);
      assert all[..|all| - 1] == left + right[..n] && all[|all| - 1] == right[n];
      Shift(Number(base, left), Power(base, n), Number(base, right[..n]), base);
    }
  }

  lemma FirstGroup(bytes: seq<Byte>)
    requires |bytes| >= 3
    ensures Sextets(bytes) == [First(bytes[0]), Second(bytes[0], bytes[1]), Third(bytes[1], bytes[2]), Fourth(bytes[2])]
                              + Sextets(bytes[3..])
  {
  }

  lemma FirstThree(bytes: seq<Byte>)
    requires |bytes| >= 3
    ensures bytes == [bytes[0], bytes[1], bytes[2]] + bytes[3..]
  {
  }

  lemma Shift(a: nat, p: nat, b: nat, base: nat)
    ensures (a * p + b) * base == a * (base * p) + b * base
  {
  }

  /** What the filler bits multiply by. */
  function Filler(length: nat): nat {
    if length % 3 == 0 then 1 else if length % 3 == 1 then 16 else 4
  }

  lemma {:induction false} PowersMatch(bytes: seq<Byte>)
    ensures Power(64, |Sextets(bytes)|) == Power(256, |bytes|) * Filler(|bytes|)
    decreases |bytes|
  {
    if |bytes| >= 3 {
      var n, m := |bytes| - 3, |Sextets(bytes[3..])|;
      PowersMatch(bytes[3..]);
      PowersStep(m, n, Filler(n));
      FirstGroup(bytes);
    } else {
      PowerSmall();
      SextetsLength(bytes);
    }
  }

  lemma PowersStep(m: nat, n: nat, filler: nat)
    requires Power(64, m) == Power(256, n) * filler
    ensures Power(64, m + 4) == Power(256, n + 3) * filler
  {
    PowerStep(64, m);
    PowerStep(256, n);
    Distribute(0, 1, Power(256, n), filler);
  }

  lemma PowerStep(base: nat, n: nat)
    ensures Power(base, n + 3) == base * (base * (base * Power(base, n)))
    ensures Power(base, n + 4) == base * (base * (base * (base * Power(base, n))))
  {
    assert Power(base, n + 1) == base * Power(base, n);
    assert Power(base, n + 2) == base * Power(base, n + 1);
    assert Power(base, n + 3) == base * Power(base, n + 2);
    assert Power(base, n + 4) == base * Power(base, n + 3);
  }

  lemma PowerSmall()
    ensures Power(64, 0) == 1 && Power(64, 2) == 4096 && Power(64, 3) == 262144
    ensures Power(256, 0) == 1 && Power(256, 1) == 256 && Power(256, 2) == 65536
  {
    assert Power(64, 1) == 64 && Power(64, 2) == 64 * Power(64, 1) && Power(64, 3) == 64 * Power(64, 2);
    assert Power(256, 1) == 256 && Power(256, 2) == 256 * Power(256, 1);
  }

  lemma NumberOne(base: nat, x: nat)
    ensures Number(base, [x]) == x
  {
    assert [x][..0] == [];
  }

  lemma NumberTwo(base: nat, x: nat, y: nat)
    ensures Number(base, [x, y]) == x * base + y
  {
    assert [x, y][..1] == [x];
    NumberOne(base, x);
  }

  lemma NumberThree(base: nat, x: nat, y: nat, z: nat)
    ensures Number(base, [x, y, z]) == (x * base + y) * base + z
  {
    assert [x, y, z][..2] == [x, y];
    NumberTwo(base, x, y);
  }

  lemma NumberFour(base: nat, x: nat, y: nat, z: nat, w: nat)
    ensures Number(base, [x, y, z, w]) == ((x * base + y) * base + z) * base + w
  {
    assert [x, y, z, w][..3] == [x, y, z];
    NumberThree(base, x, y, z);
  }

  /** Three bytes and their four letters are the same number. */
  lemma GroupNumber(x: Byte, y: Byte, z: Byte)
    ensures Number(64, [First(x), Second(x, y), Third(y, z), Fourth(z)]) == Number(256, [x, y, z])
  {
    NumberFour(64, First(x), Second(x, y), Third(y, z), Fourth(z));
    NumberThree(256, x, y, z);
  }

  /** These sextets are the number of these bytes, shifted by the filler bits. */
  predicate Spells(values: seq<nat>, bytes: seq<nat>, filler: nat) {
    Number(64, values) == Number(256, bytes) * filler
  }

  lemma OneSpelled(x: Byte)
    ensures Spells([First(x), Second(x, 0)], [x], 16)
  {
    NumberTwo(64, First(x), Second(x, 0));
    NumberOne(256, x);
  }

  lemma TwoSpelled(x: Byte, y: Byte)
    ensures Spells([First(x), Second(x, y), Third(y, 0)], [x, y], 4)
  {
    NumberThree(64, First(x), Second(x, y), Third(y, 0));
    NumberTwo(256, x, y);
  }

  lemma GroupSpelled(x: Byte, y: Byte, z: Byte, values: seq<nat>, rest: seq<nat>, filler: nat)
    requires Spells(values, rest, filler) && Power(64, |values|) == Power(256, |rest|) * filler
    ensures Spells([First(x), Second(x, y), Third(y, z), Fourth(z)] + values, [x, y, z] + rest, filler)
  {
    var group: seq<nat>, head: seq<nat> := [First(x), Second(x, y), Third(y, z), Fourth(z)], [x, y, z];
    GroupNumber(x, y, z);
    NumberAppend(64, group, values);
    NumberAppend(256, head, rest);
    Distribute(Number(256, head), Power(256, |rest|), Number(256, rest), filler);
  }

  /**
   * The text is the base-64 number of the bytes: read as digits of base 64 the letters are the number the bytes
   * are in base 256, shifted by the filler bits.
   */
  lemma {:induction false} TextIsNumber(bytes: seq<Byte>)
    ensures Spells(Sextets(bytes), bytes, Filler(|bytes|))
    decreases |bytes|
  {
    if |bytes| == 0 {
    } else if |bytes| == 1 {
      assert bytes == [bytes[0]];
      OneSpelled(bytes[0]);
    } else if |bytes| == 2 {
      assert bytes == [bytes[0], bytes[1]];
      TwoSpelled(bytes[0], bytes[1]);
    } else {
      TextIsNumber(bytes[3..]);
      PowersMatch(bytes[3..]);
      GroupSpelled(bytes[0], bytes[1], bytes[2], Sextets(bytes[3..]), bytes[3..], Filler(|bytes| - 3));
      FirstGroup(bytes);
      FirstThree(bytes);
    }
  }

  lemma Distribute(a: nat, b: nat, c: nat, d: nat)
    ensures a * (b * d) + c * d == (a * b + c) * d
  {
  }

  // The loops.

  /** The letters of one chunk of one to three bytes. */
  method EncodeChunk(chunk: seq<Byte>) returns (encoded: string)
    requires 1 <= |chunk| <= 3
    ensures encoded == Letters(Sextets(chunk))
  {
    var first := chunk[0];
    var second := if |chunk| > 1 then chunk[1] else 0;
    var third := if |chunk| > 2 then chunk[2] else 0;
    encoded := [Letter(First(first))] + [Letter(Second(first, second))];
    if |chunk| > 1 {
      encoded := encoded + [Letter(Third(second, third))];
    }
    if |chunk| > 2 {
      encoded := encoded + [Letter(Fourth(third))];
      assert Sextets(chunk[3..]) == [];
    }
  }

  lemma ChunkSplit(bytes: seq<Byte>, end: nat)
    requires end <= |bytes| && (end == 3 || end == |bytes| < 3)
    ensures Letters(Sextets(bytes)) == Letters(Sextets(bytes[..end])) + Letters(Sextets(bytes[end..]))
  {
    if end == 3 {
      var head := [First(bytes[0]), Second(bytes[0], bytes[1]), Third(bytes[1], bytes[2]), Fourth(bytes[2])];
      assert Sextets(bytes) == head + Sextets(bytes[3..]);
      assert bytes[..3][3..] == [];
      assert Sextets(bytes[..3]) == head + [];
      LettersAppend(head, Sextets(bytes[3..]));
    } else {
      assert bytes[..end] == bytes && bytes[end..] == [];
    }
  }

  lemma LettersAppend(left: seq<Sextet>, right: seq<Sextet>)
    ensures Letters(left + right) == Letters(left) + Letters(right)
    ensures left + [] == left
  {
  }

  /** `base64url_encode`, chunk by chunk. */
  method EncodeBytes(bytes: seq<Byte>) returns (encoded: string)
    ensures encoded == Letters(Sextets(bytes))
  {
    encoded := "";
    var left := bytes;
    while left != []
      invariant encoded + Letters(Sextets(left)) == Letters(Sextets(bytes))
      decreases |left|
    {
      var end := if |left| < 3 then |left| else 3;
      ChunkSplit(left, end);
      var letters := EncodeChunk(left[..end]);
      assert encoded + (letters + Letters(Sextets(left[end..]))) == (encoded + letters) + Letters(Sextets(left[end..]));
      encoded := encoded + letters;
      left := left[end..];
    }
  }

  /** The values of the letters of a token, if they all are letters. */
  function Values(token: string): Option<seq<Sextet>> {
    if token == [] then Some([])
    else
      var rest := Values(token[..|token| - 1]);
      var last := ValueOf(token[|token| - 1]);
      if rest.Some? && last.Some? then Some(rest.value + [last.value]) else None
  }

  lemma {:induction false} ValuesSpell(token: string)
    ensures Values(token).Some? ==> |Values(token).value| == |token| && Letters(Values(token).value) == token
    decreases |token|
  {
    if token != [] {
      ValuesSpell(token[..|token| - 1]);
      assert token == token[..|token| - 1] + [token[|token| - 1]];
    }
  }

  lemma {:induction false} LettersRead(values: seq<Sextet>)
    ensures Values(Letters(values)) == Some(values)
    decreases |values|
  {
    if values != [] {
      var n := |values| - 1;
      LettersRead(values[..n]);
      LetterValue(values[n]);
      assert Letters(values)[..n] == Letters(values[..n]);
      assert values == values[..n] + [values[n]];
    }
  }

  /** The decoding loop; the accumulator never holds more than twelve bits. */
  method DecodeLetters(token: string) returns (r: Option<Decoder>)
    ensures r == if Values(token).Some? then Some(PushAll(START, Values(token).value)) else None
  {
    var d := START;
    ghost var values: seq<Sextet> := [];
    for i := 0 to |token|
      invariant Values(token[..i]) == Some(values)
      invariant d == PushAll(START, values)
    {
      assert token[..i + 1][..i] == token[..i];
      var v := ValueOf(token[i]);
      if v.None? {
        NotALetter(token, i);
        return None;
      }
      assert d.accumulator * 64 + v.value < 4096;
      PushAppend(START, values, [v.value]);
      PushOne(d, v.value);
      d := Push(d, v.value);
      values := values + [v.value];
    }
    assert token[..|token|] == token;
    r := Some(d);
  }

  lemma {:induction false} NotALetter(token: string, i: nat)
    requires i < |token| && ValueOf(token[i]).None?
    ensures Values(token).None?
    decreases |token|
  {
    if i < |token| - 1 {
      NotALetter(token[..|token| - 1], i);
    }
  }

  /** The text of a token. */
  function TokenText(bytes: seq<Byte>): string {
    Letters(Sextets(bytes))
  }

  /** `decode_canonical_token`: exactly the texts of 32-byte tokens are accepted, and each gives its bytes. */
  method DecodeCanonicalToken(token: string) returns (r: Option<seq<Byte>>)
    ensures r.Some? ==> |r.value| == TOKEN_BYTES && token == TokenText(r.value)
    ensures forall bytes: seq<Byte> :: |bytes| == TOKEN_BYTES && token == TokenText(bytes) ==> r == Some(bytes)
  {
    forall bytes: seq<Byte> | |bytes| == TOKEN_BYTES && token == TokenText(bytes)
      ensures |token| == TOKEN_ENCODED_LEN && Values(token).Some?
      ensures PushAll(START, Values(token).value) == Decoder(0, 2, bytes)
    {
      SextetsLength(bytes);
      LettersRead(Sextets(bytes));
      DecodeAfterEncode(bytes);
    }
    if |token| != TOKEN_ENCODED_LEN { return None; }
    var d := DecodeLetters(token);
    if d.None? { return None; }
    if |d.value.bytes| != TOKEN_BYTES || d.value.bits != 2 || d.value.accumulator != 0 { return None; }
    var again := EncodeBytes(d.value.bytes);
    BitTestImpliesCanonical(token);
    r := if again == token then Some(d.value.bytes) else None;
  }

  /**
   * For a token of the right length the length and bit-count tests always pass, and the zero-bits
   * test alone already implies that the bytes encode back to the token.
   */
  lemma BitTestImpliesCanonical(token: string)
    requires |token| == TOKEN_ENCODED_LEN && Values(token).Some?
    ensures var d := PushAll(START, Values(token).value);
            && |d.bytes| == TOKEN_BYTES && d.bits == 2
            && (d.accumulator == 0 <==> TokenText(d.bytes) == token)
  {
    var values := Values(token).value;
    var d := PushAll(START, values);
    ValuesSpell(token);
    DecodedLength(values);
    if d.accumulator == 0 {
      EncodeAfterDecode(values);
    } else if TokenText(d.bytes) == token {
      LettersRead(Sextets(d.bytes));
      DecodeAfterEncode(d.bytes);
    }
  }
}
