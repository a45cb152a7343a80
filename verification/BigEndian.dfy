/** Fixed-width big-endian integers, and the byte order that databases and sorted listings use. */
module BigEndian {
  type Byte = n: nat | n < 256

  function Pow256(width: nat): (p: nat)
    ensures p > 0
  {
    if width == 0 then 1 else 256 * Pow256(width - 1)
  }

  /** The most significant byte comes first. */
  function Encode(value: nat, width: nat): (bytes: seq<Byte>)
    requires value < Pow256(width)
    ensures |bytes| == width
  {
    if width == 0 then [] else Encode(value / 256, width - 1) + [value % 256]
  }

  function Decode(bytes: seq<Byte>): nat {
    if bytes == [] then 0 else Decode(bytes[..|bytes| - 1]) * 256 + bytes[|bytes| - 1]
  }

  lemma {:induction false} DecodeEncode(value: nat, width: nat)
    requires value < Pow256(width)
    ensures Decode(Encode(value, width)) == value
  {
    if width > 0 {
      DecodeEncode(value / 256, width - 1);
      assert Encode(value, width)[..width - 1] == Encode(value / 256, width - 1);
    }
  }

  /** Strings of one length that stand for the same number are the same string. */
  lemma {:induction false} DecodeInjective(a: seq<Byte>, b: seq<Byte>)
    requires |a| == |b| && Decode(a) == Decode(b)
    ensures a == b
    decreases |a|
  {
    if a != [] {
      var n := |a| - 1;
      DecodeInjective(a[..n], b[..n]);
      assert a == a[..n] + [a[n]] && b == b[..n] + [b[n]];
    }
  }

  /** Lexicographic order of byte strings. */
  predicate LexLess(a: seq<Byte>, b: seq<Byte>) {
    b != [] && (a == [] || a[0] < b[0] || (a[0] == b[0] && LexLess(a[1..], b[1..])))
  }

  lemma {:induction false} LexLast(a: seq<Byte>, b: seq<Byte>, x: Byte, y: Byte)
    requires |a| == |b|
    ensures LexLess(a + [x], b + [y]) <==> LexLess(a, b) || (a == b && x < y)
    decreases |a|
  {
    if a != [] {
      LexLast(a[1..], b[1..], x, y);
      assert (a + [x])[1..] == a[1..] + [x] && (b + [y])[1..] == b[1..] + [y];
      assert a == [a[0]] + a[1..] && b == [b[0]] + b[1..];
    }
  }

  /** On strings of one length, byte order is numeric order. */
  lemma {:induction false} LexIsNumeric(a: seq<Byte>, b: seq<Byte>)
    requires |a| == |b|
    ensures LexLess(a, b) <==> Decode(a) < Decode(b)
    decreases |a|
  {
    if a != [] {
      var n := |a| - 1;
      LexIsNumeric(a[..n], b[..n]);
      LexLast(a[..n], b[..n], a[n], b[n]);
      assert a == a[..n] + [a[n]] && b == b[..n] + [b[n]];
      if Decode(a[..n]) == Decode(b[..n]) {
        DecodeInjective(a[..n], b[..n]);
      }
    }
  }

  lemma {:induction false} LexIrreflexive(a: seq<Byte>)
    ensures !LexLess(a, a)
    decreases |a|
  {
    if a != [] {
      LexIrreflexive(a[1..]);
    }
  }

  lemma {:induction false} LexTransitive(a: seq<Byte>, b: seq<Byte>, c: seq<Byte>)
    requires LexLess(a, b) && LexLess(b, c)
    ensures LexLess(a, c)
    decreases |a|
  {
    if a != [] && a[0] == b[0] == c[0] {
      LexTransitive(a[1..], b[1..], c[1..]);
    }
  }
}
