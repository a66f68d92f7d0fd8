/** Little-endian packing of fixed-width integers, as Python's `struct`
    module does for the format characters `I`, `H`, `i` and `h` under `<`
    (standard sizes, no padding). */
module LittleEndian {

  type Byte = b: int | 0 <= b < 256

  function Pow256(n: nat): (p: nat)
    ensures p > 0
  {
    if n == 0 then 1 else 256 * Pow256(n - 1)
  }

  /** The unsigned value of bytes stored least significant first. */
  function DecodeUnsigned(s: seq<Byte>): (v: nat)
    ensures v < Pow256(|s|)
  {
    if |s| == 0 then 0 else s[0] + 256 * DecodeUnsigned(s[1..])
  }

  function EncodeUnsigned(v: nat, n: nat): (s: seq<Byte>)
    requires v < Pow256(n)
    ensures |s| == n
  {
    if n == 0 then [] else [v % 256] + EncodeUnsigned(v / 256, n - 1)
  }

  lemma {:induction false} DecodeEncodeUnsigned(v: nat, n: nat)
    requires v < Pow256(n)
    ensures DecodeUnsigned(EncodeUnsigned(v, n)) == v
  {
    if n > 0 {
      var s := EncodeUnsigned(v, n);
      assert s[1..] == EncodeUnsigned(v / 256, n - 1);
      DecodeEncodeUnsigned(v / 256, n - 1);
    }
  }

  lemma {:induction false} EncodeDecodeUnsigned(s: seq<Byte>)
    ensures EncodeUnsigned(DecodeUnsigned(s), |s|) == s
  {
    if |s| > 0 {
      var v := DecodeUnsigned(s);
      assert v % 256 == s[0] && v / 256 == DecodeUnsigned(s[1..]);
      EncodeDecodeUnsigned(s[1..]);
    }
  }

  /** Two's complement: the top half of the unsigned range is negative. */
  function DecodeSigned(s: seq<Byte>): (v: int)
    requires |s| > 0
    ensures InSignedRange(v, |s|)
  {
    var u := DecodeUnsigned(s);
    if 2 * u >= Pow256(|s|) then u - Pow256(|s|) else u
  }

  predicate InSignedRange(v: int, n: nat)
  {
    0 - Pow256(n) <= 2 * v < Pow256(n)
  }

  function EncodeSigned(v: int, n: nat): (s: seq<Byte>)
    requires n > 0 && InSignedRange(v, n)
    ensures |s| == n
  {
    EncodeUnsigned(if v < 0 then v + Pow256(n) else v, n)
  }

  lemma DecodeEncodeSigned(v: int, n: nat)
    requires n > 0 && InSignedRange(v, n)
    ensures DecodeSigned(EncodeSigned(v, n)) == v
  {
    DecodeEncodeUnsigned(if v < 0 then v + Pow256(n) else v, n);
  }

  lemma EncodeDecodeSigned(s: seq<Byte>)
    requires |s| > 0
    ensures EncodeSigned(DecodeSigned(s), |s|) == s
  {
    EncodeDecodeUnsigned(s);
  }

  /** The struct format characters the log record uses. */
  datatype Code = UInt32 | UInt16 | Int32 | Int16 {

    function Width(): nat
    {
      match this
      case UInt32 => 4
      case Int32 => 4
      case UInt16 => 2
      case Int16 => 2
    }

    predicate Signed()
    {
      Int32? || Int16?
    }

    /** The values a field of this code can hold. */
    predicate Holds(v: int)
    {
      if Signed() then InSignedRange(v, Width()) else 0 <= v < Pow256(Width())
    }
  }

  function DecodeField(c: Code, s: seq<Byte>): int
    requires |s| == c.Width()
  {
    if c.Signed() then DecodeSigned(s) else DecodeUnsigned(s)
  }

  function EncodeField(c: Code, v: int): (s: seq<Byte>)
    requires c.Holds(v)
    ensures |s| == c.Width()
  {
    if c.Signed() then EncodeSigned(v, c.Width()) else EncodeUnsigned(v, c.Width())
  }

  /** `struct.calcsize` of a packed little-endian format. */
  function Size(layout: seq<Code>): nat
  {
    if |layout| == 0 then 0 else layout[0].Width() + Size(layout[1..])
  }

  lemma SizeCons(c: Code, rest: seq<Code>)
    ensures Size([c] + rest) == c.Width() + Size(rest)
  {
    assert ([c] + rest)[1..] == rest;
  }

  /** The size of a layout is the sum of the sizes of its parts. */
  lemma {:induction false} SizeConcat(a: seq<Code>, b: seq<Code>)
    ensures Size(a + b) == Size(a) + Size(b)
    decreases |a|
  {
    if |a| == 0 {
      assert a + b == b;
    } else {
      assert (a + b)[0] == a[0] && (a + b)[1..] == a[1..] + b;
      SizeConcat(a[1..], b);
    }
  }

  /** Where field j starts: the summed widths of the fields before it. */
  function Offset(layout: seq<Code>, j: nat): nat
    requires j <= |layout|
  {
    Size(layout[..j])
  }

  /** `struct.unpack`: one integer per field, read from consecutive bytes. */
  function Unpack(layout: seq<Code>, s: seq<Byte>): (vs: seq<int>)
    requires |s| == Size(layout)
    ensures |vs| == |layout|
  {
    if |layout| == 0 then []
    else
      var w := layout[0].Width();
      [DecodeField(layout[0], s[..w])] + Unpack(layout[1..], s[w..])
  }

  predicate Fits(layout: seq<Code>, vs: seq<int>)
  {
    |vs| == |layout| && forall j :: 0 <= j < |vs| ==> layout[j].Holds(vs[j])
  }

  /** `struct.pack`. */
  function Pack(layout: seq<Code>, vs: seq<int>): (s: seq<Byte>)
    requires Fits(layout, vs)
    ensures |s| == Size(layout)
  {
    if |layout| == 0 then []
    else EncodeField(layout[0], vs[0]) + Pack(layout[1..], vs[1..])
  }

  /** A field decodes to a value of its range, and re-encoding that value gives back the bytes. */
  lemma EncodeDecodeField(c: Code, b: seq<Byte>)
    requires |b| == c.Width()
    ensures c.Holds(DecodeField(c, b)) && EncodeField(c, DecodeField(c, b)) == b
  {
    if c.Signed() {
      EncodeDecodeSigned(b);
    } else {
      EncodeDecodeUnsigned(b);
    }
  }

  /** Decoding a field inverts encoding it, for values in its range. */
  lemma DecodeEncodeField(c: Code, v: int)
    requires c.Holds(v)
    ensures DecodeField(c, EncodeField(c, v)) == v
  {
    if c.Signed() {
      DecodeEncodeSigned(v, c.Width());
    } else {
      DecodeEncodeUnsigned(v, c.Width());
    }
  }

  /** The two halves of a concatenation are its slices at the seam. */
  lemma ConcatSplit<T>(a: seq<T>, b: seq<T>)
    ensures (a + b)[..|a|] == a && (a + b)[|a|..] == b
  {
  }

  /** One step of Unpack: the first field, then the rest of the record. */
  lemma UnpackStep(layout: seq<Code>, s: seq<Byte>)
    requires |s| == Size(layout) && |layout| > 0
    ensures layout[0].Width() <= |s|
    ensures Unpack(layout, s)
         == [DecodeField(layout[0], s[..layout[0].Width()])] + Unpack(layout[1..], s[layout[0].Width()..])
  {
  }

  /** One step of Pack: the first field, then the rest of the record. */
  lemma PackStep(layout: seq<Code>, vs: seq<int>)
    requires Fits(layout, vs) && |layout| > 0
    ensures Fits(layout[1..], vs[1..])
    ensures Pack(layout, vs) == EncodeField(layout[0], vs[0]) + Pack(layout[1..], vs[1..])
  {
    forall j | 0 <= j < |vs| - 1
      ensures layout[1..][j].Holds(vs[1..][j])
    {
      assert layout[1..][j] == layout[j + 1] && vs[1..][j] == vs[j + 1];
    }
  }

  /** Every decoded value lies in its field's range. */
  lemma {:induction false} UnpackFits(layout: seq<Code>, s: seq<Byte>)
    requires |s| == Size(layout)
    ensures Fits(layout, Unpack(layout, s))
  {
    if |layout| > 0 {
      var w := layout[0].Width();
      UnpackStep(layout, s);
      UnpackFits(layout[1..], s[w..]);
      EncodeDecodeField(layout[0], s[..w]);
      var vs := Unpack(layout, s);
      forall j | 0 <= j < |vs|
        ensures layout[j].Holds(vs[j])
      {
        if j > 0 {
          assert vs[j] == Unpack(layout[1..], s[w..])[j - 1];
          assert layout[j] == layout[1..][j - 1];
        }
      }
    }
  }

  /** Decoding inverts encoding for in-range values. */
  lemma {:induction false} UnpackPack(layout: seq<Code>, vs: seq<int>)
    requires Fits(layout, vs)
    ensures Unpack(layout, Pack(layout, vs)) == vs
  {
    if |layout| > 0 {
      var c, w := layout[0], layout[0].Width();
      var s := Pack(layout, vs);
      PackStep(layout, vs);
      ConcatSplit(EncodeField(c, vs[0]), Pack(layout[1..], vs[1..]));
      DecodeEncodeField(c, vs[0]);
      UnpackPack(layout[1..], vs[1..]);
      UnpackStep(layout, s);
      assert vs == [vs[0]] + vs[1..];
    }
  }

  /** Encoding inverts decoding: every byte string is the packing of its fields. */
  lemma {:induction false} PackUnpack(layout: seq<Code>, s: seq<Byte>)
    requires |s| == Size(layout)
    ensures Fits(layout, Unpack(layout, s)) && Pack(layout, Unpack(layout, s)) == s
  {
    UnpackFits(layout, s);
    if |layout| > 0 {
      var c, w := layout[0], layout[0].Width();
      var vs := Unpack(layout, s);
      UnpackStep(layout, s);
      assert vs[0] == DecodeField(c, s[..w]) && vs[1..] == Unpack(layout[1..], s[w..]);
      PackStep(layout, vs);
      EncodeDecodeField(c, s[..w]);
      PackUnpack(layout[1..], s[w..]);
      assert s == s[..w] + s[w..];
    }
  }

  /** Slicing a suffix is slicing the whole sequence at shifted bounds. */
  lemma SliceOfSuffix<T>(s: seq<T>, w: nat, a: nat, b: nat)
    requires w <= |s| && a <= b <= |s| - w
    ensures s[w..][a..b] == s[w + a..w + b]
  {
  }

  /** The offset of field j counts the first field's width, then the offsets in the rest. */
  lemma OffsetStep(layout: seq<Code>, j: nat)
    requires 0 < j <= |layout|
    ensures Offset(layout, j) == layout[0].Width() + Offset(layout[1..], j - 1)
  {
    assert layout[..j][0] == layout[0];
    assert layout[..j][1..] == layout[1..][..j - 1];
  }

  /** Field j of an unpacked record is decoded from bytes [Offset(j), Offset(j) + width). */
  lemma {:induction false} UnpackFieldAt(layout: seq<Code>, s: seq<Byte>, j: nat)
    requires |s| == Size(layout) && j < |layout|
    ensures Offset(layout, j) + layout[j].Width() <= |s|
    ensures Unpack(layout, s)[j]
         == DecodeField(layout[j], s[Offset(layout, j)..Offset(layout, j) + layout[j].Width()])
  {
    var w := layout[0].Width();
    UnpackStep(layout, s);
    if j == 0 {
      assert layout[..0] == [];
    } else {
      UnpackFieldAt(layout[1..], s[w..], j - 1);
      assert Unpack(layout, s)[j] == Unpack(layout[1..], s[w..])[j - 1];
      assert layout[1..][j - 1] == layout[j];
      OffsetStep(layout, j);
      var o' := Offset(layout[1..], j - 1);
      SliceOfSuffix(s, w, o', o' + layout[j].Width());
    }
  }
}
