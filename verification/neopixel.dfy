/**
  The string-to-NeoPixel encoder: each byte of the (already UTF-8 encoded)
  input is split into its high and low 4-bit nibbles, trailing zero nibbles
  are dropped, and every remaining nibble selects one of sixteen colours for
  one pixel of the strip.
*/
module StringToNeopixel {

  /** `x >> 4`: the high nibble of a byte. */
  function Hi(x: bv8): int { (x >> 4) as int }

  /** `x & 15`: the low nibble of a byte. */
  function Lo(x: bv8): int { (x & 15) as int }

  /** The shift and the mask are the quotient and remainder of division by 16. */
  lemma NibbleArithmetic(x: bv8)
    ensures Hi(x) == x as int / 16 && Lo(x) == x as int % 16
  {
  }

  /** The two nibbles of a byte are 4-bit values that recombine to the byte. */
  lemma NibbleSplit(x: bv8)
    ensures 0 <= Hi(x) < 16 && 0 <= Lo(x) < 16
    ensures Pack(Hi(x), Lo(x)) == x
  {
    NibbleArithmetic(x);
    var v := x as int;
    assert 16 * Hi(x) + Lo(x) == v;
    PackDigits(Hi(x), Lo(x));
    assert v as bv8 == x;
  }

  /** The list built by the `for` loop of f1, before trimming. */
  function Nibbles(b: seq<bv8>): seq<int>
  {
    if b == [] then [] else Nibbles(b[..|b| - 1]) + [Hi(b[|b| - 1]), Lo(b[|b| - 1])]
  }

  /** The list left by the `while l and not l[-1]: l.pop()` loop. */
  function TrimZeros(s: seq<int>): seq<int>
  {
    if s != [] && s[|s| - 1] == 0 then TrimZeros(s[..|s| - 1]) else s
  }

  /** Pads a nibble list with zeros up to length n. */
  function PadZeros(s: seq<int>, n: nat): (r: seq<int>)
    ensures |r| == if |s| < n then n else |s|
  {
    if |s| < n then s + seq(n - |s|, _ => 0) else s
  }

  /** Every element is a 4-bit value. */
  predicate IsNibbleList(s: seq<int>)
  {
    forall i :: 0 <= i < |s| ==> 0 <= s[i] < 16
  }

  /** The byte whose high nibble is h and low nibble is l (each taken modulo 16). */
  function Pack(h: int, l: int): bv8
  {
    (16 * (h % 16) + l % 16) as bv8
  }

  /** For 4-bit arguments no reduction happens. */
  lemma PackDigits(h: int, l: int)
    requires 0 <= h < 16 && 0 <= l < 16
    ensures Pack(h, l) == (16 * h + l) as bv8
  {
    var v := 16 * (h % 16) + l % 16;
    assert v == 16 * h + l;
  }

  /** Reassembles bytes from (high, low) nibble pairs: the decoder of Nibbles. */
  function Combine(s: seq<int>): (r: seq<bv8>)
    ensures |r| == |s| / 2
  {
    if |s| < 2 then [] else Combine(s[..|s| - 2]) + [Pack(s[|s| - 2], s[|s| - 1])]
  }

  /** f1: the nibble list of the encoded input with its trailing zeros removed. */
  method F1(b: seq<bv8>) returns (l: seq<int>)
    ensures l == TrimZeros(Nibbles(b))
  {
    l := [];
    for k := 0 to |b|
      invariant l == Nibbles(b[..k])
    {
      assert b[..k + 1][..k] == b[..k];
      l := l + [Hi(b[k])];
      l := l + [Lo(b[k])];
    }
    assert b[..|b|] == b;
    while l != [] && l[|l| - 1] == 0
      invariant TrimZeros(l) == TrimZeros(Nibbles(b))
    {
      l := l[..|l| - 1];
    }
  }

  /** Before trimming the list holds two entries per byte: high nibble, then low nibble. */
  lemma {:induction false} NibblesLayout(b: seq<bv8>)
    ensures |Nibbles(b)| == 2 * |b|
    ensures forall k :: 0 <= k < |b| ==> Nibbles(b)[2 * k] == Hi(b[k]) && Nibbles(b)[2 * k + 1] == Lo(b[k])
  {
    if b != [] {
      NibblesLayout(b[..|b| - 1]);
    }
  }

  /** Every nibble is in 0..15. */
  lemma NibblesInRange(b: seq<bv8>)
    ensures IsNibbleList(Nibbles(b))
  {
    NibblesLayout(b);
    forall i | 0 <= i < |Nibbles(b)|
      ensures 0 <= Nibbles(b)[i] < 16
    {
      NibbleSplit(b[i / 2]);
    }
  }

  /**
    Trimming keeps a prefix, removes only zeros, and leaves a list that is
    empty or ends in a non-zero element.
  */
  lemma {:induction false} TrimZerosIsZeroFreeSuffix(s: seq<int>)
    ensures |TrimZeros(s)| <= |s| && TrimZeros(s) == s[..|TrimZeros(s)|]
    ensures forall i :: |TrimZeros(s)| <= i < |s| ==> s[i] == 0
    ensures TrimZeros(s) == [] || TrimZeros(s)[|TrimZeros(s)| - 1] != 0
  {
    if s != [] && s[|s| - 1] == 0 {
      TrimZerosIsZeroFreeSuffix(s[..|s| - 1]);
    }
  }

  /** The encoder's output: values in 0..15, a prefix of the nibble list, no trailing zero. */
  lemma F1Output(b: seq<bv8>)
    ensures IsNibbleList(TrimZeros(Nibbles(b)))
    ensures |TrimZeros(Nibbles(b))| <= |Nibbles(b)|
    ensures TrimZeros(Nibbles(b)) == Nibbles(b)[..|TrimZeros(Nibbles(b))|]
    ensures forall i :: |TrimZeros(Nibbles(b))| <= i < |Nibbles(b)| ==> Nibbles(b)[i] == 0
    ensures TrimZeros(Nibbles(b)) == [] || TrimZeros(Nibbles(b))[|TrimZeros(Nibbles(b))| - 1] != 0
  {
    NibblesInRange(b);
    TrimZerosIsZeroFreeSuffix(Nibbles(b));
  }

  /** Padding a trimmed list back to its original length restores it. */
  lemma PadTrimmed(s: seq<int>)
    ensures PadZeros(TrimZeros(s), |s|) == s
  {
    TrimZerosIsZeroFreeSuffix(s);
  }

  /** Appending one (high, low) pair appends one byte. */
  lemma CombineSnoc(s: seq<int>, h: int, l: int)
    ensures Combine(s + [h, l]) == Combine(s) + [Pack(h, l)]
  {
    assert (s + [h, l])[..|s|] == s;
  }

  /** The decoding half of the round trip, by induction on the bytes. */
  lemma {:induction false} CombineInvertsNibbles(b: seq<bv8>)
    ensures Combine(Nibbles(b)) == b
  {
    if b != [] {
      var b', x := b[..|b| - 1], b[|b| - 1];
      CombineInvertsNibbles(b');
      CombineSnoc(Nibbles(b'), Hi(x), Lo(x));
      NibbleSplit(x);
      DropLastAppend(b);
    }
  }

  /** A non-empty list is its prefix followed by its last element. */
  lemma DropLastAppend<T>(s: seq<T>)
    requires s != []
    ensures s[..|s| - 1] + [s[|s| - 1]] == s
  {
  }

  /** Combine inverts Nibbles. */
  lemma CombineNibbles(b: seq<bv8>)
    ensures |Nibbles(b)| == 2 * |b| && IsNibbleList(Nibbles(b))
    ensures Combine(Nibbles(b)) == b
  {
    NibblesLayout(b);
    NibblesInRange(b);
    CombineInvertsNibbles(b);
  }

  /** Round trip: pad the encoder's output with zeros to 2*|b|, recombine pairs, get b back. */
  lemma RoundTrip(b: seq<bv8>)
    ensures |PadZeros(TrimZeros(Nibbles(b)), 2 * |b|)| == 2 * |b|
    ensures IsNibbleList(PadZeros(TrimZeros(Nibbles(b)), 2 * |b|))
    ensures Combine(PadZeros(TrimZeros(Nibbles(b)), 2 * |b|)) == b
  {
    NibblesLayout(b);
    PadTrimmed(Nibbles(b));
    CombineNibbles(b);
  }

  /** Every element is zero. */
  predicate AllZero(s: seq<int>)
  {
    forall i :: 0 <= i < |s| ==> s[i] == 0
  }

  /** Every byte is zero. */
  predicate AllZeroBytes(b: seq<bv8>)
  {
    forall k :: 0 <= k < |b| ==> b[k] == 0
  }

  /** A list trims to nothing exactly when it is all zeros. */
  lemma {:induction false} TrimsAwayIffAllZero(s: seq<int>)
    ensures TrimZeros(s) == [] <==> AllZero(s)
  {
    TrimZerosIsZeroFreeSuffix(s);
    if s != [] && AllZero(s) {
      assert AllZero(s[..|s| - 1]);
      TrimsAwayIffAllZero(s[..|s| - 1]);
    }
  }

  /** The nibble list is all zeros exactly when the bytes are. */
  lemma ZeroNibblesIffZeroBytes(b: seq<bv8>)
    ensures AllZero(Nibbles(b)) <==> AllZeroBytes(b)
  {
    NibblesLayout(b);
    if AllZeroBytes(b) {
      forall i | 0 <= i < |Nibbles(b)|
        ensures Nibbles(b)[i] == 0
      {
        assert b[i / 2] == 0;
      }
    }
    if !AllZeroBytes(b) {
      var k :| 0 <= k < |b| && b[k] != 0;
      NibbleSplit(b[k]);
      assert Nibbles(b)[2 * k] != 0 || Nibbles(b)[2 * k + 1] != 0;
    }
  }

  /** The output is empty exactly when every input byte is zero (in particular for empty input). */
  lemma EmptyIffAllZero(b: seq<bv8>)
    ensures TrimZeros(Nibbles(b)) == [] <==> AllZeroBytes(b)
  {
    TrimsAwayIffAllZero(Nibbles(b));
    ZeroNibblesIffZeroBytes(b);
  }

  /** An RGB colour of the palette. */
  datatype Rgb = Rgb(r: int, g: int, b: int)

  /** The 16-colour palette `cl`. */
  const Palette: seq<Rgb> := [
    Rgb(0, 0, 0), Rgb(0, 0, 170), Rgb(0, 170, 0), Rgb(0, 170, 170),
    Rgb(170, 0, 0), Rgb(170, 0, 170), Rgb(170, 170, 0), Rgb(170, 170, 170),
    Rgb(85, 85, 85), Rgb(85, 85, 255), Rgb(85, 255, 85), Rgb(85, 255, 255),
    Rgb(255, 85, 85), Rgb(255, 85, 255), Rgb(255, 255, 85), Rgb(255, 255, 255)
  ]

  /**
    The pixel assignments the script emits: pixel i takes the palette colour
    indexed by the i-th element of f1's output.
  */
  method PixelColors(b: seq<bv8>) returns (pixels: seq<(int, Rgb)>)
    ensures |pixels| == |TrimZeros(Nibbles(b))|
    ensures forall i :: 0 <= i < |pixels| ==>
      0 <= TrimZeros(Nibbles(b))[i] < |Palette| && pixels[i] == (i, Palette[TrimZeros(Nibbles(b))[i]])
  {
    var l := F1(b);
    F1Output(b);
    pixels := [];
    for i := 0 to |l|
      invariant |pixels| == i
      invariant forall j :: 0 <= j < i ==> pixels[j] == (j, Palette[l[j]])
    {
      pixels := pixels + [(i, Palette[l[i]])];
    }
  }
}
