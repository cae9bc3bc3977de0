/** What the text of the encoder is: the alphabet of section 4 of RFC 4648, six bits after the other, and the padding.
    */
module Base64Text {
  import opened Base64

  /** Capital letters, small letters, digits, `+` and `/`, and `=` to fill up. */
  lemma AlphabetExactly(v: bv8)
    requires v < 64
    ensures Sym(v) as int ==
      if v < 26 then 'A' as int + v as int
      else if v < 52 then 'a' as int + (v as int - 26)
      else if v < 62 then '0' as int + (v as int - 52)
      else if v == 62 then '+' as int
      else '/' as int
    ensures PAD as int == '=' as int
  {
  }

  /** A decoder takes a character for the value whose symbol it is, and every other character for none. */
  lemma ValueExactly(c: bv8, v: bv8)
    ensures v < 64 ==> (Value(c) == v <==> c == Sym(v))
    ensures Value(c) != 255 ==> Value(c) < 64
    ensures v < 64 ==> (c != 0 && Sextet(c) == v && !Missing(c) <==> c == Sym(v))
    ensures Missing(c) <==> c != 0 && Value(c) == 255
  {
    ValueRange(c);
  }

  /** Bits `6 * i` to `6 * i + 5` of the octets, with zero bits behind the last. */
  function SixBits(s: seq<bv8>, i: nat): bv8
    requires 6 * i < 8 * |s|
  {
    var o := 6 * i / 8;
    SixAt(s[o], if o + 1 < |s| then s[o + 1] else 0, 6 * i % 8)
  }

  /** Six bits of two octets, from bit `from` on. */
  function SixAt(a: bv8, b: bv8, from: nat): (v: bv8)
    requires from < 8
    ensures v < 64
  {
    var window := (a as bv16 << 8) | b as bv16;
    ((window << from) >> 10) as bv8
  }

  lemma SixOfFour(a: bv8, b: bv8, c: bv8)
    ensures SixAt(a, b, 0) == First(a) && SixAt(a, b, 6) == Second(a, b)
    ensures SixAt(b, c, 4) == Third(b, c) && SixAt(c, 0, 2) == Fourth(c)
  {
  }

  lemma FourthAlone(c: bv8, d: bv8)
    ensures SixAt(c, d, 2) == Fourth(c)
  {
  }

  lemma ShortExactly(s: seq<bv8>, i: nat)
    requires 0 < |s| < 3 && i < 4
    ensures |Encoded(s)| == 4 && Encoded(s)[i] == if 6 * i < 8 * |s| then Sym(SixBits(s, i)) else PAD
  {
    hide Sym, First, Second, Third, Fourth, SixAt;
    if |s| == 1 { SixOfFour(s[0], 0, 0); } else { SixOfFour(s[0], s[1], 0); }
  }

  lemma QuadExactly(s: seq<bv8>, i: nat)
    requires |s| >= 3 && i < 4
    ensures Quad(s[0], s[1], s[2])[i] == Sym(SixBits(s, i))
  {
    hide Sym, First, Second, Third, Fourth, SixAt;
    SixOfFour(s[0], s[1], s[2]);
    FourthAlone(s[2], if |s| > 3 then s[3] else 0);
  }

  lemma Later(i: nat)
    requires i >= 4
    ensures 6 * (i - 4) / 8 == 6 * i / 8 - 3 && 6 * (i - 4) % 8 == 6 * i % 8
  {
  }

  /** Character `i` of the text is the symbol of six bits as long as there are bits left, and then `=`. */
  lemma {:induction false} EncodedExactly(s: seq<bv8>, i: nat)
    requires i < |Encoded(s)|
    ensures Encoded(s)[i] == if 6 * i < 8 * |s| then Sym(SixBits(s, i)) else PAD
  {
    if 0 < |s| < 3 {
      ShortExactly(s, i);
    } else {
      EncodedStep(s);
      hide Encoded, Sym, First, Second, Third, Fourth, SixAt;
      if i < 4 {
        QuadExactly(s, i);
      } else {
        hide Quad;
        Later(i);
        EncodedExactly(s[3..], i - 4);
      }
    }
  }

  /** Bits `8 * i` to `8 * i + 7` of six-bit values. */
  function EightBits(vs: seq<bv8>, i: nat): bv8
    requires 8 * i + 8 <= 6 * |vs|
  {
    var o := 8 * i / 6;
    EightAt(vs[o], vs[o + 1], 8 * i % 6)
  }

  /** Eight bits of two six-bit values, from bit `from` on. */
  function EightAt(v: bv8, w: bv8, from: nat): bv8
    requires from <= 4
  {
    var window := (v as bv16 << 6) | (w as bv16 & 63);
    (((window << from) >> 4) & 255) as bv8
  }

  lemma EightOfFour(u: bv8, v: bv8, w: bv8, x: bv8)
    requires u < 64 && v < 64 && w < 64 && x < 64
    ensures EightAt(u, v, 0) == Octet0(u, v) && EightAt(v, w, 2) == Octet1(v, w) && EightAt(w, x, 4) == Octet2(w, x)
  {
  }

  lemma LaterOctet(i: nat)
    requires i >= 3
    ensures 8 * (i - 3) / 6 == 8 * i / 6 - 4 && 8 * (i - 3) % 6 == 8 * i % 6
  {
  }

  ghost predicate SixBitValues(vs: seq<bv8>) {
    forall k {:trigger vs[k]} :: 0 <= k < |vs| ==> vs[k] < 64
  }

  lemma ShortDecoded(vs: seq<bv8>, i: nat)
    requires |vs| < 4 && SixBitValues(vs)
    ensures |Decoded(vs)| == 6 * |vs| / 8
    ensures i < |Decoded(vs)| ==> Decoded(vs)[i] == EightBits(vs, i)
  {
    hide EightAt, Octet0, Octet1, Octet2;
    if |vs| == 2 { EightOfFour(vs[0], vs[1], 0, 0); }
    if |vs| == 3 { EightOfFour(vs[0], vs[1], vs[2], 0); }
  }

  /** Whatever text is decoded, the octets are the bits of its symbols one after the other; bits that do not fill an
      octet are dropped. */
  lemma {:induction false} DecodedExactly(vs: seq<bv8>, i: nat)
    requires SixBitValues(vs)
    ensures |Decoded(vs)| == 6 * |vs| / 8
    ensures i < |Decoded(vs)| ==> Decoded(vs)[i] == EightBits(vs, i)
  {
    if |vs| < 4 {
      ShortDecoded(vs, i);
    } else {
      DecodedExactly(vs[4..], if i < 3 then 0 else i - 3);
      EightOfFour(vs[0], vs[1], vs[2], vs[3]);
      hide EightAt, Octet0, Octet1, Octet2;
      if i >= 3 { LaterOctet(i); }
    }
  }

  /** The decoder's pre-check asks for the most octets a text of its length can decode to, for one more if two
      characters are over, for two more if three are, and for one octet alone if one is. */
  lemma RoomExactly(n: nat)
    ensures var most := |Decoded(Values(seq(n, _ => 65)))|;
      && (forall t: seq<bv8> {:trigger Decoded(Values(t))} :: |t| == n ==> |Decoded(Values(t))| <= most)
      && Room(n) == (if n % 4 == 1 then 1 else if n % 4 == 0 then most else most + n % 4 - 1)
  {
    ValuesOfAs(n);
    DecodedLength(Values(seq(n, _ => 65)));
    forall t: seq<bv8> | |t| == n ensures |Decoded(Values(t))| <= n * 3 / 4 {
      DecodedLength(Values(t));
      ValuesLength(t);
    }
  }

  /** The value of a symbol; any other character stands for zero. */
  function ValueOrZero(c: bv8): bv8 {
    if Value(c) == 255 then 0 else Value(c)
  }

  function NoSymbol(c: bv8): nat {
    if Value(c) == 255 then 1 else 0
  }

  lemma SextetIs(c: bv8)
    requires c != 0
    ensures Sextet(c) == ValueOrZero(c) < 64 && (if Missing(c) then 1 else 0) == NoSymbol(c)
  {
    ValueRange(c);
  }

  lemma EightBitsOfFour(vs: seq<bv8>, i: nat)
    requires |vs| == 4 && SixBitValues(vs) && i < 3
    ensures EightBits(vs, i) == if i == 0 then Octet0(vs[0], vs[1]) else if i == 1 then Octet1(vs[1], vs[2])
        else Octet2(vs[2], vs[3])
  {
    EightOfFour(vs[0], vs[1], vs[2], vs[3]);
    hide EightAt, Octet0, Octet1, Octet2;
  }

  /** A block of the second decoder: its octets are the bits of its values one after the other; one octet fewer for each
      character that is no symbol, but at least one. */
  lemma BlockExactly(t: seq<bv8>, i: nat)
    requires |t| == 4 && forall k {:trigger t[k]} :: 0 <= k < 4 ==> t[k] != 0
    ensures var octets, missing := BlockOctets(t), NoSymbol(t[0]) + NoSymbol(t[1]) + NoSymbol(t[2]) + NoSymbol(t[3]);
      && MissingIn(t) == missing && |octets| == (if missing >= 2 then 1 else 3 - missing)
      && (i < |octets| ==>
            octets[i] == EightBits([ValueOrZero(t[0]), ValueOrZero(t[1]), ValueOrZero(t[2]), ValueOrZero(t[3])], i))
  {
    SextetIs(t[0]);
    SextetIs(t[1]);
    SextetIs(t[2]);
    SextetIs(t[3]);
    if i < 3 {
      EightBitsOfFour([ValueOrZero(t[0]), ValueOrZero(t[1]), ValueOrZero(t[2]), ValueOrZero(t[3])], i);
    }
    hide EightBits, Octet0, Octet1, Octet2, Sextet, Missing, ValueOrZero, NoSymbol;
  }

  /** The 0 that ends a text is found in the table behind the symbols. */
  lemma ZeroFound()
    ensures Sextet(0) == 64 && !Missing(0)
  {
  }
}
