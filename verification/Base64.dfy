/** Base64 (section 4 of RFC 4648): one encoder and two decoders that were written apart from each other. */
module Base64 {

  const PAD: bv8 := 61

  /** The symbol of a six-bit value. */
  function Sym(v: bv8): bv8
    requires v < 64
  {
    if v < 26 then v + 65 else if v < 52 then v + 71 else if v < 62 then v - 4 else if v == 62 then 43 else 47
  }

  /** The six-bit value of a symbol, 255 if it is none. */
  function Value(c: bv8): bv8 {
    if 65 <= c <= 90 then c - 65
    else if 97 <= c <= 122 then c - 71
    else if 48 <= c <= 57 then c + 4
    else if c == 43 then 62
    else if c == 47 then 63
    else 255
  }

  lemma ValueRange(c: bv8)
    ensures Value(c) == 255 || (Value(c) < 64 && c <= 0x7f && Sym(Value(c)) == c)
    ensures Value(PAD) == 255 && Value(0) == 255
  {
  }

  /** The six-bit groups of three octets. */
  function First(a: bv8): (v: bv8)
    ensures v < 64
  {
    a >> 2
  }

  function Second(a: bv8, b: bv8): (v: bv8)
    ensures v < 64
  {
    ((a & 3) << 4) | (b >> 4)
  }

  function Third(b: bv8, c: bv8): (v: bv8)
    ensures v < 64
  {
    ((b & 15) << 2) | (c >> 6)
  }

  function Fourth(c: bv8): (v: bv8)
    ensures v < 64
  {
    c & 63
  }

  /** The octets of four six-bit groups. */
  function Octet0(v: bv8, w: bv8): bv8 { (v << 2) | (w >> 4) }
  function Octet1(v: bv8, w: bv8): bv8 { (v << 4) | (w >> 2) }
  function Octet2(v: bv8, w: bv8): bv8 { (v << 6) | w }

  lemma GroupRoundTrip(a: bv8, b: bv8, c: bv8)
    ensures Octet0(First(a), Second(a, b)) == a
    ensures Octet1(Second(a, b), Third(b, c)) == b
    ensures Octet2(Third(b, c), Fourth(c)) == c
  {
  }

  // ---------- the encoder ----------

  /** The six-bit groups of a text, the last one filled up with zero bits. */
  function Groups(s: seq<bv8>): (vs: seq<bv8>)
    ensures forall i {:trigger vs[i]} :: 0 <= i < |vs| ==> vs[i] < 64
  {
    if s == [] then []
    else if |s| == 1 then [First(s[0]), Second(s[0], 0)]
    else if |s| == 2 then [First(s[0]), Second(s[0], s[1]), Third(s[1], 0)]
    else [First(s[0]), Second(s[0], s[1]), Third(s[1], s[2]), Fourth(s[2])] + Groups(s[3..])
  }

  function Quad(a: bv8, b: bv8, c: bv8): seq<bv8> {
    [Sym(First(a)), Sym(Second(a, b)), Sym(Third(b, c)), Sym(Fourth(c))]
  }

  /** The symbols of all groups, filled up with `=` to a multiple of four. */
  function Encoded(s: seq<bv8>): seq<bv8> {
    if s == [] then []
    else if |s| == 1 then [Sym(First(s[0])), Sym(Second(s[0], 0)), PAD, PAD]
    else if |s| == 2 then [Sym(First(s[0])), Sym(Second(s[0], s[1])), Sym(Third(s[1], 0)), PAD]
    else Quad(s[0], s[1], s[2]) + Encoded(s[3..])
  }

  function Needed(n: nat): nat {
    (n + 2) / 3 * 4
  }

  lemma {:induction false} EncodedLength(s: seq<bv8>)
    ensures |Encoded(s)| == Needed(|s|)
  {
    if |s| >= 3 {
      EncodedLength(s[3..]);
      assert (|s| + 2) / 3 == (|s| - 3 + 2) / 3 + 1;
    }
  }

  lemma EncodedStep(s: seq<bv8>)
    requires |s| >= 3
    ensures Encoded(s) == Quad(s[0], s[1], s[2]) + Encoded(s[3..])
  {
    hide Quad, Sym, First, Second, Third, Fourth;
  }

  lemma EncodedNothing()
    ensures Encoded([]) == []
  {
  }

  /** Encoding part by part. */
  lemma {:induction false} EncodedConcat(a: seq<bv8>, b: seq<bv8>)
    requires |a| % 3 == 0
    ensures Encoded(a + b) == Encoded(a) + Encoded(b)
    decreases |a|
  {
    hide Encoded, Quad;
    if a == [] {
      EncodedNothing();
      assert a + b == b;
    } else {
      assert (a + b)[3..] == a[3..] + b;
      EncodedStep(a);
      EncodedStep(a + b);
      EncodedConcat(a[3..], b);
    }
  }

  // ---------- the decoders, as functions ----------

  /** The values of the symbols; everything else is skipped. */
  function Values(t: seq<bv8>): seq<bv8> {
    if t == [] then []
    else
      var n := |t| - 1;
      Values(t[..n]) + if Value(t[n]) != 255 then [Value(t[n])] else []
  }

  /** The octets of the complete groups, and those that a last incomplete group holds. */
  function Decoded(vs: seq<bv8>): seq<bv8> {
    if |vs| <= 1 then []
    else if |vs| == 2 then [Octet0(vs[0], vs[1])]
    else if |vs| == 3 then [Octet0(vs[0], vs[1]), Octet1(vs[1], vs[2])]
    else [Octet0(vs[0], vs[1]), Octet1(vs[1], vs[2]), Octet2(vs[2], vs[3])] + Decoded(vs[4..])
  }

  lemma {:induction false} DecodedLength(vs: seq<bv8>)
    ensures |Decoded(vs)| == |vs| * 3 / 4
  {
    if |vs| >= 4 {
      DecodedLength(vs[4..]);
    }
  }

  lemma {:induction false} DecodedConcat(a: seq<bv8>, b: seq<bv8>)
    requires |a| % 4 == 0
    ensures Decoded(a + b) == Decoded(a) + Decoded(b)
    decreases |a|
  {
    if a == [] {
      assert a + b == b;
    } else {
      assert (a + b)[4..] == a[4..] + b;
      DecodedConcat(a[4..], b);
    }
  }

  lemma {:induction false} ValuesConcat(a: seq<bv8>, b: seq<bv8>)
    ensures Values(a + b) == Values(a) + Values(b)
    decreases |b|
  {
    if b == [] {
      assert a + b == a;
    } else {
      var n := |b| - 1;
      assert (a + b)[..|a + b| - 1] == a + b[..n];
      ValuesConcat(a, b[..n]);
    }
  }

  lemma {:induction false} ValuesLength(t: seq<bv8>)
    ensures |Values(t)| <= |t|
  {
    if t != [] {
      ValuesLength(t[..|t| - 1]);
    }
  }

  lemma ValuesOfFour(a: bv8, b: bv8, c: bv8, d: bv8)
    ensures Values([a, b, c, d]) == Values([a]) + Values([b]) + Values([c]) + Values([d])
  {
    ValuesConcat([a], [b]);
    ValuesConcat([a, b], [c]);
    ValuesConcat([a, b, c], [d]);
    assert [a] + [b] == [a, b] && [a, b] + [c] == [a, b, c] && [a, b, c] + [d] == [a, b, c, d];
  }

  lemma ValuesOfSym(v: bv8)
    requires v < 64
    ensures Values([Sym(v)]) == [v] && Sym(v) != 0
  {
  }

  lemma ValuesOfPad()
    ensures Values([PAD]) == []
  {
    ValueRange(PAD);
  }

  lemma ValuesOfQuad(a: bv8, b: bv8, c: bv8)
    ensures Values(Quad(a, b, c)) == [First(a), Second(a, b), Third(b, c), Fourth(c)] && 0 !in Quad(a, b, c)
  {
    hide Values, Sym, First, Second, Third, Fourth;
    ValuesOfFour(Sym(First(a)), Sym(Second(a, b)), Sym(Third(b, c)), Sym(Fourth(c)));
    ValuesOfSym(First(a));
    ValuesOfSym(Second(a, b));
    ValuesOfSym(Third(b, c));
    ValuesOfSym(Fourth(c));
  }

  lemma ValuesNone()
    ensures Values([]) == []
  {
  }

  lemma ValuesOfOneOctet(a: bv8)
    ensures Values(Encoded([a])) == Groups([a]) && 0 !in Encoded([a])
  {
    hide Values, Sym, First, Second, Third, Fourth;
    ValuesOfFour(Sym(First(a)), Sym(Second(a, 0)), PAD, PAD);
    ValuesOfSym(First(a));
    ValuesOfSym(Second(a, 0));
    ValuesOfPad();
  }

  lemma ValuesOfTwoOctets(a: bv8, b: bv8)
    ensures Values(Encoded([a, b])) == Groups([a, b]) && 0 !in Encoded([a, b])
  {
    hide Values, Sym, First, Second, Third, Fourth;
    ValuesOfFour(Sym(First(a)), Sym(Second(a, b)), Sym(Third(b, 0)), PAD);
    ValuesOfSym(First(a));
    ValuesOfSym(Second(a, b));
    ValuesOfSym(Third(b, 0));
    ValuesOfPad();
  }

  /** The symbols of a text stand for its six-bit groups. */
  lemma {:induction false} ValuesOfEncoded(s: seq<bv8>)
    ensures Values(Encoded(s)) == Groups(s) && 0 !in Encoded(s)
  {
    hide Values, Quad;
    if s == [] {
      ValuesNone();
    } else if |s| == 1 {
      assert s == [s[0]];
      ValuesOfOneOctet(s[0]);
    } else if |s| == 2 {
      assert s == [s[0], s[1]];
      ValuesOfTwoOctets(s[0], s[1]);
    } else {
      ValuesOfEncoded(s[3..]);
      ValuesOfQuad(s[0], s[1], s[2]);
      ValuesConcat(Quad(s[0], s[1], s[2]), Encoded(s[3..]));
    }
  }

  lemma {:induction false} DecodedGroups(s: seq<bv8>)
    ensures Decoded(Groups(s)) == s
  {
    if |s| == 1 {
      GroupRoundTrip(s[0], 0, 0);
    } else if |s| == 2 {
      GroupRoundTrip(s[0], s[1], 0);
    } else if |s| >= 3 {
      GroupRoundTrip(s[0], s[1], s[2]);
      DecodedGroups(s[3..]);
      assert Groups(s)[4..] == Groups(s[3..]);
      assert s == [s[0], s[1], s[2]] + s[3..];
    }
  }

  /** Decoding what was encoded gives the octets back. */
  lemma RoundTrip(s: seq<bv8>)
    ensures Decoded(Values(Encoded(s))) == s && 0 !in Encoded(s)
  {
    ValuesOfEncoded(s);
    DecodedGroups(s);
  }

  /** The number of octets `Decode` asks room for when it is told a text of `n` characters. */
  function Room(n: nat): nat {
    match n % 4
    case 0 => n * 3 / 4
    case 2 => n * 3 / 4 + 1
    case 3 => n * 3 / 4 + 2
    case _ => 1
  }

  /** For a text that the encoder made, the room asked for is three quarters of the text. */
  lemma RoomOfEncoded(n: nat)
    ensures Room(Needed(n)) == (n + 2) / 3 * 3 && n <= Room(Needed(n)) <= n + 2
  {
    assert Needed(n) % 4 == 0 && Needed(n) * 3 / 4 == (n + 2) / 3 * 3;
  }

  /** That room is enough for every text of `n` characters exactly if `n` is not 5, 9, 13 and so on. */
  lemma RoomEnough(t: seq<bv8>)
    requires |t| % 4 != 1 || |t| == 1
    ensures |Decoded(Values(t))| <= Room(|t|)
  {
    ValuesLength(t);
    DecodedLength(Values(t));
  }

  lemma {:induction false} ValuesOfAs(n: nat)
    ensures var t := seq(n, i => 65 as bv8); |Values(t)| == n
  {
    if n > 0 {
      var t := seq(n, i => 65 as bv8);
      assert t[..n - 1] == seq(n - 1, i => 65 as bv8);
      ValuesOfAs(n - 1);
    }
  }

  lemma RoomShort(n: nat)
    requires n % 4 == 1 && n != 1
    ensures exists t: seq<bv8> {:trigger Values(t)} :: |t| == n && |Decoded(Values(t))| > Room(n)
  {
    var t := seq(n, i => 65 as bv8);
    ValuesOfAs(n);
    DecodedLength(Values(t));
  }

  /** The second decoder takes blocks of four.  Its search for a symbol also finds the 0 that ends its table. */
  predicate Missing(c: bv8) {
    c != 0 && Value(c) == 255
  }

  function Sextet(c: bv8): bv8 {
    if c == 0 then 64 else if Value(c) == 255 then 0 else Value(c)
  }

  function MissingIn(t: seq<bv8>): nat
    requires |t| == 4
  {
    (if Missing(t[0]) then 1 else 0) + (if Missing(t[1]) then 1 else 0)
    + (if Missing(t[2]) then 1 else 0) + (if Missing(t[3]) then 1 else 0)
  }

  function BlockOctets(t: seq<bv8>): (octets: seq<bv8>)
    requires |t| == 4
    ensures |octets| <= 3
  {
    [Octet0(Sextet(t[0]), Sextet(t[1]))]
    + (if MissingIn(t) < 2 then [Octet1(Sextet(t[1]), Sextet(t[2]))] else [])
    + (if MissingIn(t) < 1 then [Octet2(Sextet(t[2]), Sextet(t[3]))] else [])
  }

  datatype Strict = Strict(octets: seq<bv8>, pad: nat, read: nat)

  /** Reads blocks up to the first with a character that is no symbol. */
  function StrictDecoded(t: seq<bv8>): Strict
    requires |t| % 4 == 0
  {
    if t == [] then Strict([], 0, 0)
    else
      var octets, j := BlockOctets(t[..4]), MissingIn(t[..4]);
      if j > 0 then Strict(octets, j, 4)
      else
        var rest := StrictDecoded(t[4..]);
        Strict(octets + rest.octets, rest.pad, 4 + rest.read)
  }

  lemma SymSextet(v: bv8)
    requires v < 64
    ensures Sextet(Sym(v)) == v && !Missing(Sym(v)) && Missing(PAD) && Sextet(PAD) == 0
  {
  }

  lemma BlockOfQuad(a: bv8, b: bv8, c: bv8)
    ensures BlockOctets(Quad(a, b, c)) == [a, b, c] && MissingIn(Quad(a, b, c)) == 0
  {
    hide Sextet, Missing, Sym, First, Second, Third, Fourth, Octet0, Octet1, Octet2;
    SymSextet(First(a));
    SymSextet(Second(a, b));
    SymSextet(Third(b, c));
    SymSextet(Fourth(c));
    GroupRoundTrip(a, b, c);
  }

  lemma BlockOfOne(a: bv8)
    ensures BlockOctets(Encoded([a])) == [a] && MissingIn(Encoded([a])) == 2
  {
    hide Sextet, Missing, Sym, First, Second, Third, Fourth, Octet0, Octet1, Octet2;
    SymSextet(First(a));
    SymSextet(Second(a, 0));
    GroupRoundTrip(a, 0, 0);
  }

  lemma BlockOfTwo(a: bv8, b: bv8)
    ensures BlockOctets(Encoded([a, b])) == [a, b] && MissingIn(Encoded([a, b])) == 1
  {
    hide Sextet, Missing, Sym, First, Second, Third, Fourth, Octet0, Octet1, Octet2;
    SymSextet(First(a));
    SymSextet(Second(a, b));
    SymSextet(Third(b, 0));
    GroupRoundTrip(a, b, 0);
  }

  function Pads(n: nat): nat {
    (3 - n % 3) % 3
  }

  lemma PadsStep(n: nat)
    ensures n >= 3 ==> Pads(n) == Pads(n - 3)
    ensures 0 < n <= 2 ==> Pads(n) == 3 - n
    ensures Needed(n) % 4 == 0
  {
  }

  lemma StrictTail(s: seq<bv8>)
    requires 0 < |s| <= 2
    ensures |Encoded(s)| == 4 && StrictDecoded(Encoded(s)) == Strict(s, 3 - |s|, 4)
  {
    hide BlockOctets, MissingIn, Sym, First, Second, Third, Fourth;
    var t := Encoded(s);
    assert t[..4] == t;
    if |s| == 1 {
      assert s == [s[0]];
      BlockOfOne(s[0]);
    } else {
      assert s == [s[0], s[1]];
      BlockOfTwo(s[0], s[1]);
    }
  }

  lemma StrictQuad(t: seq<bv8>, a: bv8, b: bv8, c: bv8, rest: seq<bv8>)
    requires t == Quad(a, b, c) + rest && |rest| % 4 == 0
    ensures |t| % 4 == 0 && |t| == 4 + |rest|
    ensures var r := StrictDecoded(rest); StrictDecoded(t) == Strict([a, b, c] + r.octets, r.pad, 4 + r.read)
  {
    hide BlockOctets, MissingIn, Sym, First, Second, Third, Fourth;
    var q := Quad(a, b, c);
    assert |q| == 4;
    BlockOfQuad(a, b, c);
    hide Quad;
    BlockFirst(t, q, rest);
  }

  lemma StrictStep(t: seq<bv8>)
    requires |t| % 4 == 0 && t != [] && MissingIn(t[..4]) == 0
    ensures var r := StrictDecoded(t[4..]);
      StrictDecoded(t) == Strict(BlockOctets(t[..4]) + r.octets, r.pad, 4 + r.read)
  {
    hide BlockOctets, MissingIn;
  }

  lemma BlockFirst(t: seq<bv8>, q: seq<bv8>, rest: seq<bv8>)
    requires |q| == 4 && t == q + rest && |rest| % 4 == 0 && MissingIn(q) == 0
    ensures |t| % 4 == 0
    ensures var r := StrictDecoded(rest); StrictDecoded(t) == Strict(BlockOctets(q) + r.octets, r.pad, 4 + r.read)
  {
    hide BlockOctets, MissingIn, StrictDecoded;
    assert t[..4] == q && t[4..] == rest;
    StrictStep(t);
  }

  /** Reading in blocks what was encoded gives the octets back, and the number of `=` signs. */
  lemma {:induction false} StrictRoundTrip(s: seq<bv8>)
    ensures |Encoded(s)| % 4 == 0
    ensures StrictDecoded(Encoded(s)) == Strict(s, Pads(|s|), |Encoded(s)|)
  {
    hide Encoded, StrictDecoded, Quad, Pads, Needed;
    EncodedLength(s);
    PadsStep(|s|);
    if s == [] {
      NothingStrict();
    } else if |s| <= 2 {
      StrictTail(s);
    } else {
      var rest := s[3..];
      StrictRoundTrip(rest);
      EncodedStep(s);
      StrictQuad(Encoded(s), s[0], s[1], s[2], Encoded(rest));
      assert s == [s[0], s[1], s[2]] + rest;
    }
  }

  lemma NothingStrict()
    ensures Encoded([]) == [] && StrictDecoded([]) == Strict([], 0, 0) && Pads(0) == 0
  {
  }
}
