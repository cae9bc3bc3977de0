/** The reader reads back what the printer has written. */
module JsonRoundTrip {
  import opened Wrappers
  import opened JsonText

  // ---------- strings ----------

  lemma HexRoundTrip(d: int)
    requires 0 <= d < 16
    ensures HexValue(HexDigit(d)) == d
  {
  }

  lemma Digits4(c: Unit)
    ensures 0 <= c / 4096 < 16
    ensures c / 4096 * 4096 + c / 256 % 16 * 256 + c / 16 % 16 * 16 + c % 16 == c
  {
    var d, e := c / 16, c / 256;
    assert c == 16 * d + c % 16;
    assert d / 16 == e && d == 16 * e + d % 16;
    assert e / 16 == c / 4096 && e == 16 * (c / 4096) + e % 16;
  }

  lemma UnicodeEscape(c: Unit, rest: Text)
    ensures ParseEscape([117] + Hex4(c) + rest) == Some(Read(c, rest))
  {
    Digits4(c);
    HexRoundTrip(c / 4096);
    HexRoundTrip(c / 256 % 16);
    HexRoundTrip(c / 16 % 16);
    HexRoundTrip(c % 16);
    var t := [117] + Hex4(c) + rest;
    assert t[5..] == rest;
  }

  lemma ShortEscape(c: Unit, rest: Text)
    requires Letter(c) != 0
    ensures ParseEscape([Letter(c)] + rest) == Some(Read(c, rest))
  {
    assert ([Letter(c)] + rest)[1..] == rest;
  }

  /** A backslash and an escape sequence. */
  lemma EscapeRead(escape: Text, c: Unit, rest: Text)
    requires ParseEscape(escape + rest) == Some(Read(c, rest)) && ParseString(rest).Some?
    ensures var r := ParseString(rest).value;
      ParseString([BACKSLASH] + escape + rest) == Some(Read([c] + r.value, r.rest))
  {
    hide ParseEscape;
    assert ([BACKSLASH] + escape + rest)[1..] == escape + rest;
  }

  /** An escaped character is read as that character. */
  lemma CharRoundTrip(c: Unit, rest: Text)
    requires ParseString(rest).Some?
    ensures var r := ParseString(rest).value; ParseString(Escaped(c) + rest) == Some(Read([c] + r.value, r.rest))
  {
    hide ParseEscape, Hex4, Letter;
    if !Escapable(c) {
      assert (Escaped(c) + rest)[1..] == rest;
    } else if Letter(c) != 0 {
      ShortEscape(c, rest);
      hide ParseString, Escapable;
      EscapeRead([Letter(c)], c, rest);
      assert [BACKSLASH] + [Letter(c)] == [BACKSLASH, Letter(c)];
    } else {
      UnicodeEscape(c, rest);
      hide ParseString, Escapable;
      EscapeRead([117] + Hex4(c), c, rest);
      assert [BACKSLASH] + ([117] + Hex4(c)) == [BACKSLASH, 117] + Hex4(c);
    }
  }

  lemma EndOfString(rest: Text)
    ensures ParseString([QUOTE] + rest) == Some(Read([], rest))
  {
    assert ([QUOTE] + rest)[1..] == rest;
  }

  lemma {:induction false} StringRoundTrip(s: Text, rest: Text)
    ensures ParseString(EscapedAll(s) + ([QUOTE] + rest)) == Some(Read(s, rest))
  {
    hide ParseString, Escaped;
    if s == [] {
      EndOfString(rest);
      assert [] + ([QUOTE] + rest) == [QUOTE] + rest;
    } else {
      StringRoundTrip(s[1..], rest);
      var tail := EscapedAll(s[1..]) + ([QUOTE] + rest);
      CharRoundTrip(s[0], tail);
      assert EscapedAll(s) + ([QUOTE] + rest) == Escaped(s[0]) + tail;
      assert [s[0]] + s[1..] == s;
    }
  }

  // ---------- numbers ----------

  predicate AllDigits(ds: Text) {
    forall i {:trigger ds[i]} :: 0 <= i < |ds| ==> Digit(ds[i])
  }

  lemma {:induction false} DecimalRoundTrip(n: nat)
    ensures Decimal(n) != [] && AllDigits(Decimal(n)) && NumberOf(Decimal(n)) == n
    ensures Decimal(n)[0] == 48 ==> n == 0
  {
    if n < 10 {
      assert Decimal(n)[..0] == [];
    } else {
      DecimalRoundTrip(n / 10);
      var ds := Decimal(n);
      assert ds[..|ds| - 1] == Decimal(n / 10);
    }
  }

  /** What may follow a number. */
  predicate Ends(rest: Text) {
    rest == [] || (!Digit(rest[0]) && rest[0] != DOT && rest[0] != 101 && rest[0] != 69)
  }

  lemma {:induction false} DigitsRead(ds: Text, rest: Text)
    requires AllDigits(ds) && (rest == [] || !Digit(rest[0]))
    ensures ReadDigits(ds + rest) == Read(ds, rest)
  {
    if ds == [] {
      assert ds + rest == rest;
    } else {
      assert (ds + rest)[1..] == ds[1..] + rest && [ds[0]] + ds[1..] == ds;
      DigitsRead(ds[1..], rest);
    }
  }

  /** The part in front of the fraction. */
  lemma WholeRead(a: Text, v: Text)
    requires a != [] && AllDigits(a) && (a[0] == 48 ==> |a| == 1) && (v == [] || !Digit(v[0]))
    ensures var t := a + v; t != [] && Digit(t[0]) && ReadWhole(t) == Read(a, v)
  {
    DigitsRead(a, v);
    assert (a + v)[0] == a[0];
    assert |a| == 1 ==> (a + v)[1..] == v && a == [a[0]];
  }

  lemma FractionRead(ds: Text, t: Text)
    requires AllDigits(ds) && (t == [] || (!Digit(t[0]) && t[0] != DOT))
    ensures ReadFraction(Fraction(ds) + t) == Read(ds, t)
  {
    if ds == [] {
      assert Fraction(ds) + t == t;
    } else {
      assert (Fraction(ds) + t)[1..] == ds + t;
      DigitsRead(ds, t);
    }
  }

  /** An exponent: none, or a sign and digits. */
  predicate IsExponent(x: Text) {
    x == [] || (|x| > 2 && x[0] == 101 && Sign(x[1]) && AllDigits(x[2..]))
  }

  function ExponentOf(x: Text): int {
    if |x| <= 2 then 0 else if x[1] == MINUS then -NumberOf(x[2..]) else NumberOf(x[2..])
  }

  lemma ExponentRead(x: Text, rest: Text)
    requires IsExponent(x) && Ends(rest)
    ensures ReadExponent(x + rest) == Read(ExponentOf(x), rest)
  {
    hide NumberOf, AllDigits;
    if x != [] {
      assert (x + rest)[2..] == x[2..] + rest;
      DigitsRead(x[2..], rest);
    } else {
      assert x + rest == rest;
    }
  }

  lemma Regrouped(a: Text, f: Text, x: Text, rest: Text)
    ensures (a + f + x) + rest == a + (f + (x + rest))
  {
    assert (a + f) + (x + rest) == a + (f + (x + rest));
    assert ((a + f) + x) + rest == (a + f) + (x + rest);
  }

  lemma NotDigitAfter(b: Text, x: Text, rest: Text)
    requires IsExponent(x) && Ends(rest)
    ensures var u := x + rest; u == [] || (!Digit(u[0]) && u[0] != DOT)
    ensures var v := Fraction(b) + (x + rest); v == [] || !Digit(v[0])
  {
  }

  /** A number made of its three parts is read as what they say. */
  lemma UnsignedForm(a: Text, b: Text, x: Text, rest: Text)
    requires a != [] && AllDigits(a) && (a[0] == 48 ==> |a| == 1) && AllDigits(b) && IsExponent(x) && Ends(rest)
    ensures ParseUnsigned((a + Fraction(b) + x) + rest)
        == Some(Read(JNumber(NumberOf(a + b), ExponentOf(x) - |b|), rest))
  {
    hide NumberOf, ReadWhole, ReadFraction, ReadExponent, ExponentOf, IsExponent, AllDigits, Ends, Digit, Fraction;
    NotDigitAfter(b, x, rest);
    Regrouped(a, Fraction(b), x, rest);
    WholeRead(a, Fraction(b) + (x + rest));
    FractionRead(b, x + rest);
    ExponentRead(x, rest);
  }

  lemma AppendDigit(ds: Text, d: Unit)
    requires AllDigits(ds) && Digit(d)
    ensures NumberOf(ds + [d]) == NumberOf(ds) * 10 + d - 48 && AllDigits(ds + [d])
  {
    assert (ds + [d])[..|ds|] == ds;
  }

  lemma MoreZeros(n: nat)
    ensures Zeros(n + 1) == Zeros(n) + [48] && Zeros(n + 1) == [48] + Zeros(n)
  {
  }

  lemma {:induction false} NumberOfZeros(ds: Text, n: nat)
    requires AllDigits(ds)
    ensures NumberOf(ds + Zeros(n)) == NumberOf(ds) * Pow10(n) && AllDigits(ds + Zeros(n))
  {
    hide NumberOf, AllDigits, Zeros;
    if n == 0 {
      assert ds + Zeros(0) == ds;
    } else {
      NumberOfZeros(ds, n - 1);
      MoreZeros(n - 1);
      AppendDigit(ds + Zeros(n - 1), 48);
      assert ds + Zeros(n) == ds + Zeros(n - 1) + [48];
      TenTimes(NumberOf(ds), Pow10(n - 1));
    }
  }

  lemma TenTimes(a: int, b: int)
    ensures a * b * 10 == a * (10 * b)
  {
  }

  lemma {:induction false} NumberAfterZeros(n: nat, ds: Text)
    requires AllDigits(ds)
    ensures NumberOf(Zeros(n) + ds) == NumberOf(ds) && AllDigits(Zeros(n) + ds)
    decreases |ds|
  {
    hide NumberOf, Zeros;
    if ds != [] {
      var init, last := ds[..|ds| - 1], ds[|ds| - 1];
      NumberAfterZeros(n, init);
      AppendDigit(Zeros(n) + init, last);
      AppendDigit(init, last);
      assert init + [last] == ds;
      assert Zeros(n) + ds == Zeros(n) + init + [last];
    } else {
      NumberOfZeros([], n);
      NothingIsZero();
      assert [] + Zeros(n) == Zeros(n) == Zeros(n) + ds;
    }
  }

  lemma NothingIsZero()
    ensures NumberOf([]) == 0
  {
  }

  lemma ExponentTextRead(x: int)
    ensures IsExponent(ExponentText(x)) && ExponentOf(ExponentText(x)) == x
  {
    var d := if x < 0 then -x else x;
    DecimalRoundTrip(d);
    assert ExponentText(x)[2..] == Decimal(d);
    hide Decimal, NumberOf;
  }

  lemma SliceDigits(ds: Text, n: nat)
    requires AllDigits(ds) && n <= |ds|
    ensures AllDigits(ds[..n]) && AllDigits(ds[n..]) && ds[..n] + ds[n..] == ds
  {
  }

  /** With all its digits. */
  lemma FullRoundTrip(digits: nat, exponent: nat, rest: Text)
    requires digits > 0 && |Decimal(digits)| + exponent <= 21 && Ends(rest)
    ensures ParseUnsigned(PositiveText(digits, exponent) + rest)
        == Some(Read(JNumber(digits * Pow10(exponent), 0), rest))
  {
    var ds, z := Decimal(digits), Zeros(exponent);
    DecimalRoundTrip(digits);
    NumberOfZeros(ds, exponent);
    UnsignedForm(ds + z, [], [], rest);
    assert PositiveText(digits, exponent) == ds + z;
    hide ParseUnsigned, NumberOf, Decimal, PositiveText, AllDigits, Zeros;
    assert (ds + z) + [] == ds + z;
  }

  /** The three forms that are not written with all digits. */
  lemma Forms(digits: nat, exponent: int)
    ensures var ds := Decimal(digits); var n := exponent + |ds|;
      && (exponent < 0 < n <= 21 ==> PositiveText(digits, exponent) == ds[..n] + Fraction(ds[n..]))
      && (-6 < n <= 0 ==> PositiveText(digits, exponent) == [48] + Fraction(Zeros(-n) + ds))
      && (n > 21 || n <= -6 ==> PositiveText(digits, exponent) == ds[..1] + Fraction(ds[1..]) + ExponentText(n - 1))
  {
    hide Decimal, Fraction, Zeros, ExponentText;
  }

  /** With a fraction, in front of which there are digits. */
  lemma PointRoundTrip(digits: nat, exponent: int, rest: Text)
    requires digits > 0 && exponent < 0 < exponent + |Decimal(digits)| <= 21 && Ends(rest)
    ensures ParseUnsigned(PositiveText(digits, exponent) + rest) == Some(Read(JNumber(digits, exponent), rest))
  {
    hide ParseUnsigned, NumberOf, Decimal, Fraction, PositiveText, AllDigits, Ends;
    var ds := Decimal(digits);
    var n := exponent + |ds|;
    DecimalRoundTrip(digits);
    Forms(digits, exponent);
    SliceDigits(ds, n);
    assert ds[..n][0] == ds[0];
    UnsignedForm(ds[..n], ds[n..], [], rest);
    assert ds[..n] + Fraction(ds[n..]) + [] == ds[..n] + Fraction(ds[n..]);
  }

  /** With a fraction after a zero. */
  lemma ZeroPointRoundTrip(digits: nat, exponent: int, rest: Text)
    requires digits > 0 && -6 < exponent + |Decimal(digits)| <= 0 && Ends(rest)
    ensures ParseUnsigned(PositiveText(digits, exponent) + rest) == Some(Read(JNumber(digits, exponent), rest))
  {
    hide ParseUnsigned, NumberOf, Decimal, Fraction, PositiveText, AllDigits, Ends, Zeros;
    var ds := Decimal(digits);
    var z := -(exponent + |ds|);
    DecimalRoundTrip(digits);
    Forms(digits, exponent);
    NumberAfterZeros(z, ds);
    NumberAfterZeros(z + 1, ds);
    MoreZeros(z);
    ZeroDigit();
    UnsignedForm([48], Zeros(z) + ds, [], rest);
    assert [48] + (Zeros(z) + ds) == ([48] + Zeros(z)) + ds;
    assert [48] + Fraction(Zeros(z) + ds) + [] == [48] + Fraction(Zeros(z) + ds);
  }

  lemma ZeroDigit()
    ensures AllDigits([48])
  {
  }

  /** With an exponent. */
  lemma ExponentRoundTrip(digits: nat, exponent: int, rest: Text)
    requires digits > 0 && Ends(rest)
    requires var n := exponent + |Decimal(digits)|; n > 21 || n <= -6
    ensures ParseUnsigned(PositiveText(digits, exponent) + rest) == Some(Read(JNumber(digits, exponent), rest))
  {
    hide ParseUnsigned, NumberOf, Decimal, Fraction, ExponentText, IsExponent, ExponentOf, PositiveText, AllDigits,
         Ends;
    var ds := Decimal(digits);
    var x := ExponentText(exponent + |ds| - 1);
    DecimalRoundTrip(digits);
    Forms(digits, exponent);
    ExponentTextRead(exponent + |ds| - 1);
    SliceDigits(ds, 1);
    assert ds[..1][0] == ds[0];
    UnsignedForm(ds[..1], ds[1..], x, rest);
  }

  /** A positive number is read back from its text. */
  lemma UnsignedRoundTrip(digits: nat, exponent: int, rest: Text)
    requires digits > 0 && Ends(rest)
    ensures ParseUnsigned(PositiveText(digits, exponent) + rest)
         == Some(Read(MeantNumber(Numeral(false, digits, exponent)), rest))
  {
    hide ParseUnsigned, PositiveText, Ends, Decimal;
    var n := exponent + |Decimal(digits)|;
    if exponent >= 0 && n <= 21 {
      FullRoundTrip(digits, exponent, rest);
    } else if n > 21 || n <= -6 {
      ExponentRoundTrip(digits, exponent, rest);
    } else if n > 0 {
      PointRoundTrip(digits, exponent, rest);
    } else {
      ZeroPointRoundTrip(digits, exponent, rest);
    }
  }

  lemma PositiveStarts(digits: nat, exponent: int)
    ensures PositiveText(digits, exponent) != [] && Digit(PositiveText(digits, exponent)[0])
  {
    DecimalRoundTrip(digits);
    hide Decimal;
  }

  lemma ZeroRead(rest: Text)
    requires Ends(rest)
    ensures ParseUnsigned([48] + rest) == Some(Read(JNumber(0, 0), rest))
  {
    UnsignedForm([48], [], [], rest);
    assert [48] + [] == [48] && [48][..0] == [];
    hide ParseUnsigned;
    assert [48] + [] + [] == [48];
  }

  /** Every finite number is read back from its text. */
  lemma NumberRoundTrip(d: Numeral, rest: Text)
    requires Ends(rest)
    ensures ParseNumber(NumeralText(d) + rest) == Some(Read(MeantNumber(d), rest))
  {
    hide ParseUnsigned, PositiveText, Ends, Decimal, Pow10;
    if d.digits == 0 {
      ZeroRead(rest);
    } else {
      var text := PositiveText(d.digits, d.exponent);
      UnsignedRoundTrip(d.digits, d.exponent, rest);
      PositiveStarts(d.digits, d.exponent);
      assert (text + rest)[0] == text[0];
      assert [MINUS] + text + rest == [MINUS] + (text + rest);
    }
  }

  /** What is read is the number: its mantissa and exponent multiply out to the digits and exponent it was made of. */
  lemma NumberMeans(d: Numeral)
    ensures var j := MeantNumber(d);
      if d.digits == 0 then j == JNumber(0, 0)
      else
        && j.exponent <= d.exponent
        && (if d.negative then -j.mantissa else j.mantissa) == d.digits * Pow10(d.exponent - j.exponent)
  {
    hide Decimal;
    assert Pow10(0) == 1;
  }

  lemma NumeralStarts(d: Numeral)
    ensures NumeralText(d) != [] && (NumeralText(d)[0] == MINUS || Digit(NumeralText(d)[0]))
  {
    PositiveStarts(d.digits, d.exponent);
    hide PositiveText;
  }

  /** An integer below ten to the power of 21 is written with exactly its digits. */
  lemma {:induction false} IntegersInFull(digits: nat, exponent: nat)
    requires digits > 0 && |Decimal(digits)| + exponent <= 21
    ensures PositiveText(digits, exponent) == Decimal(digits * Pow10(exponent))
  {
    ShiftedDigits(digits, exponent);
  }

  lemma TenthDigit(m: nat)
    requires m > 0
    ensures Decimal(10 * m) == Decimal(m) + [48]
  {
    assert 10 * m / 10 == m && 10 * m % 10 == 0;
  }

  lemma {:induction false} ShiftedDigits(n: nat, shift: nat)
    requires n > 0
    ensures n * Pow10(shift) > 0 && Decimal(n * Pow10(shift)) == Decimal(n) + Zeros(shift)
  {
    hide Decimal, Zeros;
    if shift == 0 {
      assert n * Pow10(0) == n;
      assert Decimal(n) + Zeros(0) == Decimal(n);
    } else {
      ShiftedDigits(n, shift - 1);
      TenthDigit(n * Pow10(shift - 1));
      TenTimes(n, Pow10(shift - 1));
      MoreZeros(shift - 1);
      assert Decimal(n) + Zeros(shift) == Decimal(n) + Zeros(shift - 1) + [48];
    }
  }

  // ---------- blanks ----------

  predicate AllBlank(w: Text) {
    forall i {:trigger w[i]} :: 0 <= i < |w| ==> Blank(w[i])
  }

  lemma {:induction false} SkipBlanks(w: Text, t: Text)
    requires AllBlank(w)
    ensures Skip(w + t) == Skip(t)
  {
    if w == [] {
      assert w + t == t;
    } else {
      assert (w + t)[1..] == w[1..] + t;
      SkipBlanks(w[1..], t);
    }
  }

  /** Blanks before a text that starts otherwise are skipped. */
  lemma SkipTo(w: Text, t: Text)
    requires AllBlank(w) && t != [] && !Blank(t[0])
    ensures Skip(w + t) == t
  {
    SkipBlanks(w, t);
  }

  // ---------- values ----------

  /** The first characters a value can have. */
  predicate Starts(t: Text) {
    t != [] && (t[0] == 110 || t[0] == 116 || t[0] == 102 || t[0] == QUOTE || t[0] == MINUS || t[0] == OPEN
      || t[0] == BEGIN
                || Digit(t[0]))
  }

  lemma PrintedStarts(v: Value, gap: Text, indent: Text)
    requires v != Absent
    ensures Starts(Printed(v, gap, indent))
  {
    if v.Number? {
      NumeralStarts(v.d);
    }
  }

  /** The blanks that `Block` puts after its opening bracket, after each comma and before its closing bracket. */
  function After(gap: Text): Text {
    if gap != [] then [LF] + gap else []
  }

  function Before(gap: Text, mind: Text): Text {
    if gap != [] then [LF] + mind else []
  }

  lemma Regroup(a: Text, w: Text, j: Text, l: Text, m: Text, c: Text, rest: Text)
    ensures a + w + j + l + m + c + rest == a + (w + (j + ((l + m) + (c + rest))))
  {
    assert (l + m) + (c + rest) == l + m + c + rest;
    assert j + (l + m + c + rest) == j + l + m + c + rest;
    assert w + (j + l + m + c + rest) == w + j + l + m + c + rest;
  }

  lemma BlockForm(open: Unit, parts: seq<Text>, gap: Text, mind: Text, close: Unit, rest: Text)
    requires parts != []
    ensures Block(open, parts, gap, mind, close) + rest
         == [open] + (After(gap) + (Join(parts, [COMMA] + After(gap)) + (Before(gap, mind) + ([close] + rest))))
  {
    hide Join;
    var j := Join(parts, [COMMA] + After(gap));
    if gap == [] {
      assert [COMMA] + [] == [COMMA];
      Regroup([open], [], j, [], [], [close], rest);
      assert [open] + [] + j + [] + [] + [close] == [open] + j + [close];
    } else {
      assert [COMMA] + ([LF] + gap) == [COMMA, LF] + gap;
      assert [open] + ([LF] + gap) == [open, LF] + gap;
      Regroup([open], [LF] + gap, j, [LF], mind, [close], rest);
    }
  }

  lemma JoinCons(parts: seq<Text>, sep: Text, tail: Text)
    requires parts != []
    ensures |parts| == 1 ==> Join(parts, sep) + tail == parts[0] + tail
    ensures |parts| > 1 ==> Join(parts, sep) + tail == parts[0] + (sep + (Join(parts[1..], sep) + tail))
  {
  }

  lemma BlankParts(gap: Text, indent: Text)
    requires AllBlank(gap) && AllBlank(indent)
    ensures AllBlank(gap + indent) && AllBlank(After(gap + indent)) && AllBlank(Before(gap + indent, gap))
  {
  }

  lemma WordRoundTrip(v: Value, rest: Text)
    requires v.Null? || v.NonFinite? || v.Bool? || v.Absent?
    ensures v.Bool? ==> ParseValue((if v.b then TRUE else FALSE) + rest) == Some(Read(Meant(v), rest))
    ensures !v.Bool? ==> ParseValue(NULL + rest) == Some(Read(Meant(v), rest))
  {
    assert (NULL + rest)[..4] == NULL && (NULL + rest)[4..] == rest;
    assert (TRUE + rest)[..4] == TRUE && (TRUE + rest)[4..] == rest;
    assert (FALSE + rest)[..5] == FALSE && (FALSE + rest)[5..] == rest;
    assert TRUE[0] == 116 && NULL[0] == 110 && FALSE[0] == 102;
    assert (TRUE + rest)[..4][0] == 116 && (FALSE + rest)[..4][0] == 102;
  }

  /** A text that starts with `c` is none of the three words. */
  lemma NoWord(t: Text)
    requires t != [] && t[0] != 110 && t[0] != 116 && t[0] != 102
    ensures !StartsWith(t, NULL) && !StartsWith(t, TRUE) && !StartsWith(t, FALSE)
  {
    assert NULL[0] == 110 && TRUE[0] == 116 && FALSE[0] == 102;
  }

  lemma NumberValue(d: Numeral, rest: Text)
    requires Ends(rest)
    ensures ParseValue(NumeralText(d) + rest) == Some(Read(MeantNumber(d), rest))
  {
    var t := NumeralText(d) + rest;
    NumberRoundTrip(d, rest);
    NumeralStarts(d);
    assert t[0] == NumeralText(d)[0];
    hide ParseNumber, NumeralText, MeantNumber, StartsWith;
    NoWord(t);
  }

  lemma StringValue(s: Text, rest: Text)
    ensures ParseValue(Quote(s) + rest) == Some(Read(JString(s), rest))
  {
    var t := Quote(s) + rest;
    hide ParseString, EscapedAll, StartsWith;
    StringRoundTrip(s, rest);
    NoWord(t);
    assert t[1..] == EscapedAll(s) + ([QUOTE] + rest);
  }

  /** After blanks comes the closing bracket. */
  ghost predicate Closing(tail: Text, close: Unit, rest: Text) {
    Ends(tail) && Skip(tail) == [close] + rest
  }

  lemma ClosingTail(b: Text, close: Unit, rest: Text)
    requires AllBlank(b) && (close == CLOSE || close == END)
    ensures Closing(b + ([close] + rest), close, rest)
  {
    SkipTo(b, [close] + rest);
  }

  lemma {:induction false} ItemsStart(items: seq<Value>, gap: Text, indent: Text, sep: Text, tail: Text)
    requires items != []
    ensures var t := Join(ItemTexts(items, gap, indent), sep) + tail; t != [] && !Blank(t[0]) && t[0] != CLOSE
  {
    var x := ItemTexts(items, gap, indent)[0];
    if items[0] != Absent {
      PrintedStarts(items[0], gap, indent);
    }
    assert Starts(x);
    JoinCons(ItemTexts(items, gap, indent), sep, tail);
  }

  /** One element is read; then comes the closing bracket or a comma. */
  lemma LastElement(x: Text, v: Json, tail: Text, rest: Text)
    requires ParseValue(x + tail) == Some(Read(v, tail)) && Closing(tail, CLOSE, rest)
    ensures ParseElements(x + tail) == Some(Read([v], rest))
  {
    hide ParseValue;
    assert ([CLOSE] + rest)[1..] == rest;
  }

  lemma MoreElements(x: Text, v: Json, w: Text, more: Text, vs: seq<Json>, rest: Text)
    requires ParseValue(x + ([COMMA] + w + more)) == Some(Read(v, [COMMA] + w + more))
    requires AllBlank(w) && more != [] && !Blank(more[0]) && ParseElements(more) == Some(Read(vs, rest))
    ensures ParseElements(x + ([COMMA] + w + more)) == Some(Read([v] + vs, rest))
  {
    hide ParseValue;
    var u := [COMMA] + w + more;
    assert u[1..] == w + more;
    SkipTo(w, more);
    assert Skip(u) == u;
  }

  lemma ArrayForm(open: Unit, w: Text, inner: Text)
    requires AllBlank(w) && inner != [] && !Blank(inner[0])
    ensures var t := [open] + (w + inner); t[0] == open && Skip(t[1..]) == inner
  {
    assert ([open] + (w + inner))[1..] == w + inner;
    SkipTo(w, inner);
  }

  lemma EmptyBlock(rest: Text)
    ensures ParseValue([OPEN, CLOSE] + rest) == Some(Read(JArray([]), rest))
    ensures ParseValue([BEGIN, END] + rest) == Some(Read(JObject([]), rest))
  {
    var t, u := [OPEN, CLOSE] + rest, [BEGIN, END] + rest;
    NoWord(t);
    NoWord(u);
    hide StartsWith;
    assert t[1..] == [CLOSE] + rest && u[1..] == [END] + rest;
    assert Skip([CLOSE] + rest) == [CLOSE] + rest && Skip([END] + rest) == [END] + rest;
    assert ([CLOSE] + rest)[1..] == rest && ([END] + rest)[1..] == rest;
  }

  lemma ArrayValue(t: Text, inner: Text, items: seq<Json>, rest: Text)
    requires t != [] && t[0] == OPEN && Skip(t[1..]) == inner && inner != [] && inner[0] != CLOSE
    requires ParseElements(inner) == Some(Read(items, rest))
    ensures ParseValue(t) == Some(Read(JArray(items), rest))
  {
    NoWord(t);
    hide StartsWith, ParseElements;
  }

  lemma ObjectValue(t: Text, inner: Text, members: seq<JMember>, rest: Text)
    requires t != [] && t[0] == BEGIN && Skip(t[1..]) == inner && inner != [] && inner[0] != END
    requires ParseMembers(inner) == Some(Read(members, rest))
    ensures ParseValue(t) == Some(Read(JObject(members), rest))
  {
    NoWord(t);
    hide StartsWith, ParseMembers;
  }

  // ---------- members ----------

  lemma ColonForm(q: Text, blank: bool, x: Text, tail: Text)
    ensures q + (if blank then [COLON, SPACE] else [COLON]) + x + tail
         == q + ([COLON] + ((if blank then [SPACE] else []) + (x + tail)))
  {
    var w := if blank then [SPACE] else [];
    assert [COLON] + w == if blank then [COLON, SPACE] else [COLON];
    Regrouped(q, [COLON] + w, x, tail);
    assert ([COLON] + w) + (x + tail) == [COLON] + (w + (x + tail));
  }

  lemma ColonRead(w: Text, t: Text)
    requires AllBlank(w) && t != [] && !Blank(t[0])
    ensures var u := [COLON] + (w + t); Skip(u) == u && u[0] == COLON && Skip(u[1..]) == t
  {
    SkipTo(w, t);
    assert ([COLON] + (w + t))[1..] == w + t;
  }

  lemma KeyRead(key: Text, u: Text)
    ensures var t := Quote(key) + u; t[0] == QUOTE && ParseString(t[1..]) == Some(Read(key, u))
  {
    hide ParseString, EscapedAll;
    StringRoundTrip(key, u);
    assert (Quote(key) + u)[1..] == EscapedAll(key) + ([QUOTE] + u);
  }

  /** A member's text is a string, a colon and a value. */
  lemma MemberRead(key: Text, blank: bool, x: Text, v: Json, tail: Text)
    requires x != [] && !Blank(x[0]) && ParseValue(x + tail) == Some(Read(v, tail))
    ensures var t := Quote(key) + (if blank then [COLON, SPACE] else [COLON]) + x + tail;
      ParseMember(t) == Some(Read(JMember(key, v), tail)) && t[0] == QUOTE
  {
    hide ParseString, ParseValue, Quote, Skip, Blank;
    var w := if blank then [SPACE] else [];
    ColonForm(Quote(key), blank, x, tail);
    BlankSpace(blank);
    ColonRead(w, x + tail);
    KeyRead(key, [COLON] + (w + (x + tail)));
  }

  lemma BlankSpace(blank: bool)
    ensures AllBlank(if blank then [SPACE] else [])
  {
  }

  lemma LastMember(x: Text, m: JMember, tail: Text, rest: Text)
    requires ParseMember(x + tail) == Some(Read(m, tail)) && Closing(tail, END, rest)
    ensures ParseMembers(x + tail) == Some(Read([m], rest))
  {
    hide ParseMember;
    assert ([END] + rest)[1..] == rest;
  }

  lemma MoreMembers(x: Text, m: JMember, w: Text, more: Text, ms: seq<JMember>, rest: Text)
    requires ParseMember(x + ([COMMA] + w + more)) == Some(Read(m, [COMMA] + w + more))
    requires AllBlank(w) && more != [] && !Blank(more[0]) && ParseMembers(more) == Some(Read(ms, rest))
    ensures ParseMembers(x + ([COMMA] + w + more)) == Some(Read([m] + ms, rest))
  {
    hide ParseMember;
    var u := [COMMA] + w + more;
    assert u[1..] == w + more;
    SkipTo(w, more);
    assert Skip(u) == u;
  }
}
