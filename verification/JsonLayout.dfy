/** What an indentation adds to a text, and which characters a text has. */
module JsonLayout {
  import opened JsonText
  import opened JsonRoundTrip

  // ---------- layout ----------

  /** Where a scan of a text is: how deep in brackets, in a string or not, behind a backslash in a string, directly
      behind an opening bracket. */
  datatype Pen = Pen(depth: nat, quoted: bool, escaped: bool, atOpen: bool)

  function Times(indent: Text, n: nat): Text {
    if n == 0 then [] else Times(indent, n - 1) + indent
  }

  function NewLine(indent: Text, depth: nat): Text {
    [LF] + Times(indent, depth)
  }

  /** A compact text laid out: outside strings, a line for each item and each closing bracket, indented as deep as it is
      in brackets, nothing between the brackets of an empty array or object, and a blank behind each colon. */
  function Laid(t: Text, p: Pen, indent: Text): Text
    decreases |t|
  {
    if t == [] then []
    else
      var c, next := t[0], t[1..];
      if p.quoted then
        [c] + Laid(next, if p.escaped then p.(escaped := false) else if c == BACKSLASH then p.(escaped := true)
                         else if c == QUOTE then p.(quoted := false) else p, indent)
      else if c == QUOTE then [c] + Laid(next, p.(quoted := true, atOpen := false), indent)
      else if c == OPEN || c == BEGIN then
        var empty := next != [] && (next[0] == CLOSE || next[0] == END);
        [c] + (if empty then [] else NewLine(indent, p.depth + 1))
        + Laid(next, p.(depth := p.depth + 1, atOpen := true), indent)
      else if c == CLOSE || c == END then
        var depth := if p.depth == 0 then 0 else p.depth - 1;
        (if p.atOpen then [] else NewLine(indent, depth)) + [c] + Laid(next, p.(depth := depth, atOpen := false),
          indent)
      else if c == COMMA then [c] + NewLine(indent, p.depth) + Laid(next, p.(atOpen := false), indent)
      else if c == COLON then [c, SPACE] + Laid(next, p.(atOpen := false), indent)
      else [c] + Laid(next, p.(atOpen := false), indent)
  }

  /** There is no blank outside strings. */
  predicate Tight(t: Text, quoted: bool, escaped: bool)
    decreases |t|
  {
    t == []
    || if quoted then
         if escaped then Tight(t[1..], true, false)
         else if t[0] == BACKSLASH then Tight(t[1..], true, true)
         else Tight(t[1..], t[0] != QUOTE, false)
       else !Blank(t[0]) && Tight(t[1..], t[0] == QUOTE, false)
  }

  /** Outside strings, `part` becomes `laid`, whatever comes behind it, and has no blanks. */
  ghost predicate LaysOut(part: Text, laid: Text, depth: nat, indent: Text) {
    forall atOpen: bool, rest: Text :: LaidAt(part, laid, depth, indent, atOpen, rest)
  }

  ghost predicate LaidAt(part: Text, laid: Text, depth: nat, indent: Text, atOpen: bool, rest: Text) {
    && Laid(part + rest, Pen(depth, false, false, atOpen), indent) == laid + Laid(rest,
      Pen(depth, false, false, false), indent)
    && Tight(part + rest, false, false) == Tight(rest, false, false)
  }

  // ---------- words and numbers ----------

  /** Characters of words and numbers. */
  predicate Plain(c: Unit) {
    Digit(c) || c == MINUS || c == PLUS || c == DOT || 97 <= c <= 122
  }

  ghost predicate AllPlain(t: Text) {
    forall i {:trigger t[i]} :: 0 <= i < |t| ==> Plain(t[i])
  }

  lemma PlainFirst(u: Text, depth: nat, atOpen: bool, indent: Text)
    requires u != [] && Plain(u[0])
    ensures Laid(u, Pen(depth, false, false, atOpen), indent)
         == [u[0]] + Laid(u[1..], Pen(depth, false, false, false), indent)
    ensures Tight(u, false, false) == Tight(u[1..], false, false)
  {
  }

  lemma {:induction false} PlainLaid(t: Text, rest: Text, depth: nat, atOpen: bool, indent: Text)
    requires AllPlain(t)
    ensures Laid(t + rest, Pen(depth, false, false, atOpen), indent)
         == t + Laid(rest, Pen(depth, false, false, if t == [] then atOpen else false), indent)
    ensures Tight(t + rest, false, false) == Tight(rest, false, false)
    decreases |t|
  {
    if t == [] {
      assert t + rest == rest;
    } else {
      var u := t + rest;
      assert u[0] == t[0] && u[1..] == t[1..] + rest;
      PlainLaid(t[1..], rest, depth, false, indent);
      hide Laid, Tight, Plain;
      PlainFirst(u, depth, atOpen, indent);
    }
  }

  lemma PlainLaysOut(t: Text, depth: nat, indent: Text)
    requires AllPlain(t) && t != []
    ensures LaysOut(t, t, depth, indent)
  {
    forall atOpen: bool, rest: Text ensures LaidAt(t, t, depth, indent, atOpen, rest) {
      PlainLaid(t, rest, depth, atOpen, indent);
    }
  }

  lemma PlainConcat(a: Text, b: Text)
    requires AllPlain(a) && AllPlain(b)
    ensures AllPlain(a + b)
  {
  }

  lemma PlainParts(t: Text, n: nat)
    requires AllPlain(t) && n <= |t|
    ensures AllPlain(t[..n]) && AllPlain(t[n..])
  {
  }

  lemma DigitsPlain(n: nat)
    ensures AllPlain(Decimal(n)) && Decimal(n) != []
  {
    DecimalRoundTrip(n);
  }

  lemma FractionPlain(ds: Text)
    requires AllPlain(ds)
    ensures AllPlain(Fraction(ds))
  {
    if ds != [] { PlainConcat([DOT], ds); }
  }

  lemma ExponentPlain(x: int)
    ensures AllPlain(ExponentText(x))
  {
    DigitsPlain(if x < 0 then -x else x);
    PlainConcat([101, if x < 0 then MINUS else PLUS], Decimal(if x < 0 then -x else x));
  }

  lemma PositivePlain(digits: nat, exponent: int)
    ensures AllPlain(PositiveText(digits, exponent)) && PositiveText(digits, exponent) != []
  {
    var ds := Decimal(digits);
    var k := |ds|;
    var n := exponent + k;
    DigitsPlain(digits);
    ExponentPlain(n - 1);
    hide Decimal, AllPlain, Fraction, Zeros, ExponentText;
    ZerosPlain(if n >= k then n - k else 0);
    ZerosPlain(if n < 0 then -n else 0);
    if k <= n <= 21 {
      PlainConcat(ds, Zeros(n - k));
    } else if 0 < n <= 21 {
      PlainParts(ds, n);
      FractionPlain(ds[n..]);
      PlainConcat(ds[..n], Fraction(ds[n..]));
    } else if -6 < n <= 0 {
      PlainConcat(Zeros(-n), ds);
      FractionPlain(Zeros(-n) + ds);
      ZerosPlain(1);
      PlainConcat([48], Fraction(Zeros(-n) + ds));
    } else {
      PlainParts(ds, 1);
      FractionPlain(ds[1..]);
      PlainConcat(ds[..1], Fraction(ds[1..]));
      PlainConcat(ds[..1] + Fraction(ds[1..]), ExponentText(n - 1));
    }
  }

  lemma ZerosPlain(n: nat)
    ensures AllPlain(Zeros(n)) && AllPlain([48])
  {
  }

  lemma NumeralPlain(d: Numeral)
    ensures AllPlain(NumeralText(d)) && NumeralText(d) != []
  {
    PositivePlain(d.digits, d.exponent);
    hide PositiveText;
    if d.negative && d.digits != 0 { PlainConcat([MINUS], PositiveText(d.digits, d.exponent)); }
  }

  // ---------- strings ----------

  lemma HexPlain(c: Unit)
    ensures AllPlain(Hex4(c))
  {
  }

  ghost predicate Inside(t: Text, rest: Text, depth: nat, indent: Text) {
    && Laid(t + rest, Pen(depth, true, false, false), indent) == t + Laid(rest, Pen(depth, true, false, false), indent)
    && Tight(t + rest, true, false) == Tight(rest, true, false)
  }

  lemma OneInside(c: Unit, rest: Text, depth: nat, indent: Text)
    requires c != QUOTE && c != BACKSLASH
    ensures Inside([c], rest, depth, indent)
  {
    assert ([c] + rest)[1..] == rest;
  }

  lemma TwoInside(c: Unit, rest: Text, depth: nat, indent: Text)
    ensures Inside([BACKSLASH, c], rest, depth, indent)
  {
    var u := [BACKSLASH, c] + rest;
    assert u[1..] == [c] + rest && ([c] + rest)[1..] == rest;
  }

  lemma MoreInside(a: Text, b: Text, rest: Text, depth: nat, indent: Text)
    requires Inside(a, b + rest, depth, indent) && Inside(b, rest, depth, indent)
    ensures Inside(a + b, rest, depth, indent)
  {
    assert a + b + rest == a + (b + rest);
  }

  lemma {:induction false} PlainInside(t: Text, rest: Text, depth: nat, indent: Text)
    requires AllPlain(t)
    ensures Inside(t, rest, depth, indent)
    decreases |t|
  {
    if t == [] {
      assert t + rest == rest;
    } else {
      assert t == [t[0]] + t[1..];
      PlainInside(t[1..], rest, depth, indent);
      OneInside(t[0], t[1..] + rest, depth, indent);
      MoreInside([t[0]], t[1..], rest, depth, indent);
    }
  }

  lemma EscapedInside(c: Unit, rest: Text, depth: nat, indent: Text)
    ensures Inside(Escaped(c), rest, depth, indent)
  {
    hide Inside, Hex4;
    if !Escapable(c) {
      OneInside(c, rest, depth, indent);
    } else if Letter(c) != 0 {
      TwoInside(Letter(c), rest, depth, indent);
    } else {
      HexPlain(c);
      PlainInside(Hex4(c), rest, depth, indent);
      TwoInside(117, Hex4(c) + rest, depth, indent);
      MoreInside([BACKSLASH, 117], Hex4(c), rest, depth, indent);
    }
  }

  lemma {:induction false} StringInside(s: Text, rest: Text, depth: nat, indent: Text)
    ensures Inside(EscapedAll(s), rest, depth, indent)
    decreases |s|
  {
    hide Escaped, Inside;
    if s == [] {
      PlainInside([], rest, depth, indent);
    } else {
      StringInside(s[1..], rest, depth, indent);
      EscapedInside(s[0], EscapedAll(s[1..]) + rest, depth, indent);
      MoreInside(Escaped(s[0]), EscapedAll(s[1..]), rest, depth, indent);
    }
  }

  lemma QuoteLaid(rest: Text, depth: nat, atOpen: bool, indent: Text)
    ensures Laid([QUOTE] + rest, Pen(depth, false, false, atOpen), indent)
         == [QUOTE] + Laid(rest, Pen(depth, true, false, false), indent)
    ensures Tight([QUOTE] + rest, false, false) == Tight(rest, true, false)
    ensures Laid([QUOTE] + rest, Pen(depth, true, false, false), indent)
         == [QUOTE] + Laid(rest, Pen(depth, false, false, false), indent)
    ensures Tight([QUOTE] + rest, true, false) == Tight(rest, false, false)
  {
    assert ([QUOTE] + rest)[1..] == rest;
  }

  lemma QuoteLaidAt(s: Text, depth: nat, indent: Text, atOpen: bool, rest: Text)
    ensures LaidAt(Quote(s), Quote(s), depth, indent, atOpen, rest)
  {
    var inner, tail := EscapedAll(s), [QUOTE] + rest;
    StringInside(s, tail, depth, indent);
    QuoteLaid(inner + tail, depth, atOpen, indent);
    QuoteLaid(rest, depth, atOpen, indent);
    hide EscapedAll, Laid, Tight;
    InQuotes(inner, rest);
    InQuotes(inner, Laid(rest, Pen(depth, false, false, false), indent));
  }

  lemma InQuotes(inner: Text, rest: Text)
    ensures [QUOTE] + inner + [QUOTE] + rest == [QUOTE] + (inner + ([QUOTE] + rest))
  {
  }

  lemma QuoteLaysOut(s: Text, depth: nat, indent: Text)
    ensures LaysOut(Quote(s), Quote(s), depth, indent)
  {
    hide LaidAt, Quote;
    forall atOpen: bool, rest: Text ensures LaidAt(Quote(s), Quote(s), depth, indent, atOpen, rest) {
      QuoteLaidAt(s, depth, indent, atOpen, rest);
    }
  }

  // ---------- arrays and objects ----------

  ghost predicate AllLayOut(parts: seq<Text>, laids: seq<Text>, depth: nat, indent: Text) {
    && |parts| == |laids|
    && forall k {:trigger parts[k]} :: 0 <= k < |parts| ==>
         LaysOut(parts[k], laids[k], depth, indent) && parts[k] != [] && parts[k][0] != CLOSE && parts[k][0] != END
  }

  /** A closing bracket goes on a line of its own. */
  lemma ClosingLaid(close: Unit, rest: Text, depth: nat, indent: Text)
    requires close == CLOSE || close == END
    ensures Laid([close] + rest, Pen(depth + 1, false, false, false), indent)
         == NewLine(indent, depth) + ([close] + Laid(rest, Pen(depth, false, false, false), indent))
    ensures Tight([close] + rest, false, false) == Tight(rest, false, false)
  {
    assert ([close] + rest)[1..] == rest;
    var line, tail := NewLine(indent, depth), Laid(rest, Pen(depth, false, false, false), indent);
    assert line + [close] + tail == line + ([close] + tail);
  }

  lemma CommaLaid(rest: Text, depth: nat, indent: Text)
    ensures Laid([COMMA] + rest, Pen(depth, false, false, false), indent)
         == [COMMA] + NewLine(indent, depth) + Laid(rest, Pen(depth, false, false, false), indent)
    ensures Tight([COMMA] + rest, false, false) == Tight(rest, false, false)
  {
    assert ([COMMA] + rest)[1..] == rest;
  }

  lemma {:induction false} JoinLaid(parts: seq<Text>, laids: seq<Text>, tail: Text, depth: nat, atOpen: bool,
    indent: Text)
    requires parts != [] && AllLayOut(parts, laids, depth, indent)
    ensures Laid(Join(parts, [COMMA]) + tail, Pen(depth, false, false, atOpen), indent)
         == Join(laids, [COMMA] + NewLine(indent, depth)) + Laid(tail, Pen(depth, false, false, false), indent)
    ensures Tight(Join(parts, [COMMA]) + tail, false, false) == Tight(tail, false, false)
    decreases |parts|
  {
    hide Laid, Tight, NewLine;
    assert parts[0] in parts;
    if |parts| == 1 {
      assert LaidAt(parts[0], laids[0], depth, indent, atOpen, tail);
    } else {
      var more := Join(parts[1..], [COMMA]);
      JoinLaid(parts[1..], laids[1..], tail, depth, false, indent);
      CommaLaid(more + tail, depth, indent);
      assert LaidAt(parts[0], laids[0], depth, indent, atOpen, [COMMA] + (more + tail));
      assert Join(parts, [COMMA]) + tail == parts[0] + ([COMMA] + (more + tail));
      Spliced(laids[0], [COMMA] + NewLine(indent, depth), Join(laids[1..], [COMMA] + NewLine(indent, depth)),
              Laid(tail, Pen(depth, false, false, false), indent));
    }
  }

  lemma Spliced(a: Text, b: Text, c: Text, d: Text)
    ensures a + (b + (c + d)) == a + b + c + d
  {
    assert b + (c + d) == b + c + d;
    assert a + (b + c + d) == a + b + c + d;
  }

  lemma OpeningLaid(open: Unit, rest: Text, depth: nat, atOpen: bool, indent: Text)
    requires (open == OPEN || open == BEGIN) && rest != []
    ensures Laid([open] + rest, Pen(depth, false, false, atOpen), indent)
         == [open] + (if rest[0] == CLOSE || rest[0] == END then [] else NewLine(indent, depth + 1))
            + Laid(rest, Pen(depth + 1, false, false, true), indent)
    ensures Tight([open] + rest, false, false) == Tight(rest, false, false)
  {
    assert ([open] + rest)[1..] == rest;
  }

  /** A closing bracket directly behind its opening bracket stays there. */
  lemma ClosingEmpty(close: Unit, rest: Text, depth: nat, indent: Text)
    requires close == CLOSE || close == END
    ensures Laid([close] + rest, Pen(depth + 1, false, false, true), indent)
         == [close] + Laid(rest, Pen(depth, false, false, false), indent)
    ensures Tight([close] + rest, false, false) == Tight(rest, false, false)
  {
    assert ([close] + rest)[1..] == rest;
  }

  lemma EmptyLaidAt(open: Unit, close: Unit, depth: nat, indent: Text, atOpen: bool, rest: Text)
    requires (open == OPEN || open == BEGIN) && (close == CLOSE || close == END)
    ensures LaidAt([open, close], [open, close], depth, indent, atOpen, rest)
  {
    ClosingEmpty(close, rest, depth, indent);
    OpeningLaid(open, [close] + rest, depth, atOpen, indent);
    hide Laid, Tight;
    assert [open, close] + rest == [open] + ([close] + rest);
    var tail := Laid(rest, Pen(depth, false, false, false), indent);
    assert [open, close] + tail == [open] + [] + ([close] + tail);
  }

  lemma EmptyLaid(open: Unit, close: Unit, depth: nat, indent: Text)
    requires (open == OPEN || open == BEGIN) && (close == CLOSE || close == END)
    ensures LaysOut([open, close], [open, close], depth, indent)
  {
    hide LaidAt;
    forall atOpen: bool, rest: Text ensures LaidAt([open, close], [open, close], depth, indent, atOpen, rest) {
      EmptyLaidAt(open, close, depth, indent, atOpen, rest);
    }
  }

  lemma BlockLaysOut(open: Unit, parts: seq<Text>, laids: seq<Text>, close: Unit, depth: nat, indent: Text)
    requires indent != [] && (open == OPEN || open == BEGIN) && (close == CLOSE || close == END)
    requires AllLayOut(parts, laids, depth + 1, indent)
    ensures LaysOut(Block(open, parts, [], [], close),
                    Block(open, laids, Times(indent, depth + 1), Times(indent, depth), close), depth, indent)
  {
    if parts == [] {
      EmptyLaid(open, close, depth, indent);
    } else {
      var part, laid := Block(open, parts, [], [], close),
          Block(open, laids, Times(indent, depth + 1), Times(indent, depth), close);
      forall atOpen: bool, rest: Text ensures LaidAt(part, laid, depth, indent, atOpen, rest) {
        BlockLaidAt(open, parts, laids, close, depth, indent, atOpen, rest);
      }
    }
  }

  /** What stands between the brackets, and the closing bracket. */
  lemma InnerLaid(open: Unit, parts: seq<Text>, laids: seq<Text>, close: Unit, depth: nat, indent: Text, atOpen: bool,
    rest: Text)
    requires (open == OPEN || open == BEGIN) && (close == CLOSE || close == END)
    requires parts != [] && AllLayOut(parts, laids, depth + 1, indent)
    ensures var t := [open] + (Join(parts, [COMMA]) + ([close] + rest));
      && Laid(t, Pen(depth, false, false, atOpen), indent)
         == [open] + (NewLine(indent, depth + 1)
                      + (Join(laids, [COMMA] + NewLine(indent, depth + 1))
                         + (NewLine(indent, depth) + ([close] + Laid(rest, Pen(depth, false, false, false), indent)))))
      && Tight(t, false, false) == Tight(rest, false, false)
  {
    var tail := [close] + rest;
    ClosingLaid(close, rest, depth, indent);
    JoinLaid(parts, laids, tail, depth + 1, true, indent);
    JoinStarts(parts, tail);
    OpeningLaid(open, Join(parts, [COMMA]) + tail, depth, atOpen, indent);
    assert parts[0] in parts;
    hide Laid, Tight, Join, LaysOut, NewLine;
    Reassociated([open], NewLine(indent, depth + 1), Join(laids, [COMMA] + NewLine(indent, depth + 1))
                 + (NewLine(indent, depth) + ([close] + Laid(rest, Pen(depth, false, false, false), indent))));
  }

  lemma Reassociated(a: Text, b: Text, c: Text)
    ensures a + b + c == a + (b + c)
  {
  }

  lemma BlockLaidAt(open: Unit, parts: seq<Text>, laids: seq<Text>, close: Unit, depth: nat, indent: Text, atOpen: bool,
          rest: Text)
    requires indent != [] && (open == OPEN || open == BEGIN) && (close == CLOSE || close == END)
    requires parts != [] && AllLayOut(parts, laids, depth + 1, indent)
    ensures LaidAt(Block(open, parts, [], [], close),
                   Block(open, laids, Times(indent, depth + 1), Times(indent, depth), close), depth, indent, atOpen,
                     rest)
  {
    InnerLaid(open, parts, laids, close, depth, indent, atOpen, rest);
    CompactForm(open, parts, close, rest);
    BlockForm(open, laids, Times(indent, depth + 1), Times(indent, depth), close,
              Laid(rest, Pen(depth, false, false, false), indent));
    TimesNonempty(indent, depth + 1);
    hide Laid, Tight, Block, Join, Times, AllLayOut;
  }

  lemma CompactForm(open: Unit, parts: seq<Text>, close: Unit, rest: Text)
    requires parts != []
    ensures Block(open, parts, [], [], close) + rest == [open] + (Join(parts, [COMMA]) + ([close] + rest))
  {
    BlockForm(open, parts, [], [], close, rest);
    hide Block, Join;
    assert [COMMA] + [] == [COMMA];
    var j := Join(parts, [COMMA]);
    assert [open] + ([] + (j + ([] + ([close] + rest)))) == [open] + (j + ([close] + rest));
  }

  lemma TimesNonempty(indent: Text, n: nat)
    requires indent != [] && n > 0
    ensures Times(indent, n) != []
  {
  }

  lemma JoinStarts(parts: seq<Text>, tail: Text)
    requires parts != [] && parts[0] != []
    ensures var t := Join(parts, [COMMA]) + tail; t != [] && t[0] == parts[0][0]
  {
  }

  // ---------- values ----------

  lemma {:induction false} ValueLaysOut(v: Value, depth: nat, indent: Text)
    requires v != Absent && indent != []
    ensures LaysOut(Printed(v, [], []), Printed(v, Times(indent, depth), indent), depth, indent)
    decreases v
  {
    hide LaysOut, Block, AllPlain;
    match v
    case Null => WordsPlain(); PlainLaysOut(NULL, depth, indent);
    case NonFinite => WordsPlain(); PlainLaysOut(NULL, depth, indent);
    case Bool(b) => WordsPlain(); PlainLaysOut(if b then TRUE else FALSE, depth, indent);
    case Number(d) => NumeralPlain(d); PlainLaysOut(NumeralText(d), depth, indent);
    case String(s) => QuoteLaysOut(s, depth, indent);
    case Array(items) =>
      NothingMore(Times(indent, depth), indent, depth);
      ItemsLayOut(items, depth + 1, indent);
      BlockLaysOut(OPEN, ItemTexts(items, [], []), ItemTexts(items, Times(indent, depth + 1), indent), CLOSE, depth,
        indent);
    case Object(members) =>
      NothingMore(Times(indent, depth), indent, depth);
      MembersLayOut(members, depth + 1, indent);
      BlockLaysOut(BEGIN, MemberTexts(members, [], []), MemberTexts(members, Times(indent, depth + 1), indent), END,
        depth, indent);
  }

  lemma NothingMore(gap: Text, indent: Text, depth: nat)
    requires gap == Times(indent, depth)
    ensures Times(indent, 0) + Times(indent, 0) == [] && gap + indent == Times(indent, depth + 1)
  {
  }

  lemma WordsPlain()
    ensures AllPlain(NULL) && AllPlain(TRUE) && AllPlain(FALSE)
  {
  }

  lemma {:induction false} ItemsLayOut(items: seq<Value>, depth: nat, indent: Text)
    requires indent != []
    ensures AllLayOut(ItemTexts(items, [], []), ItemTexts(items, Times(indent, depth), indent), depth, indent)
    decreases items
  {
    hide LaysOut, Printed, Times, AllPlain;
    if items != [] {
      var first := if items[0] == Absent then Null else items[0];
      ItemsLayOut(items[1..], depth, indent);
      if items[0] == Absent {
        WordsPlain();
        PlainLaysOut(NULL, depth, indent);
      } else {
        ValueLaysOut(items[0], depth, indent);
        PrintedStarts(items[0], [], []);
      }
    }
  }

  lemma ColonLaid(rest: Text, depth: nat, indent: Text)
    ensures Laid([COLON] + rest, Pen(depth, false, false, false), indent)
         == [COLON, SPACE] + Laid(rest, Pen(depth, false, false, false), indent)
    ensures Tight([COLON] + rest, false, false) == Tight(rest, false, false)
  {
    assert ([COLON] + rest)[1..] == rest;
  }

  lemma MemberParts(q: Text, part: Text, laid: Text, depth: nat, indent: Text)
    requires LaysOut(q, q, depth, indent) && LaysOut(part, laid, depth, indent)
    ensures LaysOut(q + [COLON] + part, q + [COLON, SPACE] + laid, depth, indent)
  {
    forall atOpen: bool, rest: Text
      ensures LaidAt(q + [COLON] + part, q + [COLON, SPACE] + laid, depth, indent, atOpen, rest)
    {
      ColonLaid(part + rest, depth, indent);
      assert LaidAt(q, q, depth, indent, atOpen, [COLON] + (part + rest));
      assert LaidAt(part, laid, depth, indent, false, rest);
      hide Laid, Tight;
      assert q + [COLON] + part + rest == q + ([COLON] + (part + rest));
      Spliced(q, [COLON, SPACE], laid, Laid(rest, Pen(depth, false, false, false), indent));
    }
  }

  lemma {:induction false} MembersLayOut(members: seq<Member>, depth: nat, indent: Text)
    requires indent != [] && depth > 0
    ensures AllLayOut(MemberTexts(members, [], []), MemberTexts(members, Times(indent, depth), indent), depth, indent)
    decreases members
  {
    hide LaysOut, Printed, Times, Quote;
    if members != [] {
      MembersLayOut(members[1..], depth, indent);
      var m := members[0];
      if m.value != Absent {
        ValueLaysOut(m.value, depth, indent);
        QuoteLaysOut(m.key, depth, indent);
        QuoteStarts(m.key);
        TimesNonempty(indent, depth);
        MemberParts(Quote(m.key), Printed(m.value, [], []), Printed(m.value, Times(indent, depth), indent), depth,
          indent);
      }
    }
  }

  lemma QuoteStarts(s: Text)
    ensures Quote(s) != [] && Quote(s)[0] == QUOTE
  {
  }

  /** A text with an indentation is the compact text laid out, and the compact text has no blank outside strings. */
  lemma LayoutExactly(v: Value, indent: Text)
    requires v != Absent && indent != []
    ensures Printed(v, [], indent) == Laid(Printed(v, [], []), Pen(0, false, false, false), indent)
    ensures Tight(Printed(v, [], []), false, false)
  {
    ValueLaysOut(v, 0, indent);
    var t := Printed(v, [], []);
    assert LaidAt(t, Printed(v, Times(indent, 0), indent), 0, indent, false, []);
    assert t + [] == t;
    assert Laid([], Pen(0, false, false, false), indent) == [];
    assert Times(indent, 0) == [];
    hide Laid, Tight, Printed;
    assert Printed(v, [], indent) + [] == Printed(v, [], indent);
  }

  // ---------- escapes ----------

  /** What a character is written as: itself; a backslash and a letter for the seven characters that have one; and four
      hexadecimal digits, without capitals, for the other control and format characters. */
  lemma EscapedExactly(c: Unit)
    ensures
      if c in {8, TAB, LF, 12, CR, QUOTE, BACKSLASH} then
        Escaped(c) == [BACKSLASH, if c == 8 then 'b' as int else if c == TAB then 't' as int else if c == LF
          then 'n' as int
                                  else if c == 12 then 'f' as int else if c == CR then 'r' as int else c]
      else if c < 0x20 || 0x7f <= c <= 0x9f || c in {0xad, 0x70f, 0x17b4, 0x17b5, 0xfeff} || 0x600 <= c <= 0x604
              || 0x200c <= c <= 0x200f || 0x2028 <= c <= 0x202f || 0x2060 <= c <= 0x206f || c >= 0xfff0 then
        && |Escaped(c)| == 6 && Escaped(c)[..2] == [BACKSLASH, 'u' as int]
        && forall i {:trigger Escaped(c)[i]} :: 2 <= i < 6 ==>
             '0' as int <= Escaped(c)[i] <= '9' as int || 'a' as int <= Escaped(c)[i] <= 'f' as int
      else Escaped(c) == [c]
  {
  }

  // ---------- numbers ----------

  lemma {:induction false} DecimalLength(n: nat)
    requires n > 0
    ensures Pow10(|Decimal(n)| - 1) <= n < Pow10(|Decimal(n)|)
  {
    if n >= 10 {
      DecimalLength(n / 10);
      TenTimesLength(n, Pow10(|Decimal(n / 10)| - 1), Pow10(|Decimal(n / 10)|));
    } else {
      assert Pow10(0) == 1 && Pow10(1) == 10;
    }
  }

  lemma TenTimesLength(n: nat, low: nat, high: nat)
    requires low <= n / 10 < high
    ensures 10 * low <= n < 10 * high
  {
  }

  /** Whether a text has a point, and whether it has an exponent. */
  ghost predicate Shape(t: Text, point: bool, exponent: bool) {
    (DOT in t <==> point) && (101 in t <==> exponent)
  }

  lemma Shaped(a: Text, b: Text, pointA: bool, exponentA: bool, pointB: bool, exponentB: bool)
    requires Shape(a, pointA, exponentA) && Shape(b, pointB, exponentB)
    ensures Shape(a + b, pointA || pointB, exponentA || exponentB)
  {
  }

  lemma DecimalShape(n: nat)
    ensures Shape(Decimal(n), false, false)
  {
    DecimalRoundTrip(n);
  }

  lemma ZerosShape(n: nat)
    ensures Shape(Zeros(n), false, false) && Shape([48], false, false)
  {
  }

  lemma PartsShape(t: Text, n: nat)
    requires Shape(t, false, false) && n <= |t|
    ensures Shape(t[..n], false, false) && Shape(t[n..], false, false)
  {
  }

  lemma FractionShape(ds: Text)
    requires Shape(ds, false, false)
    ensures Shape(Fraction(ds), ds != [], false)
  {
    if ds != [] { assert Fraction(ds)[0] == DOT; }
  }

  lemma ExponentShape(x: int)
    ensures Shape(ExponentText(x), false, true)
  {
    var sign: Text := [101, if x < 0 then MINUS else PLUS];
    DecimalShape(if x < 0 then -x else x);
    assert sign[0] == 101;
    Shaped(sign, Decimal(if x < 0 then -x else x), false, true, false, false);
  }

  lemma PointShape(ds: Text, n: nat)
    requires Shape(ds, false, false) && n <= |ds|
    ensures Shape(ds[..n] + Fraction(ds[n..]), n < |ds|, false)
  {
    hide Shape, Fraction;
    PartsShape(ds, n);
    FractionShape(ds[n..]);
    Shaped(ds[..n], Fraction(ds[n..]), false, false, n < |ds|, false);
  }

  /** A number is written with an exponent if and only if it has more than 21 digits in front of the point or at least
      six zeros behind it in front of its digits; and with a point if and only if its digits do not end in front of it,
      or there is more than one of them in front of an exponent. */
  lemma FormExactly(digits: nat, exponent: int)
    requires digits > 0
    ensures var k := |Decimal(digits)|;
      var hasExponent := exponent + k > 21 || exponent + k <= -6;
      Shape(PositiveText(digits, exponent), if hasExponent then k > 1 else exponent < 0, hasExponent)
  {
    var ds := Decimal(digits);
    var n := exponent + |ds|;
    DecimalShape(digits);
    hide Decimal, Shape, Zeros, Fraction, ExponentText;
    if |ds| <= n <= 21 {
      ZerosShape(n - |ds|);
      Shaped(ds, Zeros(n - |ds|), false, false, false, false);
    } else if 0 < n <= 21 {
      PointShape(ds, n);
    } else if -6 < n <= 0 {
      ZerosShape(-n);
      Shaped(Zeros(-n), ds, false, false, false, false);
      FractionShape(Zeros(-n) + ds);
      Shaped([48], Fraction(Zeros(-n) + ds), false, false, true, false);
    } else {
      PointShape(ds, 1);
      ExponentShape(n - 1);
      Shaped(ds[..1] + Fraction(ds[1..]), ExponentText(n - 1), |ds| > 1, false, false, true);
    }
  }

  // ---------- symbols, and what is meant ----------

  /** The symbols of a text, and the words of section 3 of RFC 8259. */
  lemma SymbolsExactly()
    ensures OPEN == '[' as int && CLOSE == ']' as int && BEGIN == '{' as int && END == '}' as int
    ensures COMMA == ',' as int && COLON == ':' as int && QUOTE == '"' as int && BACKSLASH == '\\' as int
    ensures MINUS == '-' as int && PLUS == '+' as int && DOT == '.' as int
    ensures SPACE == ' ' as int && TAB == '\t' as int && LF == '\n' as int && CR == '\r' as int
    ensures NULL == ['n' as int, 'u' as int, 'l' as int, 'l' as int]
    ensures TRUE == ['t' as int, 'r' as int, 'u' as int, 'e' as int]
    ensures FALSE == ['f' as int, 'a' as int, 'l' as int, 's' as int, 'e' as int]
    ensures forall d :: 0 <= d < 10 ==> Decimal(d) == ['0' as int + d]
  {
  }

  /** Nothing is added, lost or moved: an array keeps its length and its order, absent items and numbers that are not
      finite being null, and an object keeps its members in order, without those that are absent. */
  lemma MeantExactly(items: seq<Value>, i: nat, a: seq<Member>, m: Member, b: seq<Member>)
    requires i < |items|
    ensures |MeantItems(items)| == |items|
    ensures MeantItems(items)[i] == match items[i]
      case Null => JNull
      case Absent => JNull
      case NonFinite => JNull
      case Bool(b) => JBool(b)
      case String(s) => JString(s)
      case Number(d) => MeantNumber(d)
      case Array(more) => JArray(MeantItems(more))
      case Object(members) => JObject(MeantMembers(members))
    ensures MeantMembers([]) == []
    ensures MeantMembers(a + [m] + b)
         == MeantMembers(a) + (if m.value == Absent then [] else [JMember(m.key, Meant(m.value))]) + MeantMembers(b)
  {
    ItemsMeant(items, i);
    MembersMeant(a, m, b);
    hide MeantItems, MeantMembers;
  }

  lemma {:induction false} ItemsMeant(items: seq<Value>, i: nat)
    requires i < |items|
    ensures |MeantItems(items)| == |items| && MeantItems(items)[i] == Meant(items[i])
    decreases |items|
  {
    if |items| > 1 { ItemsMeant(items[1..], if i == 0 then 0 else i - 1); }
  }

  function MemberMeant(m: Member): seq<JMember> {
    if m.value == Absent then [] else [JMember(m.key, Meant(m.value))]
  }

  lemma FirstMeant(members: seq<Member>)
    requires members != []
    ensures MeantMembers(members) == MemberMeant(members[0]) + MeantMembers(members[1..])
  {
  }

  lemma {:induction false} MembersMeant(a: seq<Member>, m: Member, b: seq<Member>)
    ensures MeantMembers(a + [m] + b) == MeantMembers(a) + MemberMeant(m) + MeantMembers(b)
    decreases |a|
  {
    var all := a + [m] + b;
    FirstMeant(all);
    if a == [] {
      assert all[1..] == b;
      assert MeantMembers([]) + MemberMeant(m) == MemberMeant(m);
    } else {
      FirstMeant(a);
      MembersMeant(a[1..], m, b);
      hide MeantMembers, MemberMeant;
      assert all[0] == a[0] && all[1..] == a[1..] + [m] + b;
      Joined(MemberMeant(a[0]), MeantMembers(a[1..]), MemberMeant(m), MeantMembers(b));
    }
  }

  lemma Joined(a: seq<JMember>, b: seq<JMember>, c: seq<JMember>, d: seq<JMember>)
    ensures a + (b + c + d) == a + b + c + d
  {
  }
}
