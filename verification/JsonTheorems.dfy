/** Round trip of whole values, for every indentation made of blanks, and what goes wrong for all others. */
module JsonTheorems {
  import opened Wrappers
  import opened JsonText
  import opened JsonRoundTrip

  lemma {:induction false} ItemsRoundTrip(items: seq<Value>, gap: Text, indent: Text, w: Text, tail: Text, rest: Text)
    requires items != [] && AllBlank(gap) && AllBlank(indent) && AllBlank(w) && Closing(tail, CLOSE, rest)
    ensures ParseElements(Join(ItemTexts(items, gap, indent), [COMMA] + w) + tail)
        == Some(Read(MeantItems(items), rest))
    decreases items, 1
  {
    hide Closing, AllBlank, Ends, ParseElements, ParseValue, Join;
    var texts, sep := ItemTexts(items, gap, indent), [COMMA] + w;
    JoinCons(texts, sep, tail);
    if |items| == 1 {
      ClosingEnds(tail, CLOSE, rest);
      ItemRoundTrip(items, gap, indent, tail);
      LastElement(texts[0], Meant(items[0]), tail, rest);
      assert MeantItems(items) == [Meant(items[0])];
    } else {
      var more := Join(texts[1..], sep) + tail;
      ItemsRoundTrip(items[1..], gap, indent, w, tail, rest);
      assert texts[1..] == ItemTexts(items[1..], gap, indent);
      ItemsStart(items[1..], gap, indent, sep, tail);
      CommaEnds(sep, more);
      ItemRoundTrip(items, gap, indent, sep + more);
      MoreElements(texts[0], Meant(items[0]), w, more, MeantItems(items[1..]), rest);
    }
  }

  lemma ClosingEnds(tail: Text, close: Unit, rest: Text)
    requires Closing(tail, close, rest)
    ensures Ends(tail)
  {
  }

  lemma CommaEnds(sep: Text, more: Text)
    requires sep != [] && sep[0] == COMMA
    ensures Ends(sep + more)
  {
  }

  lemma {:induction false} ItemRoundTrip(items: seq<Value>, gap: Text, indent: Text, rest: Text)
    requires items != [] && AllBlank(gap) && AllBlank(indent) && Ends(rest)
    ensures ParseValue(ItemTexts(items, gap, indent)[0] + rest) == Some(Read(Meant(items[0]), rest))
    decreases items, 0
  {
    hide AllBlank, Ends, ParseValue;
    if items[0] == Absent {
      WordRoundTrip(Absent, rest);
    } else {
      ValueRoundTrip(items[0], gap, indent, rest);
    }
  }

  lemma {:induction false} MembersRoundTrip(members: seq<Member>, gap: Text, indent: Text, w: Text, tail: Text,
          rest: Text)
    requires MemberTexts(members, gap, indent) != []
    requires AllBlank(gap) && AllBlank(indent) && AllBlank(w) && Closing(tail, END, rest)
    ensures var t := Join(MemberTexts(members, gap, indent), [COMMA] + w) + tail;
      t != [] && t[0] == QUOTE && ParseMembers(t) == Some(Read(MeantMembers(members), rest))
    decreases members, 1
  {
    hide Closing, AllBlank, Ends, ParseMembers, ParseMember, ParseValue, Join, MemberText, Meant;
    var texts, sep, later := MemberTexts(members, gap, indent), [COMMA] + w, MemberTexts(members[1..], gap, indent);
    if members[0].value == Absent {
      assert texts == later;
      MembersRoundTrip(members[1..], gap, indent, w, tail, rest);
      assert MeantMembers(members) == MeantMembers(members[1..]);
    } else {
      var x, m := MemberText(members[0], gap, indent), JMember(members[0].key, Meant(members[0].value));
      assert texts[0] == x && texts[1..] == later;
      JoinCons(texts, sep, tail);
      if later == [] {
        ClosingEnds(tail, END, rest);
        MemberRoundTrip(members, gap, indent, tail);
        LastMember(x, m, tail, rest);
        NoMembers(members[1..], gap, indent);
        assert MeantMembers(members) == [m];
      } else {
        var more := Join(later, sep) + tail;
        MembersRoundTrip(members[1..], gap, indent, w, tail, rest);
        CommaEnds(sep, more);
        MemberRoundTrip(members, gap, indent, sep + more);
        MoreMembers(x, m, w, more, MeantMembers(members[1..]), rest);
        assert MeantMembers(members) == [m] + MeantMembers(members[1..]);
      }
    }
  }

  lemma {:induction false} NoMembers(members: seq<Member>, gap: Text, indent: Text)
    ensures MemberTexts(members, gap, indent) == [] <==> MeantMembers(members) == []
    decreases members
  {
    if members != [] {
      NoMembers(members[1..], gap, indent);
    }
  }

  lemma {:induction false} MemberRoundTrip(members: seq<Member>, gap: Text, indent: Text, rest: Text)
    requires members != [] && members[0].value != Absent && AllBlank(gap) && AllBlank(indent) && Ends(rest)
    ensures var t := MemberText(members[0], gap, indent) + rest;
      t != [] && t[0] == QUOTE
      && ParseMember(t) == Some(Read(JMember(members[0].key, Meant(members[0].value)), rest))
    decreases members, 0
  {
    hide AllBlank, Ends, ParseMember, ParseValue, Quote, Printed, Meant;
    var m := members[0];
    ValueRoundTrip(m.value, gap, indent, rest);
    PrintedStarts(m.value, gap, indent);
    MemberRead(m.key, gap != [], Printed(m.value, gap, indent), Meant(m.value), rest);
  }

  lemma {:induction false} ArrayRoundTrip(items: seq<Value>, gap: Text, indent: Text, rest: Text)
    requires items != [] && AllBlank(gap) && AllBlank(indent) && Ends(rest)
    ensures ParseValue(Block(OPEN, ItemTexts(items, gap + indent, indent), gap + indent, gap, CLOSE) + rest)
         == Some(Read(JArray(MeantItems(items)), rest))
    decreases items, 2
  {
    hide Closing, AllBlank, Ends, ParseElements, ParseValue, Join, Block, After, Before;
    var g := gap + indent;
    var texts, w, b := ItemTexts(items, g, indent), After(g), Before(g, gap);
    var tail := b + ([CLOSE] + rest);
    var inner := Join(texts, [COMMA] + w) + tail;
    BlankParts(gap, indent);
    ClosingTail(b, CLOSE, rest);
    BlockForm(OPEN, texts, g, gap, CLOSE, rest);
    ItemsRoundTrip(items, g, indent, w, tail, rest);
    ItemsStart(items, g, indent, [COMMA] + w, tail);
    ArrayForm(OPEN, w, inner);
    ArrayValue([OPEN] + (w + inner), inner, MeantItems(items), rest);
  }

  lemma {:induction false} ObjectRoundTrip(members: seq<Member>, gap: Text, indent: Text, rest: Text)
    requires MemberTexts(members, gap + indent, indent) != [] && AllBlank(gap) && AllBlank(indent) && Ends(rest)
    ensures ParseValue(Block(BEGIN, MemberTexts(members, gap + indent, indent), gap + indent, gap, END) + rest)
         == Some(Read(JObject(MeantMembers(members)), rest))
    decreases members, 2
  {
    hide Closing, AllBlank, Ends, ParseMembers, ParseValue, Join, Block, After, Before;
    var g := gap + indent;
    var texts, w, b := MemberTexts(members, g, indent), After(g), Before(g, gap);
    var tail := b + ([END] + rest);
    var inner := Join(texts, [COMMA] + w) + tail;
    BlankParts(gap, indent);
    ClosingTail(b, END, rest);
    BlockForm(BEGIN, texts, g, gap, END, rest);
    MembersRoundTrip(members, g, indent, w, tail, rest);
    ArrayForm(BEGIN, w, inner);
    ObjectValue([BEGIN] + (w + inner), inner, MeantMembers(members), rest);
  }

  /** A printed value is read back, whatever number-ending text follows. */
  lemma {:induction false} ValueRoundTrip(v: Value, gap: Text, indent: Text, rest: Text)
    requires v != Absent && AllBlank(gap) && AllBlank(indent) && Ends(rest)
    ensures ParseValue(Printed(v, gap, indent) + rest) == Some(Read(Meant(v), rest))
    decreases v
  {
    hide AllBlank, Ends, ParseValue, Quote, NumeralText, MeantNumber, Block;
    match v
    case Null => WordRoundTrip(v, rest);
    case NonFinite => WordRoundTrip(v, rest);
    case Bool(b) => WordRoundTrip(v, rest);
    case Number(d) => NumberValue(d, rest);
    case String(s) => StringValue(s, rest);
    case Array(items) =>
      EmptyForm(gap, indent);
      if items == [] {
        EmptyBlock(rest);
      } else {
        ArrayRoundTrip(items, gap, indent, rest);
      }
    case Object(members) =>
      EmptyForm(gap, indent);
      NoMembers(members, gap + indent, indent);
      if MemberTexts(members, gap + indent, indent) == [] {
        EmptyBlock(rest);
      } else {
        ObjectRoundTrip(members, gap, indent, rest);
      }
  }

  lemma EmptyForm(gap: Text, indent: Text)
    ensures Block(OPEN, [], gap + indent, gap, CLOSE) == [OPEN, CLOSE]
    ensures Block(BEGIN, [], gap + indent, gap, END) == [BEGIN, END]
  {
  }

  /** Every value is read back from its text, for every indentation made of blanks. */
  lemma RoundTrip(v: Value, indent: Text)
    requires v != Absent && AllBlank(indent)
    ensures Parse(Printed(v, [], indent)) == Some(Meant(v))
  {
    hide Printed, ParseValue, Meant;
    var t := Printed(v, [], indent);
    ValueRoundTrip(v, [], indent, []);
    PrintedStarts(v, [], indent);
    assert t + [] == t && Skip(t) == t;
  }

  // ---------- other indentations ----------

  /** The number of characters that are not blank. */
  function Ink(t: Text): nat {
    if t == [] then 0 else (if Blank(t[0]) then 0 else 1) + Ink(t[1..])
  }

  lemma {:induction false} InkConcat(a: Text, b: Text)
    ensures Ink(a + b) == Ink(a) + Ink(b)
  {
    if a == [] {
      assert a + b == b;
    } else {
      assert (a + b)[1..] == a[1..] + b;
      InkConcat(a[1..], b);
    }
  }

  lemma {:induction false} InkOfSkip(t: Text)
    ensures Ink(Skip(t)) == Ink(t)
  {
    if t != [] && Blank(t[0]) {
      InkOfSkip(t[1..]);
    }
  }

  lemma {:induction false} InkOfBlank(t: Text)
    ensures Ink(t) == 0 <==> AllBlank(t)
  {
    if t != [] {
      InkOfBlank(t[1..]);
      assert forall i :: 0 <= i < |t| - 1 ==> t[1..][i] == t[i + 1];
      assert AllBlank(t[1..]) && Blank(t[0]) ==> forall i :: 0 <= i < |t| ==> i == 0 || t[i] == t[1..][i - 1];
    }
  }

  lemma InkOfWord(t: Text)
    requires StartsWith(t, NULL)
    ensures Ink(t) == 4 + Ink(t[4..])
  {
    assert t == NULL + t[4..];
    InkConcat(NULL, t[4..]);
    InkConcat([110, 117], [108, 108]);
    InkConcat([110], [117]);
    InkConcat([108], [108]);
    assert [110] + [117] == [110, 117] && [108] + [108] == [108, 108];
    assert [110, 117] + [108, 108] == NULL;
  }

  lemma NullRead(t: Text, rest: Text)
    requires ParseValue(t) == Some(Read(JNull, rest))
    ensures Ink(t) == 4 + Ink(rest)
  {
    InkOfWord(t);
  }

  lemma ElementsOfNull(t: Text, rest: Text)
    requires ParseElements(t) == Some(Read([JNull], rest))
    ensures Ink(t) == 5 + Ink(rest)
  {
    var r := ParseValue(t).value;
    var u := Skip(r.rest);
    assert u[0] == CLOSE && u[1..] == rest;
    hide ParseElements, ParseValue;
    NullRead(t, r.rest);
    InkOfSkip(r.rest);
  }

  /** A text that is read as `[null]` has these six characters and blanks. */
  lemma ArrayOfNull(t: Text)
    requires Parse(t) == Some(JArray([JNull]))
    ensures Ink(t) == 6
  {
    var u := Skip(t);
    var rest := ParseValue(u).value.rest;
    var w := Skip(u[1..]);
    assert u[0] == OPEN && ParseElements(w) == Some(Read([JNull], rest));
    hide ParseElements, ParseValue;
    InkOfSkip(t);
    InkOfSkip(u[1..]);
    ElementsOfNull(w, rest);
    InkOfSkip(rest);
  }

  lemma TextOfNullArray(indent: Text)
    requires indent != []
    ensures Printed(Array([Null]), [], indent) == ([OPEN, LF] + indent) + (NULL + ([LF] + [CLOSE]))
  {
    assert [] + indent == indent;
    assert ItemTexts([Null], indent, indent) == [NULL];
    assert Join([NULL], [COMMA, LF] + indent) == NULL;
  }

  lemma InkOfNullArray(indent: Text)
    ensures Ink(([OPEN, LF] + indent) + (NULL + ([LF] + [CLOSE]))) == 6 + Ink(indent)
  {
    InkConcat([OPEN, LF] + indent, NULL + ([LF] + [CLOSE]));
    InkConcat([OPEN, LF], indent);
    InkConcat(NULL, [LF] + [CLOSE]);
    InkConcat([LF], [CLOSE]);
    InkConcat([OPEN], [LF]);
    assert [OPEN] + [LF] == [OPEN, LF];
    InkOfWord(NULL);
  }

  /** With any other character in the indentation the text of `[null]` is not read as `[null]`. */
  lemma IndentMustBeBlank(indent: Text)
    requires !AllBlank(indent)
    ensures Parse(Printed(Array([Null]), [], indent)) != Some(Meant(Array([Null])))
  {
    assert Meant(Array([Null])) == JArray([JNull]);
    hide Printed, Parse, Ink;
    TextOfNullArray(indent);
    InkOfNullArray(indent);
    InkOfBlank(indent);
    if Parse(Printed(Array([Null]), [], indent)) == Some(JArray([JNull])) {
      ArrayOfNull(Printed(Array([Null]), [], indent));
    }
  }

  /** Printing and reading is lossless for every value exactly if the indentation is made of blanks. */
  lemma LosslessExactly(indent: Text)
    ensures AllBlank(indent) <==>
      forall v: Value {:trigger Printed(v, [], indent)} :: v != Absent ==>
            Parse(Printed(v, [], indent)) == Some(Meant(v))
  {
    hide Printed, Parse, Meant;
    if AllBlank(indent) {
      forall v: Value | v != Absent ensures Parse(Printed(v, [], indent)) == Some(Meant(v)) {
        RoundTrip(v, indent);
      }
    } else {
      IndentMustBeBlank(indent);
    }
  }
}
