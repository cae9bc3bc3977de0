/** `str` and `stringify`: the printer with its shared indentation. */
module JsonPrinter {
  import opened Wrappers
  import opened JsonText

  class Printer {
    var gap: Text
    var indent: Text

    constructor ()
      ensures gap == [] && indent == []
    {
      gap, indent := [], [];
    }

    /** The text of a value, none for an absent one; the gap is as before. */
    method Str(value: Value) returns (v: Option<Text>)
      modifies this
      ensures v == if value == Absent then None else Some(Printed(value, old(gap), indent))
      ensures gap == old(gap) && indent == old(indent)
      decreases value
    {
      var mind := gap;
      match value
      case Absent => v := None;
      case Null => v := Some(NULL);
      case NonFinite => v := Some(NULL);
      case Bool(b) => v := Some(if b then TRUE else FALSE);
      case Number(d) => v := Some(NumeralText(d));
      case String(s) => v := Some(Quote(s));
      case Array(items) =>
        gap := gap + indent;
        var partial := StrItems(items);
        v := Some(Block(OPEN, partial, gap, mind, CLOSE));
        gap := mind;
      case Object(members) =>
        gap := gap + indent;
        var partial := StrMembers(members);
        v := Some(Block(BEGIN, partial, gap, mind, END));
        gap := mind;
    }

    /** The texts of the items of an array. */
    method StrItems(items: seq<Value>) returns (partial: seq<Text>)
      modifies this
      ensures partial == ItemTexts(items, old(gap), indent)
      ensures gap == old(gap) && indent == old(indent)
      decreases items
    {
      hide ItemTexts;
      partial := [];
      var i := 0;
      while i < |items|
        invariant 0 <= i <= |items| && gap == old(gap) && indent == old(indent)
        invariant partial + ItemTexts(items[i..], gap, indent) == ItemTexts(items, gap, indent)
      {
        var v := Str(items[i]);
        NextItem(items[i..], gap, indent, partial);
        assert items[i..][1..] == items[i + 1..];
        partial := partial + [if v.Some? then v.value else NULL];
        i := i + 1;
      }
    }

    /** The texts of the members of an object. */
    method StrMembers(members: seq<Member>) returns (partial: seq<Text>)
      modifies this
      ensures partial == MemberTexts(members, old(gap), indent)
      ensures gap == old(gap) && indent == old(indent)
      decreases members
    {
      hide MemberTexts;
      partial := [];
      var i := 0;
      while i < |members|
        invariant 0 <= i <= |members| && gap == old(gap) && indent == old(indent)
        invariant partial + MemberTexts(members[i..], gap, indent) == MemberTexts(members, gap, indent)
      {
        var v := Str(members[i].value);
        ghost var done := partial;
        if v.Some? {
          partial := partial + [Quote(members[i].key) + (if gap != [] then [COLON, SPACE] else [COLON]) + v.value];
        }
        NextMember(members[i..], gap, indent, done, partial);
        assert members[i..][1..] == members[i + 1..];
        i := i + 1;
      }
      NoMember(gap, indent);
    }

    /** `stringify` with an indentation given as a text. */
    method Stringify(value: Value, space: Text) returns (v: Option<Text>)
      modifies this
      ensures v == if value == Absent then None else Some(Printed(value, [], space))
    {
      gap := [];
      indent := space;
      v := Str(value);
    }

    /** `stringify` with an indentation given as a number of spaces. */
    method StringifySpaces(value: Value, space: int) returns (v: Option<Text>)
      modifies this
      ensures v == if value == Absent then None
          else Some(Printed(value, [], seq(if space < 0 then 0 else space, i => SPACE)))
    {
      gap := [];
      indent := [];
      var i := 0;
      while i < space
        invariant 0 <= i && (i <= space || i == 0) && indent == seq(i, k => SPACE) && gap == []
      {
        indent := indent + [SPACE];
        i := i + 1;
      }
      v := Str(value);
    }
  }

  lemma NextItem(items: seq<Value>, gap: Text, indent: Text, done: seq<Text>)
    requires items != []
    ensures done + ItemTexts(items, gap, indent)
         == (done + [if items[0] == Absent then NULL else Printed(items[0], gap, indent)]) + ItemTexts(items[1..], gap,
           indent)
  {
    hide Printed;
  }

  /** The text of the first member, if it has one, joins those that are done. */
  lemma NextMember(members: seq<Member>, gap: Text, indent: Text, done: seq<Text>, partial: seq<Text>)
    requires members != []
    requires partial == done + if members[0].value == Absent then [] else [MemberText(members[0], gap, indent)]
    ensures partial + MemberTexts(members[1..], gap, indent) == done + MemberTexts(members, gap, indent)
  {
    hide MemberText;
  }

  lemma NoMember(gap: Text, indent: Text)
    ensures MemberTexts([], gap, indent) == []
  {
  }
}
