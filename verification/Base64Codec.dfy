/** The loops of the base64 encoder and of the two decoders. */
module Base64Codec {
  import opened Base64

  /** Four symbols are stored. */
  method Store4(out: array<bv8>, k: nat, w: bv8, x: bv8, y: bv8, z: bv8)
    requires k + 4 <= out.Length
    modifies out
    ensures out[..k + 4] == old(out[..k]) + [w, x, y, z]
    ensures forall q {:trigger out[q]} :: k + 4 <= q < out.Length ==> out[q] == old(out[q])
  {
    out[k] := w;
    out[k + 1] := x;
    out[k + 2] := y;
    out[k + 3] := z;
  }

  lemma Longer(s: seq<bv8>, i: nat, n: nat)
    requires i + n <= |s| && i % 3 == 0
    ensures Encoded(s[..i + n]) == Encoded(s[..i]) + Encoded(s[i..i + n])
  {
    assert s[..i + n] == s[..i] + s[i..i + n];
    EncodedConcat(s[..i], s[i..i + n]);
  }

  lemma OneTriple(s: seq<bv8>, i: nat)
    requires i + 3 <= |s|
    ensures Encoded(s[i..i + 3]) == Quad(s[i], s[i + 1], s[i + 2])
  {
    var t := s[i..i + 3];
    assert t[3..] == [];
    assert Encoded(t) == Quad(t[0], t[1], t[2]) + Encoded(t[3..]);
  }

  lemma LastOctets(s: seq<bv8>, i: nat)
    requires i <= |s| <= i + 2
    ensures |s| == i ==> Encoded(s[i..]) == []
    ensures |s| == i + 1 ==> Encoded(s[i..]) == [Sym(First(s[i])), Sym(Second(s[i], 0)), PAD, PAD]
    ensures |s| == i + 2 ==>
          Encoded(s[i..]) == [Sym(First(s[i])), Sym(Second(s[i], s[i + 1])), Sym(Third(s[i + 1], 0)), PAD]
  {
  }

  /** Encodes `inputLen` octets; the text is ended by a 0. The buffer has at least `outLen` bytes, and one more where
      `outLen` is exactly the length of the text, since the check leaves out the 0. */
  method Encode(out: array<bv8>, outLen: int, inp: array<bv8>, inputLen: int) returns (r: int)
    requires inputLen <= inp.Length && out != inp
    requires if inputLen <= 0 then 1 <= out.Length
             else outLen <= out.Length && (outLen == Needed(inputLen) ==> outLen < out.Length)
    modifies out
    ensures inputLen <= 0 ==> r == 0 && out[0] == 0 && out[1..] == old(out[1..])
    ensures inputLen > 0 && outLen < Needed(inputLen) ==> r == -1 && out[..] == old(out[..])
    ensures inputLen > 0 && outLen >= Needed(inputLen) ==>
      r == Needed(inputLen) && out[..r] == Encoded(inp[..inputLen]) && out[r] == 0 && out[r + 1..] == old(out[r + 1..])
    ensures inputLen > 0 && outLen >= Needed(inputLen) ==>
      (outLen > Needed(inputLen) || old(out[outLen]) == 0 <==> out[outLen..] == old(out[outLen..]))
  {
    if inputLen <= 0 {
      out[0] := 0;
      return 0;
    }
    if outLen < Needed(inputLen) {
      return -1;
    }
    ghost var before := out[..];
    r := EncodeAll(out, inp, inputLen);
    BehindText(before, out[..], r, outLen);
  }

  /** Nothing is written behind the final 0. */
  lemma BehindText(before: seq<bv8>, after: seq<bv8>, r: nat, outLen: nat)
    requires |before| == |after| && r <= outLen <= |after| && r < |after| && after[r] == 0
    requires forall q {:trigger after[q]} :: r < q < |after| ==> after[q] == before[q]
    ensures after[r + 1..] == before[r + 1..]
    ensures outLen > r || before[outLen] == 0 <==> after[outLen..] == before[outLen..]
  {
    if outLen == r {
      assert after[outLen..][0] == 0 && before[outLen..][0] == before[outLen];
    }
  }

  method EncodeAll(out: array<bv8>, inp: array<bv8>, inputLen: nat) returns (k: nat)
    requires 0 < inputLen <= inp.Length && Needed(inputLen) < out.Length && out != inp
    modifies out
    ensures k == Needed(inputLen) && out[..k] == Encoded(inp[..inputLen]) && out[k] == 0
    ensures forall q {:trigger out[q]} :: k < q < out.Length ==> out[q] == old(out[q])
  {
    hide Encoded, Sym, First, Second, Third, Fourth;
    ghost var s := inp[..inputLen];
    var i := 0;
    k := 0;
    LastOctets([], 0);
    assert s[..0] == [] && [][0..] == s[..0];
    while inputLen - i >= 3
      invariant 0 <= i <= inputLen && i % 3 == 0 && k == i / 3 * 4
      invariant out[..k] == Encoded(s[..i])
      invariant forall q {:trigger out[q]} :: k <= q < out.Length ==> out[q] == old(out[q])
    {
      Longer(s, i, 3);
      OneTriple(s, i);
      Store4(out, k, Sym(First(inp[i])), Sym(Second(inp[i], inp[i + 1])),
             Sym(Third(inp[i + 1], inp[i + 2])), Sym(Fourth(inp[i + 2])));
      i, k := i + 3, k + 4;
    }
    assert s[..inputLen] == s && s[i..] == inp[i..inputLen];
    Longer(s, i, inputLen - i);
    k := EncodeTail(out, k, inp, i, inputLen);
    out[k] := 0;
  }

  /** The last one or two octets. */
  method EncodeTail(out: array<bv8>, k: nat, inp: array<bv8>, i: nat, inputLen: nat) returns (k': nat)
    requires i <= inputLen <= i + 2 && inputLen <= inp.Length && out != inp
    requires k + (if i < inputLen then 4 else 0) <= out.Length
    modifies out
    ensures k' == k + if i < inputLen then 4 else 0
    ensures out[..k'] == old(out[..k]) + Encoded(inp[i..inputLen])
    ensures forall q {:trigger out[q]} :: k' <= q < out.Length ==> out[q] == old(out[q])
  {
    hide Encoded, Sym, First, Second, Third, Fourth;
    ghost var s := inp[..inputLen];
    LastOctets(s, i);
    assert s[i..] == inp[i..inputLen];
    k' := k;
    if inputLen - i == 1 {
      Store4(out, k, Sym(First(inp[i])), Sym(Second(inp[i], 0)), PAD, PAD);
      k' := k + 4;
    } else if inputLen - i == 2 {
      Store4(out, k, Sym(First(inp[i])), Sym(Second(inp[i], inp[i + 1])), Sym(Third(inp[i + 1], 0)), PAD);
      k' := k + 4;
    }
  }

  // ---------- the first decoder ----------

  function Push(x: bv32, v: bv8): bv32 {
    (x << 6) | (v as bv32)
  }

  function Low(x: bv32): bv8 {
    (x & 0xff) as bv8
  }

  /** Bytes of the accumulator, lowest first, and of the accumulator shifted right when the last group is incomplete. */
  function Byte0(x: bv32): bv8 { Low(x) }
  function Byte1(x: bv32): bv8 { Low(x >> 8) }
  function Byte2(x: bv32): bv8 { Low(x >> 16) }
  function Two1(x: bv32): bv8 { Low((x >> 2) >> 8) }
  function Two0(x: bv32): bv8 { Low(x >> 2) }
  function One0(x: bv32): bv8 { Low(x >> 4) }

  /** What the accumulator holds after four, three or two values. */
  lemma Acc4Octet0(u: bv8, v: bv8, w: bv8, x: bv8)
    requires u < 64 && v < 64 && w < 64 && x < 64
    ensures Byte2(Push(Push(Push(Push(0, u), v), w), x)) == Octet0(u, v)
  {
  }

  lemma Acc4Octet1(u: bv8, v: bv8, w: bv8, x: bv8)
    requires u < 64 && v < 64 && w < 64 && x < 64
    ensures Byte1(Push(Push(Push(Push(0, u), v), w), x)) == Octet1(v, w)
  {
  }

  lemma Acc4Octet2(u: bv8, v: bv8, w: bv8, x: bv8)
    requires u < 64 && v < 64 && w < 64 && x < 64
    ensures Byte0(Push(Push(Push(Push(0, u), v), w), x)) == Octet2(w, x)
  {
  }

  lemma Acc3Octet0(u: bv8, v: bv8, w: bv8)
    requires u < 64 && v < 64 && w < 64
    ensures Two1(Push(Push(Push(0, u), v), w)) == Octet0(u, v)
  {
  }

  lemma Acc3Octet1(u: bv8, v: bv8, w: bv8)
    requires u < 64 && v < 64 && w < 64
    ensures Two0(Push(Push(Push(0, u), v), w)) == Octet1(v, w)
  {
  }

  lemma Acc2Octet0(u: bv8, v: bv8)
    requires u < 64 && v < 64
    ensures One0(Push(Push(0, u), v)) == Octet0(u, v)
  {
  }

  /** The accumulator after the values of an incomplete group. */
  function Acc(vs: seq<bv8>): bv32
    requires |vs| <= 3
  {
    if |vs| == 0 then 0
    else if |vs| == 1 then Push(0, vs[0])
    else if |vs| == 2 then Push(Push(0, vs[0]), vs[1])
    else Push(Push(Push(0, vs[0]), vs[1]), vs[2])
  }

  /** `full` are the values of complete groups and `pending` those of the group in the accumulator. */
  ghost predicate Reading(vs: seq<bv8>, full: seq<bv8>, pending: seq<bv8>, stored: seq<bv8>) {
    && vs == full + pending && |full| % 4 == 0 && |pending| <= 3
    && (forall i {:trigger pending[i]} :: 0 <= i < |pending| ==> pending[i] < 64)
    && stored == Decoded(full)
  }

  lemma ReadingDone(vs: seq<bv8>, full: seq<bv8>, pending: seq<bv8>, stored: seq<bv8>)
    requires Reading(vs, full, pending, stored)
    ensures Decoded(vs) == stored + Decoded(pending)
    ensures |pending| == 3 ==> Decoded(pending) == [Two1(Acc(pending)), Two0(Acc(pending))]
    ensures |pending| == 2 ==> Decoded(pending) == [One0(Acc(pending))]
    ensures |pending| <= 1 ==> Decoded(pending) == []
  {
    DecodedConcat(full, pending);
    hide Push, Two0, Two1, One0, Octet0, Octet1;
    if |pending| == 3 {
      Acc3Octet0(pending[0], pending[1], pending[2]);
      Acc3Octet1(pending[0], pending[1], pending[2]);
    } else if |pending| == 2 {
      Acc2Octet0(pending[0], pending[1]);
    }
  }

  lemma ReadOne(vs: seq<bv8>, full: seq<bv8>, pending: seq<bv8>, stored: seq<bv8>, v: bv8)
    requires Reading(vs, full, pending, stored) && v < 64 && |pending| < 3
    ensures Reading(vs + [v], full, pending + [v], stored) && Acc(pending + [v]) == Push(Acc(pending), v)
  {
    hide Push;
  }

  lemma ReadFourth(vs: seq<bv8>, full: seq<bv8>, pending: seq<bv8>, stored: seq<bv8>, v: bv8)
    requires Reading(vs, full, pending, stored) && v < 64 && |pending| == 3
    ensures var acc := Push(Acc(pending), v);
      Reading(vs + [v], full + pending + [v], [], stored + [Byte2(acc), Byte1(acc), Byte0(acc)])
  {
    hide Push, Byte0, Byte1, Byte2, Octet0, Octet1, Octet2, Decoded;
    var u, w, x := pending[0], pending[1], pending[2];
    Acc4Octet0(u, w, x, v);
    Acc4Octet1(u, w, x, v);
    Acc4Octet2(u, w, x, v);
    DecodedOne(u, w, x, v);
    DecodedConcat(full, [u, w, x, v]);
    assert full + [u, w, x, v] == full + pending + [v];
    assert full + pending + [v] + [] == full + pending + [v];
  }

  lemma DecodedOne(u: bv8, v: bv8, w: bv8, x: bv8)
    ensures Decoded([u, v, w, x]) == [Octet0(u, v), Octet1(v, w), Octet2(w, x)]
  {
    assert [u, v, w, x][4..] == [];
  }

  /** The text of a string that a 0 ends. */
  ghost function TextOf(src: seq<bv8>): (t: seq<bv8>)
    requires 0 in src
    ensures |t| < |src| && t == src[..|t|] && src[|t|] == 0 && 0 !in t
  {
    if src[0] == 0 then [] else [src[0]] + TextOf(src[1..])
  }

  lemma ValuesNext(text: seq<bv8>, cur: nat)
    requires cur < |text|
    ensures Value(text[cur]) == 255 ==> Values(text[..cur + 1]) == Values(text[..cur])
    ensures Value(text[cur]) != 255 ==> Values(text[..cur + 1]) == Values(text[..cur]) + [Value(text[cur])]
  {
    assert text[..cur + 1][..cur] == text[..cur];
  }

  /** What is stored so far fits. */
  lemma Fits(text: seq<bv8>, cur: nat)
    requires cur <= |text|
    ensures |Decoded(Values(text[..cur]))| <= |Decoded(Values(text))|
  {
    assert text == text[..cur] + text[cur..];
    ValuesConcat(text[..cur], text[cur..]);
    DecodedLength(Values(text[..cur]));
    DecodedLength(Values(text));
  }

  lemma NothingRead(stored: seq<bv8>)
    requires stored == []
    ensures Reading([], [], [], stored) && Acc([]) == 0 && Values([]) == []
  {
  }

  /** The octets of a complete group are stored. */
  method Store3(out: array<bv8>, k: nat, acc: bv32)
    requires k + 3 <= out.Length
    modifies out
    ensures out[..k + 3] == old(out[..k]) + [Byte2(acc), Byte1(acc), Byte0(acc)]
  {
    hide Byte0, Byte1, Byte2;
    out[k] := Byte2(acc);
    out[k + 1] := Byte1(acc);
    out[k + 2] := Byte0(acc);
  }

  /** The octets of the last, incomplete group are stored, and a 0. */
  method StoreRest(out: array<bv8>, k: nat, ghost pending: seq<bv8>, space: int, byteBuffer: bv32) returns (n: nat)
    requires |pending| <= 3 && space == 4 - |pending| && byteBuffer == Acc(pending)
    requires k + |Decoded(pending)| < out.Length
    requires |pending| == 3 ==> Decoded(pending) == [Two1(byteBuffer), Two0(byteBuffer)]
    requires |pending| == 2 ==> Decoded(pending) == [One0(byteBuffer)]
    requires |pending| <= 1 ==> Decoded(pending) == []
    modifies out
    ensures n == |Decoded(pending)| && out[..k + n] == old(out[..k]) + Decoded(pending) && out[k + n] == 0
  {
    hide Two0, Two1, One0, Acc;
    n := 0;
    if space == 1 {
      out[k] := Two1(byteBuffer);
      out[k + 1] := Two0(byteBuffer);
      n := 2;
    } else if space == 2 {
      out[k] := One0(byteBuffer);
      n := 1;
    }
    if out[k + n] != 0 {
      out[k + n] := 0;
    }
  }

  /** The state of the decoder after the values `vs`. */
  ghost predicate Progress(vs: seq<bv8>, full: seq<bv8>, pending: seq<bv8>, out: seq<bv8>, groups: nat, space: int,
          byteBuffer: bv32) {
    && 3 * groups <= |out| && Reading(vs, full, pending, out[..3 * groups])
    && space == 4 - |pending| && byteBuffer == Acc(pending)
  }

  /** One more value. */
  method Take(out: array<bv8>, groups: nat, space: int, byteBuffer: bv32, tc: bv8,
        ghost vs: seq<bv8>, ghost full: seq<bv8>, ghost pending: seq<bv8>)
    returns (groups': nat, space': int, byteBuffer': bv32, ghost full': seq<bv8>, ghost pending': seq<bv8>)
    requires Progress(vs, full, pending, out[..], groups, space, byteBuffer) && tc < 64
    requires |Decoded(vs + [tc])| < out.Length
    modifies out
    ensures Progress(vs + [tc], full', pending', out[..], groups', space', byteBuffer')
  {
    hide Acc, Push, Byte0, Byte1, Byte2, Decoded, Reading;
    groups', space', byteBuffer' := groups, space - 1, Push(byteBuffer, tc);
    PendingShort(vs, full, pending, out[..3 * groups]);
    assert out[..][..3 * groups] == out[..3 * groups];
    if space' != 0 {
      ReadOne(vs, full, pending, out[..3 * groups], tc);
      full', pending' := full, pending + [tc];
    } else {
      ReadFourth(vs, full, pending, out[..3 * groups], tc);
      full', pending' := full + pending + [tc], [];
      StoredFits(vs + [tc], full', out[..3 * groups], byteBuffer');
      Store3(out, 3 * groups, byteBuffer');
      groups', space', byteBuffer' := groups + 1, 4, 0;
      assert out[..][..3 * groups'] == out[..3 * groups'];
    }
  }

  lemma PendingShort(vs: seq<bv8>, full: seq<bv8>, pending: seq<bv8>, stored: seq<bv8>)
    requires Reading(vs, full, pending, stored)
    ensures |pending| <= 3
  {
  }

  lemma NoProgress(out: seq<bv8>)
    ensures Progress(Values([]), [], [], out, 0, 4, 0)
  {
    NothingRead(out[..0]);
  }

  method DecodeAll(out: array<bv8>, src: array<bv8>) returns (r: nat)
    requires 0 in src[..] && |Decoded(Values(TextOf(src[..])))| < out.Length && out != src
    modifies out
    ensures r == |Decoded(Values(TextOf(src[..])))| && out[..r] == Decoded(Values(TextOf(src[..]))) && out[r] == 0
  {
    hide Progress, Decoded, Values, Value, TextOf;
    ghost var text := TextOf(src[..]);
    ghost var full: seq<bv8>, pending: seq<bv8> := [], [];
    var cur, groups, space, byteBuffer: bv32 := 0, 0, 4, 0;
    NoProgress(out[..]);
    assert text[..0] == [];
    while src[cur] != 0
      invariant 0 <= cur <= |text| && 0 <= groups
      invariant Progress(Values(text[..cur]), full, pending, out[..], groups, space, byteBuffer)
      decreases |text| - cur
    {
      var tc := Value(src[cur]);
      assert src[cur] == text[cur];
      ValuesNext(text, cur);
      ValueRange(src[cur]);
      Fits(text, cur + 1);
      if tc != 255 {
        groups, space, byteBuffer, full, pending := Take(out, groups, space, byteBuffer, tc, Values(text[..cur]), full,
          pending);
      }
      cur := cur + 1;
    }
    assert text[..cur] == text;
    Finish(Values(text), full, pending, out[..], groups, space, byteBuffer);
    assert out[..][..3 * groups] == out[..3 * groups];
    var n := StoreRest(out, 3 * groups, pending, space, byteBuffer);
    r := 3 * groups + n;
  }

  lemma Finish(vs: seq<bv8>, full: seq<bv8>, pending: seq<bv8>, out: seq<bv8>, groups: nat, space: int,
          byteBuffer: bv32)
    requires Progress(vs, full, pending, out, groups, space, byteBuffer)
    ensures 3 * groups <= |out| && |pending| <= 3 && space == 4 - |pending| && byteBuffer == Acc(pending)
    ensures Decoded(vs) == out[..3 * groups] + Decoded(pending)
    ensures |pending| == 3 ==> Decoded(pending) == [Two1(byteBuffer), Two0(byteBuffer)]
    ensures |pending| == 2 ==> Decoded(pending) == [One0(byteBuffer)]
    ensures |pending| <= 1 ==> Decoded(pending) == []
  {
    hide Acc, Two0, Two1, One0, Decoded;
    ReadingDone(vs, full, pending, out[..3 * groups]);
  }

  lemma StoredFits(vs: seq<bv8>, full: seq<bv8>, stored: seq<bv8>, acc: bv32)
    requires Reading(vs, full, [], stored + [Byte2(acc), Byte1(acc), Byte0(acc)])
    ensures |Decoded(vs)| == |stored| + 3 && Acc([]) == 0
  {
    hide Byte0, Byte1, Byte2;
    assert full + [] == full;
  }

  /** Decodes the text in `src`; `inLen` is what the caller says its length is.  It only serves to refuse a buffer
      that is too small. */
  method Decode(out: array<bv8>, outLen: int, src: array<bv8>, inLen: int) returns (r: int)
    requires 0 in src[..] && |Decoded(Values(TextOf(src[..])))| < out.Length && out != src
    modifies out
    ensures r == -1 <==> inLen > 0 && Room(inLen) > outLen
    ensures r != -1 ==> r == |Decoded(Values(TextOf(src[..])))| && out[..r] == Decoded(Values(TextOf(src[..])))
    ensures r > 0 ==> out[r] == 0
  {
    if inLen > 0 && Room(inLen) > outLen {
      return -1;
    }
    if src[0] == 0 {
      return 0;
    }
    r := DecodeAll(out, src);
  }

  // ---------- the second decoder ----------

  function One(b: bool): nat {
    if b then 1 else 0
  }

  /** Looks four characters up; the number of those that are no symbols. */
  method FindSextets(sextets: array<bv8>, inp: array<bv8>, at: nat) returns (j: nat)
    requires sextets.Length == 4 && at + 4 <= inp.Length && sextets != inp
    requires forall q {:trigger sextets[q]} :: 0 <= q < 4 ==> sextets[q] == 0
    modifies sextets
    ensures j == MissingIn(inp[at..at + 4])
    ensures forall q {:trigger sextets[q]} :: 0 <= q < 4 ==> sextets[q] == Sextet(inp[at + q])
  {
    hide Sextet, Missing;
    j := 0;
    var i := 0;
    while i < 4
      invariant 0 <= i <= 4
      invariant forall q {:trigger sextets[q]} :: 0 <= q < i ==> sextets[q] == Sextet(inp[at + q])
      invariant forall q {:trigger sextets[q]} :: i <= q < 4 ==> sextets[q] == 0
      invariant j == One(i > 0 && Missing(inp[at])) + One(i > 1 && Missing(inp[at + 1]))
                     + One(i > 2 && Missing(inp[at + 2])) + One(i > 3 && Missing(inp[at + 3]))
    {
      MissingSextet(inp[at + i]);
      if !Missing(inp[at + i]) {
        sextets[i] := Sextet(inp[at + i]);
      } else {
        j := j + 1;
      }
      i := i + 1;
    }
  }

  /** One block: the number of characters in it that are no symbols. */
  method BlockToOctets(out: array<bv8>, k: nat, inp: array<bv8>, at: nat) returns (j: nat)
    requires k + 3 <= out.Length && at + 4 <= inp.Length && out != inp
    modifies out
    ensures j == MissingIn(inp[at..at + 4])
    ensures var octets := BlockOctets(inp[at..at + 4]); out[..k + |octets|] == old(out[..k]) + octets
  {
    hide Octet0, Octet1, Octet2, Sextet, Missing, MissingIn;
    var sextets := new bv8[4](i => 0);
    j := FindSextets(sextets, inp, at);
    out[k] := Octet0(sextets[0], sextets[1]);
    if j < 2 {
      out[k + 1] := Octet1(sextets[1], sextets[2]);
    }
    if j < 1 {
      out[k + 2] := Octet2(sextets[2], sextets[3]);
    }
  }

  lemma MissingSextet(c: bv8)
    ensures Missing(c) ==> Sextet(c) == 0
  {
  }

  /** After the blocks before `i`, of which the last has `j` characters that are no symbols, `done` is decoded. */
  ghost predicate BlocksRead(text: seq<bv8>, done: seq<bv8>, i: nat, j: nat)
    requires |text| % 4 == 0
  {
    && i <= |text| && i % 4 == 0
    && (j > 0 ==> StrictDecoded(text) == Strict(done, j, i))
    && (j == 0 ==>
          var rest := StrictDecoded(text[i..]);
          |done| == i / 4 * 3 && StrictDecoded(text) == Strict(done + rest.octets, rest.pad, i + rest.read))
  }

  lemma NoBlocksRead(text: seq<bv8>)
    requires |text| % 4 == 0
    ensures BlocksRead(text, [], 0, 0)
  {
    assert text[0..] == text;
  }

  lemma BlockRead(text: seq<bv8>, done: seq<bv8>, i: nat)
    requires |text| % 4 == 0 && BlocksRead(text, done, i, 0) && i + 4 <= |text|
    ensures BlocksRead(text, done + BlockOctets(text[i..i + 4]), i + 4, MissingIn(text[i..i + 4]))
  {
    hide BlockOctets, MissingIn;
    var t := text[i..];
    assert t[..4] == text[i..i + 4] && t[4..] == text[i + 4..];
    ThreeOctets(t[..4]);
    var more := if MissingIn(t[..4]) > 0 then [] else StrictDecoded(t[4..]).octets;
    assert done + (BlockOctets(t[..4]) + more) == done + BlockOctets(t[..4]) + more;
    assert BlockOctets(t[..4]) + [] == BlockOctets(t[..4]);
  }

  lemma ThreeOctets(t: seq<bv8>)
    requires |t| == 4
    ensures MissingIn(t) == 0 ==> |BlockOctets(t)| == 3
  {
  }

  lemma AllBlocksRead(text: seq<bv8>, done: seq<bv8>, i: nat, j: nat)
    requires |text| % 4 == 0 && BlocksRead(text, done, i, j) && (j > 0 || i == |text|)
    ensures StrictDecoded(text) == Strict(done, j, i)
  {
    if j == 0 {
      assert text[i..] == [] && done + [] == done;
    }
  }

  /** Decodes blocks of four up to the first with a character that is no symbol: the number of characters read, and
      in `pad` how many were no symbols.  A text that is not made of blocks is refused. */
  method StringToOctets(out: array<bv8>, padBefore: int, inp: array<bv8>, len: int) returns (i: int, pad: int)
    requires len <= inp.Length && len / 4 * 3 <= out.Length && out != inp
    modifies out
    ensures len % 4 != 0 ==> i == 0 && pad == padBefore && out[..] == old(out[..])
    ensures len % 4 == 0 && len <= 0 ==> i == 0 && pad == 0
    ensures len % 4 == 0 && len > 0 ==>
      var d := StrictDecoded(inp[..len]);
      i == d.read && pad == d.pad && |d.octets| <= out.Length && out[..|d.octets|] == d.octets
  {
    hide StrictDecoded, BlockOctets, MissingIn, BlocksRead;
    i, pad := 0, padBefore;
    if len % 4 != 0 {
      return;
    }
    if len > 0 {
      i, pad := AllBlocks(out, inp, len);
    } else {
      pad := 0;
    }
  }

  method AllBlocks(out: array<bv8>, inp: array<bv8>, len: nat) returns (i: nat, j: nat)
    requires len % 4 == 0 && len <= inp.Length && len / 4 * 3 <= out.Length && out != inp
    modifies out
    ensures var d := StrictDecoded(inp[..len]);
      i == d.read && j == d.pad && |d.octets| <= out.Length && out[..|d.octets|] == d.octets
  {
    hide StrictDecoded, BlockOctets, MissingIn, BlocksRead;
    ghost var text := inp[..len];
    ghost var done: seq<bv8> := [];
    var k := 0;
    i, j := 0, 0;
    NoBlocksRead(text);
    while i < len && j == 0
      invariant i <= len && i % 4 == 0 && k == i / 4 * 3 && BlocksRead(text, done, i, j)
      invariant |done| <= out.Length && out[..|done|] == done && (j == 0 ==> |done| == k)
    {
      BlockRead(text, done, i);
      ThreeOctets(text[i..i + 4]);
      assert text[i..i + 4] == inp[i..i + 4];
      j := BlockToOctets(out, k, inp, i);
      done := done + BlockOctets(text[i..i + 4]);
      k := k + 3;
      i := i + 4;
    }
    AllBlocksRead(text, done, i, j);
  }

  // ---------- both together ----------

  lemma {:induction false} TextEnds(t: seq<bv8>, more: seq<bv8>)
    requires 0 !in t
    ensures 0 in t + [0] + more && TextOf(t + [0] + more) == t
  {
    assert (t + [0] + more)[|t|] == 0;
    if t != [] {
      assert (t + [0] + more)[1..] == t[1..] + [0] + more;
      TextEnds(t[1..], more);
    }
  }

  /** What the encoder has written into a buffer decodes to the octets it was given, in a buffer of at least the room
      asked for and one byte more, whichever decoder reads it. */
  method EncodeDecode(inp: array<bv8>, n: nat, text: array<bv8>, out: array<bv8>, strict: array<bv8>)
    returns (length: int, r: int, read: int, pad: int)
    requires n <= inp.Length && Needed(n) < text.Length && Room(Needed(n)) < out.Length
    requires Room(Needed(n)) <= strict.Length
    requires inp != text && text != out && text != strict && inp != out && inp != strict && out != strict
    modifies text, out, strict
    ensures length == Needed(n) && text[..length] == Encoded(inp[..n])
    ensures r == n && out[..n] == inp[..n]
    ensures read == length && (n > 0 ==> pad == Pads(n)) && strict[..n] == inp[..n]
  {
    hide Encoded, Decoded, Values, StrictDecoded, TextOf, Room, Needed;
    ghost var s := inp[..n];
    EncodedLength(s);
    RoundTrip(s);
    StrictRoundTrip(s);
    RoomOfEncoded(n);
    NoOctets();
    length := Encode(text, text.Length - 1, inp, n);
    assert text[..] == Encoded(s) + [0] + text[length + 1..];
    TextEnds(Encoded(s), text[length + 1..]);
    r := Decode(out, out.Length - 1, text, length);
    NeededBlocks(n);
    read, pad := StringToOctets(strict, 0, text, length);
  }

  lemma NoOctets()
    ensures Encoded([]) == [] && Needed(0) == 0 && Room(0) == 0
  {
  }

  lemma NeededBlocks(n: nat)
    ensures Needed(n) % 4 == 0 && Needed(n) / 4 * 3 == Room(Needed(n)) && (Needed(n) == 0 <==> n == 0)
  {
    RoomOfEncoded(n);
  }
}
