/** `trimDots`: "." and ".." are taken out of an array of path segments, in place. */
module TrimDots {

  /** Where a path leads from where it is followed: a number of directories up, then down through names. */
  datatype Place = Place(ups: nat, names: seq<string>)

  function Follow(p: Place, segment: string): Place {
    if segment == "." then p
    else if segment == ".." then
      if p.names == [] then Place(p.ups + 1, []) else Place(p.ups, p.names[..|p.names| - 1])
    else Place(p.ups, p.names + [segment])
  }

  function FollowAll(p: Place, path: seq<string>): Place
    decreases |path|
  {
    if path == [] then p else FollowAll(Follow(p, path[0]), path[1..])
  }

  /** What a path denotes.  An empty segment stops the search of `trimDots`; as a name it stands for itself. */
  function Denotes(path: seq<string>): Place {
    FollowAll(Place(0, []), path)
  }

  lemma {:induction false} FollowConcat(p: Place, a: seq<string>, b: seq<string>)
    ensures FollowAll(p, a + b) == FollowAll(FollowAll(p, a), b)
    decreases |a|
  {
    if a == [] {
      assert a + b == b;
    } else {
      assert (a + b)[1..] == a[1..] + b;
      FollowConcat(Follow(p, a[0]), a[1..], b);
    }
  }

  lemma DotDropped(ary: seq<string>, i: nat)
    requires i < |ary| && ary[i] == "."
    ensures Denotes(ary[..i] + ary[i + 1..]) == Denotes(ary)
  {
    assert ary == ary[..i] + ary[i..];
    assert ary[i..][1..] == ary[i + 1..];
    FollowConcat(Place(0, []), ary[..i], ary[i..]);
    FollowConcat(Place(0, []), ary[..i], ary[i + 1..]);
  }

  predicate IsName(s: string) {
    s != "." && s != ".."
  }

  /** A name and the ".." after it. */
  lemma PairDropped(ary: seq<string>, i: nat)
    requires 0 < i < |ary| && ary[i] == ".." && IsName(ary[i - 1])
    ensures Denotes(ary[..i - 1] + ary[i + 1..]) == Denotes(ary)
  {
    var p := FollowAll(Place(0, []), ary[..i - 1]);
    assert ary == ary[..i - 1] + ary[i - 1..];
    assert ary[i - 1..][1..] == ary[i..] && ary[i..][1..] == ary[i + 1..];
    FollowConcat(Place(0, []), ary[..i - 1], ary[i - 1..]);
    FollowConcat(Place(0, []), ary[..i - 1], ary[i + 1..]);
    assert (p.names + [ary[i - 1]])[..|p.names|] == p.names;
  }

  /** No "." is left, and ".." only in front. */
  ghost predicate Trimmed(path: seq<string>) {
    forall k {:trigger path[k]} :: 0 <= k < |path| ==> path[k] != "." && (path[k] == ".." ==> k == 0)
  }

  // ---------- how far the search gets ----------

  /** What one more segment makes of the segments in front of it. */
  function Push(done: seq<string>, segment: string): seq<string> {
    if segment == "." then done
    else if segment == ".." && done != [] then done[..|done| - 1]
    else done + [segment]
  }

  function Reduced(path: seq<string>): seq<string> {
    if path == [] then [] else Push(Reduced(path[..|path| - 1]), path[|path| - 1])
  }

  /** At segment `j` the search is given up: it is a "..", what is in front of it comes to one segment, and that one or
      the next one is a ".." too. */
  predicate StopsAt(path: seq<string>, j: int) {
    && 0 <= j < |path| && path[j] == ".." && |Reduced(path[..j])| == 1
    && (Reduced(path[..j])[0] == ".." || (j + 1 < |path| && path[j + 1] == ".."))
  }

  predicate EndsAt(path: seq<string>, j: int) {
    j == |path| || (0 <= j < |path| && path[j] == "") || StopsAt(path, j)
  }

  /** After `j` segments of `start` the search is at `i`: what it has passed is reduced, the rest is as it was. */
  ghost predicate Passed(start: seq<string>, j: int, path: seq<string>, i: int) {
    && 0 <= j <= |start| && 0 <= i <= |path|
    && path[..i] == Reduced(start[..j]) && path[i..] == start[j..]
    && (forall q {:trigger EndsAt(start, q)} :: 0 <= q < j ==> !EndsAt(start, q))
  }

  lemma NothingPassed(start: seq<string>)
    ensures Passed(start, 0, start, 0)
  {
    assert start[..0] == [] && start[0..] == start;
  }

  /** The tests of the loop are those of `EndsAt`. */
  lemma EndTest(start: seq<string>, j: int, path: seq<string>, i: int)
    requires Passed(start, j, path, i)
    ensures 0 <= j <= |start| && 0 <= i <= |path|
    ensures i == |path| <==> j == |start|
    ensures i < |path| ==> path[i] == start[j] && (i + 1 < |path| <==> j + 1 < |start|)
    ensures i + 1 < |path| ==> path[i + 1] == start[j + 1]
    ensures EndsAt(start, j) <==>
      || i == |path| || path[i] == ""
      || (i == 1 && path[1] == ".." && ((|path| > 2 && path[2] == "..") || path[0] == ".."))
  {
    hide Reduced;
    assert |path[i..]| == |start[j..]|;
    assert i < |path| ==> path[i..][0] == path[i] && start[j..][0] == start[j];
    assert i + 1 < |path| ==> path[i..][1] == path[i + 1] && start[j..][1] == start[j + 1];
    assert i == 1 ==> path[..1][0] == path[0];
    assert |path[..i]| == i;
  }

  lemma PassOne(start: seq<string>, j: int, path: seq<string>, i: int, path': seq<string>, i': int)
    requires Passed(start, j, path, i) && i < |path| && !EndsAt(start, j) && 0 <= i' <= |path'|
    requires path'[..i'] == Push(path[..i], path[i]) && path'[i'..] == path[i + 1..]
    ensures Passed(start, j + 1, path', i')
  {
    EndTest(start, j, path, i);
    hide EndsAt, Push;
    assert start[..j + 1][..j] == start[..j];
    assert path[i + 1..] == path[i..][1..] && start[j + 1..] == start[j..][1..];
  }

  /** The search has come to `i`: up to there the path is trimmed. */
  ghost predicate Searching(path: seq<string>, i: int) {
    0 <= i <= |path| && Trimmed(path[..i])
  }

  lemma NextSegment(path: seq<string>, i: nat)
    requires Searching(path, i) && i < |path| && path[i] != "." && (path[i] == ".." ==> i == 0)
    ensures Searching(path, i + 1)
  {
    assert path[..i + 1] == path[..i] + [path[i]];
  }

  lemma Shorter(path: seq<string>, i: nat, j: nat)
    requires Searching(path, i) && j <= i
    ensures Searching(path, j)
  {
    assert path[..j] == path[..i][..j];
  }

  lemma NothingSearched(ary: seq<string>)
    ensures Searching(ary, 0)
  {
  }

  lemma BeforeIsName(ary: seq<string>, i: nat)
    requires Searching(ary, i) && 0 < i < |ary| && !(i == 1 && ary[0] == "..")
    ensures IsName(ary[i - 1])
  {
    assert ary[..i][i - 1] == ary[i - 1];
  }

  lemma DotPassed(path: seq<string>, i: nat, path': seq<string>)
    requires i < |path| && path[i] == "." && path' == path[..i] + path[i + 1..]
    ensures path'[..i] == Push(path[..i], path[i]) && path'[i..] == path[i + 1..]
  {
  }

  lemma PairPassed(path: seq<string>, i: nat, path': seq<string>)
    requires 0 < i < |path| && path[i] == ".." && path' == path[..i - 1] + path[i + 1..]
    ensures path'[..i - 1] == Push(path[..i], path[i]) && path'[i - 1..] == path[i + 1..]
  {
    assert path[..i][..i - 1] == path[..i - 1];
  }

  lemma SegmentPassed(path: seq<string>, i: nat)
    requires i < |path| && path[i] != "." && (path[i] == ".." ==> i == 0)
    ensures path[..i + 1] == Push(path[..i], path[i])
  {
    assert path[..i + 1] == path[..i] + [path[i]];
  }

  lemma PassedBound(start: seq<string>, j: int, path: seq<string>, i: int)
    requires Passed(start, j, path, i)
    ensures path == Reduced(start[..j]) + start[j..] && i == |Reduced(start[..j])|
    ensures forall q {:trigger EndsAt(start, q)} :: 0 <= q < j ==> !EndsAt(start, q)
  {
    hide Reduced, EndsAt;
    assert path == path[..i] + path[i..];
  }

  /** All is trimmed exactly if the search came to the end. */
  lemma AllTrimmed(start: seq<string>, j: int, path: seq<string>, i: int)
    requires Passed(start, j, path, i) && Searching(path, i) && EndsAt(start, j)
    ensures "" !in start ==> (Trimmed(path) <==> forall q :: !StopsAt(start, q))
  {
    EndTest(start, j, path, i);
    if "" !in start {
      if j == |start| {
        assert path[..i] == path;
        forall q ensures !StopsAt(start, q) {
          assert 0 <= q < j ==> !EndsAt(start, q);
        }
      } else {
        assert start[j] in start;
        assert StopsAt(start, j);
        assert path[1] == "..";
      }
    }
  }

  /** Where the loop is: at `i` of the path, after `j` segments of what it started with. */
  ghost predicate At(start: seq<string>, j: int, path: seq<string>, i: int) {
    Searching(path, i) && Denotes(path) == Denotes(start) && |path| <= |start| && Passed(start, j, path, i)
  }

  lemma AtStart(start: seq<string>)
    ensures At(start, 0, start, 0)
    ensures start == [] || start[0] == "" ==> EndsAt(start, 0)
  {
    hide Passed;
    NothingSearched(start);
    NothingPassed(start);
  }

  lemma DropDot(start: seq<string>, j: int, path: seq<string>, i: int)
    requires At(start, j, path, i) && i < |path| && path[i] == "." && !EndsAt(start, j)
    ensures At(start, j + 1, path[..i] + path[i + 1..], i)
  {
    hide Denotes, Passed, EndsAt, Push;
    var path' := path[..i] + path[i + 1..];
    DotDropped(path, i);
    DotPassed(path, i, path');
    PassOne(start, j, path, i, path', i);
    assert path'[..i] == path[..i];
  }

  lemma DropPair(start: seq<string>, j: int, path: seq<string>, i: int)
    requires At(start, j, path, i) && 0 < i < |path| && path[i] == ".." && !EndsAt(start, j)
    requires !(i == 1 && path[0] == "..")
    ensures At(start, j + 1, path[..i - 1] + path[i + 1..], i - 1)
  {
    hide Denotes, Passed, EndsAt, Push;
    var path' := path[..i - 1] + path[i + 1..];
    BeforeIsName(path, i);
    PairDropped(path, i);
    PairPassed(path, i, path');
    PassOne(start, j, path, i, path', i - 1);
    Shorter(path, i, i - 1);
    assert path'[..i - 1] == path[..i - 1];
  }

  lemma KeepSegment(start: seq<string>, j: int, path: seq<string>, i: int)
    requires At(start, j, path, i) && i < |path| && path[i] != "." && (path[i] == ".." ==> i == 0) && !EndsAt(start, j)
    ensures At(start, j + 1, path, i + 1)
  {
    hide Denotes, Passed, EndsAt, Push;
    NextSegment(path, i);
    SegmentPassed(path, i);
    PassOne(start, j, path, i, path, i + 1);
  }

  lemma AtEnd(start: seq<string>, j: int, path: seq<string>, i: int)
    requires At(start, j, path, i) && EndsAt(start, j)
    ensures Searching(path, i) && Denotes(path) == Denotes(start) && |path| <= |start|
    ensures 0 <= j <= |start| && path == Reduced(start[..j]) + start[j..] && i == |Reduced(start[..j])|
    ensures forall q {:trigger EndsAt(start, q)} :: 0 <= q < j ==> !EndsAt(start, q)
    ensures "" !in start ==> (Trimmed(path) <==> forall q :: !StopsAt(start, q))
  {
    AllTrimmed(start, j, path, i);
    hide Denotes, EndsAt, Reduced, Searching, Trimmed, StopsAt;
    PassedBound(start, j, path, i);
    assert 0 <= j <= |start|;
  }

  /** The array, spliced in place. */
  class Segments {
    var ary: seq<string>

    constructor (ary: seq<string>)
      ensures this.ary == ary
    {
      this.ary := ary;
    }

    /** `ary.splice(from, count)` */
    method Splice(from: nat, count: nat)
      requires from + count <= |ary|
      modifies this
      ensures ary == old(ary)[..from] + old(ary)[from + count..]
    {
      ary := ary[..from] + ary[from + count..];
    }

    /** Takes the "." and ".." out that it can.  The path denotes the same as before.  The search passes the segments up
        to the first at which it ends, `j`, and leaves them reduced and the others as they were; if no segment is empty,
        all "." and ".." are out, but for a ".." in front, if and only if it is not given up anywhere. */
    method TrimDots() returns (ghost end: nat, ghost j: nat)
      modifies this
      ensures Denotes(ary) == Denotes(old(ary))
      ensures EndsAt(old(ary), j) && forall q {:trigger EndsAt(old(ary), q)} :: 0 <= q < j ==> !EndsAt(old(ary), q)
      ensures j <= |old(ary)| && ary == Reduced(old(ary)[..j]) + old(ary)[j..] && end == |Reduced(old(ary)[..j])|
      ensures |ary| <= |old(ary)| && Searching(ary, end)
      ensures "" !in old(ary) ==> (Trimmed(ary) <==> forall q :: !StopsAt(old(ary), q))
    {
      hide Denotes, Trimmed, Passed, EndsAt, StopsAt, Reduced, Searching;
      ghost var start := ary;
      var i := 0;
      j := 0;
      AtStart(ary);
      while i < |ary| && ary[i] != ""
        invariant 0 <= i <= |ary| && 0 <= j <= |start| && At(start, j, ary, i)
        invariant i == |ary| || ary[i] == "" ==> EndsAt(start, j)
        decreases |ary|, |ary| - i
      {
        EndTest(start, j, ary, i);
        var part := ary[i];
        if part == "." {
          DropDot(start, j, ary, i);
          Splice(i, 1);
        } else if part == ".." {
          if i == 1 && ((|ary| > 2 && ary[2] == "..") || ary[0] == "..") {
            break;
          } else if i > 0 {
            DropPair(start, j, ary, i);
            Splice(i - 1, 2);
            i := i - 1;
          } else {
            KeepSegment(start, j, ary, i);
            i := i + 1;
          }
        } else {
          KeepSegment(start, j, ary, i);
          i := i + 1;
        }
        j := j + 1;
        EndTest(start, j, ary, i);
      }
      end := i;
      AtEnd(start, j, ary, i);
    }
  }
}
