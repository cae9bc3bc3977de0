/** The Rio buffered reader: whatever short reads and interruptions the system answers with, its callers see one
    byte stream. */
module BufferedReader {
  import opened Bytes

  const RIO_BUFSIZE := 8192

  /** What the next `read` does: it may give at most `n` bytes although more are there, be interrupted by a signal,
      or fail.  When the schedule is used up, `read` gives what there is. */
  datatype Reply = Chunk(n: nat) | Interrupted | Failed

  datatype Errno = EINTR | EIO

  /** The answers used up since, and whether one of them was a failure. */
  ghost predicate Used(before: seq<Reply>, after: seq<Reply>, failed: bool) {
    && |after| <= |before|
    && var n := |before| - |after|;
       before[n..] == after && (failed <==> Failed in before[..n])
  }

  lemma NothingUsed(schedule: seq<Reply>)
    ensures Used(schedule, schedule, false)
  {
  }

  lemma UsedMore(a: seq<Reply>, b: seq<Reply>, c: seq<Reply>, failed: bool, more: bool)
    requires Used(a, b, failed) && Used(b, c, more)
    ensures Used(a, c, failed || more)
  {
    assert a[..|a| - |c|] == a[..|a| - |b|] + b[..|b| - |c|];
  }

  /** The line that a reader for at most `m` bytes takes: up to the first newline, or `m` bytes, or the end. */
  function Line(s: seq<Byte>, m: nat): (line: seq<Byte>)
    ensures line <= s && |line| <= m
    ensures s != [] && m > 0 ==> line != []
    ensures |line| < m && NEWLINE !in line ==> line == s
    ensures forall i {:trigger line[i]} :: 0 <= i < |line| - 1 ==> line[i] != NEWLINE
  {
    if s == [] || m == 0 then []
    else if s[0] == NEWLINE then [s[0]]
    else [s[0]] + Line(s[1..], m - 1)
  }

  ghost predicate EndsLine(line: seq<Byte>) {
    line != [] && line[|line| - 1] == NEWLINE
  }

  ghost predicate NoNewline(s: seq<Byte>, k: nat) {
    k <= |s| && NEWLINE !in s[..k]
  }

  /** The line ends at the first newline. */
  lemma {:induction false} LineAtNewline(s: seq<Byte>, m: nat, k: nat)
    requires k < m && k < |s| && NoNewline(s, k) && s[k] == NEWLINE
    ensures Line(s, m) == s[..k + 1]
  {
    if k == 0 {
      assert s[..1] == [s[0]];
    } else {
      var t := s[1..];
      assert t[k - 1] == s[k];
      LineAtNewline(t, m - 1, k - 1);
      assert Line(s, m) == [s[0]] + t[..k];
      assert [s[0]] + t[..k] == s[..k + 1];
    }
  }

  /** Reading line after line. */
  function Lines(s: seq<Byte>, m: nat): (lines: seq<seq<Byte>>)
    requires m > 0
    decreases |s|
  {
    if s == [] then [] else [Line(s, m)] + Lines(s[|Line(s, m)|..], m)
  }

  function Flatten(lines: seq<seq<Byte>>): seq<Byte> {
    if lines == [] then [] else lines[0] + Flatten(lines[1..])
  }

  /** The lines put together are the stream. */
  lemma {:induction false} LinesFlatten(s: seq<Byte>, m: nat)
    requires m > 0
    ensures Flatten(Lines(s, m)) == s
    decreases |s|
  {
    hide Line;
    if s == [] {
    } else {
      var line, rest := Line(s, m), s[|Line(s, m)|..];
      LinesFlatten(rest, m);
      assert Lines(s, m) == [line] + Lines(rest, m);
      assert Lines(s, m)[0] == line && Lines(s, m)[1..] == Lines(rest, m);
      assert line + rest == s;
    }
  }

  /** A newline stands only at the end of a line, and only the last one may stop short of a newline and the limit. */
  ghost predicate ProperLine(line: seq<Byte>, m: nat, last: bool) {
    && 0 < |line| <= m
    && (forall j {:trigger line[j]} :: 0 <= j < |line| - 1 ==> line[j] != NEWLINE)
    && (last || EndsLine(line) || |line| == m)
  }

  lemma {:induction false} LinesAreProper(s: seq<Byte>, m: nat, i: nat)
    requires m > 0 && i < |Lines(s, m)|
    ensures ProperLine(Lines(s, m)[i], m, i == |Lines(s, m)| - 1)
    decreases |s|
  {
    var line := Line(s, m);
    var rest := s[|line|..];
    assert Lines(s, m)[1..] == Lines(rest, m);
    if i > 0 {
      LinesAreProper(rest, m, i - 1);
    }
  }

  /** The buffer `before` with `bytes` stored at `off`. */
  ghost function Placed(before: seq<Byte>, off: nat, bytes: seq<Byte>): seq<Byte>
    requires off + |bytes| <= |before|
  {
    before[..off] + bytes + before[off + |bytes|..]
  }

  /** The first `k` bytes of the stream are stored and the others still come. */
  ghost predicate Delivered(stored: seq<Byte>, rest: seq<Byte>, stream: seq<Byte>, k: nat) {
    k <= |stored| && k <= |stream| && stored[..k] == stream[..k] && rest == stream[k..]
  }

  ghost predicate DeliveredPart(stored: seq<Byte>, rest: seq<Byte>, stream: seq<Byte>, most: nat) {
    exists k: nat {:trigger Delivered(stored, rest, stream, k)} :: k <= most && Delivered(stored, rest, stream, k)
  }

  lemma PartOf(stored: seq<Byte>, rest: seq<Byte>, stream: seq<Byte>, k: nat, most: nat)
    requires k <= most && Delivered(stored, rest, stream, k)
    ensures DeliveredPart(stored, rest, stream, most)
  {
  }

  lemma NothingYet(stored: seq<Byte>, stream: seq<Byte>)
    ensures Delivered(stored, stream, stream, 0) && NoNewline(stream, 0)
  {
  }

  lemma DeliverMore(before: seq<Byte>, rest: seq<Byte>, stream: seq<Byte>, k: nat, got: nat)
    requires k + got <= |before| && got <= |rest| && Delivered(before, rest, stream, k)
    ensures Delivered(Placed(before, k, rest[..got]), rest[got..], stream, k + got)
    ensures k + got <= |stream| && (rest == [] ==> k == |stream|)
  {
    assert stream[..k + got] == stream[..k] + stream[k..][..got];
  }

  lemma RestIsEmpty(stored: seq<Byte>, rest: seq<Byte>, stream: seq<Byte>, k: nat)
    requires rest == [] && Delivered(stored, rest, stream, k)
    ensures k == |stream|
  {
  }

  lemma DeliverByte(before: seq<Byte>, rest: seq<Byte>, stream: seq<Byte>, k: nat, one: seq<Byte>)
    requires k < |before| && |one| == 1 && rest != [] && Delivered(before, rest, stream, k) && NoNewline(stream, k)
    ensures Placed(one, 0, rest[..1])[0] == rest[0] && k < |stream| && rest[0] == stream[k]
    ensures Delivered(before[k := rest[0]], rest[1..], stream, k + 1)
    ensures rest[0] != NEWLINE ==> NoNewline(stream, k + 1)
  {
    assert stream[..k + 1] == stream[..k] + [stream[k]];
    assert before[k := stream[k]][..k + 1] == before[..k] + [stream[k]];
  }

  /** What `ReadLineB` leaves: the line of at most `m` bytes is stored, then a 0, and the rest still comes.  The result
      counts the bytes of a line that ends in a newline; it is one more when the limit or the end of the input cut the
      line, and 0 when there is no input. */
  ghost predicate LineRead(stored: seq<Byte>, rest: seq<Byte>, stream: seq<Byte>, m: nat, r: int) {
    var line := Line(stream, m);
    if m > 0 && stream == [] then r == 0 && rest == []
    else
      && |line| < |stored| && stored[..|line|] == line && stored[|line|] == 0
      && rest == stream[|line|..]
      && r == if EndsLine(line) then |line| else |line| + 1
  }

  /** The line is the first `k` bytes, and `n` counts them, with one more for a line cut short. */
  ghost predicate LineIs(stream: seq<Byte>, m: nat, k: nat, n: nat) {
    k <= |stream| && Line(stream, m) == stream[..k] && n == if EndsLine(stream[..k]) then k else k + 1
  }

  lemma StopAtNewline(stream: seq<Byte>, m: nat, k: nat)
    requires k < m && k < |stream| && NoNewline(stream, k) && stream[k] == NEWLINE
    ensures LineIs(stream, m, k + 1, k + 1)
  {
    LineAtNewline(stream, m, k);
  }

  lemma StopCut(stream: seq<Byte>, m: nat, k: nat)
    requires k <= m && NoNewline(stream, k) && (k == m || k == |stream|)
    ensures LineIs(stream, m, k, k + 1)
  {
    assert k > 0 ==> stream[..k][k - 1] in stream[..k];
  }

  /** What `ReadLineB` leaves when it does not fail, and when it does: then it loses no byte. */
  ghost predicate LineOutcome(stored: seq<Byte>, rest: seq<Byte>, stream: seq<Byte>, maxlen: nat, r: int) {
    if r == -1 then DeliveredPart(stored, rest, stream, maxlen)
    else LineRead(stored, rest, stream, if maxlen == 0 then 0 else maxlen - 1, r)
  }

  lemma LineFailed(stored: seq<Byte>, rest: seq<Byte>, stream: seq<Byte>, maxlen: nat, k: nat)
    requires k <= maxlen && Delivered(stored, rest, stream, k)
    ensures LineOutcome(stored, rest, stream, maxlen, -1)
  {
    PartOf(stored, rest, stream, k, maxlen);
  }

  lemma NoLineLeft(stored: seq<Byte>, rest: seq<Byte>, stream: seq<Byte>, maxlen: nat)
    requires maxlen > 1 && Delivered(stored, rest, stream, 0) && |stream| == 0
    ensures LineOutcome(stored, rest, stream, maxlen, 0)
  {
  }

  lemma LineTaken(stored: seq<Byte>, rest: seq<Byte>, stream: seq<Byte>, maxlen: nat, m: nat, k: nat, n: nat)
    requires m == (if maxlen == 0 then 0 else maxlen - 1) && (m > 0 ==> stream != [])
    requires k < |stored| && Delivered(stored, rest, stream, k) && LineIs(stream, m, k, n)
    ensures LineOutcome(stored[k := 0], rest, stream, maxlen, n)
  {
  }

  /** An open descriptor: the bytes still to come and the answers of the system. */
  class Descriptor {
    var input: seq<Byte>
    var schedule: seq<Reply>

    constructor (input: seq<Byte>, schedule: seq<Reply>)
      ensures this.input == input && this.schedule == schedule
    {
      this.input, this.schedule := input, schedule;
    }

    /** `read`: the number of bytes stored, 0 at the end of the input, or -1 and an error number. */
    method Read(buf: array<Byte>, n: nat) returns (got: int, errno: Errno)
      requires 0 < n <= buf.Length
      modifies this, buf
      ensures -1 <= got <= n && got <= |old(input)|
      ensures got >= 0 ==> input == old(input)[got..] && buf[..got] == old(input)[..got]
      ensures got == 0 ==> old(input) == []
      ensures got == -1 ==> input == old(input)
      ensures got == -1 ==> |schedule| < |old(schedule)|
      ensures Used(old(schedule), schedule, got == -1 && errno == EIO)
    {
      errno := EIO;
      var limit := n;
      if schedule != [] {
        var reply := schedule[0];
        schedule := schedule[1..];
        match reply
        case Interrupted => return -1, EINTR;
        case Failed => return -1, EIO;
        case Chunk(k) => limit := if k == 0 then 1 else Min(k, n);
      }
      var count: nat := Min(limit, |input|);
      var i: nat := 0;
      while i < count
        invariant i <= count <= |input|
        invariant buf[..i] == input[..i]
        invariant unchanged(this`input) && schedule == old(schedule)[if old(schedule) == [] then 0 else 1..]
      {
        buf[i] := input[i];
        i := i + 1;
      }
      got := count;
      input := input[count..];
    }
  }

  method Store(a: array<Byte>, k: nat, b: Byte)
    requires k < a.Length
    modifies a
    ensures a[..] == old(a[..])[k := b]
  {
    a[k] := b;
  }

  class Rio {
    const fd: Descriptor
    const buf: array<Byte>
    var cnt: int        // unread bytes in the buffer; -1 after an error
    var bufptr: nat     // next unread byte

    ghost predicate Valid()
      reads this
    {
      buf.Length == RIO_BUFSIZE && -1 <= cnt && bufptr <= RIO_BUFSIZE && bufptr + cnt <= RIO_BUFSIZE
    }

    /** The unread bytes of the buffer. */
    ghost function Unread(): seq<Byte>
      requires Valid()
      reads this, buf
    {
      if cnt <= 0 then [] else buf[bufptr..bufptr + cnt]
    }

    /** All bytes that have not been given to the caller. */
    ghost function Stream(): seq<Byte>
      requires Valid()
      reads this, buf, fd
    {
      Unread() + fd.input
    }

    constructor ReadInitB(fd: Descriptor)
      ensures this.fd == fd && Valid() && fresh(buf) && Stream() == fd.input
    {
      this.fd := fd;
      buf := new Byte[RIO_BUFSIZE](i => 0);
      cnt, bufptr := 0, 0;
    }

    /** One `read` into the empty buffer. */
    method Fill() returns (errno: Errno)
      requires Valid() && cnt <= 0
      modifies this, buf, fd
      ensures Valid() && Stream() == old(Stream())
      ensures cnt == 0 ==> old(Stream()) == []
      ensures cnt < 0 ==> |fd.schedule| < |old(fd.schedule)|
      ensures Used(old(fd.schedule), fd.schedule, cnt < 0 && errno == EIO)
    {
      ghost var stream := fd.input;
      cnt, errno := fd.Read(buf, RIO_BUFSIZE);
      if cnt > 0 {
        bufptr := 0;
        assert stream == stream[..cnt] + stream[cnt..];
      }
    }

    /** Refills the buffer if it is empty: 0 at the end of the input, -1 on an error. */
    method Refill() returns (status: int)
      requires Valid()
      modifies this, buf, fd
      ensures Valid() && Stream() == old(Stream())
      ensures status == 1 || status == 0 || status == -1
      ensures status == 1 ==> cnt > 0
      ensures status == 0 ==> old(Stream()) == []
      ensures Used(old(fd.schedule), fd.schedule, status == -1)
    {
      hide Used;
      ghost var stream, start := Stream(), fd.schedule;
      NothingUsed(start);
      while cnt <= 0
        invariant Valid() && Stream() == stream
        invariant Used(start, fd.schedule, false)
        decreases |fd.schedule| + (if cnt <= 0 then 1 else 0)
      {
        ghost var before := fd.schedule;
        var errno := Fill();
        UsedMore(start, before, fd.schedule, false, cnt < 0 && errno == EIO);
        if cnt < 0 {
          if errno != EINTR {
            return -1;
          }
        } else if cnt == 0 {
          return 0;
        }
      }
      status := 1;
    }

    /** Copies `n` unread bytes to the caller's buffer. */
    method Copy(usrbuf: array<Byte>, off: nat, n: nat)
      requires Valid() && n <= cnt && off + n <= usrbuf.Length && usrbuf != buf
      modifies this, usrbuf
      ensures Valid()
      ensures Stream() == old(Stream())[n..]
      ensures usrbuf[..] == Placed(old(usrbuf[..]), off, old(Stream())[..n])
    {
      hide Placed;
      ghost var stream := Stream();
      assert stream[..n] == buf[bufptr..bufptr + n] && stream[n..] == buf[bufptr + n..bufptr + cnt] + fd.input;
      Memcpy(usrbuf, off, n);
      bufptr := bufptr + n;
      cnt := cnt - n;
    }

    method Memcpy(usrbuf: array<Byte>, off: nat, n: nat)
      requires Valid() && n <= cnt && off + n <= usrbuf.Length && usrbuf != buf
      modifies usrbuf
      ensures usrbuf[..] == Placed(old(usrbuf[..]), off, buf[bufptr..bufptr + n])
    {
      forall i | 0 <= i < n {
        usrbuf[off + i] := buf[bufptr + i];
      }
    }

    /** Gives at most `n` bytes: 0 at the end of the input, -1 on an error.  Interruptions are tried again here, so
        that an error reported is a failure. */
    method Read(usrbuf: array<Byte>, off: nat, n: nat) returns (got: int)
      requires Valid() && off + n <= usrbuf.Length && usrbuf != buf
      modifies this, buf, fd, usrbuf
      ensures Valid() && -1 <= got <= n && got <= |old(Stream())|
      ensures got >= 0 ==> Stream() == old(Stream())[got..]
      ensures got >= 0 ==> usrbuf[..] == Placed(old(usrbuf[..]), off, old(Stream())[..got])
      ensures got == 0 ==> n == 0 || old(Stream()) == []
      ensures got == -1 ==> Stream() == old(Stream()) && usrbuf[..] == old(usrbuf[..])
      ensures Used(old(fd.schedule), fd.schedule, got == -1)
    {
      hide Used;
      ghost var before := usrbuf[..];
      var status := Refill();
      assert usrbuf[..] == before;
      if status <= 0 {
        return status;
      }
      got := if cnt < n then cnt else n;
      Copy(usrbuf, off, got);
    }

    /** Gives the next `n` bytes of the stream, or all if there are fewer, however the reads were cut.  Where it fails,
        the bytes stored and the bytes still to come are the stream. */
    method ReadNB(usrbuf: array<Byte>, n: nat) returns (r: int)
      requires Valid() && n <= usrbuf.Length && usrbuf != buf
      modifies this, buf, fd, usrbuf
      ensures Valid()
      ensures r == -1 || r == Min(n, |old(Stream())|)
      ensures r >= 0 ==> Delivered(usrbuf[..], Stream(), old(Stream()), r)
      ensures Used(old(fd.schedule), fd.schedule, r == -1)
      ensures r == -1 ==> DeliveredPart(usrbuf[..], Stream(), old(Stream()), n)
    {
      hide Stream, Valid, Delivered, DeliveredPart, Used, Placed;
      ghost var stream, start := Stream(), fd.schedule;
      NothingUsed(start);
      var nleft := n;
      NothingYet(usrbuf[..], stream);
      while nleft > 0
        invariant Valid() && 0 <= nleft <= n && n - nleft <= |stream|
        invariant Delivered(usrbuf[..], Stream(), stream, n - nleft)
        invariant Used(start, fd.schedule, false)
      {
        ghost var before, rest, schedule := usrbuf[..], Stream(), fd.schedule;
        var nread := Read(usrbuf, n - nleft, nleft);
        UsedMore(start, schedule, fd.schedule, false, nread == -1);
        if nread < 0 {
          PartOf(before, rest, stream, n - nleft, n);
          return -1;
        }
        DeliverMore(before, rest, stream, n - nleft, nread);
        if nread == 0 {
          return n - nleft;
        }
        nleft := nleft - nread;
      }
      r := n;
    }

    /** The next byte of a line goes to `usrbuf[bufp]`. */
    method ReadByte(usrbuf: array<Byte>, bufp: nat, ghost stream: seq<Byte>) returns (rc: int, b: Byte)
      requires Valid() && bufp < usrbuf.Length && usrbuf != buf
      requires Delivered(usrbuf[..], Stream(), stream, bufp) && NoNewline(stream, bufp)
      modifies this, buf, fd, usrbuf
      ensures Valid() && (rc == 1 || rc == 0 || rc == -1)
      ensures rc == 1 ==> bufp < |stream| && b == stream[bufp] && Delivered(usrbuf[..], Stream(), stream, bufp + 1)
      ensures rc == 1 && b != NEWLINE ==> NoNewline(stream, bufp + 1)
      ensures rc != 1 ==> Delivered(usrbuf[..], Stream(), stream, bufp)
      ensures rc == 0 ==> bufp == |stream| && Stream() == []
      ensures Used(old(fd.schedule), fd.schedule, rc == -1)
    {
      hide Stream, Valid, Delivered, NoNewline, Used, Placed;
      var c := new Byte[1](i => 0);
      ghost var before, one, rest := usrbuf[..], c[..], Stream();
      rc := Read(c, 0, 1);
      b := 0;
      if rc == 1 {
        DeliverByte(before, rest, stream, bufp, one);
        b := c[..][0];
        Store(usrbuf, bufp, b);
      } else if rc == 0 {
        RestIsEmpty(before, rest, stream, bufp);
      }
    }

    /** Gives the next line, at most `maxlen - 1` bytes of it, and a 0 byte after it. */
    method ReadLineB(usrbuf: array<Byte>, maxlen: nat) returns (r: int)
      requires Valid() && 0 < usrbuf.Length && maxlen <= usrbuf.Length && usrbuf != buf
      modifies this, buf, fd, usrbuf
      ensures Valid()
      ensures LineOutcome(usrbuf[..], Stream(), old(Stream()), maxlen, r)
      ensures Used(old(fd.schedule), fd.schedule, r == -1)
    {
      hide Stream, Valid, Delivered, NoNewline, LineOutcome, LineIs, Used, Line;
      ghost var stream, start := Stream(), fd.schedule;
      NothingUsed(start);
      ghost var m := if maxlen == 0 then 0 else maxlen - 1;
      var n, bufp := 1, 0;
      NothingYet(usrbuf[..], stream);
      while n < maxlen
        invariant Valid() && n == bufp + 1 && 0 <= bufp <= m && bufp <= |stream|
        invariant Delivered(usrbuf[..], Stream(), stream, bufp) && NoNewline(stream, bufp)
        invariant Used(start, fd.schedule, false)
      {
        ghost var schedule := fd.schedule;
        var rc, c := ReadByte(usrbuf, bufp, stream);
        UsedMore(start, schedule, fd.schedule, false, rc == -1);
        if rc == 1 {
          bufp := bufp + 1;
          if c == NEWLINE {
            StopAtNewline(stream, m, bufp - 1);
            break;
          }
        } else if rc == 0 {
          if n == 1 {
            NoLineLeft(usrbuf[..], Stream(), stream, maxlen);
            return 0;
          } else {
            StopCut(stream, m, bufp);
            break;
          }
        } else {
          LineFailed(usrbuf[..], Stream(), stream, maxlen, bufp);
          return -1;
        }
        n := n + 1;
      }
      if n >= maxlen {
        StopCut(stream, m, bufp);
      }
      LineTaken(usrbuf[..], Stream(), stream, maxlen, m, bufp, n);
      Store(usrbuf, bufp, 0);
      r := n;
    }
  }
}
