/** A connection of the rot13 line server: bytes are received, turned and stored as they come, and are sent up to
    the last newline received. */
module Connection {
  import opened Bytes

  const MAX_LINE := 16384

  function Rot13(c: Byte): (r: Byte)
    ensures r == NEWLINE <==> c == NEWLINE
  {
    if 'a' as int <= c <= 'm' as int || 'A' as int <= c <= 'M' as int then c + 13
    else if 'n' as int <= c <= 'z' as int || 'N' as int <= c <= 'Z' as int then c - 13
    else c
  }

  /** Letters turn thirteen places round the alphabet and keep their case, everything else stays; turned twice, a byte
      is what it was. */
  lemma Rot13Exactly(c: Byte, k: nat)
    requires k < 26
    ensures c == 'a' as int + k ==> Rot13(c) == 'a' as int + (k + 13) % 26
    ensures c == 'A' as int + k ==> Rot13(c) == 'A' as int + (k + 13) % 26
    ensures !('a' as int <= c <= 'z' as int) && !('A' as int <= c <= 'Z' as int) ==> Rot13(c) == c
    ensures Rot13(Rot13(c)) == c
  {
  }

  /** A byte that was received, and whether there was room to store it. */
  datatype Arrival = Arrival(byte: Byte, kept: bool)

  /** The stored bytes of a connection's life so far. */
  ghost function Kept(log: seq<Arrival>): seq<Byte> {
    if log == [] then []
    else
      var last := log[|log| - 1];
      Kept(log[..|log| - 1]) + if last.kept then [Rot13(last.byte)] else []
  }

  /** How many bytes were stored when the last newline arrived. */
  ghost function Upto(log: seq<Arrival>): (n: nat)
    ensures n <= |Kept(log)|
  {
    if log == [] then 0
    else if log[|log| - 1].byte == NEWLINE then |Kept(log)|
    else Upto(log[..|log| - 1])
  }

  /** Bytes that arrive when there is room for `room` of them. */
  ghost function Tagged(bytes: seq<Byte>, room: nat): seq<Arrival> {
    seq(|bytes|, i requires 0 <= i < |bytes| => Arrival(bytes[i], i < room))
  }

  lemma TaggedConcat(a: seq<Byte>, b: seq<Byte>, room: nat)
    ensures Tagged(a + b, room) == Tagged(a, room) + Tagged(b, if |a| < room then room - |a| else 0)
  {
  }

  lemma NoneTagged(log: seq<Arrival>, room: nat)
    ensures log == log + Tagged([], room)
  {
  }

  lemma TaggedMore(bytes: seq<Byte>, c: Byte, room: nat)
    ensures Tagged(bytes + [c], room) == Tagged(bytes, room) + [Arrival(c, |bytes| < room)]
  {
  }

  ghost function Rot13All(bytes: seq<Byte>): seq<Byte> {
    seq(|bytes|, i requires 0 <= i < |bytes| => Rot13(bytes[i]))
  }

  lemma LogMore(log: seq<Arrival>, a: Arrival)
    ensures Kept(log + [a]) == Kept(log) + if a.kept then [Rot13(a.byte)] else []
    ensures Upto(log + [a]) == if a.byte == NEWLINE then |Kept(log + [a])| else Upto(log)
  {
    assert (log + [a])[..|log|] == log;
  }

  lemma KeptMore(log: seq<Arrival>, init: seq<Byte>, c: Byte, room: nat)
    requires Kept(log + Tagged(init, room)) == Kept(log) + Rot13All(init[..Min(room, |init|)])
    ensures var bytes := init + [c];
      Kept(log + Tagged(bytes, room)) == Kept(log) + Rot13All(bytes[..Min(room, |bytes|)])
  {
    var bytes, n := init + [c], |init|;
    var a := Arrival(c, n < room);
    TaggedMore(init, c, room);
    LogMore(log + Tagged(init, room), a);
    Rot13More(init, c);
    hide Kept, Tagged, Rot13, Upto, Rot13All;
    assert log + Tagged(bytes, room) == log + Tagged(init, room) + [a];
    assert bytes[..n + 1] == bytes && init[..n] == init;
    if n < room {
      assert Kept(log) + Rot13All(init) + [Rot13(c)] == Kept(log) + (Rot13All(init) + [Rot13(c)]);
    } else {
      assert bytes[..room] == init[..room];
      assert Kept(log + Tagged(init, room)) + [] == Kept(log + Tagged(init, room));
    }
  }

  /** Of the bytes that arrive, as many are kept as there is room for, turned and in order. */
  lemma {:induction false} KeptOfTagged(log: seq<Arrival>, bytes: seq<Byte>, room: nat)
    ensures Kept(log + Tagged(bytes, room)) == Kept(log) + Rot13All(bytes[..Min(room, |bytes|)])
  {
    if bytes == [] {
      assert log + Tagged(bytes, room) == log;
    } else {
      hide Kept, Tagged, Rot13All;
      var n := |bytes| - 1;
      assert bytes[..n] + [bytes[n]] == bytes;
      KeptOfTagged(log, bytes[..n], room);
      KeptMore(log, bytes[..n], bytes[n], room);
    }
  }

  lemma Rot13More(bytes: seq<Byte>, c: Byte)
    ensures Rot13All(bytes + [c]) == Rot13All(bytes) + [Rot13(c)]
  {
  }

  /** The mark moves to the last newline that arrived, even when that newline was not kept. */
  lemma {:induction false} UptoOfTagged(log: seq<Arrival>, bytes: seq<Byte>, room: nat, k: nat)
    requires k <= |bytes| && NEWLINE !in bytes[k..] && (k > 0 ==> bytes[k - 1] == NEWLINE)
    ensures Upto(log + Tagged(bytes, room)) == if k == 0 then Upto(log) else |Kept(log)| + Min(room, k)
  {
    if bytes == [] {
      assert log + Tagged(bytes, room) == log;
    } else {
      var n := |bytes| - 1;
      var init, c := bytes[..n], bytes[n];
      assert init + [c] == bytes;
      TaggedMore(init, c, room);
      LogMore(log + Tagged(init, room), Arrival(c, n < room));
      assert log + Tagged(bytes, room) == log + Tagged(init, room) + [Arrival(c, n < room)];
      if k == |bytes| {
        KeptOfTagged(log, bytes, room);
      } else {
        assert c == bytes[k..][n - k];
        assert init[k..] == bytes[k..][..n - k];
        UptoOfTagged(log, init, room, k);
      }
    }
  }

  /** What `recv` answers: some bytes, the end of the connection, nothing for now, or an error. */
  datatype RecvReply = Data(bytes: seq<Byte>) | Closed | RecvAgain | RecvFailed

  ghost predicate Replies(recv: seq<RecvReply>) {
    forall i {:trigger recv[i]} :: 0 <= i < |recv| && recv[i].Data? ==> 0 < |recv[i].bytes| <= 1024
  }

  /** The bytes received before the first answer that is not data. */
  ghost function Received(recv: seq<RecvReply>): seq<Byte> {
    if recv != [] && recv[0].Data? then recv[0].bytes + Received(recv[1..]) else []
  }

  /** The answer that ends the reading; when none is left there is nothing for now. */
  ghost function Outcome(recv: seq<RecvReply>): int {
    if recv == [] then 0
    else match recv[0]
      case Data(_) => Outcome(recv[1..])
      case Closed => 1
      case RecvAgain => 0
      case RecvFailed => -1
  }

  /** What `send` answers: it takes some of the bytes, at least one, or nothing for now, or fails. */
  datatype SendReply = Taken(n: nat) | SendAgain | SendFailed

  /** How many of `need` bytes the answers take, up to the first that takes none. */
  ghost function TakenOf(need: nat, send: seq<SendReply>): (n: nat)
    ensures n <= need
  {
    if need == 0 || send == [] || !send[0].Taken? then 0
    else
      var n := Min(need, if send[0].n == 0 then 1 else send[0].n);
      n + TakenOf(need - n, send[1..])
  }

  /** 0 if all is taken or `send` can take nothing for now, -1 on an error. */
  ghost function WriteOutcome(need: nat, send: seq<SendReply>): int {
    if need == 0 || send == [] then 0
    else match send[0]
      case Taken(n) => WriteOutcome(need - Min(need, if n == 0 then 1 else n), send[1..])
      case SendAgain => 0
      case SendFailed => -1
  }

  lemma TakesOne(need: nat, send: seq<SendReply>, k: nat)
    requires need > 0 && k < |send| && send[k].Taken?
    ensures var n := Min(need, if send[k].n == 0 then 1 else send[k].n);
      && TakenOf(need, send[k..]) == n + TakenOf(need - n, send[k + 1..])
      && WriteOutcome(need, send[k..]) == WriteOutcome(need - n, send[k + 1..])
  {
    assert send[k..][0] == send[k] && send[k..][1..] == send[k + 1..];
  }

  lemma TakesNone(need: nat, send: seq<SendReply>, k: nat)
    requires k <= |send| && (need == 0 || k == |send| || !send[k].Taken?)
    ensures TakenOf(need, send[k..]) == 0
    ensures WriteOutcome(need, send[k..]) == if need > 0 && k < |send| && send[k].SendFailed? then -1 else 0
  {
  }

  function Flat(recv: seq<RecvReply>): seq<Byte> {
    if recv == [] then [] else (if recv[0].Data? then recv[0].bytes else []) + Flat(recv[1..])
  }

  /** Reading goes on as long as there is data: with the first answer that is none it is over, and what it is decides.
      */
  lemma {:induction false} ReadExactly(recv: seq<RecvReply>, k: nat)
    requires k <= |recv| && (forall i {:trigger recv[i]} :: 0 <= i < k ==> recv[i].Data?)
    requires k < |recv| ==> !recv[k].Data?
    ensures Received(recv) == Flat(recv[..k])
    ensures Outcome(recv) == if k < |recv| && recv[k].Closed? then 1 else if k < |recv| && recv[k].RecvFailed? then -1
        else 0
    decreases k
  {
    if k > 0 {
      ReadExactly(recv[1..], k - 1);
      assert recv[..k][1..] == recv[1..][..k - 1];
    }
  }

  /** What the answers offer to take together. */
  function Offered(send: seq<SendReply>): nat {
    if send == [] then 0
    else Offered(send[1..]) + if send[0].Taken? then (if send[0].n == 0 then 1 else send[0].n) else 0
  }

  /** Sending goes on until all is taken or an answer takes nothing; it fails if that answer is an error. */
  lemma {:induction false} WriteExactly(need: nat, send: seq<SendReply>, k: nat)
    requires k <= |send| && (forall i {:trigger send[i]} :: 0 <= i < k ==> send[i].Taken?)
    requires k < |send| ==> !send[k].Taken?
    ensures TakenOf(need, send) == Min(need, Offered(send[..k]))
    ensures WriteOutcome(need, send) == if Offered(send[..k]) < need && k < |send| && send[k].SendFailed? then -1 else 0
    decreases k
  {
    if k > 0 {
      assert send[..k][1..] == send[1..][..k - 1];
      WriteExactly(need - Min(need, if send[0].n == 0 then 1 else send[0].n), send[1..], k - 1);
    }
  }

  /** `held` are the stored bytes from `base` on, those before `nWritten` are sent, and `writeUpto` is where the last
      newline arrived. */
  ghost predicate Holds(log: seq<Arrival>, sent: seq<Byte>, base: nat, held: seq<Byte>, nWritten: nat, writeUpto: nat) {
    && nWritten <= writeUpto <= |held|
    && |Kept(log)| == base + |held| && Kept(log)[base..] == held
    && sent == Kept(log)[..base + nWritten]
    && Upto(log) == base + writeUpto
  }

  lemma AcceptHolds(log: seq<Arrival>, sent: seq<Byte>, base: nat, held: seq<Byte>, nWritten: nat, writeUpto: nat,
        c: Byte, kept: bool)
    requires Holds(log, sent, base, held, nWritten, writeUpto)
    ensures var held' := if kept then held + [Rot13(c)] else held;
      Holds(log + [Arrival(c, kept)], sent, base, held', nWritten, if c == NEWLINE then |held'| else writeUpto)
  {
    hide Kept, Upto;
    LogMore(log, Arrival(c, kept));
    SliceMore(Kept(log), Rot13(c), base, base + nWritten);
  }

  lemma SliceMore(all: seq<Byte>, c: Byte, base: nat, m: nat)
    requires base <= |all| && m <= |all|
    ensures (all + [c])[base..] == all[base..] + [c] && (all + [c])[..m] == all[..m]
  {
  }

  lemma SentHolds(log: seq<Arrival>, sent: seq<Byte>, base: nat, held: seq<Byte>, nWritten: nat, writeUpto: nat, n: nat)
    requires Holds(log, sent, base, held, nWritten, writeUpto) && nWritten + n <= writeUpto
    ensures Holds(log, sent + held[nWritten..nWritten + n], base, held, nWritten + n, writeUpto)
  {
    var all := Kept(log);
    assert held[nWritten..nWritten + n] == all[base + nWritten..base + nWritten + n];
    assert all[..base + nWritten + n] == all[..base + nWritten] + all[base + nWritten..base + nWritten + n];
  }

  lemma ResetHolds(log: seq<Arrival>, sent: seq<Byte>, base: nat, held: seq<Byte>)
    requires Holds(log, sent, base, held, |held|, |held|)
    ensures Holds(log, sent, base + |held|, [], 0, 0)
  {
  }

  /** What is sent is a prefix of everything received up to the last newline, and all of it when nothing is left to
      write. */
  ghost predicate SentInOrder(log: seq<Arrival>, sent: seq<Byte>, all: bool) {
    sent <= Kept(log)[..Upto(log)] && (all <==> sent == Kept(log)[..Upto(log)])
  }

  lemma HoldsSent(log: seq<Arrival>, sent: seq<Byte>, base: nat, held: seq<Byte>, nWritten: nat, writeUpto: nat)
    requires Holds(log, sent, base, held, nWritten, writeUpto)
    ensures SentInOrder(log, sent, nWritten == writeUpto) && |sent| == base + nWritten && Upto(log) == base + writeUpto
  {
  }

  class FdState {
    const buffer: array<Byte>
    var bufferUsed: nat
    var writing: bool
    var nWritten: nat
    var writeUpto: nat
    ghost var log: seq<Arrival>   // everything received
    ghost var sent: seq<Byte>     // everything sent
    ghost var base: nat           // how many stored bytes came before those in the buffer

    ghost predicate Sized()
      reads this
    {
      buffer.Length == MAX_LINE && nWritten <= writeUpto <= bufferUsed <= MAX_LINE
    }

    ghost predicate Consistent()
      requires Sized()
      reads this, buffer
    {
      Holds(log, sent, base, buffer[..bufferUsed], nWritten, writeUpto)
    }

    ghost predicate Valid()
      reads this, buffer
    {
      && Sized() && Consistent()
      && (writing <==> nWritten < writeUpto)
      && (nWritten == bufferUsed ==> bufferUsed == 0)
    }

    constructor AllocFdState()
      ensures Valid() && fresh(buffer)
      ensures log == [] && sent == []
    {
      buffer := new Byte[MAX_LINE](i => 0);
      bufferUsed, nWritten, writing, writeUpto := 0, 0, false, 0;
      log, sent, base := [], [], 0;
    }

    /** One received byte: stored if there is room, and a newline opens the way to everything stored. */
    method Accept(c: Byte)
      requires Valid()
      modifies this, buffer
      ensures Valid() && sent == old(sent)
      ensures log == old(log) + [Arrival(c, old(bufferUsed) < MAX_LINE)]
      ensures bufferUsed == Min(MAX_LINE, old(bufferUsed) + 1)
    {
      hide Holds, Kept, Upto;
      ghost var held, kept := buffer[..bufferUsed], bufferUsed < MAX_LINE;
      AcceptHolds(log, sent, base, held, nWritten, writeUpto, c, kept);
      log := log + [Arrival(c, kept)];
      if bufferUsed < MAX_LINE {
        buffer[bufferUsed] := Rot13(c);
        bufferUsed := bufferUsed + 1;
      }
      assert buffer[..bufferUsed] == if kept then held + [Rot13(c)] else held;
      if c == NEWLINE {
        writing := true;
        writeUpto := bufferUsed;
      }
    }

    /** One answer of `recv`. */
    method AcceptAll(buf: seq<Byte>)
      requires Valid()
      modifies this, buffer
      ensures Valid() && sent == old(sent)
      ensures log == old(log) + Tagged(buf, MAX_LINE - old(bufferUsed))
      ensures bufferUsed == Min(MAX_LINE, old(bufferUsed) + |buf|)
    {
      hide Holds, Consistent, Tagged, Kept, Upto;
      ghost var room, log0 := MAX_LINE - bufferUsed, log;
      var i := 0;
      NoneTagged(log0, room);
      while i < |buf|
        invariant Valid() && sent == old(sent) && 0 <= i <= |buf|
        invariant log == log0 + Tagged(buf[..i], room) && bufferUsed == Min(MAX_LINE, MAX_LINE - room + i)
      {
        TaggedMore(buf[..i], buf[i], room);
        assert buf[..i + 1] == buf[..i] + [buf[i]];
        Accept(buf[i]);
        i := i + 1;
      }
      assert buf[..i] == buf;
    }

    /** Receives until there is nothing for now: 0 then, 1 when the connection was closed, -1 on an error. */
    method DoRead(recv: seq<RecvReply>) returns (result: int)
      requires Valid() && Replies(recv)
      modifies this, buffer
      ensures Valid() && sent == old(sent)
      ensures result == Outcome(recv)
      ensures log == old(log) + Tagged(Received(recv), MAX_LINE - old(bufferUsed))
    {
      hide Holds, Consistent, Tagged, Kept, Upto;
      ghost var room, log0 := MAX_LINE - bufferUsed, log;
      ghost var got: seq<Byte> := [];
      var k := 0;
      NoneTagged(log0, room);
      while k < |recv| && recv[k].Data?
        invariant Valid() && sent == old(sent) && 0 <= k <= |recv|
        invariant log == log0 + Tagged(got, room) && bufferUsed == Min(MAX_LINE, MAX_LINE - room + |got|)
        invariant got + Received(recv[k..]) == Received(recv) && Outcome(recv[k..]) == Outcome(recv)
      {
        AcceptAll(recv[k].bytes);
        TaggedConcat(got, recv[k].bytes, room);
        got := got + recv[k].bytes;
        k := k + 1;
      }
      assert Received(recv[k..]) == [] && got + [] == got;
      if k < |recv| && recv[k].Closed? {
        return 1;
      } else if k < |recv| && recv[k].RecvFailed? {
        return -1;
      }
      return 0;
    }

    /** `send` takes some of the bytes offered. */
    method Sent(n: nat) returns (result: nat)
      requires Sized() && Consistent() && nWritten < writeUpto
      modifies this`nWritten, this`sent
      ensures Sized() && Consistent()
      ensures result == Min(writeUpto - old(nWritten), if n == 0 then 1 else n) && nWritten == old(nWritten) + result
    {
      hide Holds;
      result := Min(writeUpto - nWritten, if n == 0 then 1 else n);
      SentHolds(log, sent, base, buffer[..bufferUsed], nWritten, writeUpto, result);
      sent := sent + buffer[..bufferUsed][nWritten..nWritten + result];
      nWritten := nWritten + result;
    }

    /** Sends what is stored up to the last newline, as far as `send` takes it.  `writing` is off exactly when all of
        it has been sent. */
    method DoWrite(send: seq<SendReply>) returns (result: int)
      requires Valid()
      modifies this
      ensures Valid() && log == old(log)
      ensures SentInOrder(log, sent, !writing)
      ensures old(|sent| <= Upto(log)) && var need := old(Upto(log) - |sent|);
              |sent| == |old(sent)| + TakenOf(need, send) && result == WriteOutcome(need, send)
    {
      hide Holds, SentInOrder, Kept, Upto, TakenOf, WriteOutcome;
      HoldsSent(log, sent, base, buffer[..bufferUsed], nWritten, writeUpto);
      assert send[0..] == send;
      var k := 0;
      ghost var need, before := writeUpto - nWritten, nWritten;
      while nWritten < writeUpto
        invariant Sized() && Consistent() && log == old(log) && writing == old(writing) && bufferUsed == old(bufferUsed)
        invariant before <= nWritten && 0 <= k <= |send| && writeUpto == old(writeUpto) && base == old(base)
        invariant TakenOf(need, send) == nWritten - before + TakenOf(writeUpto - nWritten, send[k..])
        invariant WriteOutcome(need, send) == WriteOutcome(writeUpto - nWritten, send[k..])
      {
        if k == |send| || !send[k].Taken? {
          TakesNone(writeUpto - nWritten, send, k);
          HoldsSent(log, sent, base, buffer[..bufferUsed], nWritten, writeUpto);
          return if k < |send| && send[k].SendFailed? then -1 else 0;
        }
        TakesOne(writeUpto - nWritten, send, k);
        var _ := Sent(send[k].n);
        k := k + 1;
      }
      TakesNone(0, send, k);
      HoldsSent(log, sent, base, buffer[..bufferUsed], nWritten, writeUpto);
      if nWritten == bufferUsed {
        ResetHolds(log, sent, base, buffer[..bufferUsed]);
        base := base + bufferUsed;
        nWritten, writeUpto, bufferUsed := 0, 0, 0;
        assert buffer[..0] == [];
      }
      writing := false;
      return 0;
    }

    /** The connection's part in one pass of the server: true when it is to be closed.  `select` watches for room to
        write only if there is something to write. */
    method Turn(readable: bool, recv: seq<RecvReply>, writable: bool, send: seq<SendReply>) returns (close: bool)
      requires Valid() && Replies(recv)
      modifies this, buffer
      ensures Valid() && SentInOrder(log, sent, !writing)
      ensures log == if readable then old(log) + Tagged(Received(recv), MAX_LINE - old(bufferUsed)) else old(log)
      ensures |old(sent)| <= Upto(log) && var need := Upto(log) - |old(sent)|;
              if readable && Outcome(recv) != 0 then sent == old(sent) && close
              else if old(writing) && writable then
                |sent| == |old(sent)| + TakenOf(need, send) && (close <==> WriteOutcome(need, send) != 0)
              else sent == old(sent) && !close
    {
      hide Holds, SentInOrder, Kept, Upto, Tagged;
      var watched := writing && writable;
      var r := 0;
      if readable {
        r := DoRead(recv);
      }
      HoldsSent(log, sent, base, buffer[..bufferUsed], nWritten, writeUpto);
      if r == 0 && watched {
        r := DoWrite(send);
      }
      close := r != 0;
    }
  }
}
