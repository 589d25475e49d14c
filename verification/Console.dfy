/** The send half of the console: characters wait in a buffer of 1024 until the device takes them. */
module Transmission {

  const BUFFER_SIZE: nat := 1024
  const SEND_BUFFER_FULL: int := -2

  /** What waits to be sent, and what the device has been given. */
  datatype Line = Line(buffer: seq<int>, sent: seq<int>)

  /** `__console_send` while the device is ready `ready` times in a row. */
  function Drain(x: Line, ready: nat): Line {
    var k := if ready < |x.buffer| then ready else |x.buffer|;
    Line(x.buffer[k..], x.sent + x.buffer[..k])
  }

  /** `__putc`, the device being ready so many times at each of its two chances to send. */
  function Put(x: Line, c: int, first: nat, second: nat): (Line, int) {
    var x1 := if |x.buffer| == BUFFER_SIZE then Drain(x, first) else x;
    if |x1.buffer| == BUFFER_SIZE then (x1, SEND_BUFFER_FULL)
    else
      var x2 := Drain(x1, second);
      (x2.(buffer := x2.buffer + [c]), 0)
  }

  datatype Op = Putc(c: int, first: nat, second: nat) | Send(ready: nat)

  function After(ops: seq<Op>): Line {
    if ops == [] then Line([], [])
    else
      var x := After(ops[..|ops| - 1]);
      match ops[|ops| - 1]
      case Putc(c, first, second) => Put(x, c, first, second).0
      case Send(ready) => Drain(x, ready)
  }

  /** The characters accepted by the calls so far, in order. */
  function Accepted(ops: seq<Op>): seq<int> {
    if ops == [] then []
    else
      var n := |ops| - 1;
      match ops[n]
      case Putc(c, first, second) =>
        if Put(After(ops[..n]), c, first, second).1 == 0 then Accepted(ops[..n]) + [c] else Accepted(ops[..n])
      case Send(_) => Accepted(ops[..n])
  }

  lemma DrainKeeps(x: Line, ready: nat)
    ensures Drain(x, ready).sent + Drain(x, ready).buffer == x.sent + x.buffer
    ensures |Drain(x, ready).buffer| <= |x.buffer|
    ensures x.sent <= Drain(x, ready).sent
    ensures |Drain(x, ready).buffer| == |x.buffer| <==> ready == 0 || x.buffer == []
  {
    var k := if ready < |x.buffer| then ready else |x.buffer|;
    assert x.buffer == x.buffer[..k] + x.buffer[k..];
  }

  /** A send takes out as many characters as the device is ready for, or all; with DrainKeeps this says
      which, and what is left. */
  lemma DrainCount(x: Line, ready: nat)
    ensures |Drain(x, ready).buffer| == Left(|x.buffer|, ready)
    ensures |Drain(x, ready).sent| == |x.sent| + |x.buffer| - Left(|x.buffer|, ready)
  {
  }

  /** What is left of so many characters when the device takes `ready`. */
  function Left(count: nat, ready: nat): nat { if ready < count then count - ready else 0 }

  /** A full buffer is emptied twice over, any other once; then the new character joins. */
  lemma PutCount(x: Line, c: int, first: nat, second: nat)
    requires |x.buffer| <= BUFFER_SIZE && Put(x, c, first, second).1 == 0
    ensures |Put(x, c, first, second).0.buffer|
         == Left(if |x.buffer| == BUFFER_SIZE then Left(BUFFER_SIZE, first) else |x.buffer|, second) + 1
  {
    DrainCount(x, first);
  }

  /** A character is refused exactly when the buffer is full and the device takes nothing; then
      nothing changes. */
  lemma PutKeeps(x: Line, c: int, first: nat, second: nat)
    requires |x.buffer| <= BUFFER_SIZE
    ensures var (x', code) := Put(x, c, first, second);
            && |x'.buffer| <= BUFFER_SIZE && x.sent <= x'.sent
            && (code == SEND_BUFFER_FULL <==> |x.buffer| == BUFFER_SIZE && first == 0)
            && (code == SEND_BUFFER_FULL || code == 0)
            && (code == SEND_BUFFER_FULL ==> x' == x)
            && (code == 0 ==> x'.sent + x'.buffer == x.sent + x.buffer + [c])
  {
    var x1 := if |x.buffer| == BUFFER_SIZE then Drain(x, first) else x;
    DrainKeeps(x, first);
    DrainKeeps(x1, second);
    if first == 0 && |x.buffer| == BUFFER_SIZE { assert x.buffer[..0] == [] && x.sent + [] == x.sent; }
    var x2 := Drain(x1, second);
    assert x2.sent + (x2.buffer + [c]) == (x2.sent + x2.buffer) + [c];
  }

  /** Whatever the device does and however calls to send and to put mix, the accepted characters
      are those transmitted followed by those waiting, in order. */
  lemma {:induction false} NothingLost(ops: seq<Op>)
    ensures After(ops).sent + After(ops).buffer == Accepted(ops) && |After(ops).buffer| <= BUFFER_SIZE
  {
    if ops != [] {
      var n := |ops| - 1;
      NothingLost(ops[..n]);
      match ops[n] {
        case Putc(c, first, second) => PutKeeps(After(ops[..n]), c, first, second);
        case Send(ready) => DrainKeeps(After(ops[..n]), ready);
      }
    }
  }

  /** The buffer in memory. */
  class Transmitter {
    const buffer: array<int>
    var count: nat
    /** What has been written to the device's register. */
    ghost var sent: seq<int>

    ghost predicate Valid()
      reads this
    {
      buffer.Length == BUFFER_SIZE && count <= BUFFER_SIZE
    }

    ghost function Value(): Line
      requires Valid()
      reads this, buffer
    {
      Line(buffer[..count], sent)
    }

    constructor (memory: array<int>)
      requires memory.Length == BUFFER_SIZE
      ensures Valid() && buffer == memory && Value() == Line([], [])
    {
      buffer, count, sent := memory, 0, [];
    }

    /** `__console_send`. */
    method Send(ready: nat)
      requires Valid()
      modifies this, buffer
      ensures Valid() && Value() == Drain(old(Value()), ready)
      ensures count == if ready < old(count) then old(count) - ready else 0
      ensures sent + buffer[..count] == old(sent) + old(buffer[..count])
    {
      ghost var x := Value();
      var bytesSent := 0;
      while bytesSent < ready && bytesSent < count
        invariant bytesSent <= count && bytesSent <= ready
        invariant count == old(count) && buffer[..] == old(buffer[..]) && sent == old(sent) + buffer[..bytesSent]
      {
        sent := sent + [buffer[bytesSent]];
        bytesSent := bytesSent + 1;
      }
      count := count - bytesSent;
      for i := 0 to count
        invariant count == old(count) - bytesSent && sent == old(sent) + old(buffer[..bytesSent])
        invariant forall j :: 0 <= j < i ==> buffer[j] == old(buffer[bytesSent + j])
        invariant forall j :: i <= j < BUFFER_SIZE ==> buffer[j] == old(buffer[j])
      {
        buffer[i] := buffer[bytesSent + i];
      }
      assert buffer[..count] == old(buffer[..count])[bytesSent..];
      DrainKeeps(x, ready);
    }

    /** `__putc`. */
    method Putc(c: int, first: nat, second: nat) returns (code: int)
      requires Valid()
      modifies this, buffer
      ensures Valid() && (Value(), code) == Put(old(Value()), c, first, second)
    {
      DrainKeeps(Value(), first);
      if count == BUFFER_SIZE {
        Send(first);
        if count == BUFFER_SIZE { return SEND_BUFFER_FULL; }
      }
      DrainKeeps(Value(), second);
      Send(second);
      ghost var x2 := Value();
      buffer[count] := c;
      count := count + 1;
      assert buffer[..count] == x2.buffer + [c];
      return 0;
    }
  }
}
