/**
 * The serial transport: a polling receive bounded by a timeout on the
 * free-running tick counter, and byte-wise transmit.
 *
 * The hardware the receive loop polls is given as the sequence of what each
 * turn of the loop observes (the tick counter and the head of the RX FIFO).
 * When that sequence runs out before the loop returns, the outcome is
 * `Pending`: the firmware is still polling.
 */
module Uart {
  import opened Hardware

  datatype UartStatus = UartOk | UartError

  /**
   * What one turn of the receive loop observes: the tick counter (consulted
   * only when the timeout is checked) and the byte at the head of the RX FIFO,
   * if the FIFO is not empty.
   */
  datatype Poll = Poll(now: uint32, rx: Option<byte>)

  datatype RxOutcome = Returned(status: UartStatus) | Pending

  /** What a receive returns, and the bytes it popped, in order. */
  datatype RxRun = RxRun(outcome: RxOutcome, bytes: seq<byte>)

  /** The bytes the FIFO offers over the given turns, in arrival order. */
  function Arrivals(polls: seq<Poll>): seq<byte>
  {
    if polls == [] then []
    else (if polls[0].rx.Some? then [polls[0].rx.value] else []) + Arrivals(polls[1..])
  }

  /** The timeout test of uart_receive_timeout, made only when `timeout` is not the sentinel. */
  predicate TimedOut(timeout: nat, tickstart: uint32, now: uint32)
  {
    Sub32(now, tickstart) > timeout
  }

  /**
   * uart_receive_timeout from a point where `length` bytes are still wanted
   * and `polls` are the turns still to come.
   */
  function ReceiveLoop(length: nat, timeout: nat, maxDelay: nat, tickstart: uint32, polls: seq<Poll>): RxRun
    decreases |polls|
  {
    if length == 0 then RxRun(Returned(UartOk), [])
    else if timeout != maxDelay && timeout == 0 then RxRun(Returned(UartError), [])
    else if polls == [] then RxRun(Pending, [])
    else if timeout != maxDelay && TimedOut(timeout, tickstart, polls[0].now) then RxRun(Returned(UartError), [])
    else if polls[0].rx.Some? then
      var rest := ReceiveLoop(length - 1, timeout, maxDelay, tickstart, polls[1..]);
      RxRun(rest.outcome, [polls[0].rx.value] + rest.bytes)
    else ReceiveLoop(length, timeout, maxDelay, tickstart, polls[1..])
  }

  /**
   * uart_receive_timeout: `tickstart` is the tick read on entry. Bytes are
   * stored at `data[0..)` as they are popped; on failure the ones already
   * popped stay written.
   */
  method ReceiveTimeout(data: array<byte>, length: uint16, timeout: uint16, maxDelay: nat, tickstart: uint32, polls: seq<Poll>)
    returns (outcome: RxOutcome)
    requires length <= data.Length
    modifies data
    ensures var run := ReceiveLoop(length, timeout, maxDelay, tickstart, polls);
            && outcome == run.outcome
            && |run.bytes| <= length
            && data[..|run.bytes|] == run.bytes
            && data[|run.bytes|..] == old(data[|run.bytes|..])
  {
    var remaining: nat := length;
    var pos: nat := 0;   // where the `data++` pointer is
    var i: nat := 0;     // turns of the loop so far
    ghost var total := ReceiveLoop(length, timeout, maxDelay, tickstart, polls);
    while remaining > 0
      invariant i <= |polls|
      invariant pos + remaining == length
      invariant data[pos..] == old(data[pos..])
      invariant total == Received(data[..pos], ReceiveLoop(remaining, timeout, maxDelay, tickstart, polls[i..]))
      decreases |polls| - i
    {
      if timeout != maxDelay {
        if timeout == 0 {
          return Returned(UartError);
        }
        if i == |polls| {
          return Pending;
        }
        if TimedOut(timeout, tickstart, polls[i].now) {
          return Returned(UartError);
        }
      }
      if i == |polls| {
        return Pending;
      }
      ghost var before := data[..pos];
      if polls[i].rx.Some? {
        data[pos] := polls[i].rx.value;
        pos := pos + 1;
        remaining := remaining - 1;
      }
      ReceiveAdvance(before, remaining, timeout, maxDelay, tickstart, polls[i..]);
      assert data[..pos] == before + (if polls[i].rx.Some? then [polls[i].rx.value] else []);
      assert polls[i..][1..] == polls[i + 1..];
      i := i + 1;
    }
    assert data[..pos] + [] == data[..pos];
    return Returned(UartOk);
  }

  /** A run preceded by bytes already stored. */
  function Received(got: seq<byte>, run: RxRun): RxRun
  {
    RxRun(run.outcome, got + run.bytes)
  }

  lemma ReceiveAdvance(got: seq<byte>, remainingAfter: nat, timeout: nat, maxDelay: nat, tickstart: uint32, polls: seq<Poll>)
    requires polls != []
    requires timeout != maxDelay ==> timeout != 0 && !TimedOut(timeout, tickstart, polls[0].now)
    ensures var head := if polls[0].rx.Some? then [polls[0].rx.value] else [];
            var before := if polls[0].rx.Some? then remainingAfter + 1 else remainingAfter;
            before > 0 ==>
            Received(got, ReceiveLoop(before, timeout, maxDelay, tickstart, polls))
            == Received(got + head, ReceiveLoop(remainingAfter, timeout, maxDelay, tickstart, polls[1..]))
  {
    var rest := ReceiveLoop(remainingAfter, timeout, maxDelay, tickstart, polls[1..]);
    if polls[0].rx.Some? {
      assert got + ([polls[0].rx.value] + rest.bytes) == (got + [polls[0].rx.value]) + rest.bytes;
    } else {
      assert got + [] == got;
    }
  }

  /** uart_receive: the same as uart_receive_timeout with UART_TIMEOUT. */
  method Receive(data: array<byte>, length: uint16, uartTimeout: uint16, maxDelay: nat, tickstart: uint32, polls: seq<Poll>)
    returns (outcome: RxOutcome)
    requires length <= data.Length
    modifies data
    ensures var run := ReceiveLoop(length, uartTimeout, maxDelay, tickstart, polls);
            && outcome == run.outcome
            && |run.bytes| <= length
            && data[..|run.bytes|] == run.bytes
            && data[|run.bytes|..] == old(data[|run.bytes|..])
  {
    outcome := ReceiveTimeout(data, length, uartTimeout, maxDelay, tickstart, polls);
  }

  /** Nothing wanted: success at once, whatever the timeout, and nothing popped. */
  lemma ReceiveNothing(timeout: nat, maxDelay: nat, tickstart: uint32, polls: seq<Poll>)
    ensures ReceiveLoop(0, timeout, maxDelay, tickstart, polls) == RxRun(Returned(UartOk), [])
  {
  }

  /** A zero timeout that is not the sentinel fails at once when bytes are wanted, and pops nothing. */
  lemma ReceiveZeroTimeout(length: nat, maxDelay: nat, tickstart: uint32, polls: seq<Poll>)
    requires length > 0 && maxDelay != 0
    ensures ReceiveLoop(length, 0, maxDelay, tickstart, polls) == RxRun(Returned(UartError), [])
  {
  }

  /**
   * The bytes popped are the first ones that arrived, in arrival order;
   * UART_OK comes with exactly `length` of them, any other outcome with fewer.
   */
  lemma {:induction false} ReceivedInArrivalOrder(length: nat, timeout: nat, maxDelay: nat, tickstart: uint32, polls: seq<Poll>)
    ensures var run := ReceiveLoop(length, timeout, maxDelay, tickstart, polls);
            && |run.bytes| <= length
            && |run.bytes| <= |Arrivals(polls)|
            && run.bytes == Arrivals(polls)[..|run.bytes|]
            && (run.outcome == Returned(UartOk) <==> |run.bytes| == length)
    decreases |polls|
  {
    if length > 0 && !(timeout != maxDelay && timeout == 0) && polls != []
       && !(timeout != maxDelay && TimedOut(timeout, tickstart, polls[0].now)) {
      if polls[0].rx.Some? {
        ReceivedInArrivalOrder(length - 1, timeout, maxDelay, tickstart, polls[1..]);
      } else {
        ReceivedInArrivalOrder(length, timeout, maxDelay, tickstart, polls[1..]);
      }
    }
  }

  /**
   * UART_ERROR only comes from the timeout test: the timeout is not the
   * sentinel, and it is 0 or some turn saw more than `timeout` ticks elapsed
   * since `tickstart` (modulo 2^32); the bytes popped are those that arrived
   * in the turns before that one.
   */
  lemma {:induction false} ReceiveErrorMeansTimedOut(length: nat, timeout: nat, maxDelay: nat, tickstart: uint32, polls: seq<Poll>)
    requires ReceiveLoop(length, timeout, maxDelay, tickstart, polls).outcome == Returned(UartError)
    ensures timeout != maxDelay
    ensures timeout == 0 ==> ReceiveLoop(length, timeout, maxDelay, tickstart, polls).bytes == []
    ensures timeout != 0 ==>
              exists i :: 0 <= i < |polls| && TimedOut(timeout, tickstart, polls[i].now)
                          && ReceiveLoop(length, timeout, maxDelay, tickstart, polls).bytes == Arrivals(polls[..i])
    decreases |polls|
  {
    if timeout != maxDelay && timeout != 0 {
      if TimedOut(timeout, tickstart, polls[0].now) {
        assert polls[..0] == [];
      } else {
        var rest := if polls[0].rx.Some? then length - 1 else length;
        ReceiveErrorMeansTimedOut(rest, timeout, maxDelay, tickstart, polls[1..]);
        var j :| 0 <= j < |polls[1..]| && TimedOut(timeout, tickstart, polls[1..][j].now)
                 && ReceiveLoop(rest, timeout, maxDelay, tickstart, polls[1..]).bytes == Arrivals(polls[1..][..j]);
        ArrivalsOfPrefix(polls, j + 1);
        assert TimedOut(timeout, tickstart, polls[j + 1].now);
      }
    } else if timeout == maxDelay {
      MaxDelayNeverFails(length, timeout, tickstart, polls);
    }
  }

  lemma ArrivalsOfPrefix(polls: seq<Poll>, i: nat)
    requires 0 < i <= |polls|
    ensures Arrivals(polls[..i]) == (if polls[0].rx.Some? then [polls[0].rx.value] else []) + Arrivals(polls[1..][..i - 1])
  {
    assert polls[..i][1..] == polls[1..][..i - 1];
  }

  /**
   * Conversely, once a turn sees the timeout exceeded before `length` bytes
   * have arrived, the receive fails (when the timeout is not the sentinel).
   */
  lemma {:induction false} ReceiveTimesOut(length: nat, timeout: nat, maxDelay: nat, tickstart: uint32, polls: seq<Poll>, i: nat)
    requires timeout != maxDelay
    requires i < |polls| && TimedOut(timeout, tickstart, polls[i].now)
    requires |Arrivals(polls[..i])| < length
    ensures ReceiveLoop(length, timeout, maxDelay, tickstart, polls).outcome == Returned(UartError)
    decreases i
  {
    if timeout != 0 && i > 0 && !TimedOut(timeout, tickstart, polls[0].now) {
      ArrivalsOfPrefix(polls, i);
      var rest := if polls[0].rx.Some? then length - 1 else length;
      ReceiveTimesOut(rest, timeout, maxDelay, tickstart, polls[1..], i - 1);
    }
  }

  /** With the HAL_MAX_DELAY sentinel as timeout the receive never reports UART_ERROR. */
  lemma {:induction false} MaxDelayNeverFails(length: nat, maxDelay: nat, tickstart: uint32, polls: seq<Poll>)
    ensures ReceiveLoop(length, maxDelay, maxDelay, tickstart, polls).outcome != Returned(UartError)
    decreases |polls|
  {
    if length > 0 && polls != [] {
      if polls[0].rx.Some? {
        MaxDelayNeverFails(length - 1, maxDelay, tickstart, polls[1..]);
      } else {
        MaxDelayNeverFails(length, maxDelay, tickstart, polls[1..]);
      }
    }
  }

  /**
   * `timeout` is a uint16_t: when HAL_MAX_DELAY does not fit in 16 bits the
   * sentinel test is always true and which wide value it has does not matter.
   */
  lemma {:induction false} WideSentinelNeverMatches(length: nat, timeout: uint16, maxDelay: nat, otherMaxDelay: nat, tickstart: uint32, polls: seq<Poll>)
    requires maxDelay > 0xFFFF && otherMaxDelay > 0xFFFF
    ensures ReceiveLoop(length, timeout, maxDelay, tickstart, polls) == ReceiveLoop(length, timeout, otherMaxDelay, tickstart, polls)
    decreases |polls|
  {
    if length > 0 && timeout != 0 && polls != [] {
      if polls[0].rx.Some? {
        WideSentinelNeverMatches(length - 1, timeout, maxDelay, otherMaxDelay, tickstart, polls[1..]);
      } else {
        WideSentinelNeverMatches(length, timeout, maxDelay, otherMaxDelay, tickstart, polls[1..]);
      }
    }
  }

  /** The events of sending `bytes` one by one, in order. */
  function TxEvents(bytes: seq<byte>): (events: seq<Event>)
    ensures |events| == |bytes|
    ensures forall i :: 0 <= i < |bytes| ==> events[i] == Transmit(bytes[i])
  {
    seq(|bytes|, i requires 0 <= i < |bytes| => Transmit(bytes[i]))
  }

  /**
   * uart_transmit_bytes: sends `len` bytes of `data` in order and reports
   * UART_OK. The final wait for room in the TX FIFO is not modelled.
   */
  method TransmitBytes(mcu: Mcu, data: seq<byte>, len: nat) returns (status: UartStatus)
    requires len <= |data|
    modifies mcu`trace
    ensures status == UartOk
    ensures mcu.trace == old(mcu.trace) + TxEvents(data[..len])
  {
    var left := len;
    var p := 0;
    while left > 0
      invariant p + left == len
      invariant mcu.trace == old(mcu.trace) + TxEvents(data[..p])
    {
      mcu.Emit(Transmit(data[p]));
      assert TxEvents(data[..p + 1]) == TxEvents(data[..p]) + [Transmit(data[p])];
      p := p + 1;
      left := left - 1;
    }
    return UartOk;
  }

  /** uart_transmit_ch: sends exactly the one byte. */
  method TransmitCh(mcu: Mcu, b: byte) returns (status: UartStatus)
    modifies mcu`trace
    ensures status == UartOk
    ensures mcu.trace == old(mcu.trace) + [Transmit(b)]
  {
    status := TransmitBytes(mcu, [b], 1);
    assert [b][..1] == [b];
  }

  /** The bytes of a NUL-terminated string before its terminator. */
  function CString(data: seq<byte>): (s: seq<byte>)
    requires 0 in data
    ensures |s| < |data| && s == data[..|s|] && data[|s|] == 0
    ensures 0 !in s
  {
    if data[0] == 0 then [] else [data[0]] + CString(data[1..])
  }

  /**
   * uart_transmit_str: counts the bytes before the NUL and sends exactly
   * those, without the NUL.
   */
  method TransmitStr(mcu: Mcu, data: seq<byte>) returns (status: UartStatus)
    requires 0 in data
    modifies mcu`trace
    ensures status == UartOk
    ensures mcu.trace == old(mcu.trace) + TxEvents(CString(data))
  {
    var length := 0;
    while data[length] != 0
      invariant length < |data| && 0 !in data[..length]
      invariant length <= |CString(data)|
      decreases |CString(data)| - length
    {
      assert data[..length + 1] == data[..length] + [data[length]];
      length := length + 1;
    }
    assert data[..length] == CString(data);
    status := TransmitBytes(mcu, data, length);
  }
}
