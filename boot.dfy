/**
 * The bootloader's controller: the start-up sequence, the wait for an upload
 * request (the XMODEM build's magic token or button hold, or the STK500 /
 * FrSky protocol handler loop), and the decision between handing control to
 * the application and resetting.
 *
 * The protocol handlers and the button are given as what they return, in
 * call order; the boot-time tick is a parameter. When the handler results
 * or the receive's observations run out before the firmware decides, the
 * outcome is "still waiting".
 */
module Boot {
  import opened Hardware
  import opened FlashLayout
  import opened Flash
  import opened Uart
  import opened Strings

  type int8 = x: int | -0x80 <= x < 0x80

  /** The upload protocol the image is built for (XMODEM wins when several are set). */
  datatype Protocol = Xmodem | Stk500 | Frsky

  /** Build-time settings. */
  datatype Config = Config(
    protocol: Protocol,
    hasButton: bool,       // PIN_BUTTON is defined
    blFlashStart: uint32,  // BL_FLASH_START
    uartBaud: nat,         // UART_BAUD
    uartTimeout: uint16,   // UART_TIMEOUT
    maxDelay: nat)         // HAL_MAX_DELAY

  /** What the world answers during one boot. */
  datatype Environment = Environment(
    rxTickstart: uint32,        // tick when the XMODEM build starts listening
    rxPolls: seq<Poll>,         // what its receive loop observes, turn by turn
    firstPress: bool,           // first BTN_READ()
    secondPress: bool,          // BTN_READ() after the debounce delay
    now: uint32,                // GetTickCount() when the STK500/FrSky wait starts
    handlerResults: seq<int8>,  // successive stk500_check() / frsky_check() results
    vectors: AppVectors)        // the first three words of the application image

  /** Why the bootloader stays (BLrequested 1 or 2). */
  datatype Trigger = MagicSequence | ButtonHold

  /** What a boot mode does: return a code to main, stay in the upload loop, or not decide yet. */
  datatype ModeResult = ModeReturned(ret: int8) | StaysInBootloader(trigger: Trigger) | StillWaiting

  /** How a boot ends. */
  datatype BootResult = JumpedToApp(entry: uint32) | ResetIssued | InBootloader(trigger: Trigger) | Undecided

  // ---------------------------------------------------------------- boot wait

  /** The default BOOT_WAIT, in ms; a build may define its own. */
  const BOOT_WAIT: nat := 300

  /**
   * boot_wait_timer_end: more than `bootWait` (the build's BOOT_WAIT) ms
   * since boot_start_time, in uint32 arithmetic.
   */
  predicate BootWaitTimerEnd(mcu: Mcu, bootWait: nat, now: uint32)
    reads mcu
  {
    bootWait < Sub32(now, mcu.bootStartTime)
  }

  /**
   * The unsigned subtraction makes the test right across a wrap of the tick
   * counter: whenever less than 2^32 ms really elapsed, the timer has ended
   * exactly when more than `bootWait` ms did, whatever BOOT_WAIT the build uses.
   */
  lemma BootWaitSurvivesWrap(mcu: Mcu, bootWait: nat, elapsed: nat, now: uint32)
    requires elapsed < TWO_TO_THE_32
    requires now == Wrap32(mcu.bootStartTime + elapsed)
    ensures BootWaitTimerEnd(mcu, bootWait, now) <==> elapsed > bootWait
  {
    var start := mcu.bootStartTime;
    if start + elapsed < TWO_TO_THE_32 {
      assert now == start + elapsed;
    } else {
      assert now == start + elapsed - TWO_TO_THE_32;
      assert Sub32(now, start) == elapsed;
    }
  }

  // ------------------------------------------------------- STK500 and FrSky

  /** The position of the first negative result, if any. */
  function FirstNegative(results: seq<int8>): (r: Option<nat>)
    ensures r.Some? ==> r.value < |results| && results[r.value] < 0
    ensures r.Some? ==> forall j :: 0 <= j < r.value ==> results[j] >= 0
    ensures r.None? <==> forall j :: 0 <= j < |results| ==> results[j] >= 0
  {
    if results == [] then None
    else if results[0] < 0 then Some(0)
    else match FirstNegative(results[1..]) {
      case None => None
      case Some(i) => Some(i + 1)
    }
  }

  /**
   * What boot_code_stk returns: the handler is called while the last result
   * is not negative, so it returns the first negative result, which makes
   * main try the application; it never returns anything else.
   */
  function StkDecision(results: seq<int8>): (m: ModeResult)
    ensures !m.StaysInBootloader?
    ensures m.ModeReturned? ==> m.ret < 0
    ensures m.ModeReturned? <==> exists j :: 0 <= j < |results| && results[j] < 0
  {
    match FirstNegative(results)
    case None => StillWaiting
    case Some(i) => ModeReturned(results[i])
  }

  /** `n` calls of the protocol handler. */
  function HandlerSteps(n: nat): (events: seq<Event>)
    ensures |events| == n && forall i :: 0 <= i < n ==> events[i] == HandlerStep
  {
    seq(n, _ => HandlerStep)
  }

  /**
   * What boot_code_stk does to the hardware: serial up and cleared, one
   * handler call per result up to and including the first negative one,
   * then, if the loop ended, the serial port shut down.
   */
  function StkEvents(baud: nat, results: seq<int8>): seq<Event>
  {
    match FirstNegative(results)
    case Some(i) => [UartInit(baud), UartClear] + HandlerSteps(i + 1) + [UartDeinit]
    case None => [UartInit(baud), UartClear] + HandlerSteps(|results|)
  }

  /**
   * boot_code_stk: brings the serial port up and clears it, records the
   * start of the boot wait, polls the protocol handler until it returns a
   * negative value, then shuts the serial port down.
   */
  method BootCodeStk(mcu: Mcu, baud: nat, now: uint32, results: seq<int8>) returns (result: ModeResult)
    modifies mcu`trace, mcu`bootStartTime
    ensures result == StkDecision(results)
    ensures mcu.bootStartTime == now
    ensures mcu.trace == old(mcu.trace) + StkEvents(baud, results)
  {
    var ret: int8 := 0;
    mcu.Emit(UartInit(baud));
    mcu.Emit(UartClear);
    ghost var prefix := mcu.trace;
    mcu.bootStartTime := now;
    var calls := 0;
    while 0 <= ret
      invariant calls <= |results|
      invariant calls == 0 ==> ret == 0
      invariant calls > 0 ==> ret == results[calls - 1]
      invariant forall j :: 0 <= j < calls - 1 ==> results[j] >= 0
      invariant mcu.trace == prefix + HandlerSteps(calls)
      invariant mcu.bootStartTime == now
      decreases |results| - calls, if ret < 0 then 0 else 1
    {
      if calls == |results| {
        assert FirstNegative(results) == None;
        AppendAssoc(old(mcu.trace), [UartInit(baud), UartClear], HandlerSteps(calls));
        return StillWaiting;
      }
      mcu.Emit(HandlerStep);
      ret := results[calls];
      calls := calls + 1;
    }
    assert FirstNegative(results) == Some(calls - 1);
    mcu.Emit(UartDeinit);
    AppendAssoc(old(mcu.trace), [UartInit(baud), UartClear] + HandlerSteps(calls), [UartDeinit]);
    AppendAssoc(old(mcu.trace), [UartInit(baud), UartClear], HandlerSteps(calls));
    return ModeReturned(ret);
  }

  // ------------------------------------------------------------------ XMODEM

  /** The token that asks the XMODEM build to stay: "bbbb". */
  const MAGIC: seq<byte> := [0x62, 0x62, 0x62, 0x62]

  /** The lines of print_boot_header, then the prompt. */
  const HEADER_LINES: seq<string> := [
    "\n\r==========ASR6601",
    " ==========\n\r",
    "  Bootloader for ExpressLRS\n\r",
    "=============================\n\r",
    "==========ASR6601CB==========\n\r"]
  const PROMPT: string := "Send 'bbbb' or hold down button\n\r"

  /** What uart_transmit_str sends for a string literal (it stops at the first NUL). */
  function Printed(s: string): (events: seq<Event>)
    ensures |events| <= |s|
  {
    TxEvents(CString(Text(s) + [0]))
  }

  /** print_boot_header's output. */
  function HeaderEvents(): seq<Event>
  {
    Printed(HEADER_LINES[0]) + Printed(HEADER_LINES[1]) + Printed(HEADER_LINES[2])
    + Printed(HEADER_LINES[3]) + Printed(HEADER_LINES[4])
  }

  method SendText(mcu: Mcu, s: string)
    modifies mcu`trace
    ensures mcu.trace == old(mcu.trace) + Printed(s)
  {
    var _ := TransmitStr(mcu, Text(s) + [0]);
  }

  /** print_boot_header */
  method PrintBootHeader(mcu: Mcu)
    modifies mcu`trace
    ensures mcu.trace == old(mcu.trace) + HeaderEvents()
  {
    SendText(mcu, HEADER_LINES[0]);
    SendText(mcu, HEADER_LINES[1]);
    SendText(mcu, HEADER_LINES[2]);
    SendText(mcu, HEADER_LINES[3]);
    SendText(mcu, HEADER_LINES[4]);
    ghost var p0, p1, p2, p3, p4 := Printed(HEADER_LINES[0]), Printed(HEADER_LINES[1]), Printed(HEADER_LINES[2]), Printed(HEADER_LINES[3]), Printed(HEADER_LINES[4]);
    AppendAssoc(old(mcu.trace), p0 + p1 + p2 + p3, p4);
    AppendAssoc(old(mcu.trace), p0 + p1 + p2, p3);
    AppendAssoc(old(mcu.trace), p0 + p1, p2);
    AppendAssoc(old(mcu.trace), p0, p1);
  }

  lemma AppendAssoc(a: seq<Event>, b: seq<Event>, c: seq<Event>)
    ensures a + (b + c) == a + b + c
  {
  }

  /** The 6-byte zero-initialised header buffer after the receive stored `bytes` at its start. */
  function HeaderAfter(bytes: seq<byte>): (h: seq<byte>)
    requires |bytes| <= 6
    ensures |h| == 6 && h[..|bytes|] == bytes
    ensures forall i :: |bytes| <= i < 6 ==> h[i] == 0
  {
    bytes + seq(6 - |bytes|, _ => 0)
  }

  /** The receive of boot_code_xmodem: five bytes, with UART_TIMEOUT. */
  function HeaderReceive(cfg: Config, env: Environment): (run: RxRun)
    ensures |run.bytes| <= 5
    ensures run.outcome == Returned(UartOk) <==> |run.bytes| == 5
  {
    ReceivedInArrivalOrder(5, cfg.uartTimeout, cfg.maxDelay, env.rxTickstart, env.rxPolls);
    ReceiveLoop(5, cfg.uartTimeout, cfg.maxDelay, env.rxTickstart, env.rxPolls)
  }

  /** The receive succeeded and strnstr finds "bbbb" in the 6-byte header (BLrequested = 1). */
  predicate MagicReceived(cfg: Config, env: Environment)
  {
    var run := HeaderReceive(cfg, env);
    run.outcome == Returned(UartOk) && Strnstr(HeaderAfter(run.bytes), MAGIC, 6).Some?
  }

  /** The button was down at both reads, 200 ms apart (BLrequested = 2). */
  predicate ButtonHeld(cfg: Config, env: Environment)
  {
    cfg.hasButton && env.firstPress && env.secondPress
  }

  /** What boot_code_xmodem does once the receive has returned. */
  function XmodemDecision(cfg: Config, env: Environment): ModeResult
  {
    if HeaderReceive(cfg, env).outcome == Pending then StillWaiting
    else if MagicReceived(cfg, env) then StaysInBootloader(MagicSequence)
    else if ButtonHeld(cfg, env) then StaysInBootloader(ButtonHold)
    else ModeReturned(-1)
  }

  /** The button reads, which happen only in a button build where the token was not received. */
  function ButtonEvents(cfg: Config, env: Environment): seq<Event>
  {
    if !cfg.hasButton || MagicReceived(cfg, env) then []
    else if env.firstPress then [ButtonRead, Delay(200), ButtonRead]
    else [ButtonRead]
  }

  /** What boot_code_xmodem does to the hardware until it decides. */
  function XmodemEvents(cfg: Config, env: Environment): seq<Event>
  {
    [UartInit(cfg.uartBaud)] + HeaderEvents() + Printed(PROMPT)
    + (if HeaderReceive(cfg, env).outcome == Pending then [] else ButtonEvents(cfg, env))
  }

  /**
   * boot_code_xmodem: brings the serial port up, prints the banner and the
   * prompt, waits for five bytes, and looks for "bbbb" in them; without it,
   * a button build reads the button twice around a 200 ms debounce. Without
   * a request it returns -1; with one it stays in the XMODEM upload loop.
   */
  method BootCodeXmodem(mcu: Mcu, cfg: Config, env: Environment) returns (result: ModeResult)
    modifies mcu`trace
    ensures result == XmodemDecision(cfg, env)
    ensures mcu.trace == old(mcu.trace) + XmodemEvents(cfg, env)
  {
    mcu.Emit(UartInit(cfg.uartBaud));
    PrintBootHeader(mcu);
    SendText(mcu, PROMPT);
    var magic, pending := ListenForMagic(cfg, env);
    ghost var shown := [UartInit(cfg.uartBaud)] + HeaderEvents() + Printed(PROMPT);
    ghost var buttons := if pending then [] else ButtonEvents(cfg, env);
    AppendAssoc(old(mcu.trace), shown, buttons);
    AppendAssoc(old(mcu.trace), [UartInit(cfg.uartBaud)] + HeaderEvents(), Printed(PROMPT));
    AppendAssoc(old(mcu.trace), [UartInit(cfg.uartBaud)], HeaderEvents());
    if pending {
      return StillWaiting;
    }
    var blRequested := if magic then 1 else 0;
    if cfg.hasButton && blRequested == 0 {
      var held := ConsultButton(mcu, env);
      if held {
        blRequested := 2;
      }
    }
    if blRequested == 0 {
      return ModeReturned(-1);
    }
    return StaysInBootloader(if blRequested == 1 then MagicSequence else ButtonHold);
  }

  /**
   * The receive of boot_code_xmodem into the zeroed 6-byte header, and the
   * strnstr search for "bbbb" over all six bytes when it succeeds.
   */
  method ListenForMagic(cfg: Config, env: Environment) returns (magic: bool, pending: bool)
    ensures pending <==> HeaderReceive(cfg, env).outcome == Pending
    ensures magic <==> MagicReceived(cfg, env)
  {
    var header := new byte[6](_ => 0);
    assert header[..] == seq(6, _ => 0);
    var rx := Receive(header, 5, cfg.uartTimeout, cfg.maxDelay, env.rxTickstart, env.rxPolls);
    ghost var run := HeaderReceive(cfg, env);
    pending := rx == Pending;
    magic := false;
    if rx == Returned(UartOk) {
      assert header[..5] == run.bytes && header[5] == 0;
      assert header[..] == HeaderAfter(run.bytes);
      magic := Strnstr(header[..], MAGIC, 6).Some?;
    }
  }

  /** `!BLrequested && BTN_READ()`, then the debounce and the second read. */
  method ConsultButton(mcu: Mcu, env: Environment) returns (held: bool)
    modifies mcu`trace
    ensures held <==> env.firstPress && env.secondPress
    ensures mcu.trace == old(mcu.trace) + (if env.firstPress then [ButtonRead, Delay(200), ButtonRead] else [ButtonRead])
  {
    held := false;
    mcu.Emit(ButtonRead);
    if env.firstPress {
      mcu.Emit(Delay(200));
      mcu.Emit(ButtonRead);
      held := env.secondPress;
    }
  }


  // -------------------------------------------------------------------- main

  /** main's start-up, up to and including __enable_irq(). */
  function InitEvents(blFlashStart: uint32): seq<Event>
  {
    [ RegisterWrite(VTOR_REGISTER, blFlashStart), SystemInit,
      ClockOn(Uart0), ClockOn(GpioA), ClockOn(GpioB), ClockOn(GpioC), ClockOn(GpioD),
      IrqEnable ]
  }

  /**
   * What the boot mode does to the hardware: XMODEM's, or, for STK500 and
   * FrSky, a 500 ms pause when BL_FLASH_START is 64 KiB-aligned
   * (BL_FLASH_START & 0xFFFF is 0) and then the handler loop's.
   */
  function ModeEvents(cfg: Config, env: Environment): seq<Event>
  {
    if cfg.protocol == Xmodem then XmodemEvents(cfg, env)
    else (if cfg.blFlashStart % 0x1_0000 == 0 then [Delay(500)] else []) + StkEvents(cfg.uartBaud, env.handlerResults)
  }

  /** What the build's boot mode does. */
  function ModeOf(cfg: Config, env: Environment): ModeResult
  {
    if cfg.protocol == Xmodem then XmodemDecision(cfg, env) else StkDecision(env.handlerResults)
  }

  /**
   * How the boot ends for a mode result: a negative return tries the
   * application, which is entered when its vectors pass the check; every
   * other return, and an image that fails the check, resets the device.
   */
  function Outcome(mode: ModeResult, v: AppVectors): BootResult
  {
    match mode
    case StaysInBootloader(t) => InBootloader(t)
    case StillWaiting => Undecided
    case ModeReturned(ret) =>
      if ret < 0 && CheckAppLoaded(v) == 0 then JumpedToApp(v.reset as int) else ResetIssued
  }

  /** What the end of main does to the hardware for each way the boot ends. */
  function EndEvents(result: BootResult): seq<Event>
  {
    match result
    case JumpedToApp(entry) => HandoffEvents(entry)
    case ResetIssued => [SystemReset]
    case InBootloader(_) => []
    case Undecided => []
  }

  /** Everything main does to the hardware, in order. */
  function BootEvents(cfg: Config, env: Environment): seq<Event>
  {
    InitEvents(cfg.blFlashStart) + ModeEvents(cfg, env) + EndEvents(Outcome(ModeOf(cfg, env), env.vectors))
  }

  /** The end of main: try the application when `ret` is negative, otherwise reset. */
  method Handoff(mcu: Mcu, ret: int8, v: AppVectors) returns (result: BootResult)
    modifies mcu`trace
    ensures result == Outcome(ModeReturned(ret), v)
    ensures result.JumpedToApp? ==> mcu.trace == old(mcu.trace) + HandoffEvents(result.entry)
    ensures result == ResetIssued ==> mcu.trace == old(mcu.trace) + [SystemReset]
  {
    if ret < 0 {
      var jump := JumpToApp(mcu, v);
      if jump.Proceed? {
        return JumpedToApp(jump.entry);
      }
      // flash_jump_to_app has reset the device, and NVIC_SystemReset does not return.
      return ResetIssued;
    }
    mcu.Emit(SystemReset);
    return ResetIssued;
  }

  /**
   * The boot mode of main: XMODEM, or, for STK500 and FrSky, a 500 ms pause
   * when BL_FLASH_START is 64 KiB-aligned (BL_FLASH_START & 0xFFFF is 0)
   * followed by the handler loop.
   */
  method RunMode(mcu: Mcu, cfg: Config, env: Environment) returns (mode: ModeResult)
    modifies mcu`trace, mcu`bootStartTime
    ensures mode == ModeOf(cfg, env)
    ensures mcu.trace == old(mcu.trace) + ModeEvents(cfg, env)
    ensures mcu.bootStartTime == if cfg.protocol == Xmodem then old(mcu.bootStartTime) else env.now
  {
    if cfg.protocol == Xmodem {
      mode := BootCodeXmodem(mcu, cfg, env);
    } else {
      ghost var pause: seq<Event> := if cfg.blFlashStart % 0x1_0000 == 0 then [Delay(500)] else [];
      if cfg.blFlashStart % 0x1_0000 == 0 {
        mcu.Emit(Delay(500));
      }
      mode := BootCodeStk(mcu, cfg.uartBaud, env.now, env.handlerResults);
      AppendAssoc(old(mcu.trace), pause, StkEvents(cfg.uartBaud, env.handlerResults));
    }
  }

  /** main */
  method BootMain(mcu: Mcu, cfg: Config, env: Environment) returns (result: BootResult)
    modifies mcu`trace, mcu`irqEnabled, mcu`bootStartTime
    ensures result == Outcome(ModeOf(cfg, env), env.vectors)
    ensures mcu.trace == old(mcu.trace) + InitEvents(cfg.blFlashStart) + ModeEvents(cfg, env) + EndEvents(result)
    ensures mcu.irqEnabled
    ensures mcu.bootStartTime == if cfg.protocol == Xmodem then old(mcu.bootStartTime) else env.now
  {
    mcu.Emit(RegisterWrite(VTOR_REGISTER, cfg.blFlashStart));
    mcu.Emit(SystemInit);
    mcu.Emit(ClockOn(Uart0));
    mcu.Emit(ClockOn(GpioA));
    mcu.Emit(ClockOn(GpioB));
    mcu.Emit(ClockOn(GpioC));
    mcu.Emit(ClockOn(GpioD));
    mcu.EnableIrq();
    ghost var init := mcu.trace;
    assert init == old(mcu.trace) + InitEvents(cfg.blFlashStart);

    var mode := RunMode(mcu, cfg, env);

    match mode {
      case StaysInBootloader(t) =>
        result := InBootloader(t);
      case StillWaiting =>
        result := Undecided;
      case ModeReturned(ret) =>
        result := Handoff(mcu, ret, env.vectors);
    }
  }

  // ---------------------------------------------------------------- properties

  /**
   * strnstr over the header sees "bbbb" exactly when it starts the five
   * received bytes, or follows a first byte that is not NUL: a NUL first
   * byte ends the C string and hides the token. The sixth byte is always
   * the buffer's zero.
   */
  lemma MagicPlacement(received: seq<byte>)
    requires |received| == 5
    ensures Strnstr(HeaderAfter(received), MAGIC, 6).Some? <==>
              received[..4] == MAGIC || (received[0] != 0 && received[1..] == MAGIC)
  {
    var h := HeaderAfter(received);
    assert h[..5] == received;
    if received[..4] == MAGIC {
      assert MatchAt(h, MAGIC, 6, 0);
    } else if received[0] != 0 && received[1..] == MAGIC {
      assert h[..1] == [received[0]];
      assert h[1..5] == MAGIC;
      assert MatchAt(h, MAGIC, 6, 1);
    } else {
      assert !MatchAt(h, MAGIC, 6, 0) by {
        assert h[..4] == received[..4];
      }
      assert !MatchAt(h, MAGIC, 6, 1) by {
        assert h[..1] == [received[0]];
        assert h[1..5] == received[1..];
      }
      assert !MatchAt(h, MAGIC, 6, 2) by {
        assert h[2..6][3] == h[5];
      }
    }
  }

  /**
   * When five bytes arrive before the timeout and the first four are
   * "bbbb", the XMODEM build stays in the bootloader for the token, whatever
   * the button does.
   */
  lemma MagicArrivalKeepsBootloader(cfg: Config, env: Environment)
    requires HeaderReceive(cfg, env).outcome == Returned(UartOk)
    requires |Arrivals(env.rxPolls)| >= 4 && Arrivals(env.rxPolls)[..4] == MAGIC
    ensures XmodemDecision(cfg, env) == StaysInBootloader(MagicSequence)
  {
    var run := HeaderReceive(cfg, env);
    ReceivedInArrivalOrder(5, cfg.uartTimeout, cfg.maxDelay, env.rxTickstart, env.rxPolls);
    assert run.bytes[..4] == Arrivals(env.rxPolls)[..4];
    MagicPlacement(run.bytes);
  }

  /**
   * The XMODEM build returns to main only with -1, and stays for the button
   * only in a button build whose token did not arrive and whose button was
   * down at both reads.
   */
  lemma XmodemRequests(cfg: Config, env: Environment)
    ensures XmodemDecision(cfg, env).ModeReturned? ==> XmodemDecision(cfg, env).ret == -1
    ensures XmodemDecision(cfg, env).ModeReturned? <==>
              HeaderReceive(cfg, env).outcome != Pending && !MagicReceived(cfg, env) && !ButtonHeld(cfg, env)
    ensures XmodemDecision(cfg, env) == StaysInBootloader(ButtonHold) <==>
              HeaderReceive(cfg, env).outcome != Pending && !MagicReceived(cfg, env) && ButtonHeld(cfg, env)
    ensures HeaderReceive(cfg, env).outcome == Returned(UartError) ==>
              XmodemDecision(cfg, env) != StaysInBootloader(MagicSequence)
  {
  }

  /**
   * The application is entered only when the mode gave up (returned a
   * negative value) and the image passes the vector check, and then at its
   * reset vector.
   */
  lemma JumpOnlyToValidImage(cfg: Config, env: Environment)
    ensures Outcome(ModeOf(cfg, env), env.vectors).JumpedToApp? <==>
              ModeOf(cfg, env).ModeReturned? && CheckAppLoaded(env.vectors) == 0
    ensures Outcome(ModeOf(cfg, env), env.vectors).JumpedToApp? ==>
              Outcome(ModeOf(cfg, env), env.vectors).entry == env.vectors.reset as int
  {
    ModeGivesUpNegative(cfg, env);
    JumpNeedsValidImage(ModeOf(cfg, env), env.vectors);
  }

  /** Both boot modes return to main only with a negative value. */
  lemma ModeGivesUpNegative(cfg: Config, env: Environment)
    ensures ModeOf(cfg, env).ModeReturned? ==> ModeOf(cfg, env).ret < 0
  {
    if cfg.protocol == Xmodem {
      XmodemRequests(cfg, env);
    }
  }

  lemma JumpNeedsValidImage(mode: ModeResult, v: AppVectors)
    requires mode.ModeReturned? ==> mode.ret < 0
    ensures Outcome(mode, v).JumpedToApp? <==> mode.ModeReturned? && CheckAppLoaded(v) == 0
    ensures Outcome(mode, v).JumpedToApp? ==> Outcome(mode, v).entry == v.reset as int
  {
  }

  /**
   * An STK500 or FrSky build never stays in the bootloader on its own: once
   * the handler gives up it enters a valid application, and it resets only
   * when the image fails the vector check.
   */
  lemma StkBuildLeavesBootloader(cfg: Config, env: Environment)
    requires cfg.protocol != Xmodem
    ensures !Outcome(ModeOf(cfg, env), env.vectors).InBootloader?
    ensures Outcome(ModeOf(cfg, env), env.vectors) == ResetIssued <==>
              ModeOf(cfg, env).ModeReturned? && CheckAppLoaded(env.vectors) != 0
    ensures Outcome(ModeOf(cfg, env), env.vectors) == Undecided <==>
              forall j :: 0 <= j < |env.handlerResults| ==> env.handlerResults[j] >= 0
  {
  }

  /** No event in `events` jumps to the application or resets the system. */
  predicate Quiet(events: seq<Event>)
  {
    forall i :: 0 <= i < |events| ==> !events[i].Jump? && events[i] != SystemReset
  }

  /** Start-up and the boot mode neither jump nor reset: only the end of main does. */
  lemma StartAndModeQuiet(cfg: Config, env: Environment)
    ensures Quiet(InitEvents(cfg.blFlashStart) + ModeEvents(cfg, env))
  {
    if cfg.protocol == Xmodem {
      XmodemQuiet(cfg, env);
    } else {
      StkQuiet(cfg.uartBaud, env.handlerResults);
      var pause: seq<Event> := if cfg.blFlashStart % 0x1_0000 == 0 then [Delay(500)] else [];
      QuietJoin(pause, StkEvents(cfg.uartBaud, env.handlerResults));
    }
    QuietJoin(InitEvents(cfg.blFlashStart), ModeEvents(cfg, env));
  }

  lemma PrintedQuiet(s: string)
    ensures Quiet(Printed(s))
  {
  }

  lemma XmodemQuiet(cfg: Config, env: Environment)
    ensures Quiet(XmodemEvents(cfg, env))
  {
    var h := HEADER_LINES;
    forall k | 0 <= k < 5 ensures Quiet(Printed(h[k])) {
      PrintedQuiet(h[k]);
    }
    PrintedQuiet(PROMPT);
    QuietJoin(Printed(h[0]), Printed(h[1]));
    QuietJoin(Printed(h[0]) + Printed(h[1]), Printed(h[2]));
    QuietJoin(Printed(h[0]) + Printed(h[1]) + Printed(h[2]), Printed(h[3]));
    QuietJoin(Printed(h[0]) + Printed(h[1]) + Printed(h[2]) + Printed(h[3]), Printed(h[4]));
    QuietJoin([UartInit(cfg.uartBaud)], HeaderEvents());
    QuietJoin([UartInit(cfg.uartBaud)] + HeaderEvents(), Printed(PROMPT));
    QuietJoin([UartInit(cfg.uartBaud)] + HeaderEvents() + Printed(PROMPT),
              if HeaderReceive(cfg, env).outcome == Pending then [] else ButtonEvents(cfg, env));
  }

  lemma StkQuiet(baud: nat, results: seq<int8>)
    ensures Quiet(StkEvents(baud, results))
  {
    match FirstNegative(results) {
      case Some(i) =>
        QuietJoin([UartInit(baud), UartClear], HandlerSteps(i + 1));
        QuietJoin([UartInit(baud), UartClear] + HandlerSteps(i + 1), [UartDeinit]);
      case None =>
        QuietJoin([UartInit(baud), UartClear], HandlerSteps(|results|));
    }
  }

  lemma QuietJoin(a: seq<Event>, b: seq<Event>)
    requires Quiet(a) && Quiet(b)
    ensures Quiet(a + b)
  {
  }

  /**
   * main's start-up order: VTOR first, then system_init, the clocks and
   * interrupts; then, in an STK500 or FrSky build, the 500 ms pause exactly
   * when BL_FLASH_START is 64 KiB-aligned, and in an XMODEM build the serial
   * port straight away.
   */
  lemma StartUpOrder(cfg: Config, env: Environment)
    ensures var t := BootEvents(cfg, env);
            && |t| > 9
            && t[0] == RegisterWrite(VTOR_REGISTER, cfg.blFlashStart)
            && t[1] == SystemInit
            && t[7] == IrqEnable
            && (cfg.protocol != Xmodem ==> (t[8] == Delay(500) <==> cfg.blFlashStart % 0x1_0000 == 0))
            && (cfg.protocol == Xmodem ==> t[8] == UartInit(cfg.uartBaud))
  {
    var m := ModeEvents(cfg, env);
    assert BootEvents(cfg, env)[8] == m[0];
  }

  /**
   * How the trace of a boot ends: a hand-off ends with the jump and nothing
   * before it jumps or resets; a reset is the last event and nothing before
   * it jumps; a boot that stays in the bootloader or is still waiting has
   * neither a jump nor a reset.
   */
  lemma BootEndsAsDecided(cfg: Config, env: Environment)
    ensures var t, r := BootEvents(cfg, env), Outcome(ModeOf(cfg, env), env.vectors);
            && (r.JumpedToApp? ==> t[|t| - 1] == Jump(r.entry) && Quiet(t[..|t| - 1]))
            && (r == ResetIssued ==> t[|t| - 1] == SystemReset && Quiet(t[..|t| - 1]))
            && (r.InBootloader? || r == Undecided ==> Quiet(t))
  {
    var t, r := BootEvents(cfg, env), Outcome(ModeOf(cfg, env), env.vectors);
    var front := InitEvents(cfg.blFlashStart) + ModeEvents(cfg, env);
    StartAndModeQuiet(cfg, env);
    assert t == front + EndEvents(r);
    match r {
      case JumpedToApp(entry) =>
        HandoffOrder(entry);
        assert t[..|t| - 1] == front + HandoffEvents(entry)[..|HandoffEvents(entry)| - 1];
      case ResetIssued =>
        assert t[..|t| - 1] == front;
      case InBootloader(_) =>
        assert t == front;
      case Undecided =>
        assert t == front;
    }
  }
}
