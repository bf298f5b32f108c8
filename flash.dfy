/**
 * The flash manager: erasing and programming the application region, the
 * plausibility check on the application's vector table, and the hand-off
 * to the application.
 *
 * The vendor primitives (page erase, line and byte programming) are not part
 * of this model: each call is recorded as an event and its return value is
 * supplied by the caller as an oracle.
 */
module Flash {
  import opened Hardware
  import opened FlashLayout

  /** flash_erase erases this many bytes, whatever address it is given. */
  const ERASE_SIZE: nat := (128 * 1024) - (32 * 1024)

  /** What a call of flash_erase returns and does to the hardware. */
  datatype EraseRun = EraseRun(status: FlashStatus, events: seq<Event>)

  /** One page erase with interrupts masked around it. */
  function Bracket(page: uint32): seq<Event>
  {
    [IrqDisable, PageErase(page), IrqEnable]
  }

  /** The bracketed erases of the given pages, in order. */
  function BracketAll(pages: seq<uint32>): seq<Event>
  {
    if pages == [] then [] else Bracket(pages[0]) + BracketAll(pages[1..])
  }

  /** The pages the size countdown of flash_erase visits: `n` steps of `pageSize` from `first`. */
  function PageAddresses(first: uint32, pageSize: nat, n: nat): seq<uint32>
    decreases n
  {
    if n == 0 then [] else [first] + PageAddresses(Wrap32(first + pageSize), pageSize, n - 1)
  }

  /** How many turns the `while (size)` loop of flash_erase takes when no page fails. */
  function PagesFor(size: nat, pageSize: nat): nat
    requires pageSize > 0
    decreases size
  {
    if size == 0 then 0
    else if size >= pageSize then 1 + PagesFor(size - pageSize, pageSize)
    else 1
  }

  /**
   * The loop of flash_erase from a point where `size` bytes remain, the next
   * page is `page` and `k` page erases have been issued; `eraseResult(k)` is
   * what the k-th call of flash_erase_page returns.
   */
  function ErasePages(page: uint32, size: nat, pageSize: nat, eraseResult: nat -> int, k: nat): EraseRun
    requires pageSize > 0
    decreases size
  {
    if size == 0 then EraseRun(FlashOk, [])
    else if eraseResult(k) < 0 then EraseRun(FlashError, Bracket(page))
    else if size >= pageSize then
      var rest := ErasePages(Wrap32(page + pageSize), size - pageSize, pageSize, eraseResult, k + 1);
      EraseRun(rest.status, Bracket(page) + rest.events)
    else EraseRun(FlashOk, Bracket(page))
  }

  /** A run preceded by events that already happened. */
  function AfterDone(done: seq<Event>, run: EraseRun): EraseRun
  {
    EraseRun(run.status, done + run.events)
  }

  /** The countdown after one successful page: `size -= pageSize`, or 0 on the last, partial page. */
  function NextSize(size: nat, pageSize: nat): nat
  {
    if size >= pageSize then size - pageSize else 0
  }

  /** The page after one successful page; the last, partial page leaves it where it is. */
  function NextPage(page: uint32, size: nat, pageSize: nat): uint32
  {
    if size >= pageSize then Wrap32(page + pageSize) else page
  }

  lemma ErasePagesStep(page: uint32, size: nat, pageSize: nat, eraseResult: nat -> int, k: nat)
    requires pageSize > 0 && size > 0 && eraseResult(k) >= 0
    ensures ErasePages(page, size, pageSize, eraseResult, k)
         == AfterDone(Bracket(page), ErasePages(NextPage(page, size, pageSize), NextSize(size, pageSize), pageSize, eraseResult, k + 1))
  {
    if size < pageSize {
      assert Bracket(page) + [] == Bracket(page);
    }
  }

  /** One successful turn of the erase loop moves one bracketed page from the remaining run to the done events. */
  lemma EraseAdvance(before: seq<Event>, done: seq<Event>, page: uint32, size: nat, pageSize: nat, eraseResult: nat -> int, k: nat)
    requires pageSize > 0 && size > 0 && eraseResult(k) >= 0
    ensures (before + done) + Bracket(page) == before + (done + Bracket(page))
    ensures AfterDone(done, ErasePages(page, size, pageSize, eraseResult, k))
         == AfterDone(done + Bracket(page), ErasePages(NextPage(page, size, pageSize), NextSize(size, pageSize), pageSize, eraseResult, k + 1))
  {
    ErasePagesStep(page, size, pageSize, eraseResult, k);
    AfterDoneAppend(done, Bracket(page), ErasePages(NextPage(page, size, pageSize), NextSize(size, pageSize), pageSize, eraseResult, k + 1));
  }

  lemma AfterDoneAppend(a: seq<Event>, b: seq<Event>, run: EraseRun)
    ensures AfterDone(a, AfterDone(b, run)) == AfterDone(a + b, run)
  {
    assert a + (b + run.events) == (a + b) + run.events;
  }

  /** flash_erase(address) as a whole. */
  function EraseSpec(address: uint32, pageSize: nat, eraseResult: nat -> int): EraseRun
    requires pageSize > 0
  {
    if address < FLASH_APP_START_ADDRESS then EraseRun(FlashError, [])
    else ErasePages(address, ERASE_SIZE, pageSize, eraseResult, 0)
  }

  /**
   * flash_erase: erases page by page from `address` (not from the start of
   * the region) until ERASE_SIZE bytes are accounted for.
   */
  method Erase(mcu: Mcu, address: uint32, pageSize: uint32, eraseResult: nat -> int) returns (status: FlashStatus)
    requires pageSize > 0
    modifies mcu`trace, mcu`irqEnabled
    ensures status == EraseSpec(address, pageSize, eraseResult).status
    ensures mcu.trace == old(mcu.trace) + EraseSpec(address, pageSize, eraseResult).events
    ensures mcu.irqEnabled == (old(mcu.irqEnabled) || address >= FLASH_APP_START_ADDRESS)
  {
    var size: nat := ERASE_SIZE;
    if address < FLASH_APP_START_ADDRESS {
      return FlashError;
    }
    var page: uint32 := address;
    var k: nat := 0;  // page erases issued so far (the index into the oracle)
    ghost var done: seq<Event> := [];
    ghost var run := EraseSpec(address, pageSize, eraseResult);
    assert run == AfterDone([], ErasePages(page, size, pageSize, eraseResult, k));
    while size > 0
      invariant mcu.trace == old(mcu.trace) + done
      invariant run == AfterDone(done, ErasePages(page, size, pageSize, eraseResult, k))
      invariant k > 0 || size > 0
      invariant k > 0 ==> mcu.irqEnabled
      decreases size
    {
      var erased := ErasePageMasked(mcu, page, eraseResult(k));
      if !erased {
        return FlashError;
      }
      EraseAdvance(old(mcu.trace), done, page, size, pageSize, eraseResult, k);
      done := done + Bracket(page);
      if size >= pageSize {
        size := size - pageSize;
        page := Wrap32(page + pageSize);
      } else {
        size := 0;
      }
      k := k + 1;
    }
    assert done + [] == done;
    return FlashOk;
  }

  /**
   * PagesFor(size) is the ceiling of size / pageSize: the least n with
   * n * pageSize >= size.
   */
  /**
   * One turn of the erase loop up to the size update: the page erase with
   * interrupts masked, and interrupts enabled again whether or not it failed.
   */
  method ErasePageMasked(mcu: Mcu, page: uint32, eraseResult: int) returns (erased: bool)
    modifies mcu`trace, mcu`irqEnabled
    ensures erased == (eraseResult >= 0)
    ensures mcu.trace == old(mcu.trace) + Bracket(page) && mcu.irqEnabled
  {
    mcu.DisableIrq();
    mcu.Emit(PageErase(page));
    if eraseResult < 0 {
      mcu.EnableIrq();
      return false;
    }
    mcu.EnableIrq();
    return true;
  }

  lemma {:induction false} PagesForIsCeiling(size: nat, pageSize: nat)
    requires pageSize > 0
    ensures PagesFor(size, pageSize) * pageSize >= size
    ensures size > 0 ==> (PagesFor(size, pageSize) - 1) * pageSize < size
    decreases size
  {
    if size > 0 && size >= pageSize {
      var n := PagesFor(size - pageSize, pageSize);
      PagesForIsCeiling(size - pageSize, pageSize);
      assert (n + 1) * pageSize == n * pageSize + pageSize;
      assert n * pageSize == (n - 1) * pageSize + pageSize;
    }
  }

  /** The k-th visited page is `first + k * pageSize` modulo 2^32. */
  lemma {:induction false} PageAddressAt(first: uint32, pageSize: nat, n: nat, i: nat)
    requires i < n
    ensures |PageAddresses(first, pageSize, n)| == n
    ensures PageAddresses(first, pageSize, n)[i] == Wrap32(first + i * pageSize)
    decreases n
  {
    PageAddressesLength(first, pageSize, n);
    if i > 0 {
      var next := Wrap32(first + pageSize);
      PageAddressAt(next, pageSize, n - 1, i - 1);
      assert PageAddresses(first, pageSize, n)[i] == PageAddresses(next, pageSize, n - 1)[i - 1];
      WrapStep(first, pageSize, i);
    }
  }

  lemma WrapStep(first: uint32, pageSize: nat, i: nat)
    requires i > 0
    ensures Wrap32(Wrap32(first + pageSize) + (i - 1) * pageSize) == Wrap32(first + i * pageSize)
  {
    ModAddCongruence(first + pageSize, (i - 1) * pageSize);
    MulPred(i, pageSize);
  }

  lemma MulPred(i: nat, d: nat)
    requires i > 0
    ensures i * d == (i - 1) * d + d
  {
  }

  lemma {:induction false} PageAddressesLength(first: uint32, pageSize: nat, n: nat)
    ensures |PageAddresses(first, pageSize, n)| == n
    decreases n
  {
    if n > 0 {
      PageAddressesLength(Wrap32(first + pageSize), pageSize, n - 1);
    }
  }

  lemma ModAddCongruence(x: int, y: int)
    ensures Wrap32(Wrap32(x) + y) == Wrap32(x + y)
  {
    var q := x / TWO_TO_THE_32;
    assert x == q * TWO_TO_THE_32 + Wrap32(x);
    assert x + y == (Wrap32(x) + y) + q * TWO_TO_THE_32;
  }

  /** When every page erase succeeds, the loop erases PagesFor(size) consecutive pages and reports success. */
  lemma {:induction false} ErasePagesAllSucceed(page: uint32, size: nat, pageSize: nat, eraseResult: nat -> int, k: nat)
    requires pageSize > 0
    requires forall j :: k <= j < k + PagesFor(size, pageSize) ==> eraseResult(j) >= 0
    ensures ErasePages(page, size, pageSize, eraseResult, k)
         == EraseRun(FlashOk, BracketAll(PageAddresses(page, pageSize, PagesFor(size, pageSize))))
    decreases size
  {
    if size > 0 {
      assert eraseResult(k) >= 0;
      if size >= pageSize {
        ErasePagesAllSucceed(Wrap32(page + pageSize), size - pageSize, pageSize, eraseResult, k + 1);
      }
    }
  }

  /**
   * When the page erase of turn `k + f` is the first to fail, the loop stops
   * right after it: f + 1 pages were attempted and the result is FLASH_ERROR.
   */
  lemma {:induction false} ErasePagesFirstFailure(page: uint32, size: nat, pageSize: nat, eraseResult: nat -> int, k: nat, f: nat)
    requires pageSize > 0
    requires f < PagesFor(size, pageSize)
    requires eraseResult(k + f) < 0
    requires forall j :: k <= j < k + f ==> eraseResult(j) >= 0
    ensures ErasePages(page, size, pageSize, eraseResult, k)
         == EraseRun(FlashError, BracketAll(PageAddresses(page, pageSize, f + 1)))
    decreases size
  {
    if f > 0 {
      assert eraseResult(k) >= 0;
      ErasePagesFirstFailure(Wrap32(page + pageSize), size - pageSize, pageSize, eraseResult, k + 1, f - 1);
    }
  }

  /** flash_erase below the application start is refused before any page is touched. */
  lemma EraseBelowStartRefused(address: uint32, pageSize: nat, eraseResult: nat -> int)
    requires pageSize > 0
    requires address < FLASH_APP_START_ADDRESS
    ensures EraseSpec(address, pageSize, eraseResult) == EraseRun(FlashError, [])
  {
  }

  /**
   * With every page erase succeeding, flash_erase(a) issues exactly
   * n = ceil(98304 / pageSize) page erases (n pages cover the 98304 bytes,
   * n - 1 do not), the i-th at a + i * pageSize (mod 2^32),
   * each between an interrupt disable and enable, and returns FLASH_OK.
   */
  lemma EraseAllPages(address: uint32, pageSize: nat, eraseResult: nat -> int)
    requires pageSize > 0
    requires address >= FLASH_APP_START_ADDRESS
    requires forall j :: 0 <= j < PagesFor(ERASE_SIZE, pageSize) ==> eraseResult(j) >= 0
    ensures var n := PagesFor(ERASE_SIZE, pageSize);
            && n * pageSize >= ERASE_SIZE
            && (n - 1) * pageSize < ERASE_SIZE
            && EraseSpec(address, pageSize, eraseResult)
               == EraseRun(FlashOk, BracketAll(PageAddresses(address, pageSize, n)))
            && |PageAddresses(address, pageSize, n)| == n
            && forall i :: 0 <= i < n ==> PageAddresses(address, pageSize, n)[i] == Wrap32(address + i * pageSize)
  {
    var n := PagesFor(ERASE_SIZE, pageSize);
    PagesForIsCeiling(ERASE_SIZE, pageSize);
    ErasePagesAllSucceed(address, ERASE_SIZE, pageSize, eraseResult, 0);
    PageAddressesLength(address, pageSize, n);
    forall i | 0 <= i < n
      ensures PageAddresses(address, pageSize, n)[i] == Wrap32(address + i * pageSize)
    {
      PageAddressAt(address, pageSize, n, i);
    }
  }

  /**
   * The first failing page erase ends flash_erase with FLASH_ERROR; the pages
   * before it were erased (no rollback) and no later page is attempted.
   */
  lemma EraseStopsAtFirstFailure(address: uint32, pageSize: nat, eraseResult: nat -> int, f: nat)
    requires pageSize > 0
    requires address >= FLASH_APP_START_ADDRESS
    requires f < PagesFor(ERASE_SIZE, pageSize)
    requires eraseResult(f) < 0
    requires forall j :: 0 <= j < f ==> eraseResult(j) >= 0
    ensures EraseSpec(address, pageSize, eraseResult)
         == EraseRun(FlashError, BracketAll(PageAddresses(address, pageSize, f + 1)))
  {
    PagesForIsCeiling(ERASE_SIZE, pageSize);
    ErasePagesFirstFailure(address, ERASE_SIZE, pageSize, eraseResult, 0, f);
  }

  /** Each page erase sits between an interrupt disable and an interrupt enable. */
  lemma {:induction false} BracketAllShape(pages: seq<uint32>, i: nat)
    requires i < |pages|
    ensures |BracketAll(pages)| == 3 * |pages|
    ensures BracketAll(pages)[3 * i] == IrqDisable
    ensures BracketAll(pages)[3 * i + 1] == PageErase(pages[i])
    ensures BracketAll(pages)[3 * i + 2] == IrqEnable
  {
    BracketAllLength(pages);
    if i > 0 {
      BracketAllShape(pages[1..], i - 1);
    }
  }

  lemma {:induction false} BracketAllLength(pages: seq<uint32>)
    ensures |BracketAll(pages)| == 3 * |pages|
  {
    if pages != [] {
      BracketAllLength(pages[1..]);
    }
  }

  /** Scenario: 2048-byte pages give 48 page erases, from the region start up to 98304 bytes further. */
  lemma EraseScenario2048(eraseResult: nat -> int)
    requires forall j :: 0 <= j < 48 ==> eraseResult(j) >= 0
    ensures var pages := PageAddresses(FLASH_APP_START_ADDRESS, 2048, 48);
            && EraseSpec(FLASH_APP_START_ADDRESS, 2048, eraseResult) == EraseRun(FlashOk, BracketAll(pages))
            && |pages| == 48
            && pages[0] == FLASH_APP_START_ADDRESS
            && pages[47] as int + 2048 == FLASH_APP_START_ADDRESS + 98304
  {
    PagesForIsCeiling(ERASE_SIZE, 2048);
    assert PagesFor(ERASE_SIZE, 2048) == 48;
    EraseAllPages(FLASH_APP_START_ADDRESS, 2048, eraseResult);
  }

  /**
   * Nothing clips the erase at FLASH_APP_END_ADDRESS: the pages erased from
   * `address` cover at least 98304 bytes, so from any address above the
   * application start they reach past the end of the application region.
   */
  lemma EraseIgnoresRegionEnd(address: uint32, pageSize: nat, eraseResult: nat -> int)
    requires pageSize > 0
    requires address >= FLASH_APP_START_ADDRESS
    requires address + ERASE_SIZE <= TWO_TO_THE_32
    requires forall j :: 0 <= j < PagesFor(ERASE_SIZE, pageSize) ==> eraseResult(j) >= 0
    ensures var n := PagesFor(ERASE_SIZE, pageSize);
            var pages := PageAddresses(address, pageSize, n);
            && EraseSpec(address, pageSize, eraseResult).status == FlashOk
            && 0 < n == |pages|
            && pages[n - 1] + pageSize >= address + ERASE_SIZE
            && (address > FLASH_APP_START_ADDRESS ==> pages[n - 1] + pageSize > FLASH_APP_END_ADDRESS)
  {
    var n := PagesFor(ERASE_SIZE, pageSize);
    EraseAllPages(address, pageSize, eraseResult);
    PageAddressAt(address, pageSize, n, n - 1);
    MulPred(n, pageSize);
    assert address + (n - 1) * pageSize < TWO_TO_THE_32;
  }

  /**
   * flash_write: refuses destinations below the application start; otherwise
   * programs one line when `size` is the line size and `size` bytes otherwise,
   * with interrupts masked; FLASH_OK iff the primitive returned 0.
   */
  method Write(mcu: Mcu, dst: uint32, data: seq<byte>, size: uint32, lineSize: nat, programResult: int)
    returns (status: FlashStatus)
    requires size <= |data|
    modifies mcu`trace, mcu`irqEnabled
    ensures status == FlashOk <==> dst >= FLASH_APP_START_ADDRESS && programResult == 0
    ensures status == FlashOk || status == FlashError
    ensures dst < FLASH_APP_START_ADDRESS ==> mcu.trace == old(mcu.trace) && mcu.irqEnabled == old(mcu.irqEnabled)
    ensures dst >= FLASH_APP_START_ADDRESS ==>
              && mcu.irqEnabled
              && mcu.trace == old(mcu.trace) + [IrqDisable, ProgramEvent(dst, data[..size], lineSize), IrqEnable]
  {
    var ret := 0;
    if dst < FLASH_APP_START_ADDRESS {
      return FlashError;
    }
    if lineSize == size {
      mcu.DisableIrq();
      mcu.Emit(ProgramLine(dst, data[..size]));
      ret := programResult;
      mcu.EnableIrq();
    } else {
      mcu.DisableIrq();
      mcu.Emit(ProgramBytes(dst, data[..size]));
      ret := programResult;
      mcu.EnableIrq();
    }
    if ret != 0 {
      return FlashError;
    }
    return FlashOk;
  }

  /** The programming primitive flash_write chooses for `bytes`. */
  function ProgramEvent(dst: uint32, bytes: seq<byte>, lineSize: nat): (e: Event)
    ensures e.ProgramLine? <==> |bytes| == lineSize
    ensures e.ProgramLine? ==> e == ProgramLine(dst, bytes)
    ensures e.ProgramBytes? ==> e == ProgramBytes(dst, bytes)
  {
    if |bytes| == lineSize then ProgramLine(dst, bytes) else ProgramBytes(dst, bytes)
  }

  /** The first three words of the application image: initial SP, reset and NMI vectors. */
  datatype AppVectors = AppVectors(stack: bv32, reset: bv32, nmi: bv32)

  /**
   * flash_check_app_loaded: 0 when the stack word's top 12 bits are 0x200
   * and the top 14 bits of both vectors are those of 0x0800xxxx, -1 otherwise.
   */
  function CheckAppLoaded(v: AppVectors): (r: int)
    ensures r == 0 || r == -1
  {
    if (v.stack >> 20) == 0x200
       && ((v.reset >> 16) & 0xFFFC) == 0x0800
       && ((v.nmi >> 16) & 0xFFFC) == 0x0800
    then 0
    else -1
  }

  /** The word points into the 256 KiB window of flash that starts at 0x08000000. */
  predicate InFlashWindow(w: bv32)
  {
    0x0800_0000 <= w < 0x0804_0000
  }

  /**
   * The check accepts exactly the images whose stack pointer lies in the
   * 1 MiB SRAM window at 0x20000000 and whose reset and NMI vectors lie in
   * the flash window; equivalently, word & 0xFFFC0000 is 0x08000000.
   */
  lemma AppLoadedMeansPlausibleVectors(v: AppVectors)
    ensures CheckAppLoaded(v) == 0 <==>
              && 0x2000_0000 <= v.stack < 0x2010_0000
              && InFlashWindow(v.reset)
              && InFlashWindow(v.nmi)
    ensures CheckAppLoaded(v) == 0 <==>
              && v.stack >> 20 == 0x200
              && (v.reset & 0xFFFC_0000) >> 16 == 0x0800
              && (v.nmi & 0xFFFC_0000) >> 16 == 0x0800
  {
    FlashWindowMask(v.reset);
    FlashWindowMask(v.nmi);
    SramWindowShift(v.stack);
  }

  lemma FlashWindowMask(w: bv32)
    ensures ((w >> 16) & 0xFFFC) == 0x0800 <==> InFlashWindow(w)
    ensures ((w >> 16) & 0xFFFC) == 0x0800 <==> (w & 0xFFFC_0000) >> 16 == 0x0800
  {
  }

  lemma SramWindowShift(w: bv32)
    ensures w >> 20 == 0x200 <==> 0x2000_0000 <= w < 0x2010_0000
  {
  }

  /** Erased (all-ones) and all-zero flash are both rejected. */
  lemma BlankImagesRejected()
    ensures CheckAppLoaded(AppVectors(0, 0, 0)) == -1
    ensures CheckAppLoaded(AppVectors(0xFFFF_FFFF, 0xFFFF_FFFF, 0xFFFF_FFFF)) == -1
  {
  }

  /** Outcome of flash_jump_to_app: the device reset, or control went to `entry`. */
  datatype JumpOutcome = Abort | Proceed(entry: uint32)

  /** The teardown of flash_jump_to_app for a valid image, ending in the jump. */
  function HandoffEvents(entry: uint32): seq<Event>
  {
    [ Delay(1000), UartDeinit,
      ClockOff(GpioA), ClockOff(GpioB), ClockOff(GpioC), ClockOff(GpioD),
      SysTickOff,
      RegisterWrite(IRQ_CLEAR_ENABLE_REGISTER, 0xFFFF_FFFF),
      RegisterWrite(VTOR_REGISTER, FLASH_APP_START_ADDRESS),
      Jump(entry) ]
  }

  /**
   * flash_jump_to_app: an invalid image only resets the system (which does
   * not return); a valid one is handed off in a fixed order and control goes
   * to the reset vector, never to return (the trailing `while (1)`).
   */
  method JumpToApp(mcu: Mcu, v: AppVectors) returns (outcome: JumpOutcome)
    modifies mcu`trace
    ensures outcome == Abort <==> CheckAppLoaded(v) < 0
    ensures outcome == Abort ==> mcu.trace == old(mcu.trace) + [SystemReset]
    ensures outcome.Proceed? ==>
              && outcome.entry == v.reset as int
              && mcu.trace == old(mcu.trace) + HandoffEvents(outcome.entry)
  {
    if CheckAppLoaded(v) < 0 {
      mcu.Emit(SystemReset);
      return Abort;
    }
    var entry: uint32 := v.reset as int;
    mcu.Emit(Delay(1000));
    mcu.Emit(UartDeinit);
    mcu.Emit(ClockOff(GpioA));
    mcu.Emit(ClockOff(GpioB));
    mcu.Emit(ClockOff(GpioC));
    mcu.Emit(ClockOff(GpioD));
    mcu.Emit(SysTickOff);
    mcu.Emit(RegisterWrite(IRQ_CLEAR_ENABLE_REGISTER, 0xFFFF_FFFF));
    mcu.Emit(RegisterWrite(VTOR_REGISTER, FLASH_APP_START_ADDRESS));
    mcu.Emit(Jump(entry));
    return Proceed(entry);
  }

  /**
   * In the hand-off the vector table is moved to the application only after
   * every interrupt is cleared, the jump is the last event and happens once,
   * and there is no reset.
   */
  lemma HandoffOrder(entry: uint32)
    ensures var h := HandoffEvents(entry);
            && h[|h| - 1] == Jump(entry)
            && h[|h| - 2] == RegisterWrite(VTOR_REGISTER, FLASH_APP_START_ADDRESS)
            && h[|h| - 3] == RegisterWrite(IRQ_CLEAR_ENABLE_REGISTER, 0xFFFF_FFFF)
            && (forall i :: 0 <= i < |h| - 1 ==> !h[i].Jump?)
            && SystemReset !in h
  {
  }
}
