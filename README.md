# ASR6601 ExpressLRS bootloader: a verified model

This project models the core of the serial bootloader that ExpressLRS uses on
ASR6601 (Cortex-M4) receivers. Dafny checks the model together with its
proofs. The bootloader sits in the first 32 KiB of flash. At reset it points
the vector table at itself and brings up clocks and interrupts. It then waits
for an upload request in one of two ways:

- **XMODEM build:** it waits for the magic token `bbbb` on the serial port,
  or for a held button.
- **STK500 and FrSky builds:** it polls the protocol handler until the
  handler gives up.

When no request comes, it checks that the application's vector table is
plausible. It then tears the peripherals down and jumps to the application,
or resets the device.

Modules:

- `Hardware` (`hardware.dfy`): the device as a class `Mcu`. Its fields are
  updated in place:
  - `trace` is the ordered record of what the firmware did to the hardware:
    register writes, page erases, programming, bytes sent, delays, resets and
    the jump;
  - `irqEnabled` is the global interrupt enable;
  - `bootStartTime` is main.c's `boot_start_time`.

  This module also holds the C integer widths, with unsigned 32-bit
  arithmetic written out (`Wrap32`, `Sub32`).
- `FlashLayout` (`flash_layout.dfy`): the geometry of the application region
  and the `flash_status` codes, from `flash.h`.
- `Flash` (`flash.dfy`), from `flash.c`:
  - `flash_erase` is a method with the source's countdown loop. It is proved
    against the recursive specification `EraseSpec`.
  - `flash_write`.
  - `flash_check_app_loaded` is a bit-vector predicate.
  - `flash_jump_to_app` is an ordered teardown that ends in `Abort` (reset)
    or `Proceed(entry)`.
- `Uart` (`uart.c`):
  - the polling receive with a timeout on the wrapping tick counter, which
    writes into an `array`. It is proved against the recursive specification
    `ReceiveLoop`;
  - the transmit functions.
- `Strings` (`strings.dfy`): BSD `strnstr`, which looks at no more than `n`
  bytes and stops at the first NUL. The XMODEM trigger uses it.
- `Boot` (`boot.dfy`), from `main.c`:
  - the boot-wait timer;
  - the STK500/FrSky handler loop;
  - the XMODEM trigger: the `bbbb` token in a zero-initialised 6-byte
    header, else a button hold with a debounce re-read;
  - `main`'s start-up and hand-off rule.

Hardware answers are supplied as parameters ("oracles"):

- the result of the k-th page erase;
- the programming result;
- what each turn of the receive loop observes, that is, the tick counter and
  the head of the RX FIFO;
- the button reads;
- the successive handler results;
- the application's first three vector words.

A loop the firmware would keep running, waiting for bytes or for the handler
to give up, is given a finite list of observations. When the list runs out
before the firmware decides, the outcome is `Pending` in the UART module and
`StillWaiting` / `Undecided` in the boot module.

Where the source's own comments and its code differ, the model follows the code:

- `flash.h:47-50` defines `FLASH_ERROR_SIZE`, `FLASH_ERROR_WRITE` and
  `FLASH_ERROR_READBACK` with their meanings, but the flash functions only
  ever return `FLASH_OK` or `FLASH_ERROR`;
- the comment at `flash.c:46-47` says the erase runs from the given address
  to the end of the flash, but `flash_erase` erases a fixed 98304 bytes from
  that address, without clipping at `FLASH_APP_END_ADDRESS`
  (`Flash.EraseIgnoresRegionEnd`);
- when the XMODEM build stays in the bootloader it never returns.

## Model

| member | source | states |
|---|---|---|
| Hardware.Wrap32 | asr6601_elrs_boot/src/flash.c:67 | `uint32_t` addition wraps modulo 2^32 and is the identity on values already in range |
| Hardware.Sub32 | asr6601_elrs_boot/src/main.c:166 | `uint32_t` subtraction: `a - b` when `a >= b`, `a - b + 2^32` otherwise |
| Hardware.Mcu.DisableIrq | asr6601_elrs_boot/src/flash.c:29 | `FLASH_OP_BEGIN()` records an interrupt disable and masks interrupts |
| Hardware.Mcu.EnableIrq | asr6601_elrs_boot/src/flash.c:30 | `FLASH_OP_END()` / `__enable_irq()` records an interrupt enable and unmasks interrupts |
| FlashLayout.AppStartFor | asr6601_elrs_boot/src/flash.h:33-37 | the application start is `FLASH_BASE + 0x8000`, so 32 KiB are kept for the bootloader whatever the base |
| FlashLayout.DefaultRegion | asr6601_elrs_boot/src/flash.h:33-38 | with the default base the region is [0x08008000, 0x08020000); its size, 98304, is the erase size of flash.c |
| FlashLayout.RegionSizeFollowsBase | asr6601_elrs_boot/src/flash.h:37-38 | the end is fixed at 0x08000000 + 128 KiB, so the region is 98304 bytes exactly when `FLASH_BASE` is the default |
| FlashLayout.Decode | asr6601_elrs_boot/src/flash.h:42-53 | a byte read back as a status is one whose code is that byte |
| FlashLayout.CodesDistinct | asr6601_elrs_boot/src/flash.h:42-53 | the five status codes 0, 1, 2, 4 and 0xFF are distinct bytes, and each decodes to its own status |
| Flash.Erase | asr6601_elrs_boot/src/flash.c:51-73 | `flash_erase`: the status and the trace are those of `EraseSpec`; interrupts end enabled whenever a page was attempted |
| Flash.ErasePageMasked | asr6601_elrs_boot/src/flash.c:59-64 | one page erase between an interrupt disable and an enable on both exits; reports success iff the primitive's result is not negative |
| Flash.EraseBelowStartRefused | asr6601_elrs_boot/src/flash.c:55-56 | below the application start `flash_erase` returns `FLASH_ERROR` and touches no page |
| Flash.PagesForIsCeiling | asr6601_elrs_boot/src/flash.c:58-71 | the countdown issues n page erases with n·P ≥ size and (n−1)·P < size, that is ceil(size / P) |
| Flash.PageAddressAt | asr6601_elrs_boot/src/flash.c:65-67 | the i-th page erased is `address + i·P` modulo 2^32 |
| Flash.ErasePagesAllSucceed | asr6601_elrs_boot/src/flash.c:58-72 | when every page succeeds, the loop ends with `FLASH_OK` after bracketing every page address in turn |
| Flash.ErasePagesFirstFailure | asr6601_elrs_boot/src/flash.c:60-63 | the f-th page failing ends the loop with `FLASH_ERROR` after pages 0..f and no later page |
| Flash.EraseAllPages | asr6601_elrs_boot/src/flash.c:53-72 | when all succeed, `flash_erase(a)` erases ceil(98304 / P) pages at a, a+P, a+2P, … in increasing order, each bracketed, and returns `FLASH_OK` |
| Flash.EraseStopsAtFirstFailure | asr6601_elrs_boot/src/flash.c:58-64 | the first failing page makes `flash_erase` return `FLASH_ERROR` at once; earlier pages stay erased; no later page is tried |
| Flash.BracketAllShape | asr6601_elrs_boot/src/flash.c:59-64 | in the erase trace each page erase sits between an interrupt disable and an interrupt enable |
| Flash.EraseScenario2048 | asr6601_elrs_boot/src/flash.c:53-72 | with 2048-byte pages from the application start: 48 pages, the last one ending exactly 98304 bytes further |
| Flash.EraseIgnoresRegionEnd | asr6601_elrs_boot/src/flash.c:51-72 | when the 98304 bytes from the given address do not wrap past 2^32 (`address + 98304 <= 2^32`) and every page erase succeeds, the erased pages cover at least those 98304 bytes, so from any address above the start they run past `FLASH_APP_END_ADDRESS` |
| Flash.Write | asr6601_elrs_boot/src/flash.c:83-101 | `flash_write`: below the start it returns `FLASH_ERROR` and changes nothing; otherwise it records one programming between an interrupt disable and enable; `FLASH_OK` iff the primitive returned 0; only `FLASH_OK`/`FLASH_ERROR` |
| Flash.ProgramEvent | asr6601_elrs_boot/src/flash.c:89-97 | the line program is used iff `size` equals the line size, otherwise the byte program with the same bytes |
| Flash.CheckAppLoaded | asr6601_elrs_boot/src/flash.c:134-146 | `flash_check_app_loaded` returns only 0 or −1 |
| Flash.AppLoadedMeansPlausibleVectors | asr6601_elrs_boot/src/flash.c:137-145 | 0 iff the stack word lies in [0x20000000, 0x20100000) and the reset and NMI vectors lie in [0x08000000, 0x08040000); equivalently, the three shift/mask tests of the source |
| Flash.FlashWindowMask | asr6601_elrs_boot/src/flash.c:141-142 | `((w >> 16) & 0xFFFC) == 0x0800` is the 256 KiB flash window at 0x08000000 |
| Flash.SramWindowShift | asr6601_elrs_boot/src/flash.c:140 | `w >> 20 == 0x200` is the 1 MiB SRAM window at 0x20000000 |
| Flash.BlankImagesRejected | asr6601_elrs_boot/src/flash.c:134-146 | all-zero and all-0xFF (erased) vector words are rejected |
| Flash.JumpToApp | asr6601_elrs_boot/src/flash.c:109-132 | `flash_jump_to_app`: an invalid image only resets; a valid one gets the teardown in source order and a jump to the word at start + 4, after which nothing happens |
| Flash.HandoffOrder | asr6601_elrs_boot/src/flash.c:118-128 | the jump is the last event and the only one; it comes right after the VTOR write, which comes right after all interrupts are cleared; no reset in the hand-off |
| Uart.ReceiveTimeout | asr6601_elrs_boot/src/uart.c:30-47 | `uart_receive_timeout`: the outcome is that of `ReceiveLoop`; the bytes popped, at most `length`, are stored at the start of `data`; the rest of `data` is unchanged |
| Uart.Receive | asr6601_elrs_boot/src/uart.c:25-28 | `uart_receive` behaves exactly as `uart_receive_timeout` with `UART_TIMEOUT` |
| Uart.ReceiveNothing | asr6601_elrs_boot/src/uart.c:34-46 | with `length == 0` it returns `UART_OK` at once, even with a zero timeout, and pops nothing |
| Uart.ReceiveZeroTimeout | asr6601_elrs_boot/src/uart.c:36-38 | with `length > 0` and a zero timeout that is not the sentinel, `UART_ERROR` at once and nothing popped |
| Uart.ReceivedInArrivalOrder | asr6601_elrs_boot/src/uart.c:41-46 | the bytes popped are the first to arrive, in arrival order; `UART_OK` iff exactly `length` were popped |
| Uart.ReceiveErrorMeansTimedOut | asr6601_elrs_boot/src/uart.c:33-44 | `UART_ERROR` only when the timeout is not the sentinel and is 0 or some turn saw `now − tickstart` (mod 2^32) above it; the bytes before that turn stay popped |
| Uart.ReceiveTimesOut | asr6601_elrs_boot/src/uart.c:36-39 | conversely, a turn that sees the timeout exceeded before `length` bytes arrived makes the receive fail |
| Uart.MaxDelayNeverFails | asr6601_elrs_boot/src/uart.c:36 | with `timeout == HAL_MAX_DELAY` the receive never returns `UART_ERROR` |
| Uart.WideSentinelNeverMatches | asr6601_elrs_boot/src/uart.c:30-36 | `timeout` is 16 bits wide, so any `HAL_MAX_DELAY` above 0xFFFF never matches, and which such value it is makes no difference |
| Uart.TxEvents | asr6601_elrs_boot/src/uart.c:77-79 | sending a byte string gives one transmit per byte, in order |
| Uart.TransmitBytes | asr6601_elrs_boot/src/uart.c:74-83 | `uart_transmit_bytes` sends exactly the first `len` bytes in order and returns `UART_OK` |
| Uart.TransmitCh | asr6601_elrs_boot/src/uart.c:69-72 | `uart_transmit_ch` sends exactly the one byte |
| Uart.CString | asr6601_elrs_boot/src/uart.c:56-60 | the counted string is the NUL-free prefix that ends at the first NUL |
| Uart.TransmitStr | asr6601_elrs_boot/src/uart.c:54-62 | `uart_transmit_str` sends exactly the bytes before the first NUL, in order, without the NUL |
| Strings.Strnstr | asr6601_elrs_boot/src/main.c:65 | `strnstr`: the leftmost occurrence of the token that lies inside the first `n` bytes and before any NUL; none iff no such occurrence exists |
| Boot.BootWaitSurvivesWrap | asr6601_elrs_boot/src/main.c:158-167 | `boot_wait_timer_end` (strictly more than `BOOT_WAIT` ms since `boot_start_time`, in uint32 arithmetic; `BOOT_WAIT` is 300 unless the build defines it) is right across a wrap of the tick counter, for any `BOOT_WAIT` |
| Boot.FirstNegative | asr6601_elrs_boot/src/main.c:193-199 | the position of the first negative handler result: all results before it are not negative; none iff all are not negative |
| Boot.StkDecision | asr6601_elrs_boot/src/main.c:193-202 | `boot_code_stk` returns only a negative value, which exists iff some handler result is negative, and never stays |
| Boot.BootCodeStk | asr6601_elrs_boot/src/main.c:169-203 | the result is `StkDecision`; the whole new trace: serial up and cleared, the handler called up to and including its first negative result (index + 1 calls), the serial port shut down once after the loop (`StkEvents`); `boot_start_time` is the tick count snapshotted before the loop |
| Boot.PrintBootHeader | asr6601_elrs_boot/src/main.c:24-33 | the five banner lines are sent in order |
| Boot.HeaderAfter | asr6601_elrs_boot/src/main.c:38-63 | the zero-initialised 6-byte header holds the received bytes at its start and zeros after them |
| Boot.HeaderReceive | asr6601_elrs_boot/src/main.c:63 | the 5-byte receive pops at most 5 bytes and succeeds iff it popped all 5 |
| Boot.ListenForMagic | asr6601_elrs_boot/src/main.c:38-66 | `BLrequested` becomes 1 iff the receive returned `UART_OK` and `strnstr` finds `bbbb` in the 6-byte header |
| Boot.ConsultButton | asr6601_elrs_boot/src/main.c:70-76 | a first read; only when it is pressed, the 200 ms debounce and a second read; held iff both reads are pressed |
| Boot.BootCodeXmodem | asr6601_elrs_boot/src/main.c:35-155 | `boot_code_xmodem`: the result is `XmodemDecision`; the whole new trace is serial up, banner, prompt, and then, once the receive has ended, the button reads, which happen only in a button build without the token (`XmodemEvents`) |
| Boot.MagicPlacement | asr6601_elrs_boot/src/main.c:63-65 | `bbbb` is found iff it starts the five bytes, or follows a non-NUL first byte; a NUL first byte hides it |
| Boot.MagicArrivalKeepsBootloader | asr6601_elrs_boot/src/main.c:63-81 | five bytes received in time that start with `bbbb` keep the bootloader, whatever the button does |
| Boot.XmodemRequests | asr6601_elrs_boot/src/main.c:63-81 | it returns −1 iff neither trigger was found; it stays for the button only without the token and with both reads pressed; a failed receive never finds the token |
| Boot.Handoff | asr6601_elrs_boot/src/main.c:235-240 | with `ret < 0` it tries the application; an invalid image, or `ret >= 0`, ends in exactly one system reset |
| Boot.RunMode | asr6601_elrs_boot/src/main.c:223-233 | the mode's result is `ModeOf`; the whole new trace is XMODEM's, or the 500 ms pause iff `BL_FLASH_START & 0xFFFF` is 0 followed by the STK500/FrSky loop's (`ModeEvents`); `boot_start_time` changes only in the STK500/FrSky loop, to the tick count |
| Boot.BootMain | asr6601_elrs_boot/src/main.c:206-242 | `main`: the boot ends as `Outcome` says; the whole new trace is start-up (`InitEvents`), then the mode's events, then the hand-off, the single reset or nothing, as the outcome says (`EndEvents`); interrupts end enabled; `boot_start_time` as in `RunMode` |
| Boot.StartUpOrder | asr6601_elrs_boot/src/main.c:211-232 | a boot's trace starts with VTOR set to `BL_FLASH_START`, then `system_init`, the clocks and `__enable_irq`; next comes the 500 ms pause in an STK500/FrSky build exactly when `BL_FLASH_START & 0xFFFF` is 0, and the serial port in an XMODEM build |
| Boot.StartAndModeQuiet | asr6601_elrs_boot/src/main.c:211-233 | nothing before the end of `main` jumps to the application or resets the system |
| Boot.BootEndsAsDecided | asr6601_elrs_boot/src/main.c:206-242 | a boot that enters the application ends with the jump and has no jump or reset before it; one that resets ends with the reset and has no jump; one that stays or is still waiting has neither |
| Boot.ModeGivesUpNegative | asr6601_elrs_boot/src/main.c:193-202 | both boot modes return to `main` only with a negative value |
| Boot.JumpNeedsValidImage | asr6601_elrs_boot/src/main.c:235-240 | the application is entered iff the mode returned a negative value and the image passes the check, and then at its reset vector |
| Boot.JumpOnlyToValidImage | asr6601_elrs_boot/src/main.c:206-242 | a boot enters the application iff its mode gave up and the image is valid, and then at the reset vector |
| Boot.StkBuildLeavesBootloader | asr6601_elrs_boot/src/main.c:226-240 | an STK500/FrSky build never stays in the bootloader; it resets only for an invalid image; it is undecided only while every handler result is non-negative |

## Left out

- The vendor primitives are oracles: `flash_erase_page`, `flash_program_line`, `flash_program_bytes`, `GetTickCount` and the RX FIFO reads. So are the constants from headers that are not part of this model: `FLASH_PAGE_SIZE`, `FLASH_LINE_SIZE`, `UART_TIMEOUT`, `HAL_MAX_DELAY` and `UART_BAUD`. Each is a parameter.
- `BL_FLASH_START` (the address of the linker symbol `g_pfnVectors`) is a parameter.
- `flash_dump` only returns `FLASH_OK` and has no effect, so it is left out of the model.
- Peripheral set-up is recorded as single events with no internal detail:
  - `uart_init_boot`'s pin and baud configuration;
  - `uart_deinit_boot`'s wait for an empty TX FIFO;
  - `uart_transmit_bytes`'s final wait on the TX-full flag;
  - `system_init`, the clock gates, SysTick and the NVIC registers.
- `delay_ms` / `HAL_Delay` are recorded as `Delay` events. Only their order and length are kept, not the time they take.
- The upload protocols `xmodem_receive`, `stk500_check` and `frsky_check` are not modelled:
  - the STK500/FrSky handlers are given as their successive results (`int8_t`);
  - the XMODEM upload loop never returns, and is the outcome `InBootloader`.
- `NVIC_SystemReset` does not return. After the reset inside `flash_jump_to_app`, the reset that follows it in `main` is therefore never reached, and the model records a single reset.
- Loops that would keep polling are cut at the end of the observations given. The model then reports `Pending` / `StillWaiting` / `Undecided`, not a result.
- Flash contents are not modelled. A page erased before a failure stays erased only in the sense that the trace records its erase; that erasing is idempotent is a property of the hardware.
- The following are not part of the build this model describes:
  - the `#if 0` debug echo loops and the compiled-out serial command state machine in `main.c`;
  - the STM32 include branches;
  - the declared but undefined `flash_erase_page_boot` and `flash_write_halfword`.
- The build-time `#error` is the `Protocol` datatype: exactly one protocol, with XMODEM taking precedence.
- Boot.PrintBootHeader, Boot.BootCodeXmodem: the banner texts are stated as what `uart_transmit_str` sends for each literal, that is, its bytes before the first NUL. It is not proved that the literals contain no NUL.
- Flash.Erase: `FLASH_PAGE_SIZE` is assumed to be positive (`requires pageSize > 0`). It is a vendor constant from a header that is not part of this model; were it 0, the source's erase loop would never end.
- `BOOT_WAIT` is a parameter of `Boot.BootWaitTimerEnd`, since a build may define it; `Boot.BOOT_WAIT` is the source's default of 300 ms.
- Flash.Write: `data` must hold at least `size` bytes; the source reads `size` bytes through the pointer it is given.
