/**
 * The machine the bootloader runs on, as far as the model needs it: the
 * C integer widths it uses, the observable hardware events (register writes,
 * flash primitives, serial output, reset, jump) and the device state that the
 * firmware changes in place.
 */
module Hardware {

  type byte = x: int | 0 <= x < 0x100
  type uint16 = x: int | 0 <= x < 0x1_0000
  type uint32 = x: int | 0 <= x < 0x1_0000_0000

  const TWO_TO_THE_32: int := 0x1_0000_0000

  /** C's unsigned 32-bit arithmetic: the result is reduced modulo 2^32. */
  function Wrap32(x: int): (r: uint32)
    ensures 0 <= x < TWO_TO_THE_32 ==> r == x
  {
    x % TWO_TO_THE_32
  }

  /** `a - b` on two `uint32_t` operands (wraps around below zero). */
  function Sub32(a: uint32, b: uint32): (r: uint32)
    ensures a >= b ==> r == a - b
    ensures a < b ==> r == a - b + TWO_TO_THE_32
  {
    (a - b) % TWO_TO_THE_32
  }

  datatype Option<T> = None | Some(value: T)

  /** Peripherals whose clock the bootloader switches on or off. */
  datatype Peripheral = Uart0 | GpioA | GpioB | GpioC | GpioD

  /** Cortex-M4 system registers written by the bootloader. */
  const VTOR_REGISTER: uint32 := 0xE000_ED08      // SCB->VTOR, CM4_IRQ_VECT_BASE
  const IRQ_CLEAR_ENABLE_REGISTER: uint32 := 0xE000_E180  // NVIC ICER0, CM4_IRQ_CLR

  /** One observable action of the firmware on the hardware. */
  datatype Event =
    | IrqDisable                                    // __disable_irq()
    | IrqEnable                                     // __enable_irq()
    | PageErase(page: uint32)                       // flash_erase_page(address)
    | ProgramLine(dst: uint32, line: seq<byte>)     // flash_program_line(dst, data)
    | ProgramBytes(dst: uint32, bytes: seq<byte>)   // flash_program_bytes(dst, data, size)
    | Transmit(b: byte)                             // uart_send_data(UART0, b)
    | Delay(ms: nat)                                // delay_ms / HAL_Delay
    | ClockOn(p: Peripheral)                        // rcc_enable_peripheral_clk(p, true)
    | ClockOff(p: Peripheral)                       // rcc_enable_peripheral_clk(p, false)
    | SysTickOff                                    // SysTick->CTRL &= ~ENABLE
    | RegisterWrite(register: uint32, value: uint32)
    | SystemInit                                    // system_init()
    | UartInit(baud: nat)                           // uart_init_boot(baud, ...)
    | UartClear                                     // uart_clear()
    | UartDeinit                                    // uart_deinit_boot()
    | ButtonRead                                    // BTN_READ()
    | HandlerStep                                   // one stk500_check() / frsky_check()
    | Jump(entry: uint32)                           // jump_to_app()
    | SystemReset                                   // NVIC_SystemReset()

  /**
   * The device state the firmware changes in place: the ordered record of
   * what it did to the hardware, the global interrupt enable (PRIMASK), and
   * main.c's file-scope `boot_start_time`.
   */
  class Mcu {
    var trace: seq<Event>
    var irqEnabled: bool
    var bootStartTime: uint32

    /** Power-on: nothing has happened yet and interrupts are masked. */
    constructor ()
      ensures trace == [] && !irqEnabled && bootStartTime == 0
    {
      trace := [];
      irqEnabled := false;
      bootStartTime := 0;
    }

    /** Records one event that changes no other state. */
    method Emit(e: Event)
      modifies this`trace
      ensures trace == old(trace) + [e]
    {
      trace := trace + [e];
    }

    /** `__disable_irq()` */
    method DisableIrq()
      modifies this`trace, this`irqEnabled
      ensures trace == old(trace) + [IrqDisable] && !irqEnabled
    {
      trace := trace + [IrqDisable];
      irqEnabled := false;
    }

    /** `__enable_irq()` */
    method EnableIrq()
      modifies this`trace, this`irqEnabled
      ensures trace == old(trace) + [IrqEnable] && irqEnabled
    {
      trace := trace + [IrqEnable];
      irqEnabled := true;
    }
  }
}
