/**
 * Geometry of the application region and the status codes of the flash
 * manager.
 */
module FlashLayout {
  import opened Hardware

  /** Default device flash base; a build may define its own FLASH_BASE. */
  const FLASH_BASE: uint32 := 0x0800_0000
  /** Bytes reserved at the bottom of flash for the bootloader itself. */
  const FLASH_APP_OFFSET: nat := 0x8000
  /** The end of the application region does not follow FLASH_BASE. */
  const FLASH_APP_END_ADDRESS: uint32 := 0x0800_0000 + 128 * 1024

  /** FLASH_APP_START_ADDRESS for a given FLASH_BASE. */
  function AppStartFor(flashBase: uint32): (start: int)
    ensures start - FLASH_APP_OFFSET == flashBase
  {
    flashBase + FLASH_APP_OFFSET
  }

  /** FLASH_APP_START_ADDRESS with the default base. */
  const FLASH_APP_START_ADDRESS: uint32 := FLASH_BASE + FLASH_APP_OFFSET

  /** The status codes, of C type `flash_status` (`uint8_t`). */
  datatype FlashStatus = FlashOk | FlashErrorSize | FlashErrorWrite | FlashErrorReadback | FlashError

  /** The byte each status is reported as. */
  function Code(s: FlashStatus): byte
  {
    match s
    case FlashOk => 0x00
    case FlashErrorSize => 0x01
    case FlashErrorWrite => 0x02
    case FlashErrorReadback => 0x04
    case FlashError => 0xFF
  }

  /** Reads a reported byte back as a status, if it is one. */
  function Decode(c: byte): (s: Option<FlashStatus>)
    ensures s.Some? ==> Code(s.value) == c
  {
    if c == 0x00 then Some(FlashOk)
    else if c == 0x01 then Some(FlashErrorSize)
    else if c == 0x02 then Some(FlashErrorWrite)
    else if c == 0x04 then Some(FlashErrorReadback)
    else if c == 0xFF then Some(FlashError)
    else None
  }

  /** The five codes are pairwise distinct bytes: each decodes to its own status. */
  lemma CodesDistinct(s: FlashStatus, t: FlashStatus)
    ensures Decode(Code(s)) == Some(s)
    ensures Code(s) == Code(t) ==> s == t
  {
  }

  /**
   * With the default base the bootloader keeps 32 KiB, the application region
   * is [0x08008000, 0x08020000), and its size is 96 KiB.
   */
  lemma DefaultRegion()
    ensures FLASH_APP_START_ADDRESS == 0x0800_8000
    ensures FLASH_APP_END_ADDRESS == 0x0802_0000
    ensures FLASH_APP_END_ADDRESS - FLASH_APP_START_ADDRESS == 98304
  {
  }

  /**
   * The end address is fixed, so the region has 96 KiB exactly when the
   * base is the default one; any other base changes the start only.
   */
  lemma RegionSizeFollowsBase(flashBase: uint32)
    ensures FLASH_APP_END_ADDRESS - AppStartFor(flashBase) == 98304 <==> flashBase == FLASH_BASE
  {
  }
}
