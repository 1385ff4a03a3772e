/** The UART header: result codes, the register map of the BCM2711 PL011 UARTs,
    the CTRL and FLAG bit masks and the per-instance base addresses.
    Every register is 32 bits wide (`bv32`), and every address computation is
    done in 32-bit unsigned arithmetic, as the C macros do. */
module UartRegs {

  datatype Option<T> = None | Some(value: T)

  /** A 32-bit unsigned address (UINT32). */
  newtype Uint32 = x: int | 0 <= x < 0x1_0000_0000

  /** The result every driver operation returns (the C type UART_ERROR). */
  datatype UartError =
    | Success
    | ParityError
    | OverflowError
    | ReceiveEnableError
    | TransmitEnableError
    | IntegrationTestFailed
    | DataBitsError

  const ERROR_BASE: bv32 := 0x0000_0000

  /** The 32-bit value the C code uses for each result. */
  function Code(e: UartError): (c: bv32)
    ensures c < 7
    ensures c == ERROR_BASE <==> e == Success
  {
    match e
    case Success => ERROR_BASE + 0x00
    case ParityError => ERROR_BASE + 0x01
    case OverflowError => ERROR_BASE + 0x02
    case ReceiveEnableError => ERROR_BASE + 0x03
    case TransmitEnableError => ERROR_BASE + 0x04
    case IntegrationTestFailed => ERROR_BASE + 0x05
    case DataBitsError => ERROR_BASE + 0x06
  }

  /** Reads a 32-bit result value back as a result; values outside the table are None. */
  function FromCode(c: bv32): (e: Option<UartError>)
    ensures e.None? <==> c >= 7
  {
    if c == ERROR_BASE + 0x00 then Some(Success)
    else if c == ERROR_BASE + 0x01 then Some(ParityError)
    else if c == ERROR_BASE + 0x02 then Some(OverflowError)
    else if c == ERROR_BASE + 0x03 then Some(ReceiveEnableError)
    else if c == ERROR_BASE + 0x04 then Some(TransmitEnableError)
    else if c == ERROR_BASE + 0x05 then Some(IntegrationTestFailed)
    else if c == ERROR_BASE + 0x06 then Some(DataBitsError)
    else None
  }

  lemma CodeRoundTrip(e: UartError)
    ensures FromCode(Code(e)) == Some(e)
  {
  }

  lemma FromCodeRoundTrip(c: bv32)
    ensures FromCode(c).Some? ==> Code(FromCode(c).value) == c
  {
  }

  /** The seven result codes are pairwise distinct. */
  lemma {:induction false} CodesDistinct(e1: UartError, e2: UartError)
    ensures Code(e1) == Code(e2) <==> e1 == e2
  {
    CodeRoundTrip(e1);
    CodeRoundTrip(e2);
  }

  /** The registers the driver touches. */
  datatype Reg = DATA | FLAG | IBRD | FBRD | LCRH | CTRL | ITCP | ITIP | ITOP

  /** Byte offset of each register from the controller's base address. */
  function Offset(r: Reg): (o: Uint32)
    ensures o % 4 == 0 && o < 0x48
  {
    match r
    case DATA => 0x00
    case FLAG => 0x18
    case IBRD => 0x24
    case FBRD => 0x28
    case LCRH => 0x2C
    case CTRL => 0x30
    case ITCP => 0x3C
    case ITIP => 0x40
    case ITOP => 0x44
  }

  /** The register at a byte offset, if the driver uses one there. */
  function RegAt(o: Uint32): (r: Option<Reg>)
    ensures r.Some? ==> o % 4 == 0 && o < 0x48
  {
    if o == 0x00 then Some(DATA)
    else if o == 0x18 then Some(FLAG)
    else if o == 0x24 then Some(IBRD)
    else if o == 0x28 then Some(FBRD)
    else if o == 0x2C then Some(LCRH)
    else if o == 0x30 then Some(CTRL)
    else if o == 0x3C then Some(ITCP)
    else if o == 0x40 then Some(ITIP)
    else if o == 0x44 then Some(ITOP)
    else None
  }

  lemma OffsetRoundTrip(r: Reg)
    ensures RegAt(Offset(r)) == Some(r)
  {
  }

  lemma RegAtRoundTrip(o: Uint32)
    ensures RegAt(o).Some? ==> Offset(RegAt(o).value) == o
  {
  }

  /** The nine offsets are pairwise distinct. */
  lemma {:induction false} OffsetsDistinct(r1: Reg, r2: Reg)
    ensures Offset(r1) == Offset(r2) <==> r1 == r2
  {
    OffsetRoundTrip(r1);
    OffsetRoundTrip(r2);
  }

  /** The address of a register of the controller at `base` (the UART_REG_* macros),
      wrapping around modulo 2^32 as a UINT32 sum does. */
  function Addr(base: Uint32, r: Reg): Uint32
  {
    ((base as int + Offset(r) as int) % 0x1_0000_0000) as Uint32
  }

  /** Within one controller, distinct registers live at distinct addresses, even
      where `base + offset` wraps around. */
  lemma {:induction false} AddrsDistinct(base: Uint32, r1: Reg, r2: Reg)
    ensures Addr(base, r1) == Addr(base, r2) <==> r1 == r2
  {
    OffsetsDistinct(r1, r2);
  }

  /** Bit `k` of a register value. */
  predicate Bit(x: bv32, k: nat)
    requires k < 32
  {
    x & (1 << k) != 0
  }

  predicate SingleBit(m: bv32)
  {
    m != 0 && m & (m - 1) == 0
  }

  // CTRL masks
  const CTRL_TXE_MASK: bv32 := 1 << 0
  const CTRL_RXE_MASK: bv32 := 1 << 9

  // FLAG masks
  const FLAG_TXFF_MASK: bv32 := 1 << 5
  const FLAG_RXFE_MASK: bv32 := 1 << 4
  const FLAG_PE_MASK: bv32 := 1 << 3
  const FLAG_OE_MASK: bv32 := 1 << 6

  /** TXE and RXE are disjoint single bits, at positions 0 and 9. */
  lemma CtrlMasks()
    ensures SingleBit(CTRL_TXE_MASK) && SingleBit(CTRL_RXE_MASK)
    ensures CTRL_TXE_MASK & CTRL_RXE_MASK == 0
    ensures forall k: nat :: k < 32 ==> (Bit(CTRL_TXE_MASK, k) <==> k == 0)
    ensures forall k: nat :: k < 32 ==> (Bit(CTRL_RXE_MASK, k) <==> k == 9)
  {
  }

  /** The four FLAG masks are single bits at positions 5, 4, 3 and 6. */
  lemma FlagMasks()
    ensures SingleBit(FLAG_TXFF_MASK) && SingleBit(FLAG_RXFE_MASK)
    ensures SingleBit(FLAG_PE_MASK) && SingleBit(FLAG_OE_MASK)
    ensures forall k: nat :: k < 32 ==> (Bit(FLAG_TXFF_MASK, k) <==> k == 5)
    ensures forall k: nat :: k < 32 ==> (Bit(FLAG_RXFE_MASK, k) <==> k == 4)
    ensures forall k: nat :: k < 32 ==> (Bit(FLAG_PE_MASK, k) <==> k == 3)
    ensures forall k: nat :: k < 32 ==> (Bit(FLAG_OE_MASK, k) <==> k == 6)
  {
  }

  // Base addresses of the six UART instances
  const UART0_BASE_ADDR: Uint32 := 0x7E20_1000
  const UART1_BASE_ADDR: Uint32 := 0x7E21_5000
  const UART2_BASE_ADDR: Uint32 := 0x7E20_1400
  const UART3_BASE_ADDR: Uint32 := 0x7E20_1600
  const UART4_BASE_ADDR: Uint32 := 0x7E20_1800
  const UART5_BASE_ADDR: Uint32 := 0x7E20_1A00

  const BASE_ADDRS: seq<Uint32> :=
    [UART0_BASE_ADDR, UART1_BASE_ADDR, UART2_BASE_ADDR, UART3_BASE_ADDR, UART4_BASE_ADDR, UART5_BASE_ADDR]

  /** Each register of an instance lies in the 0x48 bytes above its base. */
  lemma AddrInWindow(base: Uint32, r: Reg)
    requires base as int + 0x48 <= 0x1_0000_0000
    ensures base as int <= Addr(base, r) as int < base as int + 0x48
  {
  }

  /** Any two of the six base addresses are at least 0x200 bytes apart. */
  lemma BasesApart(i: nat, j: nat)
    requires i < j < |BASE_ADDRS|
    ensures BASE_ADDRS[i] as int + 0x200 <= BASE_ADDRS[j] as int || BASE_ADDRS[j] as int + 0x200 <= BASE_ADDRS[i] as int
  {
  }

  /** The six base addresses are pairwise distinct, and so far apart that the
      register windows of two instances never share an address. */
  lemma InstanceWindowsDisjoint(i: nat, j: nat, r1: Reg, r2: Reg)
    requires i < |BASE_ADDRS| && j < |BASE_ADDRS| && i != j
    ensures BASE_ADDRS[i] != BASE_ADDRS[j]
    ensures Addr(BASE_ADDRS[i], r1) != Addr(BASE_ADDRS[j], r2)
  {
    if i < j { BasesApart(i, j); } else { BasesApart(j, i); }
    AddrInWindow(BASE_ADDRS[i], r1);
    AddrInWindow(BASE_ADDRS[j], r2);
  }
}
