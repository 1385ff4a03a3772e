/** The UART controller of uart.c: initialisation, transmission, the error
    check, the two self-tests and the fatal error handler, over a simulated
    register store. The decisions the operations take are factored out as
    functions of the register values they read; the class Controller issues
    the same loads and stores, in the same order, as the C functions, except
    IntegrationTests, which issues the accesses uart.c:125-147 intends rather
    than the pointer accesses it makes as written (see IntegrationTraceAsWritten). */
module Uart {
  import opened UartRegs
  import opened Bus

  const ENABLE_BITS: bv32 := CTRL_TXE_MASK | CTRL_RXE_MASK
  const IBRD_DIVISOR: bv32 := 1
  const FBRD_DIVISOR: bv32 := 40
  /** Word length 8 bits (field value 0b11 at bits 5-6), no parity, one stop bit. */
  const LCRH_8N1: bv32 := 3 << 5
  const ITCP_TEST_MODE: bv32 := 1
  const ITCP_NORMAL: bv32 := 0
  const ITIP_STIMULUS: bv32 := 0x55
  const ITOP_EXPECTED: bv32 := 0xAA
  const BYTE_MASK: bv32 := 0xFF

  /** A register store that holds a value for each of the nine registers. The
      registers sit at nine distinct addresses (UartRegs.AddrsDistinct), so a
      store to one of them never changes another, and the store can be keyed
      by register. */
  predicate Complete(m: map<Reg, bv32>)
  {
    forall r: Reg :: r in m
  }

  // ---------------------------------------------------------------------
  // CTRL read-modify-write

  /** CTRL with transmit and receive disabled (see CtrlBits). */
  function DisableCtrl(c: bv32): bv32
  {
    c & !ENABLE_BITS
  }

  /** CTRL with transmit and receive enabled (see CtrlBits). */
  function EnableCtrl(c: bv32): bv32
  {
    c | ENABLE_BITS
  }

  /** Disabling clears bits 0 (TXE) and 9 (RXE), enabling sets them, and both
      keep every other bit of CTRL as it was. */
  lemma CtrlBits(c: bv32)
    ensures !Bit(DisableCtrl(c), 0) && !Bit(DisableCtrl(c), 9)
    ensures Bit(EnableCtrl(c), 0) && Bit(EnableCtrl(c), 9)
    ensures forall k: nat :: k < 32 && k != 0 && k != 9 ==> Bit(DisableCtrl(c), k) == Bit(c, k)
    ensures forall k: nat :: k < 32 && k != 0 && k != 9 ==> Bit(EnableCtrl(c), k) == Bit(c, k)
  {
    ClearedBits(c);
    SetBits(c);
  }

  lemma ClearedBits(c: bv32)
    ensures !Bit(c & !ENABLE_BITS, 0) && !Bit(c & !ENABLE_BITS, 9)
    ensures forall k: nat :: k < 32 && k != 0 && k != 9 ==> Bit(c & !ENABLE_BITS, k) == Bit(c, k)
  {
    assert ENABLE_BITS == 0x201;
  }

  lemma SetBits(c: bv32)
    ensures Bit(c | ENABLE_BITS, 0) && Bit(c | ENABLE_BITS, 9)
    ensures forall k: nat :: k < 32 && k != 0 && k != 9 ==> Bit(c | ENABLE_BITS, k) == Bit(c, k)
  {
    assert ENABLE_BITS == 0x201;
  }

  /** Re-enabling the cached, disabled value is the same as enabling the value first
      read, and disabling forgets whether the bits were set before. */
  lemma CtrlRoundTrip(c: bv32)
    ensures EnableCtrl(DisableCtrl(c)) == EnableCtrl(c)
    ensures DisableCtrl(EnableCtrl(c)) == DisableCtrl(c)
    ensures EnableCtrl(EnableCtrl(c)) == EnableCtrl(c)
  {
    EnableBitsAlgebra(c);
  }

  lemma EnableBitsAlgebra(c: bv32)
    ensures (c & !ENABLE_BITS) | ENABLE_BITS == c | ENABLE_BITS
    ensures (c | ENABLE_BITS) & !ENABLE_BITS == c & !ENABLE_BITS
    ensures (c | ENABLE_BITS) | ENABLE_BITS == c | ENABLE_BITS
  {
  }

  // ---------------------------------------------------------------------
  // uart_init

  /** The accesses uart_init issues when CTRL holds `c`: one load of CTRL, the
      disabling store, the divisors, the line format, the enabling store. */
  function InitTrace(c: bv32): seq<Access>
  {
    var cached := DisableCtrl(c);
    [Load(CTRL), Store(CTRL, cached), Store(IBRD, IBRD_DIVISOR), Store(FBRD, FBRD_DIVISOR),
     Store(LCRH, LCRH_8N1), Store(CTRL, EnableCtrl(cached))]
  }

  /** The register store after uart_init: the stores of InitTrace applied in order. */
  function InitStore(m: map<Reg, bv32>): map<Reg, bv32>
    requires CTRL in m
  {
    var cached := DisableCtrl(m[CTRL]);
    m[CTRL := cached]
     [IBRD := IBRD_DIVISOR]
     [FBRD := FBRD_DIVISOR]
     [LCRH := LCRH_8N1]
     [CTRL := EnableCtrl(cached)]
  }

  /** uart_init loads CTRL once and no other register: the value it stores back
      at the end comes from the cached local, not from a second read. */
  lemma InitLoadsCtrlOnce(c: bv32)
    ensures Loads(InitTrace(c)) == [CTRL]
  {
    var a0, a1, a2, a3, a4, a5 := Load(CTRL), Store(CTRL, DisableCtrl(c)), Store(IBRD, IBRD_DIVISOR),
      Store(FBRD, FBRD_DIVISOR), Store(LCRH, LCRH_8N1), Store(CTRL, EnableCtrl(DisableCtrl(c)));
    var t4 := [a4, a5];
    var t2 := [a2, a3] + t4;
    assert InitTrace(c) == [a0] + ([a1] + t2);
    LoadsCons(a0, [a1] + t2); LoadsCons(a1, t2);
    LoadsCons(a2, [a3] + t4); LoadsCons(a3, t4);
    LoadsCons(a4, [a5]); LoadsCons(a5, []);
  }

  /** uart_init stores CTRL exactly twice: first the old value with TXE and RXE
      cleared, then the old value with both set. */
  lemma InitCtrlWrites(c: bv32)
    ensures Writes(InitTrace(c), CTRL) == [DisableCtrl(c), EnableCtrl(c)]
  {
    InitTraceWritesTo(c, CTRL);
    CtrlRoundTrip(c);
  }

  /** uart_init stores 1 to IBRD, 40 to FBRD and 0x60 to LCRH, once each, and
      nothing to DATA. */
  lemma InitConfigWrites(c: bv32)
    ensures Writes(InitTrace(c), IBRD) == [1]
    ensures Writes(InitTrace(c), FBRD) == [40]
    ensures Writes(InitTrace(c), LCRH) == [0x60]
    ensures Writes(InitTrace(c), DATA) == []
  {
    InitTraceWritesTo(c, IBRD);
    InitTraceWritesTo(c, FBRD);
    InitTraceWritesTo(c, LCRH);
    InitTraceWritesTo(c, DATA);
  }

  lemma InitTraceWritesTo(c: bv32, r: Reg)
    ensures Writes(InitTrace(c), r)
         == Stored(Store(CTRL, DisableCtrl(c)), r) + (Stored(Store(IBRD, IBRD_DIVISOR), r)
          + (Stored(Store(FBRD, FBRD_DIVISOR), r) + (Stored(Store(LCRH, LCRH_8N1), r)
          + (Stored(Store(CTRL, EnableCtrl(DisableCtrl(c))), r) + []))))
  {
    var a0, a1, a2, a3, a4, a5 := Load(CTRL), Store(CTRL, DisableCtrl(c)), Store(IBRD, IBRD_DIVISOR),
      Store(FBRD, FBRD_DIVISOR), Store(LCRH, LCRH_8N1), Store(CTRL, EnableCtrl(DisableCtrl(c)));
    var t4 := [a4, a5];
    var t2 := [a2, a3] + t4;
    assert InitTrace(c) == [a0] + ([a1] + t2);
    WritesCons(a0, [a1] + t2, r); WritesCons(a1, t2, r);
    WritesCons(a2, [a3] + t4, r); WritesCons(a3, t4, r);
    WritesCons(a4, [a5], r); WritesCons(a5, [], r);
  }

  /** After uart_init: IBRD = 1, FBRD = 40, LCRH is exactly 0x60 (not only its
      word-length field), CTRL is the old value with TXE and RXE set, and no
      other register changed. */
  lemma {:induction false} InitStoreRegisters(m: map<Reg, bv32>)
    requires Complete(m)
    ensures Complete(InitStore(m))
    ensures InitStore(m)[IBRD] == 1
    ensures InitStore(m)[FBRD] == 40
    ensures InitStore(m)[LCRH] == 0x60
    ensures InitStore(m)[CTRL] == EnableCtrl(m[CTRL])
    ensures forall r: Reg :: r !in {CTRL, IBRD, FBRD, LCRH} ==>
              InitStore(m)[r] == m[r]
  {
    CtrlRoundTrip(m[CTRL]);
  }

  /** uart_init is idempotent: a second call issues the very same accesses as
      the first and leaves the same register state. */
  lemma {:induction false} InitIdempotent(m: map<Reg, bv32>)
    requires Complete(m)
    ensures InitTrace(InitStore(m)[CTRL]) == InitTrace(m[CTRL])
    ensures InitStore(InitStore(m)) == InitStore(m)
  {
    var c := m[CTRL];
    InitStoreRegisters(m);
    CtrlRoundTrip(c);
    assert DisableCtrl(EnableCtrl(DisableCtrl(c))) == DisableCtrl(c) by {
      CtrlRoundTrip(DisableCtrl(c));
    }
  }

  // ---------------------------------------------------------------------
  // uart_check_errors

  /** The verdict of uart_check_errors on a FLAG reading: parity first, then overrun. */
  function LinkVerdict(flag: bv32): (e: UartError)
    ensures e == ParityError <==> Bit(flag, 3)
    ensures e == OverflowError <==> !Bit(flag, 3) && Bit(flag, 6)
    ensures e == Success <==> !Bit(flag, 3) && !Bit(flag, 6)
  {
    if flag & FLAG_PE_MASK != 0 then ParityError
    else if flag & FLAG_OE_MASK != 0 then OverflowError
    else Success
  }

  /** Only the parity and overrun bits matter: TXFF, RXFE and every other bit of FLAG are ignored. */
  lemma LinkVerdictIgnoresOtherBits(flag: bv32, other: bv32)
    ensures LinkVerdict(flag) == LinkVerdict((flag & (FLAG_PE_MASK | FLAG_OE_MASK)) | (other & !(FLAG_PE_MASK | FLAG_OE_MASK)))
  {
  }

  // ---------------------------------------------------------------------
  // uart_startup_tests

  /** The verdict of uart_startup_tests on LCRH and CTRL: word length first,
      then transmit enable, then receive enable. */
  function StartupVerdict(lcrh: bv32, ctrl: bv32): (e: UartError)
    ensures e == DataBitsError <==> !(Bit(lcrh, 5) && Bit(lcrh, 6))
    ensures e == TransmitEnableError <==> Bit(lcrh, 5) && Bit(lcrh, 6) && !Bit(ctrl, 0)
    ensures e == ReceiveEnableError <==> Bit(lcrh, 5) && Bit(lcrh, 6) && Bit(ctrl, 0) && !Bit(ctrl, 9)
    ensures e == Success <==> Bit(lcrh, 5) && Bit(lcrh, 6) && Bit(ctrl, 0) && Bit(ctrl, 9)
  {
    if lcrh & LCRH_8N1 != LCRH_8N1 then DataBitsError
    else if ctrl & CTRL_TXE_MASK == 0 then TransmitEnableError
    else if ctrl & CTRL_RXE_MASK == 0 then ReceiveEnableError
    else Success
  }

  /** The configuration uart_init leaves behind passes the startup audit, whatever CTRL held before. */
  lemma {:induction false} InitPassesStartup(m: map<Reg, bv32>)
    requires Complete(m)
    ensures StartupVerdict(InitStore(m)[LCRH], InitStore(m)[CTRL]) == Success
  {
    InitStoreRegisters(m);
  }

  // ---------------------------------------------------------------------
  // uart_integration_tests

  /** The verdict of uart_integration_tests on an ITOP reading. */
  function IntegrationVerdict(itop: bv32): (e: UartError)
    ensures e == Success || e == IntegrationTestFailed
  {
    if itop & BYTE_MASK != ITOP_EXPECTED then IntegrationTestFailed else Success
  }

  /** The test passes exactly when the low eight bits of ITOP are those of 0xAA, bit for bit. */
  lemma {:induction false} IntegrationVerdictBits(itop: bv32)
    ensures IntegrationVerdict(itop) == Success <==> forall k: nat :: k < 8 ==> Bit(itop, k) == Bit(ITOP_EXPECTED, k)
  {
    if forall k: nat :: k < 8 ==> Bit(itop, k) == Bit(ITOP_EXPECTED, k) {
      assert Bit(itop, 0) == Bit(ITOP_EXPECTED, 0) && Bit(itop, 1) == Bit(ITOP_EXPECTED, 1);
      assert Bit(itop, 2) == Bit(ITOP_EXPECTED, 2) && Bit(itop, 3) == Bit(ITOP_EXPECTED, 3);
      assert Bit(itop, 4) == Bit(ITOP_EXPECTED, 4) && Bit(itop, 5) == Bit(ITOP_EXPECTED, 5);
      assert Bit(itop, 6) == Bit(ITOP_EXPECTED, 6) && Bit(itop, 7) == Bit(ITOP_EXPECTED, 7);
    }
  }

  /** The high 24 bits of ITOP are ignored. */
  lemma IntegrationIgnoresHighBits(itop: bv32, high: bv32)
    ensures IntegrationVerdict(itop) == IntegrationVerdict((itop & BYTE_MASK) | (high << 8))
  {
  }

  /** The intended accesses of uart_integration_tests: test mode on, the
      stimulus, the response load, and test mode off only when the response
      was right. */
  function IntegrationTrace(passed: bool): seq<Access>
  {
    [Store(ITCP, ITCP_TEST_MODE), Store(ITIP, ITIP_STIMULUS), Load(ITOP)]
      + (if passed then [Store(ITCP, ITCP_NORMAL)] else [])
  }

  /** The intended test stores 1 and then, on success, 0 to ITCP; 0x55 to
      ITIP once; and loads ITOP and no other register. */
  lemma {:induction false} IntegrationTraceAccesses(passed: bool)
    ensures Writes(IntegrationTrace(passed), ITCP) == [ITCP_TEST_MODE] + (if passed then [ITCP_NORMAL] else [])
    ensures Writes(IntegrationTrace(passed), ITIP) == [ITIP_STIMULUS]
    ensures Loads(IntegrationTrace(passed)) == [ITOP]
  {
    var a0, a1, a2 := Store(ITCP, ITCP_TEST_MODE), Store(ITIP, ITIP_STIMULUS), Load(ITOP);
    var tail := if passed then [Store(ITCP, ITCP_NORMAL)] else [];
    assert IntegrationTrace(passed) == [a0] + ([a1] + ([a2] + tail));
    WritesCons(a0, [a1] + ([a2] + tail), ITCP); WritesCons(a1, [a2] + tail, ITCP); WritesCons(a2, tail, ITCP);
    WritesCons(a0, [a1] + ([a2] + tail), ITIP); WritesCons(a1, [a2] + tail, ITIP); WritesCons(a2, tail, ITIP);
    LoadsCons(a0, [a1] + ([a2] + tail)); LoadsCons(a1, [a2] + tail); LoadsCons(a2, tail);
    if passed {
      WritesCons(Store(ITCP, ITCP_NORMAL), [], ITCP);
      WritesCons(Store(ITCP, ITCP_NORMAL), [], ITIP);
      LoadsCons(Store(ITCP, ITCP_NORMAL), []);
    }
  }

  /** The same accesses, by address: for the controller at `base`, ITCP receives
      1 (then 0 on success) and ITIP receives 0x55. */
  lemma {:induction false} IntegrationTraceHitsTestRegisters(base: Uint32, passed: bool)
    ensures AddrWrites(IntegrationTrace(passed), base, Addr(base, ITCP)) == [ITCP_TEST_MODE] + (if passed then [ITCP_NORMAL] else [])
    ensures AddrWrites(IntegrationTrace(passed), base, Addr(base, ITIP)) == [ITIP_STIMULUS]
  {
    AddrsDistinct(base, ITCP, ITIP);
    var a0, a1, a2 := Store(ITCP, ITCP_TEST_MODE), Store(ITIP, ITIP_STIMULUS), Load(ITOP);
    var tail := if passed then [Store(ITCP, ITCP_NORMAL)] else [];
    assert IntegrationTrace(passed) == [a0] + ([a1] + ([a2] + tail));
    var pc, pi := Addr(base, ITCP), Addr(base, ITIP);
    AddrWritesCons(a0, [a1] + ([a2] + tail), base, pc); AddrWritesCons(a1, [a2] + tail, base, pc);
    AddrWritesCons(a2, tail, base, pc);
    AddrWritesCons(a0, [a1] + ([a2] + tail), base, pi); AddrWritesCons(a1, [a2] + tail, base, pi);
    AddrWritesCons(a2, tail, base, pi);
    if passed {
      AddrWritesCons(Store(ITCP, ITCP_NORMAL), [], base, pc);
      AddrWritesCons(Store(ITCP, ITCP_NORMAL), [], base, pi);
    }
  }

  // ---------------------------------------------------------------------
  // uart_integration_tests as written

  /** A 32-bit register value used as a pointer. */
  function AsPointer(v: bv32): (p: Uint32)
  {
    v as int as Uint32
  }

  /** The accesses uart_integration_tests issues as written. The UART_REG_IT*
      macros already dereference, so the casts at uart.c:127-129 turn the
      contents of ITCP, ITIP and ITOP (here `itcp`, `itip`, `itop`) into
      pointers. The register loads come first; the test then stores and loads
      through those pointers. `passed` is the verdict on the word read through
      `itop`. */
  function IntegrationTraceAsWritten(itcp: bv32, itip: bv32, itop: bv32, passed: bool): seq<Access>
  {
    [Load(ITCP), Load(ITIP), Load(ITOP),
     MemStore(AsPointer(itcp), ITCP_TEST_MODE), MemStore(AsPointer(itip), ITIP_STIMULUS), MemLoad(AsPointer(itop))]
      + (if passed then [MemStore(AsPointer(itcp), ITCP_NORMAL)] else [])
  }

  /** A shape check and nothing more: the two traces differ already in their
      first access (a load of ITCP against a store to ITCP). What the difference
      does to the device is stated by IntegrationAsWrittenMissesTestRegisters
      and IntegrationAsWrittenAtReset. */
  lemma IntegrationAsWrittenDiffers(itcp: bv32, itip: bv32, itop: bv32, p: bool, q: bool)
    ensures IntegrationTraceAsWritten(itcp, itip, itop, p) != IntegrationTrace(q)
  {
    assert IntegrationTraceAsWritten(itcp, itip, itop, p)[0] != IntegrationTrace(q)[0];
  }

  /** As written, the test loads ITCP, ITIP and ITOP and issues no store through
      the UART_REG_* macros: every store goes through a loaded pointer value. */
  lemma {:induction false} IntegrationAsWrittenRegisterAccesses(itcp: bv32, itip: bv32, itop: bv32, passed: bool, r: Reg)
    ensures Writes(IntegrationTraceAsWritten(itcp, itip, itop, passed), r) == []
    ensures Loads(IntegrationTraceAsWritten(itcp, itip, itop, passed)) == [ITCP, ITIP, ITOP]
  {
    var a0, a1, a2 := Load(ITCP), Load(ITIP), Load(ITOP);
    var a3, a4, a5 := MemStore(AsPointer(itcp), ITCP_TEST_MODE), MemStore(AsPointer(itip), ITIP_STIMULUS), MemLoad(AsPointer(itop));
    var tail := if passed then [MemStore(AsPointer(itcp), ITCP_NORMAL)] else [];
    var t3 := [a3] + ([a4] + ([a5] + tail));
    assert IntegrationTraceAsWritten(itcp, itip, itop, passed) == [a0] + ([a1] + ([a2] + t3));
    WritesCons(a0, [a1] + ([a2] + t3), r); WritesCons(a1, [a2] + t3, r); WritesCons(a2, t3, r);
    WritesCons(a3, [a4] + ([a5] + tail), r); WritesCons(a4, [a5] + tail, r); WritesCons(a5, tail, r);
    LoadsCons(a0, [a1] + ([a2] + t3)); LoadsCons(a1, [a2] + t3); LoadsCons(a2, t3);
    LoadsCons(a3, [a4] + ([a5] + tail)); LoadsCons(a4, [a5] + tail); LoadsCons(a5, tail);
    if passed {
      WritesCons(tail[0], [], r);
      LoadsCons(tail[0], []);
    }
  }

  /** As written, nothing is stored at the address of ITCP unless ITCP or ITIP
      happened to hold that very address, and likewise for ITIP. */
  lemma {:induction false} IntegrationAsWrittenMissesTestRegisters(base: Uint32, itcp: bv32, itip: bv32, itop: bv32, passed: bool)
    ensures AsPointer(itcp) != Addr(base, ITCP) && AsPointer(itip) != Addr(base, ITCP) ==>
              AddrWrites(IntegrationTraceAsWritten(itcp, itip, itop, passed), base, Addr(base, ITCP)) == []
    ensures AsPointer(itcp) != Addr(base, ITIP) && AsPointer(itip) != Addr(base, ITIP) ==>
              AddrWrites(IntegrationTraceAsWritten(itcp, itip, itop, passed), base, Addr(base, ITIP)) == []
  {
    var a0, a1, a2 := Load(ITCP), Load(ITIP), Load(ITOP);
    var a3, a4, a5 := MemStore(AsPointer(itcp), ITCP_TEST_MODE), MemStore(AsPointer(itip), ITIP_STIMULUS), MemLoad(AsPointer(itop));
    var tail := if passed then [MemStore(AsPointer(itcp), ITCP_NORMAL)] else [];
    var t3 := [a3] + ([a4] + ([a5] + tail));
    assert IntegrationTraceAsWritten(itcp, itip, itop, passed) == [a0] + ([a1] + ([a2] + t3));
    var pc, pi := Addr(base, ITCP), Addr(base, ITIP);
    AddrWritesCons(a0, [a1] + ([a2] + t3), base, pc); AddrWritesCons(a1, [a2] + t3, base, pc);
    AddrWritesCons(a2, t3, base, pc); AddrWritesCons(a3, [a4] + ([a5] + tail), base, pc);
    AddrWritesCons(a4, [a5] + tail, base, pc); AddrWritesCons(a5, tail, base, pc);
    AddrWritesCons(a0, [a1] + ([a2] + t3), base, pi); AddrWritesCons(a1, [a2] + t3, base, pi);
    AddrWritesCons(a2, t3, base, pi); AddrWritesCons(a3, [a4] + ([a5] + tail), base, pi);
    AddrWritesCons(a4, [a5] + tail, base, pi); AddrWritesCons(a5, tail, base, pi);
    if passed {
      AddrWritesCons(tail[0], [], base, pc);
      AddrWritesCons(tail[0], [], base, pi);
    }
  }

  /** The input that shows it: on UART0 with ITCP, ITIP and ITOP reading 0, the
      test as written stores 1 and 0x55 to address 0 and nothing to ITCP or ITIP,
      where the intended test stores 1 to ITCP and 0x55 to ITIP. */
  lemma IntegrationAsWrittenAtReset(passed: bool)
    ensures AddrWrites(IntegrationTraceAsWritten(0, 0, 0, passed), UART0_BASE_ADDR, Addr(UART0_BASE_ADDR, ITCP)) == []
    ensures AddrWrites(IntegrationTraceAsWritten(0, 0, 0, passed), UART0_BASE_ADDR, Addr(UART0_BASE_ADDR, ITIP)) == []
    ensures AddrWrites(IntegrationTrace(passed), UART0_BASE_ADDR, Addr(UART0_BASE_ADDR, ITCP))[0] == ITCP_TEST_MODE
    ensures AddrWrites(IntegrationTrace(passed), UART0_BASE_ADDR, Addr(UART0_BASE_ADDR, ITIP)) == [ITIP_STIMULUS]
  {
    assert Addr(UART0_BASE_ADDR, ITCP) == 0x7E20_103C && Addr(UART0_BASE_ADDR, ITIP) == 0x7E20_1040;
    IntegrationAsWrittenMissesTestRegisters(UART0_BASE_ADDR, 0, 0, 0, passed);
    IntegrationTraceHitsTestRegisters(UART0_BASE_ADDR, passed);
  }

  /** Each check detects only its own class of error. */
  lemma ErrorTaxonomy(flag: bv32, lcrh: bv32, ctrl: bv32, itop: bv32)
    ensures LinkVerdict(flag) in {Success, ParityError, OverflowError}
    ensures StartupVerdict(lcrh, ctrl) in {Success, DataBitsError, TransmitEnableError, ReceiveEnableError}
    ensures IntegrationVerdict(itop) in {Success, IntegrationTestFailed}
  {
  }

  // ---------------------------------------------------------------------
  // uart_send_char and uart_send_string

  /** A FLAG reading with the transmit FIFO full (TXFF set). */
  predicate TxFull(flag: bv32)
  {
    flag & FLAG_TXFF_MASK != 0
  }

  /** TXFF is bit 5 of FLAG. */
  lemma TxFullBit(flag: bv32)
    ensures TxFull(flag) <==> Bit(flag, 5)
  {
  }

  /** Number of FLAG loads the busy-wait of uart_send_char performs when the
      hardware supplies the readings `feed` and afterwards shows TXFF clear. */
  function PollCount(feed: seq<bv32>): (n: nat)
    ensures 1 <= n <= |feed| + 1
    ensures forall i :: 0 <= i < n - 1 ==> TxFull(feed[i])
    ensures n <= |feed| ==> !TxFull(feed[n - 1])
  {
    if feed == [] then 1
    else if !TxFull(feed[0]) then 1
    else 1 + PollCount(feed[1..])
  }

  /** The busy-wait stops at the first reading with TXFF clear, and at no other. */
  lemma PollCountUnique(feed: seq<bv32>, n: nat)
    requires 1 <= n <= |feed| + 1
    requires forall i :: 0 <= i < n - 1 ==> TxFull(feed[i])
    requires n <= |feed| ==> !TxFull(feed[n - 1])
    ensures n == PollCount(feed)
  {
  }

  /** The readings left after taking the first `n`. */
  function Drop(feed: seq<bv32>, n: nat): (rest: seq<bv32>)
    ensures |rest| == if n <= |feed| then |feed| - n else 0
  {
    if n <= |feed| then feed[n..] else []
  }

  /** Taking one more reading from what is left after `n`. */
  lemma DropNext(feed: seq<bv32>, n: nat)
    ensures Drop(Drop(feed, n), 1) == Drop(feed, n + 1)
    ensures Drop(feed, n) != [] <==> n < |feed|
    ensures n < |feed| ==> Drop(feed, n)[0] == feed[n]
  {
  }

  /** The readings left after one busy-wait. */
  function AfterPoll(feed: seq<bv32>): seq<bv32>
  {
    Drop(feed, PollCount(feed))
  }

  /** The readings left after `n` calls of uart_send_char. */
  function FeedAfterSends(feed: seq<bv32>, n: nat): seq<bv32>
    decreases n
  {
    if n == 0 then feed else FeedAfterSends(AfterPoll(feed), n - 1)
  }

  lemma {:induction false} FeedAfterSendsNext(feed: seq<bv32>, n: nat)
    ensures FeedAfterSends(feed, n + 1) == AfterPoll(FeedAfterSends(feed, n))
    decreases n
  {
    if n > 0 {
      FeedAfterSendsNext(AfterPoll(feed), n - 1);
    }
  }

  /** The accesses of uart_send_char(c): the polls of the busy-wait, then one store of `c` to DATA. */
  function SendCharTrace(feed: seq<bv32>, c: bv8): seq<Access>
  {
    FlagPolls(PollCount(feed)) + [Store(DATA, c as bv32)]
  }

  /** The accesses of sending the bytes `bs` one uart_send_char after another. */
  function SendTrace(feed: seq<bv32>, bs: seq<bv8>): seq<Access>
    decreases |bs|
  {
    if bs == [] then [] else SendCharTrace(feed, bs[0]) + SendTrace(AfterPoll(feed), bs[1..])
  }

  lemma {:induction false} SendTraceNext(feed: seq<bv32>, bs: seq<bv8>, c: bv8)
    ensures SendTrace(feed, bs + [c]) == SendTrace(feed, bs) + SendCharTrace(FeedAfterSends(feed, |bs|), c)
    decreases |bs|
  {
    if bs == [] {
      assert bs + [c] == [c];
      assert [c][1..] == [];
    } else {
      assert (bs + [c])[1..] == bs[1..] + [c];
      SendTraceNext(AfterPoll(feed), bs[1..], c);
    }
  }

  /** One more uart_send_char extends the trace, the readings consumed and the store. */
  lemma SendStep(m: map<Reg, bv32>, feed: seq<bv32>, bs: seq<bv8>, c: bv8)
    ensures SendTrace(feed, bs + [c]) == SendTrace(feed, bs) + SendCharTrace(FeedAfterSends(feed, |bs|), c)
    ensures FeedAfterSends(feed, |bs| + 1) == AfterPoll(FeedAfterSends(feed, |bs|))
    ensures SendStore(m, bs + [c]) == SendStore(m, bs)[DATA := c as bv32]
  {
    SendTraceNext(feed, bs, c);
    FeedAfterSendsNext(feed, |bs|);
    SendStoreNext(m, bs, c);
  }

  /** The 32-bit words the DATA register receives for the bytes `bs`; each
      fits in a byte and gives that byte back. */
  function Widen(bs: seq<bv8>): (w: seq<bv32>)
    ensures |w| == |bs|
    ensures forall i :: 0 <= i < |bs| ==> w[i] <= 0xFF && w[i] as bv8 == bs[i]
  {
    if bs == [] then [] else [bs[0] as bv32] + Widen(bs[1..])
  }

  /** Sending `bs` stores exactly the bytes of `bs` to DATA, in order, one store per byte. */
  lemma {:induction false} SendTraceData(feed: seq<bv32>, bs: seq<bv8>)
    ensures Writes(SendTrace(feed, bs), DATA) == Widen(bs)
    decreases |bs|
  {
    if bs != [] {
      var polls := FlagPolls(PollCount(feed));
      var store := [Store(DATA, bs[0] as bv32)];
      var rest := SendTrace(AfterPoll(feed), bs[1..]);
      assert SendTrace(feed, bs) == polls + (store + rest);
      SendTraceData(AfterPoll(feed), bs[1..]);
      FlagPollsAccesses(PollCount(feed), DATA);
      WritesAppend(polls, store + rest, DATA);
      WritesAppend(store, rest, DATA);
      WritesCons(store[0], [], DATA);
    }
  }

  /** Sending stores to no register but DATA. */
  lemma {:induction false} SendTraceOnlyData(feed: seq<bv32>, bs: seq<bv8>, r: Reg)
    requires r != DATA
    ensures Writes(SendTrace(feed, bs), r) == []
    decreases |bs|
  {
    if bs != [] {
      var polls := FlagPolls(PollCount(feed));
      var store := [Store(DATA, bs[0] as bv32)];
      var rest := SendTrace(AfterPoll(feed), bs[1..]);
      assert SendTrace(feed, bs) == polls + (store + rest);
      SendTraceOnlyData(AfterPoll(feed), bs[1..], r);
      FlagPollsAccesses(PollCount(feed), r);
      WritesAppend(polls, store + rest, r);
      WritesAppend(store, rest, r);
      WritesCons(store[0], [], r);
    }
  }

  /** Appending the accesses of sending `bs` adds the bytes of `bs` to the DATA
      writes and leaves the writes of every other register as they were. */
  lemma SendWrites(t: seq<Access>, feed: seq<bv32>, bs: seq<bv8>)
    ensures Writes(t + SendTrace(feed, bs), DATA) == Writes(t, DATA) + Widen(bs)
    ensures forall r :: r != DATA ==> Writes(t + SendTrace(feed, bs), r) == Writes(t, r)
  {
    SendTraceData(feed, bs);
    WritesAppend(t, SendTrace(feed, bs), DATA);
    forall r | r != DATA
      ensures Writes(t + SendTrace(feed, bs), r) == Writes(t, r)
    {
      SendTraceOnlyData(feed, bs, r);
      WritesAppend(t, SendTrace(feed, bs), r);
    }
  }

  /** Sending loads FLAG and nothing else. */
  lemma {:induction false} SendTraceLoadsFlag(feed: seq<bv32>, bs: seq<bv8>)
    ensures forall i :: 0 <= i < |Loads(SendTrace(feed, bs))| ==> Loads(SendTrace(feed, bs))[i] == FLAG
    decreases |bs|
  {
    if bs != [] {
      var polls := FlagPolls(PollCount(feed));
      var store := [Store(DATA, bs[0] as bv32)];
      var rest := SendTrace(AfterPoll(feed), bs[1..]);
      assert SendTrace(feed, bs) == polls + (store + rest);
      SendTraceLoadsFlag(AfterPoll(feed), bs[1..]);
      FlagPollsAccesses(PollCount(feed), DATA);
      LoadsAppend(polls, store + rest);
      LoadsAppend(store, rest);
      LoadsCons(store[0], []);
    }
  }

  /** The register store after sending `bs`: DATA holds the last byte sent. */
  function SendStore(m: map<Reg, bv32>, bs: seq<bv8>): map<Reg, bv32>
  {
    if bs == [] then m else m[DATA := bs[|bs| - 1] as bv32]
  }

  lemma SendStoreNext(m: map<Reg, bv32>, bs: seq<bv8>, c: bv8)
    ensures SendStore(m, bs + [c]) == SendStore(m, bs)[DATA := c as bv32]
  {
    var last := (bs + [c])[|bs + [c]| - 1];
    assert last == c;
    if bs != [] {
      var prev := bs[|bs| - 1] as bv32;
      assert m[DATA := prev][DATA := c as bv32] == m[DATA := c as bv32];
    }
  }

  /** The bytes of a NUL-terminated string before its terminator. */
  function CString(s: seq<bv8>): (r: seq<bv8>)
    requires 0 in s
    ensures |r| < |s| && r == s[..|r|] && s[|r|] == 0 && 0 !in r
  {
    if s[0] == 0 then []
    else
      assert 0 in s[1..] by { var k :| 0 <= k < |s| && s[k] == 0; assert s[1..][k - 1] == 0; }
      [s[0]] + CString(s[1..])
  }

  /** An empty string (the terminator first) issues no access and consumes no FLAG reading. */
  lemma EmptyStringSendsNothing(feed: seq<bv32>, s: seq<bv8>)
    requires 0 in s && s[0] == 0
    ensures SendTrace(feed, CString(s)) == []
    ensures FeedAfterSends(feed, |CString(s)|) == feed
  {
  }

  // ---------------------------------------------------------------------
  // The controller

  /** The driver's life cycle: running, or stopped for good in uart_handle_error. */
  datatype Status = Running | Halted(code: UartError)

  /** One UART instance: its base address and the registers behind it. */
  class Controller {
    const base: Uint32
    /** The value of each register; register `r` lives at address `Addr(base, r)`. */
    var regs: map<Reg, bv32>
    /** Readings the hardware supplies to the next FLAG loads; once they run out,
        FLAG reads as its stored value. */
    var flagFeed: seq<bv32>
    /** Every load and store issued so far, in order. */
    var trace: seq<Access>
    var status: Status

    ghost predicate Valid()
      reads this
    {
      Complete(regs)
    }

    /** The stored value of register `r`. */
    function Value(r: Reg): bv32
      reads this
      requires Valid()
    {
      regs[r]
    }

    /** What the next load of FLAG returns. */
    function NextFlag(): bv32
      reads this
      requires Valid()
    {
      if flagFeed != [] then flagFeed[0] else Value(FLAG)
    }

    /** The transmit FIFO drains: once the supplied readings run out, FLAG shows TXFF clear. */
    predicate FifoDrains()
      reads this
      requires Valid()
    {
      !TxFull(Value(FLAG))
    }

    /** A controller over a seeded register store. */
    constructor (base: Uint32, regs: map<Reg, bv32>, flagFeed: seq<bv32>)
      requires Complete(regs)
      ensures Valid() && this.base == base && this.regs == regs && this.flagFeed == flagFeed
      ensures trace == [] && status == Running
    {
      this.base := base;
      this.regs := regs;
      this.flagFeed := flagFeed;
      trace := [];
      status := Running;
    }

    /** One volatile load of FLAG: the next supplied reading, or the stored value once they have run out. */
    method LoadFlag() returns (v: bv32)
      requires Valid() && status == Running
      modifies this`trace, this`flagFeed
      ensures Valid()
      ensures v == old(NextFlag())
      ensures flagFeed == Drop(old(flagFeed), 1)
      ensures trace == old(trace) + [Load(FLAG)]
    {
      if flagFeed != [] {
        v := flagFeed[0];
        flagFeed := flagFeed[1..];
      } else {
        v := regs[FLAG];
      }
      trace := trace + [Load(FLAG)];
    }

    /** One volatile load of a register other than FLAG: its stored value. */
    method LoadReg(r: Reg) returns (v: bv32)
      requires Valid() && status == Running && r != FLAG
      modifies this`trace
      ensures v == Value(r)
      ensures trace == old(trace) + [Load(r)]
    {
      v := regs[r];
      trace := trace + [Load(r)];
    }

    /** One volatile store. */
    method StoreReg(r: Reg, v: bv32)
      requires Valid() && status == Running
      modifies this`regs, this`trace
      ensures Valid()
      ensures regs == old(regs)[r := v]
      ensures trace == old(trace) + [Store(r, v)]
    {
      regs := regs[r := v];
      trace := trace + [Store(r, v)];
    }

    /** uart_init: disable, program the divisors and the line format, re-enable
        from the cached value. Always succeeds. */
    method Init() returns (r: UartError)
      requires Valid() && status == Running
      modifies this`regs, this`trace
      ensures Valid() && r == Success
      ensures trace == old(trace) + InitTrace(old(Value(CTRL)))
      ensures regs == InitStore(old(regs))
    {
      var controlReg := LoadReg(CTRL);
      controlReg := DisableCtrl(controlReg);
      StoreReg(CTRL, controlReg);
      StoreReg(IBRD, IBRD_DIVISOR);
      StoreReg(FBRD, FBRD_DIVISOR);
      StoreReg(LCRH, LCRH_8N1);
      controlReg := EnableCtrl(controlReg);
      StoreReg(CTRL, controlReg);
      r := Success;
    }

    /** uart_send_char: poll FLAG until TXFF is clear, then store `c` to DATA. */
    method SendChar(c: bv8) returns (r: UartError)
      requires Valid() && status == Running && FifoDrains()
      modifies this`regs, this`trace, this`flagFeed
      ensures Valid() && r == Success
      ensures trace == old(trace) + SendCharTrace(old(flagFeed), c)
      ensures flagFeed == AfterPoll(old(flagFeed))
      ensures regs == old(regs)[DATA := c as bv32]
    {
      ghost var feed := flagFeed;
      ghost var n: nat := 1;
      var flagReg := LoadFlag();
      while flagReg & FLAG_TXFF_MASK != 0
        invariant Valid() && regs == old(regs)
        invariant 1 <= n <= |feed| + 1
        invariant trace == old(trace) + FlagPolls(n)
        invariant flagFeed == Drop(feed, n)
        invariant flagReg == if n <= |feed| then feed[n - 1] else Value(FLAG)
        invariant forall i :: 0 <= i < n - 1 ==> TxFull(feed[i])
        decreases |feed| + 1 - n
      {
        DropNext(feed, n);
        flagReg := LoadFlag();
        assert FlagPolls(n + 1) == FlagPolls(n) + [Load(FLAG)];
        n := n + 1;
      }
      PollCountUnique(feed, n);
      StoreReg(DATA, c as bv32);
      r := Success;
    }

    /** uart_send_string: send the bytes of a NUL-terminated string one by one,
        stopping at the terminator or at the first failed uart_send_char. */
    method SendString(s: seq<bv8>) returns (r: UartError)
      requires Valid() && status == Running && FifoDrains()
      requires 0 in s
      modifies this`regs, this`trace, this`flagFeed
      ensures Valid() && r == Success
      ensures trace == old(trace) + SendTrace(old(flagFeed), CString(s))
      ensures flagFeed == FeedAfterSends(old(flagFeed), |CString(s)|)
      ensures regs == SendStore(old(regs), CString(s))
      ensures Writes(trace, DATA) == old(Writes(trace, DATA)) + Widen(CString(s))
      ensures forall reg :: reg != DATA ==> Writes(trace, reg) == old(Writes(trace, reg))
    {
      ghost var text := CString(s);
      var i := 0;
      r := Success;
      while s[i] != 0 && r == Success
        invariant Valid() && FifoDrains() && r == Success
        invariant 0 <= i <= |text| && s[..i] == text[..i]
        invariant trace == old(trace) + SendTrace(old(flagFeed), s[..i])
        invariant flagFeed == FeedAfterSends(old(flagFeed), i)
        invariant regs == SendStore(old(regs), s[..i])
        decreases |text| - i
      {
        SendStep(old(regs), old(flagFeed), s[..i], s[i]);
        assert s[..i + 1] == s[..i] + [s[i]];
        r := SendChar(s[i]);
        i := i + 1;
      }
      assert i == |text| && s[..i] == text;
      SendWrites(old(trace), old(flagFeed), text);
    }

    /** uart_check_errors: one load of FLAG; parity error before overrun error;
        a detected error halts the driver. */
    method CheckErrors() returns (r: UartError)
      requires Valid() && status == Running
      modifies this`trace, this`flagFeed, this`status
      ensures Valid()
      ensures trace == old(trace) + [Load(FLAG)]
      ensures flagFeed == Drop(old(flagFeed), 1)
      ensures r == LinkVerdict(old(NextFlag()))
      ensures status == if r == Success then Running else Halted(r)
    {
      var flagReg := LoadFlag();
      if flagReg & FLAG_PE_MASK != 0 {
        HandleError(ParityError);
        return ParityError;
      }
      if flagReg & FLAG_OE_MASK != 0 {
        HandleError(OverflowError);
        return OverflowError;
      }
      return Success;
    }

    /** uart_startup_tests: one load of LCRH, one of CTRL, then the three checks
        in order; a failed check halts the driver. */
    method StartupTests() returns (r: UartError)
      requires Valid() && status == Running
      modifies this`trace, this`status
      ensures Valid()
      ensures trace == old(trace) + [Load(LCRH), Load(CTRL)]
      ensures r == StartupVerdict(Value(LCRH), Value(CTRL))
      ensures status == if r == Success then Running else Halted(r)
    {
      var lineControlReg := LoadReg(LCRH);
      var controlReg := LoadReg(CTRL);
      if lineControlReg & LCRH_8N1 != LCRH_8N1 {
        HandleError(DataBitsError);
        return DataBitsError;
      }
      if controlReg & CTRL_TXE_MASK == 0 {
        HandleError(TransmitEnableError);
        return TransmitEnableError;
      }
      if controlReg & CTRL_RXE_MASK == 0 {
        HandleError(ReceiveEnableError);
        return ReceiveEnableError;
      }
      return Success;
    }

    /** The intended uart_integration_tests: enter test mode, apply 0x55,
        compare the low byte of ITOP with 0xAA, and leave test mode only on
        success. */
    method IntegrationTests() returns (r: UartError)
      requires Valid() && status == Running
      modifies this`regs, this`trace, this`status
      ensures Valid()
      ensures r == IntegrationVerdict(old(Value(ITOP)))
      ensures trace == old(trace) + IntegrationTrace(r == Success)
      ensures regs == old(regs)[ITCP := if r == Success then ITCP_NORMAL else ITCP_TEST_MODE]
                             [ITIP := ITIP_STIMULUS]
      ensures status == if r == Success then Running else Halted(r)
    {
      StoreReg(ITCP, ITCP_TEST_MODE);
      StoreReg(ITIP, ITIP_STIMULUS);
      var output := LoadReg(ITOP);
      if output & BYTE_MASK != ITOP_EXPECTED {
        HandleError(IntegrationTestFailed);
        return IntegrationTestFailed;
      }
      StoreReg(ITCP, ITCP_NORMAL);
      return Success;
    }

    /** uart_handle_error: the driver stops for good; no load or store follows. */
    method HandleError(code: UartError)
      requires status == Running
      modifies this`status
      ensures status == Halted(code)
    {
      status := Halted(code);
    }
  }
}
