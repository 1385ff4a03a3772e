# UART controller driver for the BCM2711 PL011 UARTs

This project models the bare-metal UART driver of a Raspberry Pi 4 bootloader
and proves properties of the model:

- its header gives result codes, the register map, the CTRL and FLAG bit masks
  and the base addresses of the six UART instances;
- `uart_init` disables the UART, programs the baud-rate divisors and the line
  format, then enables it again;
- `uart_send_char` busy-waits until the transmit FIFO has room, then writes a
  byte to DATA;
- `uart_send_string` sends a NUL-terminated string one byte at a time;
- `uart_check_errors` classifies FLAG: a parity error comes before an overrun;
- `uart_startup_tests` checks the word length, then transmit enable, then
  receive enable;
- `uart_integration_tests` drives the integration-test registers;
- `uart_handle_error` halts the processor.

Files:

- `uart_regs.dfy` (module `UartRegs`) models `uart.h`. Every register is a
  `bv32`. Addresses are 32-bit unsigned values, and `Addr` wraps around
  modulo 2^32 like the `UINT32` sum in the `UART_REG_*` macros.
- `bus.dfy` (module `Bus`) describes what the driver does to the device as the
  sequence of volatile loads and stores it issues (`Access`). `Writes(t, r)`
  lists the values stored to register `r`, in order. `Loads(t)` lists the
  registers read.
- `uart.dfy` (module `Uart`) models `uart.c`.
  - The class `Controller` holds:
    - the base address;
    - the register values, keyed by register;
    - the FLAG readings the hardware will supply (`flagFeed`);
    - the trace of every access;
    - a `status` that `HandleError` sets to `Halted(code)` in place of the
      infinite loop.
  - Every operation requires `status == Running`: nothing runs after
    `uart_handle_error`.
  - Each method issues the same loads and stores as its C function, in the
    same order. The one exception is `IntegrationTests`: it models what
    uart.c:125-147 evidently intends, not the pointer accesses the code makes
    as written (see "## Findings"). Each method is proved against
    specification functions:
    - `InitTrace` and `InitStore` for `uart_init`;
    - `PollCount` and `SendCharTrace` for `uart_send_char`;
    - `CString`, `SendTrace` and `SendStore` for `uart_send_string`;
    - `LinkVerdict`, `StartupVerdict`, `IntegrationVerdict` and
      `IntegrationTrace` for the checks.
  - Lemmas state what those functions promise.

Keying registers by name is sound because `UartRegs.AddrsDistinct` proves
that the nine registers of one controller live at nine distinct addresses,
wrap-around included. A store to one register therefore never changes
another.

FLAG and ITOP are inputs from the hardware.

- A FLAG load returns the next seeded reading in `flagFeed`. When the readings
  run out, it returns FLAG's stored value.
- ITOP's value is simply what the store holds. The model does not derive it
  from ITIP.

The busy-wait on TXFF is a real loop. Its termination rests on one assumption,
`FifoDrains`: once the seeded readings run out, FLAG shows TXFF clear.

## Model

| member | source | states |
|---|---|---|
| UartRegs.Code | uart.h:15-24 | Each result is a 32-bit code below 7, and the code is `UART_ERROR_BASE` (0) exactly for Success |
| UartRegs.FromCode | uart.h:12-24 | Reading a `UART_ERROR` value back as a result fails exactly for values 7 and above |
| UartRegs.CodeRoundTrip | uart.h:18-24 | Decoding the code of a result gives that result back |
| UartRegs.FromCodeRoundTrip | uart.h:18-24 | Every value that decodes to a result is that result's code |
| UartRegs.CodesDistinct | uart.h:18-24 | Two results have the same code if and only if they are the same result |
| UartRegs.Offset | uart.h:64-72 | Every register offset is 4-byte aligned and below 0x48 |
| UartRegs.RegAt | uart.h:64-72 | The register at a byte offset, if there is one; such offsets are aligned and below 0x48 |
| UartRegs.OffsetRoundTrip | uart.h:64-72 | The register found at a register's offset is that register |
| UartRegs.RegAtRoundTrip | uart.h:64-72 | Every offset that names a register is that register's offset |
| UartRegs.OffsetsDistinct | uart.h:64-72 | The nine offsets are pairwise distinct |
| UartRegs.Addr | uart.h:64-72 | A register's address is base + offset, wrapping modulo 2^32 as a UINT32 sum does |
| UartRegs.AddrsDistinct | uart.h:64-72 | For any base, two registers have the same 32-bit address (base + offset, wrapping) if and only if they are the same register |
| UartRegs.CtrlMasks | uart.h:75-76 | TXE and RXE are single bits, at positions 0 and 9 exactly, and disjoint |
| UartRegs.FlagMasks | uart.h:79-82 | TXFF, RXFE, PE and OE are single bits at positions 5, 4, 3 and 6 exactly |
| UartRegs.AddrInWindow | uart.h:64-72 | When base + 0x48 does not wrap, every register lies in the 0x48 bytes above the base |
| UartRegs.BasesApart | uart.h:56-61 | Any two of the six base addresses are at least 0x200 bytes apart |
| UartRegs.InstanceWindowsDisjoint | uart.h:56-72 | The six base addresses are pairwise distinct, and no register of one instance shares an address with any register of another |
| Bus.FlagPollsAccesses | uart.c:41 | The busy-wait stores nothing and loads only FLAG, once per poll |
| Uart.DisableCtrl | uart.c:12 | CTRL ANDed with the complement of the TXE and RXE masks; see CtrlBits |
| Uart.EnableCtrl | uart.c:27 | CTRL ORed with the TXE and RXE masks; see CtrlBits |
| Uart.CtrlBits | uart.c:10-28 | Disabling clears CTRL bits 0 and 9, enabling sets them, and both keep every other bit |
| Uart.CtrlRoundTrip | uart.c:10-28 | Enabling the disabled cached value equals enabling the value first read; disabling after enabling equals disabling; enabling twice equals enabling once |
| Uart.InitTrace | uart.c:10-28 | The six accesses of uart_init when CTRL holds `c`: load CTRL, store the disabled value, store 1 to IBRD, 40 to FBRD, 0x60 to LCRH, store the re-enabled cached value |
| Uart.InitStore | uart.c:10-28 | The register values after uart_init: the stores of InitTrace applied in order |
| Uart.InitLoadsCtrlOnce | uart.c:10-28 | uart_init loads CTRL once and no other register, so the final CTRL value comes from the cached local |
| Uart.InitCtrlWrites | uart.c:10-28 | uart_init stores CTRL exactly twice: the old value with TXE and RXE cleared, then the old value with both set |
| Uart.InitConfigWrites | uart.c:17-23 | uart_init stores 1 to IBRD, 40 to FBRD and 0x60 to LCRH, once each, and nothing to DATA |
| Uart.InitStoreRegisters | uart.c:8-31 | After uart_init: IBRD = 1, FBRD = 40, LCRH is exactly 0x60, and CTRL is the old value with TXE and RXE set; DATA, FLAG, ITCP, ITIP and ITOP are unchanged |
| Uart.InitIdempotent | uart.c:8-31 | A second uart_init issues the same accesses as the first and leaves the same register state |
| Uart.InitPassesStartup | uart.c:17-28 | Whatever CTRL held before, the configuration uart_init leaves behind passes uart_startup_tests |
| Uart.Controller.Init | uart.c:8-31 | Returns Success; the accesses are InitTrace of the old CTRL and the new register state is InitStore of the old one |
| Uart.LinkVerdict | uart.c:71-88 | ParityError iff PE (bit 3) is set; OverflowError iff PE is clear and OE (bit 6) is set; Success iff both are clear |
| Uart.LinkVerdictIgnoresOtherBits | uart.c:75-84 | The verdict depends on the PE and OE bits of FLAG only |
| Uart.Controller.CheckErrors | uart.c:71-88 | One load of FLAG and no store; the result is LinkVerdict of the reading; an error halts the driver with that code |
| Uart.StartupVerdict | uart.c:95-118 | DataBitsError iff LCRH bits 5 and 6 are not both set; otherwise TransmitEnableError iff CTRL bit 0 is clear; otherwise ReceiveEnableError iff CTRL bit 9 is clear; otherwise Success |
| Uart.Controller.StartupTests | uart.c:95-118 | One load of LCRH, then one of CTRL, and no store; the result is StartupVerdict of the two; an error halts the driver with that code |
| Uart.IntegrationVerdict | uart.c:138-141 | The integration test yields only Success or IntegrationTestFailed |
| Uart.IntegrationVerdictBits | uart.c:138 | The test passes iff the low eight bits of ITOP equal those of 0xAA, bit for bit |
| Uart.IntegrationIgnoresHighBits | uart.c:138 | The high 24 bits of ITOP do not affect the verdict |
| Uart.IntegrationTrace | uart.c:132-144 | The intended accesses: store 1 to ITCP, store 0x55 to ITIP, load ITOP, then store 0 to ITCP only on success |
| Uart.IntegrationTraceAccesses | uart.c:132-144 | The intended test stores 1 and then, only on success, 0 to ITCP; stores 0x55 to ITIP once; and loads ITOP and no other register |
| Uart.IntegrationTraceHitsTestRegisters | uart.c:132-144 | By address, for any base: the intended test stores 1 (then 0 on success) at ITCP's address and 0x55 at ITIP's address |
| Uart.Controller.IntegrationTests | uart.c:125-147 | The intended test, not the code as written (see Findings): stores 1 to ITCP, stores 0x55 to ITIP, loads ITOP; the result is IntegrationVerdict of ITOP; ITCP is reset to 0 only on success and stays 1 on failure; ITIP ends at 0x55; a failure halts the driver |
| Uart.AsPointer | uart.c:127-129 | Definition of the cast `(volatile UINT32 *)`: the pointer keeps the numeric value of the register word |
| Uart.IntegrationTraceAsWritten | uart.c:127-144 | The accesses as written: load ITCP, ITIP and ITOP; store 1 and 0x55 through the loaded ITCP and ITIP values; load through the ITOP value; store 0 through the ITCP value on success |
| Uart.IntegrationAsWrittenDiffers | uart.c:127-144 | Shape check only: the accesses as written are never the intended ones, since the first is a load of ITCP rather than a store to it; the effect on the device is stated by the two lemmas below |
| Uart.IntegrationAsWrittenRegisterAccesses | uart.c:127-144 | As written, the test loads exactly ITCP, ITIP and ITOP and issues no store through the UART_REG_* macros; every store goes through a loaded pointer value |
| Uart.IntegrationAsWrittenMissesTestRegisters | uart.c:127-144 | As written, nothing is stored at ITCP's (or ITIP's) address unless the value loaded from ITCP or ITIP is that very address |
| Uart.IntegrationAsWrittenAtReset | uart.c:127-144 | On UART0 with the test registers reading 0, the code as written stores nothing at ITCP or ITIP, where the intended test stores 1 at ITCP and 0x55 at ITIP |
| Uart.ErrorTaxonomy | uart.c:71-147 | Each check reports only its own class of errors |
| Uart.TxFull | uart.c:41 | The busy-wait's condition: the FLAG reading ANDed with the TXFF mask is non-zero |
| Uart.TxFullBit | uart.h:79 | The busy-wait's "FIFO full" test is FLAG bit 5 |
| Uart.PollCount | uart.c:41 | The busy-wait polls at least once; every reading before the last has TXFF set; the last supplied reading it consumes has TXFF clear |
| Uart.PollCountUnique | uart.c:41 | The busy-wait stops at the first reading with TXFF clear and at no other |
| Uart.SendCharTrace | uart.c:39-45 | The accesses of uart_send_char: PollCount loads of FLAG, then one store of the byte to DATA |
| Uart.Controller.SendChar | uart.c:39-45 | Polls FLAG until TXFF is clear, then stores the byte to DATA once; no other register changes; returns Success |
| Uart.CString | uart.c:55 | The bytes sent are the prefix of the string before its first NUL, and that prefix contains no NUL |
| Uart.Widen | uart.c:43 | Each byte written to the 32-bit DATA register fits in eight bits and gives the byte back |
| Uart.SendTrace | uart.c:53-64 | The accesses of sending bytes one uart_send_char after another, each busy-wait consuming the FLAG readings the previous one left |
| Uart.SendStore | uart.c:53-64 | The register values after sending bytes: DATA holds the last byte sent, and nothing else changes |
| Uart.SendTraceData | uart.c:53-64 | Sending a string stores exactly its bytes to DATA, in order, one store per byte |
| Uart.SendTraceOnlyData | uart.c:53-64 | Sending a string stores to no register other than DATA |
| Uart.SendWrites | uart.c:53-64 | Appending a send to a trace adds the bytes to the DATA writes and leaves every other register's writes unchanged |
| Uart.SendTraceLoadsFlag | uart.c:39-64 | Sending a string loads FLAG and no other register |
| Uart.EmptyStringSendsNothing | uart.c:55-62 | A string that starts with NUL issues no access and consumes no FLAG reading |
| Uart.Controller.SendString | uart.c:53-64 | Returns Success; DATA receives exactly the bytes before the first NUL, in order; no other register is written; the trace, the FLAG readings consumed and the register state are those of sending those bytes one uart_send_char after another |
| Uart.Controller.HandleError | uart.c:154-159 | The driver ends halted with the given code |
| Uart.Controller.LoadFlag | uart.h:65 | A volatile FLAG load returns the next hardware reading (or the stored value) and is logged |
| Uart.Controller.LoadReg | uart.h:64-72 | A volatile load of any other register returns its value and is logged |
| Uart.Controller.StoreReg | uart.h:64-72 | A volatile store changes that register only and is logged |

## Left out

- Hardware semantics of memory-mapped I/O are not modelled: caching, bus ordering and side effects of reads and writes. Accesses are a program-order log.
- ITOP is not produced from ITIP by the hardware. Its value is an input (the stored value), as FLAG's readings are.
- Uart.Controller.SendChar: the busy-wait terminates only because of the `FifoDrains` precondition. The C loop can spin forever if the FIFO never drains.
- Uart.Controller.SendString: the C early return on a failed `uart_send_char` (uart.c:57-59) is unreachable, because `uart_send_char` always returns Success. The model folds that check into the loop condition instead of writing a branch that cannot be taken.
- `uart_handle_error` never returns (uart.c:156-158). It is modelled as the terminal state `Halted(code)`: every operation requires `Running`, so no access can follow a halt.
- Uart.Controller.IntegrationTests: models the intended register accesses of uart.c:125-147, not the pointer accesses the code makes as written. Those are modelled separately by `IntegrationTraceAsWritten` (see "## Findings").
- The offset table in the header comment (uart.h:49-51) puts the test registers at 0x80/0x84/0x88. The macros the code uses (uart.h:70-72) put them at 0x3C/0x40/0x44, and the model follows the macros.
- Signedness of `char`: bytes are `bv8` and are zero-extended when stored to DATA. This matches the unsigned plain `char` of the ARM procedure call standard. A signed-`char` target would sign-extend bytes from 0x80 upwards.
- Baud-rate arithmetic: only the constants written to IBRD and FBRD are modelled.
- The receive path: RXFE is defined (uart.h:80) but no code reads it.
- Choosing a UART instance: the base address is a parameter of the controller.
- bootcode.c `main` is not part of this model. It calls the operations in a fixed order and has no logic of its own.
  - `Uart.InitPassesStartup` covers the one interaction among those calls: after `uart_init`, the startup audit succeeds.

## Findings

| source | as written | input that shows it | evidently intended | confidence | as-written member | corrected member |
|---|---|---|---|---|---|---|
| uart.c:127-129 | `(volatile UINT32 *)UART_REG_ITCP(base)` (and ITIP, ITOP): the macros of uart.h:70-72 already dereference, so the code loads the three registers and uses their contents as pointers. The stores of 1, 0x55 and 0 and the ITOP comparison all go through those pointers. | UART0 with ITCP, ITIP and ITOP reading 0: 1 and 0x55 are stored to address 0, and nothing reaches ITCP or ITIP | take the registers' addresses (`&UART_REG_ITCP(base)`, …): store 1 to ITCP and 0x55 to ITIP, read ITOP, and store 0 to ITCP on success | high; not executed | Uart.IntegrationAsWrittenMissesTestRegisters | Uart.Controller.IntegrationTests |
