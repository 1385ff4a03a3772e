/** The device-memory accesses of the driver. Every UART_REG_* use is one
    volatile 32-bit load or store at `base + offset`; none is cached, merged
    or reordered, so the driver's observable behaviour is the sequence of
    accesses it issues, in program order. */
module Bus {
  import opened UartRegs

  /** A load or store of one of the controller's registers, or of an absolute
      address reached through a pointer. */
  datatype Access =
    | Load(reg: Reg)
    | Store(reg: Reg, value: bv32)
    | MemLoad(addr: Uint32)
    | MemStore(addr: Uint32, value: bv32)

  /** The value one access stores to register `r`, if it is such a store. */
  function Stored(a: Access, r: Reg): seq<bv32>
  {
    if a.Store? && a.reg == r then [a.value] else []
  }

  /** The values stored to register `r` during `t`, in order. */
  function Writes(t: seq<Access>, r: Reg): seq<bv32>
  {
    if t == [] then [] else Stored(t[0], r) + Writes(t[1..], r)
  }

  /** The value one access stores at address `a`, for a controller at `base`. */
  function StoredAt(x: Access, base: Uint32, a: Uint32): seq<bv32>
  {
    match x
    case Store(r, v) => if Addr(base, r) == a then [v] else []
    case MemStore(p, v) => if p == a then [v] else []
    case _ => []
  }

  /** The values stored at address `a` during `t`, in order, whether through a
      register of the controller at `base` or through a pointer. */
  function AddrWrites(t: seq<Access>, base: Uint32, a: Uint32): seq<bv32>
  {
    if t == [] then [] else StoredAt(t[0], base, a) + AddrWrites(t[1..], base, a)
  }

  /** The registers loaded during `t`, in order. */
  function Loads(t: seq<Access>): seq<Reg>
  {
    if t == [] then []
    else (if t[0].Load? then [t[0].reg] else []) + Loads(t[1..])
  }

  lemma {:induction false} WritesAppend(a: seq<Access>, b: seq<Access>, r: Reg)
    ensures Writes(a + b, r) == Writes(a, r) + Writes(b, r)
  {
    if a != [] {
      assert (a + b)[1..] == a[1..] + b;
      WritesAppend(a[1..], b, r);
    } else {
      assert a + b == b;
    }
  }

  lemma {:induction false} LoadsAppend(a: seq<Access>, b: seq<Access>)
    ensures Loads(a + b) == Loads(a) + Loads(b)
  {
    if a != [] {
      assert (a + b)[1..] == a[1..] + b;
      LoadsAppend(a[1..], b);
    } else {
      assert a + b == b;
    }
  }

  /** The stores to `r` of an access followed by a trace. */
  lemma WritesCons(a: Access, t: seq<Access>, r: Reg)
    ensures Writes([a] + t, r) == Stored(a, r) + Writes(t, r)
  {
    assert ([a] + t)[1..] == t;
  }

  /** The stores at address `a` of an access followed by a trace. */
  lemma AddrWritesCons(x: Access, t: seq<Access>, base: Uint32, a: Uint32)
    ensures AddrWrites([x] + t, base, a) == StoredAt(x, base, a) + AddrWrites(t, base, a)
  {
    assert ([x] + t)[1..] == t;
  }

  /** The loads of an access followed by a trace. */
  lemma LoadsCons(a: Access, t: seq<Access>)
    ensures Loads([a] + t) == (if a.Load? then [a.reg] else []) + Loads(t)
  {
    assert ([a] + t)[1..] == t;
  }

  /** `n` consecutive loads of FLAG: the accesses of a busy-wait that polled `n` times. */
  function FlagPolls(n: nat): (t: seq<Access>)
  {
    seq(n, _ => Load(FLAG))
  }

  /** Polling stores nothing and loads only FLAG. */
  lemma {:induction false} FlagPollsAccesses(n: nat, r: Reg)
    ensures Writes(FlagPolls(n), r) == []
    ensures Loads(FlagPolls(n)) == seq(n, _ => FLAG)
  {
    if n > 0 {
      assert FlagPolls(n) == [Load(FLAG)] + FlagPolls(n - 1);
      FlagPollsAccesses(n - 1, r);
      WritesAppend([Load(FLAG)], FlagPolls(n - 1), r);
      LoadsAppend([Load(FLAG)], FlagPolls(n - 1));
      assert seq(n, _ => FLAG) == [FLAG] + seq(n - 1, _ => FLAG);
    }
  }
}
