/** What one access over a memory port takes and when it ends the program (src/memory/memory.c:29-314). */
module MemoryPorts {
  import opened Wrappers
  import opened Words
  import opened Control
  import opened Dram
  import opened Pipeline

  // ---- the limits, by numbers ----

  function LoadWidth(op: LoadOp): nat {
    match op
    case LoadByte => 1
    case LoadByteUnsigned => 1
    case LoadHalf => 2
    case LoadHalfUnsigned => 2
    case LoadWord => 4
  }

  function StoreWidth(op: StoreOp): nat {
    match op
    case StoreByte => 1
    case StoreHalf => 2
    case StoreWord => 4
  }

  /** Inside the memory, and a multiple of the width. */
  predicate LoadFits(size: nat, addr: nat, op: LoadOp) { addr < size && addr % LoadWidth(op) == 0 }

  /** Behind the text and the read-only data as well. */
  predicate StoreFits(limits: Limits, size: nat, addr: nat, op: StoreOp) {
    limits.text < addr && limits.rodata < addr && addr < size && addr % StoreWidth(op) == 0
  }

  /** Inside the text, and a word's address. */
  predicate FetchFits(limits: Limits, addr: nat) { addr <= limits.text && addr % 4 == 0 }

  // ---- the calls of one access, one per cycle ----

  /** read_memory, once for each latency that the caches would answer; only the first is asked for. */
  function Loads(ram: Ram, p: DataPort, op: LoadOp, latencies: seq<nat>): Option<DataPort> {
    if latencies == [] then Some(p)
    else
      var n := |latencies| - 1;
      match Loads(ram, p, op, latencies[..n])
      case Some(q) => ReadMemory(ram, q, op, latencies[n])
      case None => None
  }

  function Stores(limits: Limits, ram: Ram, p: DataPort, op: StoreOp, latencies: seq<nat>): Option<(DataPort, Ram)> {
    if latencies == [] then Some((p, ram))
    else
      var n := |latencies| - 1;
      match Stores(limits, ram, p, op, latencies[..n])
      case Some((q, r)) => WriteMemory(limits, r, q, op, latencies[n])
      case None => None
  }

  function Fetches(limits: Limits, ram: Ram, p: FetchPort, latencies: seq<nat>): Option<FetchPort> {
    if latencies == [] then Some(p)
    else
      var n := |latencies| - 1;
      match Fetches(limits, ram, p, latencies[..n])
      case Some(q) => ReadMemoryI(limits, ram, q, latencies[n])
      case None => None
  }

  /** A load that starts with latency L waits for L - 1 calls, whatever is asked then, and ends in
      the L-th: with the value, or, exactly if its address is out of limits or no multiple of its
      width, with exit(1). */
  lemma {:induction false} LoadTakes(ram: Ram, p: DataPort, op: LoadOp, latencies: seq<nat>)
    requires p.readCounter == -1 && p.mfc && 1 <= |latencies| <= latencies[0]
    ensures Loads(ram, p, op, latencies) ==
      if |latencies| < latencies[0] then Some(p.(readCounter := latencies[0] - 1 - |latencies|, mfc := false))
      else if LoadFits(|ram|, Address(p.mar), op) then Some(p.(mbr := LoadValue(ram, Address(p.mar), op)))
      else None
    decreases |latencies|
  {
    hide LoadValue, Address;
    var n := |latencies| - 1;
    if n == 0 {
      assert Loads(ram, p, op, latencies[..0]) == Some(p);
    } else {
      LoadTakes(ram, p, op, latencies[..n]);
    }
  }

  /** Likewise a store, which changes no byte before. */
  lemma {:induction false} StoreTakes(limits: Limits, ram: Ram, p: DataPort, op: StoreOp, latencies: seq<nat>)
    requires p.writeCounter == -1 && p.mfc && 1 <= |latencies| <= latencies[0]
    ensures Stores(limits, ram, p, op, latencies) ==
      if |latencies| < latencies[0] then Some((p.(writeCounter := latencies[0] - 1 - |latencies|, mfc := false), ram))
      else if StoreFits(limits, |ram|, Address(p.mar), op) then Some((p, StoreValue(ram, Address(p.mar), p.mbr, op)))
      else None
    decreases |latencies|
  {
    hide StoreValue, Address;
    var n := |latencies| - 1;
    if n == 0 {
      assert Stores(limits, ram, p, op, latencies[..0]) == Some((p, ram));
    } else {
      StoreTakes(limits, ram, p, op, latencies[..n]);
    }
  }

  /** And a fetch. */
  lemma {:induction false} FetchTakes(limits: Limits, ram: Ram, p: FetchPort, latencies: seq<nat>)
    requires p.counter == -1 && p.mfc && 1 <= |latencies| <= latencies[0]
    ensures Fetches(limits, ram, p, latencies) ==
      if |latencies| < latencies[0] then Some(p.(counter := latencies[0] - 1 - |latencies|, mfc := false))
      else if FetchFits(limits, Address(p.mar)) then Some(p.(mbr := WordAt(ram, Address(p.mar))))
      else None
    decreases |latencies|
  {
    hide WordAt, Address;
    var n := |latencies| - 1;
    if n == 0 {
      assert Fetches(limits, ram, p, latencies[..0]) == Some(p);
    } else {
      FetchTakes(limits, ram, p, latencies[..n]);
    }
  }
}
