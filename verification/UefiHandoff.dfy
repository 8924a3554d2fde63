/** The final UEFI handoff: what the bootloader does, against any firmware.

    Firmware is a strategy: every reply is a function of the history of calls, so quantifying over
    strategies covers every behaviour a firmware can show. */
module UefiHandoff {
  import opened Options

  const MAX_ATTEMPTS := 8
  const WORD := 0x1_0000_0000_0000_0000   // UINTN is 64 bits wide

  datatype Status = Success | BufferTooSmall | InvalidParameter | OutOfResources | Aborted | Other(code: nat)

  /** The fields of the final memory map record; address 0 is NULL. */
  datatype Snapshot = Snapshot(memory: nat, size: nat, capacity: nat, key: nat, descriptorSize: nat, descriptorVersion: nat)

  /** One call out of the handoff code, with its outcome. */
  datatype Event =
    | AskSize(status: Status)
    | Allocate(bytes: nat, status: Status, buffer: nat)
    | Free(buffer: nat, status: Status)
    | GetMap(buffer: nat, status: Status, key: nat)
    | Callback(seen: Snapshot, status: Status)
    | Exit(key: nat, status: Status)

  type Trace = seq<Event>

  datatype SizeReply = SizeReply(status: Status, required: nat, descriptorSize: nat, descriptorVersion: nat)
  datatype AllocateReply = AllocateReply(status: Status, buffer: nat)
  datatype MapReply = MapReply(status: Status, size: nat, key: nat, descriptorSize: nat, descriptorVersion: nat)

  /** The boot services table; the flags say which entries are not NULL. */
  datatype Firmware = Firmware(
    hasGetMap: bool, hasAllocate: bool, hasFree: bool, hasExit: bool,
    askSize: Trace -> SizeReply,
    allocate: (Trace, nat) -> AllocateReply,
    free: (Trace, nat) -> Status,
    getMap: (Trace, Snapshot) -> MapReply,
    exit: (Trace, nat) -> Status)

  type Preparation = (Trace, Snapshot) -> Status

  datatype Outcome = Outcome(status: Status, state: Snapshot, trace: Trace)

  // ---- what one run does ----------------------------------------------------

  /** The capacity asked for, in wrapping 64-bit arithmetic. */
  function Capacity(required: nat, descriptorSize: nat): nat {
    (required + descriptorSize * 32 + 8192) % WORD
  }

  function PrepareMap(fw: Firmware, s: Snapshot, tr: Trace): Outcome {
    if !fw.hasGetMap || !fw.hasAllocate then Outcome(InvalidParameter, s, tr)
    else
      var q := fw.askSize(tr);
      var tr1 := tr + [AskSize(q.status)];
      if q.status != BufferTooSmall || q.descriptorSize == 0 then Outcome(q.status, s, tr1)
      else
        var capacity := Capacity(q.required, q.descriptorSize);
        var a := fw.allocate(tr1, capacity);
        var tr2 := tr1 + [Allocate(capacity, a.status, a.buffer)];
        if a.status != Success || a.buffer == 0 then
          Outcome(if a.status == Success then OutOfResources else a.status, s, tr2)
        else
          var tr3 := if s.memory != 0 && fw.hasFree then tr2 + [Free(s.memory, fw.free(tr2, s.memory))] else tr2;
          Outcome(Success, Snapshot(a.buffer, 0, capacity, 0, q.descriptorSize, q.descriptorVersion), tr3)
  }

  function RefreshMap(fw: Firmware, s: Snapshot, tr: Trace): Outcome {
    if s.memory == 0 || s.capacity == 0 || !fw.hasGetMap then Outcome(InvalidParameter, s, tr)
    else
      var m := fw.getMap(tr, s);
      var tr1 := tr + [GetMap(s.memory, m.status, m.key)];
      if m.status != Success then Outcome(m.status, s.(size := m.size), tr1)
      else
        Outcome(Success, s.(size := m.size, key := m.key, descriptorSize := m.descriptorSize, descriptorVersion := m.descriptorVersion), tr1)
  }

  /** What one attempt ends with: either the function returns, or the loop goes on. */
  datatype Step = Return(out: Outcome) | Again(state: Snapshot, trace: Trace)

  function Attempt(fw: Firmware, prepare: Preparation, s: Snapshot, tr: Trace): Step {
    var r := RefreshMap(fw, s, tr);
    if r.status == BufferTooSmall then
      var p := PrepareMap(fw, r.state, r.trace);
      if p.status != Success then Return(p) else Again(p.state, p.trace)
    else if r.status != Success then Return(r)
    else
      var c := prepare(r.trace, r.state);
      var tr1 := r.trace + [Callback(r.state, c)];
      if c != Success then Return(Outcome(c, r.state, tr1))
      else
        var e := fw.exit(tr1, r.state.key);
        var tr2 := tr1 + [Exit(r.state.key, e)];
        if e == InvalidParameter then Again(r.state, tr2) else Return(Outcome(e, r.state, tr2))
  }

  /** The attempts that are left. */
  function Attempts(fw: Firmware, prepare: Preparation, s: Snapshot, tr: Trace, left: nat): Outcome
    decreases left
  {
    if left == 0 then Outcome(Aborted, s, tr)
    else
      match Attempt(fw, prepare, s, tr)
      case Return(out) => out
      case Again(s', tr') => Attempts(fw, prepare, s', tr', left - 1)
  }

  function Handoff(fw: Firmware, prepare: Preparation, s: Snapshot, tr: Trace): Outcome {
    if !fw.hasExit then Outcome(InvalidParameter, s, tr)
    else
      var p := PrepareMap(fw, s, tr);
      if p.status != Success then p else Attempts(fw, prepare, p.state, p.trace, MAX_ATTEMPTS)
  }

  // ---- the code -------------------------------------------------------------

  /** The record that the C functions update through a pointer. */
  class FinalMap {
    var memory: nat
    var size: nat
    var capacity: nat
    var key: nat
    var descriptorSize: nat
    var descriptorVersion: nat

    constructor (s: Snapshot)
      ensures Now() == s
    {
      memory, size, capacity, key, descriptorSize, descriptorVersion :=
        s.memory, s.size, s.capacity, s.key, s.descriptorSize, s.descriptorVersion;
    }

    function Now(): Snapshot
      reads this
    {
      Snapshot(memory, size, capacity, key, descriptorSize, descriptorVersion)
    }
  }

  /** Everything outside the handoff code, with the record of all calls made to it. */
  class Platform {
    const fw: Firmware
    const prepare: Option<Preparation>
    var trace: Trace

    constructor (fw: Firmware, prepare: Option<Preparation>)
      ensures this.fw == fw && this.prepare == prepare && trace == []
    {
      this.fw := fw;
      this.prepare := prepare;
      trace := [];
    }

    method GetMapSize() returns (r: SizeReply)
      modifies this
      ensures r == fw.askSize(old(trace)) && trace == old(trace) + [AskSize(r.status)]
    {
      r := fw.askSize(trace);
      trace := trace + [AskSize(r.status)];
    }

    method AllocatePool(bytes: nat) returns (r: AllocateReply)
      modifies this
      ensures r == fw.allocate(old(trace), bytes) && trace == old(trace) + [Allocate(bytes, r.status, r.buffer)]
    {
      r := fw.allocate(trace, bytes);
      trace := trace + [Allocate(bytes, r.status, r.buffer)];
    }

    method FreePool(buffer: nat) returns (status: Status)
      modifies this
      ensures status == fw.free(old(trace), buffer) && trace == old(trace) + [Free(buffer, status)]
    {
      status := fw.free(trace, buffer);
      trace := trace + [Free(buffer, status)];
    }

    method GetMemoryMap(s: Snapshot) returns (r: MapReply)
      modifies this
      ensures r == fw.getMap(old(trace), s) && trace == old(trace) + [GetMap(s.memory, r.status, r.key)]
    {
      r := fw.getMap(trace, s);
      trace := trace + [GetMap(s.memory, r.status, r.key)];
    }

    method PrepareCutover(s: Snapshot) returns (status: Status)
      requires prepare.Some?
      modifies this
      ensures status == prepare.value(old(trace), s) && trace == old(trace) + [Callback(s, status)]
    {
      status := prepare.value(trace, s);
      trace := trace + [Callback(s, status)];
    }

    method ExitBootServices(key: nat) returns (status: Status)
      modifies this
      ensures status == fw.exit(old(trace), key) && trace == old(trace) + [Exit(key, status)]
    {
      status := fw.exit(trace, key);
      trace := trace + [Exit(key, status)];
    }
  }

  /** The pointers bs and state may both be NULL. */
  method PrepareFinalMemoryMap(bs: Platform?, state: FinalMap?) returns (status: Status)
    modifies bs, state
    ensures bs == null || state == null ==> status == InvalidParameter
    ensures bs != null ==> (state == null ==> bs.trace == old(bs.trace))
    ensures state != null ==> (bs == null ==> state.Now() == old(state.Now()))
    ensures bs != null && state != null ==>
              Outcome(status, state.Now(), bs.trace) == PrepareMap(bs.fw, old(state.Now()), old(bs.trace))
  {
    if bs == null || state == null || !bs.fw.hasGetMap || !bs.fw.hasAllocate {
      return InvalidParameter;
    }
    var q := bs.GetMapSize();
    if q.status != BufferTooSmall || q.descriptorSize == 0 {
      return q.status;
    }
    var capacity := Capacity(q.required, q.descriptorSize);
    var a := bs.AllocatePool(capacity);
    if a.status != Success || a.buffer == 0 {
      return if a.status == Success then OutOfResources else a.status;
    }
    if state.memory != 0 && bs.fw.hasFree {
      var ignored := bs.FreePool(state.memory);
    }
    state.memory := a.buffer;
    state.capacity := capacity;
    state.size := 0;
    state.key := 0;
    state.descriptorSize := q.descriptorSize;
    state.descriptorVersion := q.descriptorVersion;
    return Success;
  }

  method RefreshFinalMemoryMap(bs: Platform?, state: FinalMap?) returns (status: Status)
    modifies bs, state
    ensures bs == null || state == null ==> status == InvalidParameter
    ensures bs != null ==> (state == null ==> bs.trace == old(bs.trace))
    ensures state != null ==> (bs == null ==> state.Now() == old(state.Now()))
    ensures bs != null && state != null ==>
              Outcome(status, state.Now(), bs.trace) == RefreshMap(bs.fw, old(state.Now()), old(bs.trace))
  {
    if bs == null || state == null || state.memory == 0 || state.capacity == 0 || !bs.fw.hasGetMap {
      return InvalidParameter;
    }
    var m := bs.GetMemoryMap(state.Now());
    if m.status != Success {
      state.size := m.size;
      return m.status;
    }
    state.size := m.size;
    state.key := m.key;
    state.descriptorSize := m.descriptorSize;
    state.descriptorVersion := m.descriptorVersion;
    return Success;
  }

  method ExitBootServicesFinal(bs: Platform?, state: FinalMap?) returns (status: Status)
    modifies bs, state
    ensures bs == null || state == null ==> status == InvalidParameter
    ensures bs != null && (state == null || bs.prepare.None?) ==> status == InvalidParameter && bs.trace == old(bs.trace)
    ensures state != null && (bs == null || bs.prepare.None?) ==> state.Now() == old(state.Now())
    ensures bs != null && state != null && bs.prepare.Some? ==>
              Outcome(status, state.Now(), bs.trace) == Handoff(bs.fw, bs.prepare.value, old(state.Now()), old(bs.trace))
  {
    hide PrepareMap, RefreshMap;
    if bs == null || state == null || !bs.fw.hasExit || bs.prepare.None? {
      return InvalidParameter;
    }
    status := PrepareFinalMemoryMap(bs, state);
    if status != Success {
      return status;
    }
    var attempt := 0;
    ghost var whole := Attempts(bs.fw, bs.prepare.value, state.Now(), bs.trace, MAX_ATTEMPTS);
    while attempt < MAX_ATTEMPTS
      invariant 0 <= attempt <= MAX_ATTEMPTS
      invariant Attempts(bs.fw, bs.prepare.value, state.Now(), bs.trace, MAX_ATTEMPTS - attempt) == whole
    {
      status := RefreshFinalMemoryMap(bs, state);
      if status == BufferTooSmall {
        status := PrepareFinalMemoryMap(bs, state);
        if status != Success {
          return status;
        }
        attempt := attempt + 1;
        continue;
      }
      if status != Success {
        return status;
      }
      status := bs.PrepareCutover(state.Now());
      if status != Success {
        return status;
      }
      status := bs.ExitBootServices(state.key);
      if status == Success {
        return Success;
      }
      if status != InvalidParameter {
        return status;
      }
      attempt := attempt + 1;
    }
    return Aborted;
  }
}
