/** Progress of the handoff against firmware that follows the specification. */
module UefiProgress {
  import opened UefiHandoff
  import opened UefiHandoffSafety

  // ---- firmware with a memory map ------------------------------------------------

  datatype Map = Map(size: nat, key: nat)

  /** The memory map after a history of calls: as the last call left it, and as the next call meets
      it. What happens in between is the doing of the environment, which is free to do anything. */
  datatype Machine = Machine(left: Trace -> Map, met: Trace -> Map, descriptorSize: nat, own: nat)

  predicate IsPool(e: Event) {
    e.Allocate? || e.Free?
  }

  /** Only the pool calls of the handoff change the map: by at most `own` descriptors each, and to
      any key. */
  ghost predicate Moves(m: Machine) {
    forall tr: Trace, e: Event ::
      if IsPool(e) then m.left(tr + [e]).size <= m.met(tr).size + m.own * m.descriptorSize
      else m.left(tr + [e]) == m.met(tr)
  }

  /** Sections 7.2.3 and 7.4.6 of UEFI 2.10: GetMemoryMap fails exactly if the map does not fit the
      buffer it is given, and otherwise gives the current key; ExitBootServices succeeds exactly for
      the current key. Memory is there to be allocated, one pool call adds at most 16 descriptors, and
      sizes stay below 2^64. */
  ghost predicate Follows(fw: Firmware, m: Machine) {
    && fw.hasGetMap && fw.hasAllocate && fw.hasExit
    && m.descriptorSize > 0 && 2 * m.own <= 32 && Moves(m)
    && (forall tr ::
          var q := fw.askSize(tr);
          && q.status == BufferTooSmall && q.required == m.met(tr).size && q.descriptorSize == m.descriptorSize
          && q.required + q.descriptorSize * 32 + 8192 < WORD)
    && (forall tr, n :: fw.allocate(tr, n).status == Success && fw.allocate(tr, n).buffer != 0)
    && (forall tr, s ::
          var r := fw.getMap(tr, s);
          && r.status == (if s.capacity < m.met(tr).size then BufferTooSmall else Success)
          && (r.status == Success ==> r.key == m.met(tr).key))
    && (forall tr, key :: fw.exit(tr, key) == if key == m.met(tr).key then Success else InvalidParameter)
  }

  /** For example, firmware whose map has 48 descriptors of 48 bytes and never changes. */
  lemma FirmwareThatFollows() returns (fw: Firmware, m: Machine)
    ensures Follows(fw, m)
  {
    var still := Map(2304, 1);
    m := Machine(tr => still, tr => still, 48, 2);
    fw := Firmware(true, true, true, true,
                   tr => SizeReply(BufferTooSmall, 2304, 48, 1),
                   (tr, n) => AllocateReply(Success, 4096),
                   (tr, b) => Success,
                   (tr, s: Snapshot) => MapReply(if s.capacity < 2304 then BufferTooSmall else Success, 2304, 1, 48, 1),
                   (tr, key) => if key == 1 then Success else InvalidParameter);
  }

  ghost predicate Succeeds(prepare: Preparation) {
    forall tr, s :: prepare(tr, s) == Success
  }

  // ---- what the environment does ---------------------------------------------------

  function Before(tr: Trace): Trace
    requires tr != []
  {
    tr[..|tr| - 1]
  }

  function Last(tr: Trace): Event
    requires tr != []
  {
    tr[|tr| - 1]
  }

  /** By how much the environment enlarged the map just before the next call. */
  function Growth(m: Machine, tr: Trace): nat {
    if m.met(tr).size > m.left(tr).size then m.met(tr).size - m.left(tr).size else 0
  }

  predicate KeyMoved(m: Machine, tr: Trace) {
    m.met(tr).key != m.left(tr).key
  }

  /** The growth since the size was last asked for. */
  function GrowthSince(m: Machine, tr: Trace): nat {
    if tr == [] then 0
    else if Last(tr).AskSize? then Growth(m, tr)
    else GrowthSince(m, Before(tr)) + Growth(m, tr)
  }

  /** The environment used up what the handoff adds to the size it is told, its own calls allowed for. */
  predicate Outgrown(m: Machine, tr: Trace) {
    GrowthSince(m, tr) + 2 * m.own * m.descriptorSize > 32 * m.descriptorSize + 8192
  }

  /** The last call ends an attempt that the environment disturbed: between the question for the
      size and the reading of the map it outgrew the slack, or between the reading and the exit it
      changed the key. */
  predicate IsDisturbed(m: Machine, tr: Trace)
    requires tr != []
  {
    if Last(tr).GetMap? then Last(tr).status == BufferTooSmall && Outgrown(m, Before(tr))
    else
      && Last(tr).Exit? && |tr| >= 3
      && (Outgrown(m, tr[..|tr| - 3]) || KeyMoved(m, tr[..|tr| - 2]) || KeyMoved(m, tr[..|tr| - 1]))
  }

  function Disturbed(m: Machine, tr: Trace): nat {
    if tr == [] then 0 else Disturbed(m, Before(tr)) + (if IsDisturbed(m, tr) then 1 else 0)
  }

  /** The last call ends an attempt that missed the map: when it was read, it was larger than the
      size asked for by more than 32 descriptors and 8192 bytes, or the key was another at the exit
      than at the reading. */
  predicate IsMissed(m: Machine, tr: Trace)
    requires tr != []
  {
    if Last(tr).GetMap? then m.met(Before(tr)).size > Asked(m, Before(tr)) + 32 * m.descriptorSize + 8192
    else Last(tr).Exit? && |tr| >= 3 && m.met(tr[..|tr| - 1]).key != m.met(tr[..|tr| - 3]).key
  }

  function Missed(m: Machine, tr: Trace): nat {
    if tr == [] then 0 else Missed(m, Before(tr)) + (if IsMissed(m, tr) then 1 else 0)
  }

  lemma CountStep(m: Machine, tr: Trace, e: Event)
    ensures Disturbed(m, tr + [e]) == Disturbed(m, tr) + (if IsDisturbed(m, tr + [e]) then 1 else 0)
    ensures Missed(m, tr + [e]) == Missed(m, tr) + (if IsMissed(m, tr + [e]) then 1 else 0)
  {
    hide IsDisturbed, IsMissed;
    assert Before(tr + [e]) == tr;
  }

  // ---- the size of the map between the question and the reading ----------------------

  /** The size that was last asked for. */
  function Asked(m: Machine, tr: Trace): nat {
    if tr == [] then 0 else if Last(tr).AskSize? then m.met(Before(tr)).size else Asked(m, Before(tr))
  }

  predicate HasAsked(tr: Trace) {
    tr != [] && (Last(tr).AskSize? || HasAsked(Before(tr)))
  }

  function PoolCalls(tr: Trace): nat {
    if tr == [] || Last(tr).AskSize? then 0 else PoolCalls(Before(tr)) + (if IsPool(Last(tr)) then 1 else 0)
  }

  lemma {:induction false} MapIsBounded(m: Machine, tr: Trace)
    requires Moves(m) && HasAsked(tr)
    ensures m.met(tr).size <= Asked(m, tr) + PoolCalls(tr) * (m.own * m.descriptorSize) + GrowthSince(m, tr)
    decreases |tr|
  {
    var tr0, e := Before(tr), Last(tr);
    assert tr == tr0 + [e];
    if !e.AskSize? {
      MapIsBounded(m, tr0);
      if IsPool(e) {
        var each := m.own * m.descriptorSize;
        assert (PoolCalls(tr0) + 1) * each == PoolCalls(tr0) * each + each;
      }
    }
  }

  /** The buffer in the record was made for the size last asked for, with the slack. */
  ghost predicate Reserved(m: Machine, s: Snapshot, tr: Trace) {
    && s.memory != 0 && HasAsked(tr) && PoolCalls(tr) <= 2
    && s.capacity == Asked(m, tr) + 32 * m.descriptorSize + 8192
  }

  /** A map that does not fit has been outgrown by the environment. */
  lemma TooLargeIsOutgrown(m: Machine, s: Snapshot, tr: Trace)
    requires Moves(m) && Reserved(m, s, tr) && s.capacity < m.met(tr).size
    ensures Outgrown(m, tr)
  {
    hide Moves, Asked, PoolCalls, GrowthSince, HasAsked;
    MapIsBounded(m, tr);
    AtMostTwice(PoolCalls(tr), m.own, m.descriptorSize);
  }

  lemma AtMostTwice(calls: nat, own: nat, size: nat)
    requires calls <= 2
    ensures calls * (own * size) <= 2 * own * size
  {
    var each := own * size;
    assert 2 * own * size == 2 * each;
    assert calls == 0 || calls == 1 || calls == 2;
  }

  lemma Appended(m: Machine, tr: Trace, e: Event)
    ensures HasAsked(tr + [e]) <==> e.AskSize? || HasAsked(tr)
    ensures Asked(m, tr + [e]) == if e.AskSize? then m.met(tr).size else Asked(m, tr)
    ensures PoolCalls(tr + [e]) == if e.AskSize? then 0 else PoolCalls(tr) + (if IsPool(e) then 1 else 0)
  {
    assert Before(tr + [e]) == tr;
  }

  // ---- one attempt -------------------------------------------------------------------

  lemma Prepares(fw: Firmware, m: Machine, s: Snapshot, tr: Trace)
    requires Follows(fw, m)
    ensures var r := PrepareMap(fw, s, tr);
            r.status == Success && Reserved(m, r.state, r.trace) && Disturbed(m, r.trace) == Disturbed(m, tr) && Missed(m, r.trace) == Missed(m, tr)
  {
    hide Disturbed, Missed, Asked, HasAsked, PoolCalls;
    var q := fw.askSize(tr);
    var e1 := AskSize(q.status);
    var tr1 := tr + [e1];
    Appended(m, tr, e1);
    CountStep(m, tr, e1);
    var a := fw.allocate(tr1, Capacity(q.required, q.descriptorSize));
    var e2 := Allocate(Capacity(q.required, q.descriptorSize), a.status, a.buffer);
    var tr2 := tr1 + [e2];
    Appended(m, tr1, e2);
    CountStep(m, tr1, e2);
    var e3 := Free(s.memory, fw.free(tr2, s.memory));
    Appended(m, tr2, e3);
    CountStep(m, tr2, e3);
  }

  lemma ReadKeepsReserved(m: Machine, s: Snapshot, tr: Trace, e: Event)
    requires Reserved(m, s, tr) && !IsPool(e) && !e.AskSize?
    ensures Reserved(m, s, tr + [e])
  {
    Appended(m, tr, e);
  }

  /** The map has not moved between the reading and the exit. */
  lemma KeyIsCurrent(m: Machine, tr: Trace, e1: Event, e2: Event)
    requires Moves(m) && !IsPool(e1) && !IsPool(e2)
    requires !KeyMoved(m, tr + [e1]) && !KeyMoved(m, tr + [e1] + [e2])
    ensures m.met(tr + [e1] + [e2]).key == m.met(tr).key
  {
    assert m.left(tr + [e1]) == m.met(tr);
    assert m.left(tr + [e1] + [e2]) == m.met(tr + [e1]);
  }

  /** An attempt succeeds, or the environment disturbed it and the next one can start. */
  lemma AttemptProgress(fw: Firmware, m: Machine, prepare: Preparation, s: Snapshot, tr: Trace)
    requires Follows(fw, m) && Succeeds(prepare) && Reserved(m, s, tr)
    ensures var st := Attempt(fw, prepare, s, tr);
            && (st.Return? ==> st.out.status == Success && Missed(m, st.out.trace) == Missed(m, tr)
                               && Disturbed(m, tr) <= Disturbed(m, st.out.trace))
            && (st.Again? ==> Reserved(m, st.state, st.trace) && Missed(m, st.trace) == Missed(m, tr) + 1
                              && Disturbed(m, st.trace) == Disturbed(m, tr) + 1)
  {
    hide PrepareMap, Disturbed, Missed, Outgrown, Reserved;
    ReservedIsReal(m, s, tr);
    var g := fw.getMap(tr, s);
    var e1 := GetMap(s.memory, g.status, g.key);
    var tr1 := tr + [e1];
    CountStep(m, tr, e1);
    assert Before(tr1) == tr;
    if g.status == BufferTooSmall {
      TooLargeIsOutgrown(m, s, tr);
      Prepares(fw, m, RefreshMap(fw, s, tr).state, tr1);
    } else {
      AttemptExits(fw, m, prepare, s, tr);
    }
  }

  lemma ReservedIsReal(m: Machine, s: Snapshot, tr: Trace)
    requires Reserved(m, s, tr)
    ensures s.memory != 0 && s.capacity == Asked(m, tr) + 32 * m.descriptorSize + 8192
  {}

  lemma ReservedSame(m: Machine, s: Snapshot, s': Snapshot, tr: Trace)
    requires Reserved(m, s, tr) && s'.memory == s.memory && s'.capacity == s.capacity
    ensures Reserved(m, s', tr)
  {}

  lemma AttemptExits(fw: Firmware, m: Machine, prepare: Preparation, s: Snapshot, tr: Trace)
    requires Follows(fw, m) && Succeeds(prepare) && Reserved(m, s, tr) && m.met(tr).size <= s.capacity
    ensures var st := Attempt(fw, prepare, s, tr);
            && (st.Return? ==> st.out.status == Success && Missed(m, st.out.trace) == Missed(m, tr)
                               && Disturbed(m, tr) <= Disturbed(m, st.out.trace))
            && (st.Again? ==> Reserved(m, st.state, st.trace) && Missed(m, st.trace) == Missed(m, tr) + 1
                              && Disturbed(m, st.trace) == Disturbed(m, tr) + 1)
  {
    hide PrepareMap, Disturbed, Missed, Outgrown, Reserved, Moves;
    ReservedIsReal(m, s, tr);
    var r := RefreshMap(fw, s, tr);
    var e1 := GetMap(s.memory, Success, r.state.key);
    var e2 := Callback(r.state, Success);
    var tr1, tr2 := tr + [e1], tr + [e1] + [e2];
    assert r.status == Success && r.trace == tr1 && r.state.key == m.met(tr).key;
    var e3 := Exit(r.state.key, fw.exit(tr2, r.state.key));
    var tr3 := tr2 + [e3];
    CountStep(m, tr, e1);
    CountStep(m, tr1, e2);
    CountStep(m, tr2, e3);
    assert Before(tr1) == tr;
    assert tr3[..|tr3| - 3] == tr && tr3[..|tr3| - 2] == tr1 && tr3[..|tr3| - 1] == tr2;
    ReservedSame(m, s, r.state, tr);
    ReadKeepsReserved(m, r.state, tr, e1);
    ReadKeepsReserved(m, r.state, tr1, e2);
    ReadKeepsReserved(m, r.state, tr2, e3);
    if !KeyMoved(m, tr1) && !KeyMoved(m, tr2) {
      KeyIsCurrent(m, tr, e1, e2);
    }
  }

  // ---- the whole run -------------------------------------------------------------------

  lemma {:induction false} AttemptsProgress(fw: Firmware, m: Machine, prepare: Preparation, s: Snapshot, tr: Trace, left: nat)
    requires Follows(fw, m) && Succeeds(prepare) && Reserved(m, s, tr)
    ensures var out := Attempts(fw, prepare, s, tr, left);
            var missed := Missed(m, out.trace) - Missed(m, tr);
            && missed <= left && missed <= Disturbed(m, out.trace) - Disturbed(m, tr)
            && (out.status == Success <==> missed < left) && (out.status != Success ==> out.status == Aborted)
    decreases left
  {
    hide Follows, Succeeds, Reserved, Disturbed, Missed, Attempt;
    if left > 0 {
      AttemptProgress(fw, m, prepare, s, tr);
      var st := Attempt(fw, prepare, s, tr);
      if st.Again? {
        AttemptsProgress(fw, m, prepare, st.state, st.trace, left - 1);
      }
    }
  }

  /** Progress: against firmware that follows the specification the handoff succeeds exactly if fewer
      than eight attempts miss the map, and every miss is the doing of the environment, which
      enlarged the map by more than the slack or changed the key behind the reading. */
  lemma HandoffProgress(fw: Firmware, m: Machine, prepare: Preparation, s: Snapshot, tr: Trace)
    requires Follows(fw, m) && Succeeds(prepare)
    ensures var out := Handoff(fw, prepare, s, tr);
            var missed := Missed(m, out.trace) - Missed(m, tr);
            var disturbed := Disturbed(m, out.trace) - Disturbed(m, tr);
            && (out.status == Success <==> missed < MAX_ATTEMPTS) && missed <= disturbed
            && (disturbed < MAX_ATTEMPTS ==> out.status == Success)
            && (out.status != Success ==> out.status == Aborted)
  {
    hide PrepareMap, Attempts, Disturbed, Missed, Reserved;
    Prepares(fw, m, s, tr);
    var p := PrepareMap(fw, s, tr);
    AttemptsProgress(fw, m, prepare, p.state, p.trace, MAX_ATTEMPTS);
  }
}
