/** Safety and ownership in the handoff, in every run against any firmware. */
module UefiHandoffSafety {
  import opened UefiHandoff

  // ---- order of the calls ---------------------------------------------------

  /** The event at i, if it is ExitBootServices, comes right after a successful callback, which
      comes right after a successful GetMemoryMap; all three concern the same map and key. */
  predicate ExitIsPrepared(tr: Trace, start: nat, i: nat)
    requires i < |tr|
  {
    tr[i].Exit? ==>
      && start + 2 <= i
      && tr[i - 1].Callback? && tr[i - 1].status == Success && tr[i - 1].seen.key == tr[i].key
      && tr[i - 2].GetMap? && tr[i - 2].status == Success && tr[i - 2].key == tr[i].key
      && tr[i - 2].buffer == tr[i - 1].seen.memory
  }

  predicate IsCleanExit(e: Event) {
    e.Exit? && e.status == Success
  }

  /** From start on, every exit is prepared and nothing follows a successful one. */
  ghost predicate Orderly(tr: Trace, start: nat) {
    && (forall i :: start <= i < |tr| ==> ExitIsPrepared(tr, start, i))
    && (forall i :: start <= i < |tr| - 1 ==> !IsCleanExit(tr[i]))
  }

  predicate EndsClean(tr: Trace) {
    tr != [] && IsCleanExit(tr[|tr| - 1])
  }

  predicate IsQuiet(e: Event) {
    e.AskSize? || e.Allocate? || e.Free?
  }

  /** Preparing the buffer asks, allocates and frees, at most once each. */
  lemma PrepareShape(fw: Firmware, s: Snapshot, tr: Trace)
    ensures var r := PrepareMap(fw, s, tr);
            && tr <= r.trace && |r.trace| <= |tr| + 3
            && (forall i :: |tr| <= i < |r.trace| ==> IsQuiet(r.trace[i]))
  {}

  lemma RefreshShape(fw: Firmware, s: Snapshot, tr: Trace)
    ensures var r := RefreshMap(fw, s, tr);
            && (r.trace == tr || r.trace == tr + [GetMap(s.memory, r.status, fw.getMap(tr, s).key)])
            && (r.status == Success ==> r.trace != tr && r.state.key == fw.getMap(tr, s).key && r.state.memory == s.memory)
  {}

  function TraceOf(st: Step): Trace {
    match st
    case Return(out) => out.trace
    case Again(_, tr) => tr
  }

  /** One attempt: what it appends, and when that ends in a successful exit. */
  lemma AttemptOrderly(fw: Firmware, prepare: Preparation, s: Snapshot, tr: Trace)
    requires !EndsClean(tr)
    ensures var st := Attempt(fw, prepare, s, tr);
            && tr <= TraceOf(st) && Orderly(TraceOf(st), |tr|)
            && (st.Again? ==> !EndsClean(st.trace))
            && (st.Return? ==> (st.out.status == Success <==> EndsClean(st.out.trace)))
  {
    hide PrepareMap, RefreshMap;
    var r := RefreshMap(fw, s, tr);
    RefreshShape(fw, s, tr);
    if r.status == BufferTooSmall {
      PrepareShape(fw, r.state, r.trace);
    } else if r.status == Success {
      var tr1 := r.trace + [Callback(r.state, prepare(r.trace, r.state))];
      assert tr1[..|tr|] == tr;
    }
  }

  lemma OrderlyExtends(a: Trace, b: Trace, start: nat)
    requires start <= |a| && a <= b && Orderly(a, start) && Orderly(b, |a|) && !EndsClean(a)
    ensures Orderly(b, start)
  {
    forall i | start <= i < |b| ensures ExitIsPrepared(b, start, i) {
      if i < |a| {
        assert ExitIsPrepared(a, start, i);
        assert a[i] == b[i] && (i >= 1 ==> a[i - 1] == b[i - 1]) && (i >= 2 ==> a[i - 2] == b[i - 2]);
      } else {
        assert ExitIsPrepared(b, |a|, i);
      }
    }
    forall i | start <= i < |b| - 1 ensures !IsCleanExit(b[i]) {
      if i < |a| { assert a[i] == b[i]; }
    }
  }

  lemma {:induction false} AttemptsOrderly(fw: Firmware, prepare: Preparation, s: Snapshot, tr: Trace, left: nat)
    requires !EndsClean(tr)
    ensures var out := Attempts(fw, prepare, s, tr, left);
            && tr <= out.trace && Orderly(out.trace, |tr|)
            && (out.status == Success <==> EndsClean(out.trace))
    decreases left
  {
    hide Orderly, EndsClean, Attempt;
    if left == 0 {
      NothingOrderly(tr);
    } else {
      AttemptOrderly(fw, prepare, s, tr);
      var st := Attempt(fw, prepare, s, tr);
      if st.Again? {
        AttemptsOrderly(fw, prepare, st.state, st.trace, left - 1);
        OrderlyExtends(st.trace, Attempts(fw, prepare, st.state, st.trace, left - 1).trace, |tr|);
      }
    }
  }

  lemma NothingOrderly(tr: Trace)
    ensures Orderly(tr, |tr|)
  {}

  /** Safety of the handoff, for every firmware, callback and starting state: each
      ExitBootServices is immediately preceded by the callback and that by a successful
      GetMemoryMap for the same map and key; nothing is called after a successful exit; and the
      function reports success if and only if its last call was a successful exit. */
  lemma HandoffIsOrderly(fw: Firmware, prepare: Preparation, s: Snapshot, tr: Trace)
    requires !EndsClean(tr)
    ensures var out := Handoff(fw, prepare, s, tr);
            && tr <= out.trace && Orderly(out.trace, |tr|)
            && (out.status == Success <==> EndsClean(out.trace))
  {
    hide PrepareMap, Attempts;
    var p := PrepareMap(fw, s, tr);
    PrepareShape(fw, s, tr);
    if fw.hasExit && p.status == Success {
      assert !EndsClean(p.trace);
      AttemptsOrderly(fw, prepare, p.state, p.trace, MAX_ATTEMPTS);
      OrderlyExtends(p.trace, Attempts(fw, prepare, p.state, p.trace, MAX_ATTEMPTS).trace, |tr|);
    }
  }

  // ---- number of calls ------------------------------------------------------

  function Exits(tr: Trace): nat {
    if tr == [] then 0 else Exits(tr[..|tr| - 1]) + (if tr[|tr| - 1].Exit? then 1 else 0)
  }

  /** Calls into the firmware: everything but the callback. */
  function Calls(tr: Trace): nat {
    if tr == [] then 0 else Calls(tr[..|tr| - 1]) + (if tr[|tr| - 1].Callback? then 0 else 1)
  }

  /** Attempts that fail: the map no longer fits the buffer, or the key is stale. */
  function Failures(tr: Trace): nat {
    if tr == [] then 0
    else
      var e := tr[|tr| - 1];
      Failures(tr[..|tr| - 1])
      + (if (e.GetMap? && e.status == BufferTooSmall) || (e.Exit? && e.status == InvalidParameter) then 1 else 0)
  }

  lemma Counted(tr: Trace, e: Event)
    ensures Exits(tr + [e]) == Exits(tr) + (if e.Exit? then 1 else 0)
    ensures Calls(tr + [e]) == Calls(tr) + (if e.Callback? then 0 else 1)
    ensures Failures(tr + [e]) == Failures(tr)
              + (if (e.GetMap? && e.status == BufferTooSmall) || (e.Exit? && e.status == InvalidParameter) then 1 else 0)
  {
    assert (tr + [e])[..|tr|] == tr;
  }

  lemma PrepareCounts(fw: Firmware, s: Snapshot, tr: Trace)
    ensures var r := PrepareMap(fw, s, tr);
            && Exits(r.trace) == Exits(tr) && Calls(r.trace) <= Calls(tr) + 3 && Failures(r.trace) == Failures(tr)
  {
    hide Exits, Calls, Failures;
    var q := fw.askSize(tr);
    var tr1 := tr + [AskSize(q.status)];
    Counted(tr, AskSize(q.status));
    var a := fw.allocate(tr1, Capacity(q.required, q.descriptorSize));
    var e := Allocate(Capacity(q.required, q.descriptorSize), a.status, a.buffer);
    Counted(tr1, e);
    Counted(tr1 + [e], Free(s.memory, fw.free(tr1 + [e], s.memory)));
  }

  lemma RefreshCounts(fw: Firmware, s: Snapshot, tr: Trace)
    ensures var r := RefreshMap(fw, s, tr);
            && Exits(r.trace) == Exits(tr) && Calls(r.trace) <= Calls(tr) + 1
            && (r.status == BufferTooSmall ==> Failures(r.trace) == Failures(tr) + 1)
            && (r.status != BufferTooSmall ==> Failures(r.trace) == Failures(tr))
  {
    hide Exits, Calls, Failures;
    var m := fw.getMap(tr, s);
    Counted(tr, GetMap(s.memory, m.status, m.key));
  }

  /** One attempt makes at most four firmware calls and one exit; the loop goes on exactly
      because the attempt failed in one of the two ways that can pass. */
  lemma AttemptCounts(fw: Firmware, prepare: Preparation, s: Snapshot, tr: Trace)
    ensures var st := Attempt(fw, prepare, s, tr);
            var tr' := TraceOf(st);
            && Exits(tr') <= Exits(tr) + 1 && Calls(tr') <= Calls(tr) + 4
            && (st.Again? ==> Failures(tr') == Failures(tr) + 1)
            && (st.Return? && st.out.status == Success ==> Failures(tr') == Failures(tr))
  {
    hide Exits, Calls, Failures, PrepareMap, RefreshMap;
    var r := RefreshMap(fw, s, tr);
    RefreshCounts(fw, s, tr);
    PrepareCounts(fw, r.state, r.trace);
    var c := Callback(r.state, prepare(r.trace, r.state));
    Counted(r.trace, c);
    Counted(r.trace + [c], Exit(r.state.key, fw.exit(r.trace + [c], r.state.key)));
  }

  lemma {:induction false} AttemptsCounts(fw: Firmware, prepare: Preparation, s: Snapshot, tr: Trace, left: nat)
    ensures var out := Attempts(fw, prepare, s, tr, left);
            && Exits(out.trace) <= Exits(tr) + left && Calls(out.trace) <= Calls(tr) + 4 * left
            && (out.status == Success ==> Failures(out.trace) <= Failures(tr) + left - 1)
    decreases left
  {
    hide Exits, Calls, Failures, Attempt;
    if left > 0 {
      AttemptCounts(fw, prepare, s, tr);
      var st := Attempt(fw, prepare, s, tr);
      if st.Again? {
        AttemptsCounts(fw, prepare, st.state, st.trace, left - 1);
      }
    }
  }

  /** At most eight exit attempts, and a fixed bound on the calls into the firmware. */
  lemma HandoffIsBounded(fw: Firmware, prepare: Preparation, s: Snapshot, tr: Trace)
    ensures var out := Handoff(fw, prepare, s, tr);
            && Exits(out.trace) <= Exits(tr) + MAX_ATTEMPTS
            && Calls(out.trace) <= Calls(tr) + 3 + 4 * MAX_ATTEMPTS
  {
    hide Exits, Calls, Failures, PrepareMap, Attempts;
    PrepareCounts(fw, s, tr);
    var p := PrepareMap(fw, s, tr);
    AttemptsCounts(fw, prepare, p.state, p.trace, MAX_ATTEMPTS);
  }

  // ---- ownership of the buffers ---------------------------------------------

  function After(live: set<nat>, e: Event): set<nat> {
    if e.Allocate? && e.status == Success && e.buffer != 0 then live + {e.buffer}
    else if e.Free? && e.status == Success then live - {e.buffer}
    else live
  }

  /** The pool buffers that are live after the calls in tr, given those live before. */
  function Live(live: set<nat>, tr: Trace): set<nat> {
    if tr == [] then live else After(Live(live, tr[..|tr| - 1]), tr[|tr| - 1])
  }

  /** The event uses live memory only: no buffer is freed twice, filled or shown once freed. */
  predicate UsesLive(live: set<nat>, e: Event) {
    && (e.Free? ==> e.buffer in live)
    && (e.GetMap? ==> e.buffer in live)
    && (e.Callback? ==> e.seen.memory in live)
  }

  /** Besides the buffers of others there are at most two, and every event uses live memory. */
  ghost predicate Owning(live: set<nat>, others: set<nat>, tr: Trace, start: nat) {
    && (forall k :: start <= k <= |tr| ==> others <= Live(live, tr[..k]) && |Live(live, tr[..k]) - others| <= 2)
    && (forall k :: start <= k < |tr| ==> UsesLive(Live(live, tr[..k]), tr[k]))
  }

  /** The pool never hands out a buffer that is live, and FreePool is there and succeeds. */
  ghost predicate SoundPool(fw: Firmware, live: set<nat>) {
    && fw.hasFree && (forall tr, b :: fw.free(tr, b) == Success)
    && (forall tr, n :: fw.allocate(tr, n).status == Success ==> fw.allocate(tr, n).buffer !in Live(live, tr))
  }

  function Mine(s: Snapshot): set<nat> {
    if s.memory == 0 then {} else {s.memory}
  }

  /** Outside of a call, the handoff owns the buffer in its record and nothing else. */
  ghost predicate OwnsOne(live: set<nat>, others: set<nat>, s: Snapshot, tr: Trace) {
    s.memory !in others && 0 !in others && Live(live, tr) == others + Mine(s)
  }

  lemma LiveStep(live: set<nat>, tr: Trace, e: Event)
    ensures Live(live, tr + [e]) == After(Live(live, tr), e)
  {
    assert (tr + [e])[..|tr|] == tr;
  }

  lemma OwningStep(live: set<nat>, others: set<nat>, tr: Trace, e: Event, start: nat)
    requires start <= |tr| && Owning(live, others, tr, start) && UsesLive(Live(live, tr), e)
    requires others <= After(Live(live, tr), e) && |After(Live(live, tr), e) - others| <= 2
    ensures Owning(live, others, tr + [e], start)
  {
    var tr' := tr + [e];
    forall k | start <= k <= |tr'|
      ensures others <= Live(live, tr'[..k]) && |Live(live, tr'[..k]) - others| <= 2
    {
      if k <= |tr| {
        assert tr'[..k] == tr[..k];
      } else {
        assert tr'[..k] == tr';
        LiveStep(live, tr, e);
      }
    }
    forall k | start <= k < |tr'| ensures UsesLive(Live(live, tr'[..k]), tr'[k]) {
      assert tr'[..k] == tr[..k];
      if k == |tr| { assert tr[..k] == tr; }
    }
  }

  lemma AtMostTwo(others: set<nat>, a: nat, b: nat)
    ensures |(others + {a} + {b}) - others| <= 2 && |(others + {a}) - others| <= 2 && |others - others| <= 2
  {
    assert (others + {a} + {b}) - others <= {a, b};
    assert (others + {a}) - others <= {a};
    SubsetSize((others + {a} + {b}) - others, {a, b});
    SubsetSize((others + {a}) - others, {a});
    assert others - others == {};
  }

  lemma SubsetSize(a: set<nat>, b: set<nat>)
    requires a <= b
    ensures |a| <= |b|
  {
    assert b == a + (b - a);
  }

  /** A call that neither allocates nor frees. */
  lemma PassiveStep(live: set<nat>, others: set<nat>, s: Snapshot, tr: Trace, e: Event, start: nat)
    requires start <= |tr| && Owning(live, others, tr, start) && OwnsOne(live, others, s, tr)
    requires !e.Allocate? && !e.Free? && UsesLive(Live(live, tr), e)
    ensures Owning(live, others, tr + [e], start) && OwnsOne(live, others, s, tr + [e])
  {
    hide Owning;
    AtMostTwo(others, s.memory, s.memory);
    LiveStep(live, tr, e);
    OwningStep(live, others, tr, e, start);
  }

  lemma PrepareOwns(fw: Firmware, live: set<nat>, others: set<nat>, s: Snapshot, tr: Trace, start: nat)
    requires SoundPool(fw, live) && start <= |tr| && Owning(live, others, tr, start) && OwnsOne(live, others, s, tr)
    ensures var r := PrepareMap(fw, s, tr);
            Owning(live, others, r.trace, start) && OwnsOne(live, others, r.state, r.trace) && |tr| <= |r.trace|
  {
    hide Owning;
    if fw.hasGetMap && fw.hasAllocate {
      var q := fw.askSize(tr);
      var tr1 := tr + [AskSize(q.status)];
      PassiveStep(live, others, s, tr, AskSize(q.status), start);
      if q.status == BufferTooSmall && q.descriptorSize != 0 {
        var capacity := Capacity(q.required, q.descriptorSize);
        ReplaceOwns(fw, live, others, s, tr1, start, capacity);
      }
    }
  }

  /** The new buffer is allocated, and then the old one freed. */
  lemma ReplaceOwns(fw: Firmware, live: set<nat>, others: set<nat>, s: Snapshot, tr: Trace, start: nat, capacity: nat)
    requires SoundPool(fw, live) && start <= |tr| && Owning(live, others, tr, start) && OwnsOne(live, others, s, tr)
    ensures var a := fw.allocate(tr, capacity);
            var tr1 := tr + [Allocate(capacity, a.status, a.buffer)];
            var tr2 := tr1 + [Free(s.memory, fw.free(tr1, s.memory))];
            if a.status != Success || a.buffer == 0 then
              Owning(live, others, tr1, start) && Live(live, tr1) == others + Mine(s)
            else if s.memory == 0 then
              Owning(live, others, tr1, start) && Live(live, tr1) == others + {a.buffer} && a.buffer !in others
            else
              Owning(live, others, tr2, start) && Live(live, tr2) == others + {a.buffer} && a.buffer !in others
  {
    hide Owning;
    var a := fw.allocate(tr, capacity);
    var e := Allocate(capacity, a.status, a.buffer);
    var tr1 := tr + [e];
    LiveStep(live, tr, e);
    PairSize(others, s, a.buffer);
    OwningStep(live, others, tr, e, start);
    if a.status == Success && a.buffer != 0 && s.memory != 0 {
      var f := Free(s.memory, fw.free(tr1, s.memory));
      LiveStep(live, tr1, f);
      AtMostTwo(others, a.buffer, a.buffer);
      assert Live(live, tr1 + [f]) == others + {a.buffer};
      OwningStep(live, others, tr1, f, start);
    }
  }

  lemma PairSize(others: set<nat>, s: Snapshot, b: nat)
    ensures |(others + Mine(s) + {b}) - others| <= 2 && |(others + Mine(s)) - others| <= 2
  {
    AtMostTwo(others, s.memory, b);
    var both := (others + {s.memory} + {b}) - others;
    assert (others + Mine(s) + {b}) - others <= both && (others + Mine(s)) - others <= both;
    SubsetSize((others + Mine(s) + {b}) - others, both);
    SubsetSize((others + Mine(s)) - others, both);
  }

  lemma AttemptOwns(fw: Firmware, prepare: Preparation, live: set<nat>, others: set<nat>, s: Snapshot, tr: Trace, start: nat)
    requires SoundPool(fw, live) && start <= |tr| && Owning(live, others, tr, start) && OwnsOne(live, others, s, tr)
    ensures var st := Attempt(fw, prepare, s, tr);
            var s' := if st.Return? then st.out.state else st.state;
            Owning(live, others, TraceOf(st), start) && OwnsOne(live, others, s', TraceOf(st)) && |tr| <= |TraceOf(st)|
  {
    hide Owning, PrepareMap, SoundPool;
    var r := RefreshMap(fw, s, tr);
    if s.memory != 0 && s.capacity != 0 && fw.hasGetMap {
      PassiveStep(live, others, s, tr, GetMap(s.memory, r.status, fw.getMap(tr, s).key), start);
    }
    assert OwnsOne(live, others, r.state, r.trace);
    if r.status == BufferTooSmall {
      PrepareOwns(fw, live, others, r.state, r.trace, start);
    } else if r.status == Success {
      var c := Callback(r.state, prepare(r.trace, r.state));
      PassiveStep(live, others, r.state, r.trace, c, start);
      var tr1 := r.trace + [c];
      PassiveStep(live, others, r.state, tr1, Exit(r.state.key, fw.exit(tr1, r.state.key)), start);
    }
  }

  lemma {:induction false} AttemptsOwn(fw: Firmware, prepare: Preparation, live: set<nat>, others: set<nat>,
                                       s: Snapshot, tr: Trace, start: nat, left: nat)
    requires SoundPool(fw, live) && start <= |tr| && Owning(live, others, tr, start) && OwnsOne(live, others, s, tr)
    ensures var out := Attempts(fw, prepare, s, tr, left);
            Owning(live, others, out.trace, start) && OwnsOne(live, others, out.state, out.trace)
    decreases left
  {
    hide Owning, OwnsOne, SoundPool, Attempt;
    if left > 0 {
      AttemptOwns(fw, prepare, live, others, s, tr, start);
      var st := Attempt(fw, prepare, s, tr);
      if st.Again? {
        AttemptsOwn(fw, prepare, live, others, st.state, st.trace, start, left - 1);
      }
    }
  }

  /** Ownership: starting with no buffer or a live one, the handoff owns at most two buffers at
      any moment and exactly the one in its record when it returns (none if that is NULL);
      buffers of others are untouched, and freed memory is never freed, filled or shown again. */
  lemma HandoffOwnsOneBuffer(fw: Firmware, prepare: Preparation, live: set<nat>, others: set<nat>, s: Snapshot)
    requires SoundPool(fw, live) && 0 !in others && s.memory !in others && live == others + Mine(s)
    ensures var out := Handoff(fw, prepare, s, []);
            && Owning(live, others, out.trace, 0)
            && Live(live, out.trace) == others + Mine(out.state)
            && out.state.memory !in others
  {
    hide SoundPool, PrepareMap, Attempts;
    AtMostTwo(others, s.memory, s.memory);
    var none: Trace := [];
    assert none[..0] == none && Live(live, none) == live;
    assert Owning(live, others, [], 0);
    PrepareOwns(fw, live, others, s, [], 0);
    var p := PrepareMap(fw, s, []);
    AttemptsOwn(fw, prepare, live, others, p.state, p.trace, 0, MAX_ATTEMPTS);
  }
}
