/** What the final memory map record says, in every run, by the history of calls alone. */
module UefiRecord {
  import opened UefiHandoff
  import opened UefiHandoffSafety

  function Earlier(tr: Trace): Trace
    requires tr != []
  {
    tr[..|tr| - 1]
  }

  /** The record after a history of calls, of which those from start on are the handoff's: a new
      buffer starts a new record, with the layout that the firmware gave with the size; a reading
      fills it with the reply; one that fails leaves the size it reports. */
  function RecordOf(fw: Firmware, s: Snapshot, tr: Trace, start: nat): Snapshot
    requires start <= |tr|
    decreases |tr|
  {
    if |tr| == start then s
    else
      var h, e := Earlier(tr), tr[|tr| - 1];
      var before := RecordOf(fw, s, h, start);
      if e.Allocate? && e.status == Success && e.buffer != 0 && h != [] then
        var q := fw.askSize(Earlier(h));
        Snapshot(e.buffer, 0, e.bytes, 0, q.descriptorSize, q.descriptorVersion)
      else if e.GetMap? then
        var m := fw.getMap(h, before);
        if e.status == Success then
          Snapshot(before.memory, m.size, before.capacity, m.key, m.descriptorSize, m.descriptorVersion)
        else
          Snapshot(before.memory, m.size, before.capacity, before.key, before.descriptorSize, before.descriptorVersion)
      else before
  }

  /** The call at i is made with what the record says, and its outcome is the firmware's reply. */
  ghost predicate IsTold(fw: Firmware, s: Snapshot, tr: Trace, start: nat, i: nat)
    requires start <= i < |tr|
  {
    var h := tr[..i];
    var record := RecordOf(fw, s, h, start);
    match tr[i]
    case AskSize(status) => status == fw.askSize(h).status
    case Allocate(bytes, status, buffer) =>
      && start < i && tr[i - 1].AskSize? && AllocateReply(status, buffer) == fw.allocate(h, bytes)
      && var q := fw.askSize(Earlier(h)); bytes == (q.required + 32 * q.descriptorSize + 8192) % 0x1_0000_0000_0000_0000
    case Free(buffer, status) =>
      && start < i && tr[i - 1].Allocate? && buffer == RecordOf(fw, s, Earlier(h), start).memory
      && status == fw.free(h, buffer)
    case GetMap(buffer, status, key) =>
      var m := fw.getMap(h, record);
      buffer == record.memory && status == m.status && key == m.key
    case Callback(seen, _) => seen == record
    case Exit(key, status) => key == record.key && status == fw.exit(h, key)
  }

  ghost predicate AllTold(fw: Firmware, s: Snapshot, tr: Trace, start: nat) {
    forall i :: start <= i < |tr| ==> IsTold(fw, s, tr, start, i)
  }

  /** The record that the code holds is the one that the history gives. */
  ghost predicate Recorded(fw: Firmware, s: Snapshot, now: Snapshot, tr: Trace, start: nat) {
    start <= |tr| && now == RecordOf(fw, s, tr, start) && AllTold(fw, s, tr, start)
  }

  lemma TellOne(fw: Firmware, s: Snapshot, tr: Trace, e: Event, start: nat)
    requires start <= |tr| && AllTold(fw, s, tr, start) && IsTold(fw, s, tr + [e], start, |tr|)
    ensures AllTold(fw, s, tr + [e], start)
  {
    hide RecordOf;
    var tr' := tr + [e];
    forall i | start <= i < |tr'| ensures IsTold(fw, s, tr', start, i) {
      if i < |tr| {
        assert IsTold(fw, s, tr, start, i);
        assert tr'[..i] == tr[..i];
      }
    }
  }

  /** A call that does not change the record. */
  lemma Unchanged(fw: Firmware, s: Snapshot, now: Snapshot, tr: Trace, e: Event, start: nat)
    requires Recorded(fw, s, now, tr, start) && !e.GetMap? && !(e.Allocate? && e.status == Success && e.buffer != 0)
    requires IsTold(fw, s, tr + [e], start, |tr|)
    ensures Recorded(fw, s, now, tr + [e], start)
  {
    hide IsTold, AllTold;
    assert Earlier(tr + [e]) == tr;
    TellOne(fw, s, tr, e, start);
  }

  lemma AtEnd(tr: Trace, e: Event)
    ensures (tr + [e])[..|tr|] == tr && Earlier(tr + [e]) == tr
  {}

  lemma PrepareRecords(fw: Firmware, s: Snapshot, now: Snapshot, tr: Trace, start: nat)
    requires Recorded(fw, s, now, tr, start)
    ensures var r := PrepareMap(fw, now, tr);
            Recorded(fw, s, r.state, r.trace, start)
  {
    hide RecordOf, AllTold;
    var q := fw.askSize(tr);
    var ask := AskSize(q.status);
    var tr1 := tr + [ask];
    AtEnd(tr, ask);
    Unchanged(fw, s, now, tr, ask, start);
    if fw.hasGetMap && fw.hasAllocate && q.status == BufferTooSmall && q.descriptorSize != 0 {
      ReplaceRecords(fw, s, now, tr, q, start);
    }
  }

  lemma ReplaceRecords(fw: Firmware, s: Snapshot, now: Snapshot, tr: Trace, q: SizeReply, start: nat)
    requires start <= |tr| && q == fw.askSize(tr) && Recorded(fw, s, now, tr + [AskSize(q.status)], start)
    ensures var tr1 := tr + [AskSize(q.status)];
            var capacity := Capacity(q.required, q.descriptorSize);
            var a := fw.allocate(tr1, capacity);
            var tr2 := tr1 + [Allocate(capacity, a.status, a.buffer)];
            var free := Free(now.memory, fw.free(tr2, now.memory));
            var new_ := Snapshot(a.buffer, 0, capacity, 0, q.descriptorSize, q.descriptorVersion);
            if a.status != Success || a.buffer == 0 then Recorded(fw, s, now, tr2, start)
            else Recorded(fw, s, new_, tr2, start) && Recorded(fw, s, new_, tr2 + [free], start)
  {
    hide AllTold;
    var ask := AskSize(q.status);
    var tr1 := tr + [ask];
    AtEnd(tr, ask);
    var capacity := Capacity(q.required, q.descriptorSize);
    var a := fw.allocate(tr1, capacity);
    var e := Allocate(capacity, a.status, a.buffer);
    var tr2 := tr1 + [e];
    AtEnd(tr1, e);
    TellOne(fw, s, tr1, e, start);
    if a.status == Success && a.buffer != 0 {
      var free := Free(now.memory, fw.free(tr2, now.memory));
      AtEnd(tr2, free);
      TellOne(fw, s, tr2, free, start);
    }
  }

  lemma RefreshRecords(fw: Firmware, s: Snapshot, now: Snapshot, tr: Trace, start: nat)
    requires Recorded(fw, s, now, tr, start)
    ensures var r := RefreshMap(fw, now, tr);
            Recorded(fw, s, r.state, r.trace, start)
  {
    hide AllTold;
    if now.memory != 0 && now.capacity != 0 && fw.hasGetMap {
      var m := fw.getMap(tr, now);
      var e := GetMap(now.memory, m.status, m.key);
      AtEnd(tr, e);
      TellOne(fw, s, tr, e, start);
    }
  }

  lemma AttemptRecords(fw: Firmware, prepare: Preparation, s: Snapshot, now: Snapshot, tr: Trace, start: nat)
    requires Recorded(fw, s, now, tr, start)
    ensures var st := Attempt(fw, prepare, now, tr);
            Recorded(fw, s, if st.Return? then st.out.state else st.state, TraceOf(st), start)
  {
    hide PrepareMap, RefreshMap, RecordOf, AllTold;
    var r := RefreshMap(fw, now, tr);
    RefreshRecords(fw, s, now, tr, start);
    if r.status == BufferTooSmall {
      PrepareRecords(fw, s, r.state, r.trace, start);
    } else if r.status == Success {
      var c := Callback(r.state, prepare(r.trace, r.state));
      AtEnd(r.trace, c);
      Unchanged(fw, s, r.state, r.trace, c, start);
      var tr1 := r.trace + [c];
      var e := Exit(r.state.key, fw.exit(tr1, r.state.key));
      AtEnd(tr1, e);
      Unchanged(fw, s, r.state, tr1, e, start);
    }
  }

  lemma {:induction false} AttemptsRecord(fw: Firmware, prepare: Preparation, s: Snapshot, now: Snapshot, tr: Trace, start: nat, left: nat)
    requires Recorded(fw, s, now, tr, start)
    ensures var out := Attempts(fw, prepare, now, tr, left);
            Recorded(fw, s, out.state, out.trace, start)
    decreases left
  {
    hide Recorded, Attempt;
    if left > 0 {
      AttemptRecords(fw, prepare, s, now, tr, start);
      var st := Attempt(fw, prepare, now, tr);
      if st.Again? {
        AttemptsRecord(fw, prepare, s, st.state, st.trace, start, left - 1);
      }
    }
  }

  /** In every run, whatever it ends with: the record left behind is what the history of calls gives,
      and every call is made with what the record said at that moment. */
  lemma HandoffKeepsRecord(fw: Firmware, prepare: Preparation, s: Snapshot, tr: Trace)
    ensures var out := Handoff(fw, prepare, s, tr);
            |tr| <= |out.trace| && out.state == RecordOf(fw, s, out.trace, |tr|) && AllTold(fw, s, out.trace, |tr|)
  {
    hide PrepareMap, Attempts, IsTold;
    assert Recorded(fw, s, s, tr, |tr|);
    PrepareRecords(fw, s, s, tr, |tr|);
    var p := PrepareMap(fw, s, tr);
    AttemptsRecord(fw, prepare, s, p.state, p.trace, |tr|, MAX_ATTEMPTS);
  }

  // ---- what the callback is shown -----------------------------------------------------

  /** The callback at i is shown the reply to the GetMemoryMap right before it: all of it, in the
      buffer that was filled. */
  ghost predicate ShowsReply(fw: Firmware, s: Snapshot, tr: Trace, start: nat, i: nat)
    requires start < i < |tr| && tr[i].Callback?
  {
    var given := RecordOf(fw, s, tr[..i - 1], start);
    var m := fw.getMap(tr[..i - 1], given);
    var seen := tr[i].seen;
    && tr[i - 1] == GetMap(given.memory, Success, m.key) && m.status == Success
    && seen.memory == given.memory && seen.capacity == given.capacity
    && seen.size == m.size && seen.key == m.key
    && seen.descriptorSize == m.descriptorSize && seen.descriptorVersion == m.descriptorVersion
  }

  /** A callback comes right behind a successful GetMemoryMap. */
  ghost predicate CallbacksFollow(tr: Trace, start: nat) {
    forall i :: start <= i < |tr| && tr[i].Callback? ==> start < i && tr[i - 1].GetMap? && tr[i - 1].status == Success
  }

  lemma FollowsMore(tr: Trace, start: nat, e: Event)
    requires start <= |tr| && CallbacksFollow(tr, start)
    requires e.Callback? ==> start < |tr| && tr[|tr| - 1].GetMap? && tr[|tr| - 1].status == Success
    ensures CallbacksFollow(tr + [e], start)
  {}

  lemma QuietFollows(a: Trace, b: Trace, start: nat)
    requires start <= |a| && CallbacksFollow(a, start) && a <= b && forall i :: |a| <= i < |b| ==> IsQuiet(b[i])
    ensures CallbacksFollow(b, start)
  {}

  lemma AttemptFollows(fw: Firmware, prepare: Preparation, s: Snapshot, tr: Trace, start: nat)
    requires start <= |tr| && CallbacksFollow(tr, start)
    ensures var st := Attempt(fw, prepare, s, tr);
            && start <= |TraceOf(st)| && CallbacksFollow(TraceOf(st), start)
            && (st.Return? && st.out.status == Success ==>
                  var n := |st.out.trace|; n >= start + 3 && st.out.trace[n - 1].Exit? && st.out.trace[n - 2].Callback?)
  {
    hide PrepareMap, RefreshMap, CallbacksFollow;
    var r := RefreshMap(fw, s, tr);
    RefreshShape(fw, s, tr);
    if r.trace != tr {
      FollowsMore(tr, start, GetMap(s.memory, r.status, fw.getMap(tr, s).key));
    }
    if r.status == BufferTooSmall {
      PrepareShape(fw, r.state, r.trace);
      QuietFollows(r.trace, PrepareMap(fw, r.state, r.trace).trace, start);
    } else if r.status == Success {
      var c := Callback(r.state, prepare(r.trace, r.state));
      FollowsMore(r.trace, start, c);
      FollowsMore(r.trace + [c], start, Exit(r.state.key, fw.exit(r.trace + [c], r.state.key)));
    }
  }

  lemma {:induction false} AttemptsFollow(fw: Firmware, prepare: Preparation, s: Snapshot, tr: Trace, start: nat, left: nat)
    requires start <= |tr| && CallbacksFollow(tr, start)
    ensures var out := Attempts(fw, prepare, s, tr, left);
            && CallbacksFollow(out.trace, start)
            && (out.status == Success ==>
                  var n := |out.trace|; n >= start + 3 && out.trace[n - 1].Exit? && out.trace[n - 2].Callback?)
    decreases left
  {
    hide Attempt, CallbacksFollow;
    if left > 0 {
      AttemptFollows(fw, prepare, s, tr, start);
      var st := Attempt(fw, prepare, s, tr);
      if st.Again? {
        AttemptsFollow(fw, prepare, st.state, st.trace, start, left - 1);
      }
    }
  }

  /** Every callback is shown the reply the firmware has just given, field by field, and after success
      the record still is what the last callback was shown. */
  lemma CallbackSeesReply(fw: Firmware, prepare: Preparation, s: Snapshot, tr: Trace)
    ensures var out := Handoff(fw, prepare, s, tr);
            && (forall i :: |tr| <= i < |out.trace| && out.trace[i].Callback? ==>
                  |tr| < i && ShowsReply(fw, s, out.trace, |tr|, i))
            && (out.status == Success ==>
                  var n := |out.trace|;
                  n >= |tr| + 3 && out.trace[n - 2].Callback? && out.state == out.trace[n - 2].seen)
  {
    hide PrepareMap, Attempts, CallbacksFollow, RecordOf;
    var out := Handoff(fw, prepare, s, tr);
    var start := |tr|;
    HandoffKeepsRecord(fw, prepare, s, tr);
    FollowAll(fw, prepare, s, tr);
    forall i | start <= i < |out.trace| && out.trace[i].Callback? ensures start < i && ShowsReply(fw, s, out.trace, start, i) {
      ShownAt(fw, s, out.trace, start, i);
    }
    if out.status == Success {
      KeptAtEnd(fw, s, out.trace, start, out.state);
    }
  }

  lemma FollowAll(fw: Firmware, prepare: Preparation, s: Snapshot, tr: Trace)
    ensures var out := Handoff(fw, prepare, s, tr);
            && CallbacksFollow(out.trace, |tr|)
            && (out.status == Success ==>
                  var n := |out.trace|; n >= |tr| + 3 && out.trace[n - 1].Exit? && out.trace[n - 2].Callback?)
  {
    hide PrepareMap, Attempts, CallbacksFollow;
    assert CallbacksFollow(tr, |tr|) by { NoneYet(tr); }
    PrepareShape(fw, s, tr);
    var p := PrepareMap(fw, s, tr);
    QuietFollows(tr, p.trace, |tr|);
    AttemptsFollow(fw, prepare, p.state, p.trace, |tr|, MAX_ATTEMPTS);
  }

  lemma NoneYet(tr: Trace)
    ensures CallbacksFollow(tr, |tr|)
  {}

  lemma ShownAt(fw: Firmware, s: Snapshot, tr: Trace, start: nat, i: nat)
    requires start <= i < |tr| && tr[i].Callback? && AllTold(fw, s, tr, start) && CallbacksFollow(tr, start)
    ensures start < i && ShowsReply(fw, s, tr, start, i)
  {
    assert IsTold(fw, s, tr, start, i) && IsTold(fw, s, tr, start, i - 1);
    assert Earlier(tr[..i]) == tr[..i - 1];
  }

  lemma KeptAtEnd(fw: Firmware, s: Snapshot, tr: Trace, start: nat, now: Snapshot)
    requires start + 3 <= |tr| && tr[|tr| - 1].Exit? && tr[|tr| - 2].Callback?
    requires AllTold(fw, s, tr, start) && now == RecordOf(fw, s, tr, start)
    ensures now == tr[|tr| - 2].seen
  {
    var n := |tr|;
    assert IsTold(fw, s, tr, start, n - 2);
    assert Earlier(tr) == tr[..n - 1] && Earlier(tr[..n - 1]) == tr[..n - 2];
  }

  // ---- what is reported -----------------------------------------------------------------

  /** The attempts are used up, or there is no buffer to read into. */
  predicate IsStuck(s: Snapshot, status: Status) {
    status == Aborted || (status == InvalidParameter && (s.memory == 0 || s.capacity == 0))
  }

  /** The status by the last call: its own, unless the call went well without being an exit, or the key
      was stale. */
  predicate Explains(tr: Trace, s: Snapshot, status: Status) {
    tr != [] &&
    match tr[|tr| - 1]
    case AskSize(st) => if st != Success then status == st else IsStuck(s, status)
    case Allocate(_, st, buffer) =>
      if st != Success then status == st else if buffer == 0 then status == OutOfResources else IsStuck(s, status)
    case Free(_, _) => IsStuck(s, status)
    case GetMap(_, st, _) => status == st
    case Callback(_, st) => status == st
    case Exit(_, st) => status == if st == InvalidParameter then Aborted else st
  }

  /** Where the loop goes on. */
  predicate GoesOn(tr: Trace, s: Snapshot) {
    tr != [] &&
    match tr[|tr| - 1]
    case AskSize(st) => st == Success
    case Allocate(_, st, buffer) => st == Success && buffer != 0
    case Free(_, _) => true
    case GetMap(_, _, _) => false
    case Callback(_, _) => false
    case Exit(_, st) => st == InvalidParameter && s.memory != 0 && s.capacity != 0
  }

  lemma PrepareReports(fw: Firmware, s: Snapshot, tr: Trace)
    requires fw.hasGetMap && fw.hasAllocate
    ensures var p := PrepareMap(fw, s, tr);
            if p.status == Success then GoesOn(p.trace, p.state) else Explains(p.trace, p.state, p.status)
  {}

  lemma AttemptReports(fw: Firmware, prepare: Preparation, s: Snapshot, tr: Trace)
    requires fw.hasGetMap && fw.hasAllocate && GoesOn(tr, s)
    ensures var st := Attempt(fw, prepare, s, tr);
            if st.Return? then Explains(st.out.trace, st.out.state, st.out.status) else GoesOn(st.trace, st.state)
  {
    hide PrepareMap;
    PrepareReports(fw, RefreshMap(fw, s, tr).state, RefreshMap(fw, s, tr).trace);
  }

  lemma {:induction false} AttemptsReport(fw: Firmware, prepare: Preparation, s: Snapshot, tr: Trace, left: nat)
    requires fw.hasGetMap && fw.hasAllocate && GoesOn(tr, s)
    ensures var out := Attempts(fw, prepare, s, tr, left); Explains(out.trace, out.state, out.status)
    decreases left
  {
    hide Attempt;
    if left > 0 {
      AttemptReports(fw, prepare, s, tr);
      var st := Attempt(fw, prepare, s, tr);
      if st.Again? {
        AttemptsReport(fw, prepare, st.state, st.trace, left - 1);
      }
    }
  }

  /** The status is the one of the call that ended the handoff; nothing is called when a service is
      missing. */
  lemma HandoffReports(fw: Firmware, prepare: Preparation, s: Snapshot, tr: Trace)
    ensures var out := Handoff(fw, prepare, s, tr);
            if fw.hasExit && fw.hasGetMap && fw.hasAllocate then Explains(out.trace, out.state, out.status)
            else out == Outcome(InvalidParameter, s, tr)
  {
    hide PrepareMap, Attempts;
    var p := PrepareMap(fw, s, tr);
    if fw.hasGetMap && fw.hasAllocate {
      PrepareReports(fw, s, tr);
      if p.status == Success {
        AttemptsReport(fw, prepare, p.state, p.trace, MAX_ATTEMPTS);
      }
    } else {
      NothingAsked(fw, s, tr);
    }
  }

  lemma NothingAsked(fw: Firmware, s: Snapshot, tr: Trace)
    requires !fw.hasGetMap || !fw.hasAllocate
    ensures PrepareMap(fw, s, tr) == Outcome(InvalidParameter, s, tr)
  {}
}
