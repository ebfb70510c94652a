/** Writing one metadata file from beginning to end, as the storage code does it, with any call failing. */
module MetadataStore {
  import opened AtomicReplace
  import opened Replies

  /** The call that fails, if one does; a failing write may have written some of its bytes. */
  datatype Fault = AtCreate | AtWrite(written: nat) | AtSync | AtRename | AtDirectory

  predicate BeforeRename(fault: Option<Fault>, size: nat) {
    match fault
    case None => false
    case Some(AtWrite(written)) => written < size
    case Some(f) => f.AtCreate? || f.AtSync?
  }

  lemma {:induction false} RunAppend(s: System, events: seq<Event>, e: Event)
    ensures Run(s, events + [e]) == Step(Run(s, events), e)
    decreases |events|
  {
    if events == [] {
      assert [] + [e] == [e] && [e][1..] == [];
      assert Run(s, [e]) == Run(Step(s, e), []);
    } else {
      assert (events + [e])[1..] == events[1..] + [e];
      RunAppend(Step(s, events[0]), events[1..], e);
    }
  }

  predicate OwnStep(e: Event, key: Key) {
    match e
    case Create(k, _) => k == key
    case Append(k, _) => k == key
    case Sync(k) => k == key
    case Fail(k) => k == key
    case Cleanup(k, _) => k == key
    case _ => false
  }

  /** From `s` to `t` by steps of one writer, none of them the rename */
  ghost predicate Alone(s: System, t: System, key: Key, trace: seq<Event>) {
    t == Run(s, trace) && forall i :: 0 <= i < |trace| ==> OwnStep(trace[i], key)
  }

  lemma RunFrom(s: System, first: Event, events: seq<Event>)
    ensures Run(s, [first] + events) == Run(Step(s, first), events)
  {
    assert ([first] + events)[1..] == events;
  }

  /** Nothing but the writer's temporary file differs. */
  ghost predicate Beside(s: System, t: System, key: Key) {
    var before, after, tmp := s.Now().entries, t.Now().entries, s.Tmp(key);
    && t.target == s.target && t.unix == s.unix && t.log == s.log
    && after - {tmp} == before - {tmp}
    && forall n :: n in before && n != tmp ==>
         before[n] in s.files && before[n] in t.files && t.files[before[n]] == s.files[before[n]]
  }

  /** The target is replaced, and every other name stands for what it stood for. */
  ghost predicate Replaced(s: System, t: System, key: Key, content: Bytes) {
    var before, after, tmp := s.Now().entries, t.Now().entries, s.Tmp(key);
    && t.log == s.log + [Some(content)] && t.Visible() == Some(content)
    && after - {s.target} == before - {tmp, s.target}
    && forall n :: n in before && n != tmp && n != s.target ==>
         before[n] in s.files && before[n] in t.files && t.files[before[n]] == s.files[before[n]]
  }

  /** The target now has the payload, with a line feed behind it if asked for. */
  ghost predicate ReplacedBy(s: System, t: System, key: Key, payload: Bytes, newline: bool) {
    t.Visible().Some? && Completes(t.Visible().value, payload, newline) && Replaced(s, t, key, t.Visible().value)
  }

  /** A step that touches no other file than the one the temporary name leads to */
  ghost predicate OwnFileOnly(t: System, u: System, key: Key) {
    var before, after, tmp := t.Now().entries, u.Now().entries, t.Tmp(key);
    && u.target == t.target && u.unix == t.unix && u.log == t.log
    && after - {tmp} == before - {tmp}
    && forall i :: i in t.files && (tmp in before ==> i != before[tmp]) ==> i in u.files && u.files[i] == t.files[i]
  }

  lemma OwnSteps(t: System, key: Key, e: Event)
    requires Inv(t) && OwnStep(e, key)
    ensures OwnFileOnly(t, Step(t, e), key)
  {
    if e.Create? {
      OwnCreate(t, key, e);
    } else if e.Cleanup? {
      OwnCleanup(t, key, e);
    } else {
      OwnFileSteps(t, key, e);
    }
  }

  lemma OwnFileSteps(t: System, key: Key, e: Event)
    requires Inv(t) && OwnStep(e, key) && (e.Append? || e.Sync? || e.Fail?)
    ensures OwnFileOnly(t, Step(t, e), key)
  {
    assert key in t.writers ==> GoodWriter(t, key);
  }

  lemma OwnCreate(t: System, key: Key, e: Event)
    requires Inv(t) && OwnStep(e, key) && e.Create?
    ensures OwnFileOnly(t, Step(t, e), key)
  {
    assert key in t.writers ==> GoodWriter(t, key);
  }

  lemma OwnCleanup(t: System, key: Key, e: Event)
    requires Inv(t) && OwnStep(e, key) && e.Cleanup?
    ensures OwnFileOnly(t, Step(t, e), key)
  {
    assert key in t.writers ==> GoodWriter(t, key);
  }

  lemma StepBeside(s: System, t: System, key: Key, e: Event)
    requires Inv(t) && Beside(s, t, key) && OwnStep(e, key)
    ensures Beside(s, Step(t, e), key)
  {
    OwnSteps(t, key, e);
    assert GoodDirectory(t, t.Now());
    var before, after := s.Now().entries, t.Now().entries;
    forall n | n in before && n != s.Tmp(key)
      ensures n in after && after[n] == before[n] && (t.Tmp(key) in after ==> after[n] != after[t.Tmp(key)])
    {
      assert n in before - {s.Tmp(key)};
    }
  }

  lemma StepKeepsContent(s: System, key: Key, e: Event)
    requires OwnStep(e, key) && key in s.writers
    ensures key in Step(s, e).writers && Step(s, e).writers[key].content == s.writers[key].content
  {
  }

  /** What one writer does before its rename touches nothing but its temporary file. */
  lemma {:induction false} AloneMeans(s: System, t: System, key: Key, trace: seq<Event>)
    requires Inv(s) && key in s.writers && Alone(s, t, key, trace)
    ensures Inv(t) && Beside(s, t, key) && key in t.writers && t.writers[key].content == s.writers[key].content
    decreases |trace|
  {
    var n := |trace| - 1;
    if n < 0 {
      assert GoodDirectory(s, s.Now());
    } else {
      var u := Run(s, trace[..n]);
      assert trace == trace[..n] + [trace[n]];
      RunAppend(s, trace[..n], trace[n]);
      AloneMeans(s, u, key, trace[..n]);
      StepKeeps(u, trace[n]);
      StepBeside(s, u, key, trace[n]);
      StepKeepsContent(u, key, trace[n]);
    }
  }

  lemma AloneStep(s: System, t: System, key: Key, trace: seq<Event>, e: Event)
    requires Alone(s, t, key, trace) && OwnStep(e, key)
    ensures Alone(s, Step(t, e), key, trace + [e])
  {
    RunAppend(s, trace, e);
  }

  lemma CreateAlone(s: System, t: System, key: Key, trace: seq<Event>, inode: Inode)
    requires Alone(s, t, key, trace) && PhaseOf(t, key) == Starting && inode !in t.files
    ensures Alone(s, StepCreate(t, key, inode), key, trace + [Create(key, inode)])
    ensures var phase := PhaseOf(StepCreate(t, key, inode), key); phase.Writing? && phase.written == 0
  {
    AloneStep(s, t, key, trace, Create(key, inode));
  }

  lemma AppendAlone(s: System, t: System, key: Key, trace: seq<Event>, count: nat)
    requires Inv(s) && key in s.writers && Alone(s, t, key, trace)
    requires PhaseOf(t, key).Writing? && PhaseOf(t, key).written + count <= |s.writers[key].content|
    ensures Alone(s, StepAppend(t, key, count), key, trace + [Append(key, count)])
    ensures var phase := PhaseOf(StepAppend(t, key, count), key);
            phase.Writing? && phase.written == PhaseOf(t, key).written + count
  {
    AloneStep(s, t, key, trace, Append(key, count));
    AloneMeans(s, t, key, trace);
    assert GoodWriter(t, key);
  }

  lemma SyncAlone(s: System, t: System, key: Key, trace: seq<Event>)
    requires Inv(s) && key in s.writers && Alone(s, t, key, trace)
    requires PhaseOf(t, key).Writing? && PhaseOf(t, key).written == |s.writers[key].content|
    ensures Alone(s, StepSync(t, key), key, trace + [Sync(key)])
    ensures PhaseOf(StepSync(t, key), key).Flushed?
  {
    AloneStep(s, t, key, trace, Sync(key));
    AloneMeans(s, t, key, trace);
    assert GoodWriter(t, key);
  }

  lemma RenameReplaces(s: System, t: System, key: Key, trace: seq<Event>)
    requires Inv(s) && key in s.writers && Alone(s, t, key, trace) && PhaseOf(t, key).Flushed?
    ensures var u := StepRename(t, key);
            && u == Run(s, trace + [Rename(key)]) && PhaseOf(u, key).Renamed?
            && Replaced(s, u, key, s.writers[key].content) && u.target == s.target && u.Tmp(key) !in u.Now().entries
  {
    AloneMeans(s, t, key, trace);
    assert GoodWriter(t, key);
    RenamedEntries(s, t, key);
    RunAppend(s, trace, Rename(key));
  }

  lemma RenamedEntries(s: System, t: System, key: Key)
    requires Beside(s, t, key) && PhaseOf(t, key).Flushed? && t.Tmp(key) in t.Now().entries
    ensures var u := StepRename(t, key);
            u.Now().entries - {s.target} == s.Now().entries - {s.Tmp(key), s.target} && t.Tmp(key) !in u.Now().entries
  {
    TmpNamesApart(t);
    var u := StepRename(t, key);
    assert u.Now().entries - {u.target} == (t.Now().entries - {t.Tmp(key)}) - {t.target};
    assert s.Now().entries - {s.Tmp(key), s.target} == (s.Now().entries - {s.Tmp(key)}) - {s.target};
  }

  /** The two events of an error path, one after the other */
  lemma ErrorRun(s: System, t: System, key: Key, trace: seq<Event>, works: bool)
    requires t == Run(s, trace)
    ensures StepCleanup(StepFail(t, key), key, works) == Run(s, trace + [Fail(key), Cleanup(key, works)])
  {
    RunAppend(s, trace, Fail(key));
    RunAppend(s, trace + [Fail(key)], Cleanup(key, works));
    assert trace + [Fail(key)] + [Cleanup(key, works)] == trace + [Fail(key), Cleanup(key, works)];
  }

  /** An error changes neither names nor files any more once the target is replaced. */
  lemma LateError(t: System, key: Key, works: bool)
    requires PhaseOf(t, key).Renamed? && t.Tmp(key) !in t.Now().entries
    ensures var u := StepCleanup(StepFail(t, key), key, works);
            && PhaseOf(u, key) == Failed(works)
            && u.target == t.target && u.log == t.log && u.journal == t.journal && u.files == t.files
  {
    FailedLate(t, key);
  }

  lemma FailedLate(t: System, key: Key)
    requires PhaseOf(t, key).Renamed?
    ensures var u := StepFail(t, key);
            && u == t.(writers := u.writers) && key in u.writers && u.Tmp(key) == t.Tmp(key) && u.Now() == t.Now()
  {
  }

  lemma EarlyError(s: System, t: System, key: Key, trace: seq<Event>, works: bool)
    requires Alone(s, t, key, trace)
    requires PhaseOf(t, key).Starting? || PhaseOf(t, key).Writing? || PhaseOf(t, key).Flushed?
    ensures var u := StepCleanup(StepFail(t, key), key, works);
            Alone(s, u, key, trace + [Fail(key), Cleanup(key, works)]) && PhaseOf(u, key) == Failed(works)
  {
    AloneStep(s, t, key, trace, Fail(key));
    AloneStep(s, StepFail(t, key), key, trace + [Fail(key)], Cleanup(key, works));
    assert trace + [Fail(key)] + [Cleanup(key, works)] == trace + [Fail(key), Cleanup(key, works)];
  }

  /** The key after unique_tmp_path */
  function TakeCount(s: System, pid: nat): Key {
    Key(pid, if pid in s.counters then s.counters[pid] else 0)
  }

  /** The new writer is about to create its temporary file. */
  lemma WriterReady(s: System, pid: nat, payload: Bytes, newline: bool)
    requires Inv(s)
    ensures var start, key := StepBegin(s, pid, payload, newline), TakeCount(s, pid);
            && Inv(start) && start.files == s.files && key in start.writers && PhaseOf(start, key) == Starting
            && start.writers[key].content == Payload(payload, newline)
    ensures |Payload(payload, newline)| == |payload| + if newline then 1 else 0
  {
    BeginKeeps(s, pid, payload, newline);
  }

  lemma SinceBegin(s: System, t: System, pid: nat, payload: Bytes, newline: bool, events: seq<Event>)
    requires t == Run(StepBegin(s, pid, payload, newline), events)
    ensures var start, key := StepBegin(s, pid, payload, newline), TakeCount(s, pid);
            && t == Run(s, [Begin(pid, payload, newline)] + events)
            && (Beside(start, t, key) <==> Beside(s, t, key))
            && (Replaced(start, t, key, Payload(payload, newline)) ==> ReplacedBy(s, t, key, payload, newline))
  {
    PayloadCompletes(payload, newline);
    RunFrom(s, Begin(pid, payload, newline), events);
    var start := StepBegin(s, pid, payload, newline);
    SameDiskSame(start, s, t, TakeCount(s, pid), Payload(payload, newline));
  }

  /** Only what is on the disk counts. */
  lemma SameDiskSame(a: System, b: System, t: System, key: Key, content: Bytes)
    requires a.Now() == b.Now() && a.files == b.files && a.target == b.target && a.unix == b.unix && a.log == b.log
    ensures Beside(a, t, key) <==> Beside(b, t, key)
    ensures Replaced(a, t, key, content) <==> Replaced(b, t, key, content)
  {
    assert a.Tmp(key) == b.Tmp(key);
  }

  class Storage {
    var state: System

    /** write_all: the bytes up to `until`, at most `chunk` at a time */
    method WriteAll(key: Key, until: nat, chunk: nat, fault: Option<Fault>, ghost start: System,
                    ghost trace: seq<Event>)
      returns (ok: bool, ghost more: seq<Event>)
      requires Inv(start) && key in start.writers && Alone(start, state, key, trace)
      requires chunk > 0 && until <= |start.writers[key].content|
      requires PhaseOf(state, key).Writing? && PhaseOf(state, key).written <= until
      modifies this
      ensures Alone(start, state, key, more)
      ensures PhaseOf(state, key).Writing? && PhaseOf(state, key).written <= until
      ensures ok ==> PhaseOf(state, key).written == until
      ensures !ok <==> fault.Some? && fault.value.AtWrite? && fault.value.written < until
    {
      more := trace;
      ok := !(fault.Some? && fault.value.AtWrite? && fault.value.written < until);
      var limit := if ok then until else fault.value.written;
      var written := PhaseOf(state, key).written;
      while written < limit
        invariant Alone(start, state, key, more)
        invariant PhaseOf(state, key).Writing? && PhaseOf(state, key).written == written <= until
        invariant ok ==> written <= limit
      {
        var count := if limit - written < chunk then limit - written else chunk;
        AppendAlone(start, state, key, more, count);
        state := StepAppend(state, key, count);
        more := more + [Append(key, count)];
        written := written + count;
      }
    }

    /** write_tmp_and_rename up to the rename: `payload` bytes, and the newline if the content has one more */
    method WriteTmp(key: Key, inode: Inode, payload: nat, size: nat, chunk: nat, fault: Option<Fault>,
                    ghost start: System)
      returns (ok: bool, ghost trace: seq<Event>)
      requires Inv(start) && key in start.writers && state == start && PhaseOf(state, key) == Starting
      requires inode !in state.files && chunk > 0 && payload <= size == |start.writers[key].content|
      modifies this
      ensures Alone(start, state, key, trace)
      ensures if ok then PhaseOf(state, key).Flushed? else PhaseOf(state, key).Starting? || PhaseOf(state, key).Writing?
      ensures ok <==> !BeforeRename(fault, size)
    {
      trace := [];
      if fault == Some(AtCreate) {
        return false, trace;
      }
      CreateAlone(start, state, key, trace, inode);
      state := StepCreate(state, key, inode);
      trace := trace + [Create(key, inode)];
      ok, trace := WriteAll(key, payload, chunk, fault, start, trace);
      if !ok {
        return;
      }
      if payload < size {
        ok, trace := WriteAll(key, size, chunk, fault, start, trace);
        if !ok {
          return;
        }
      }
      if fault == Some(AtSync) {
        return false, trace;
      }
      SyncAlone(start, state, key, trace);
      state := StepSync(state, key);
      trace := trace + [Sync(key)];
    }

    /** The rename over the target, and the directory's sync */
    method Publish(key: Key, fault: Option<Fault>, ghost start: System, ghost trace: seq<Event>)
      returns (ok: bool, ghost more: seq<Event>)
      requires Inv(start) && key in start.writers && Alone(start, state, key, trace) && PhaseOf(state, key).Flushed?
      modifies this
      ensures state == Run(start, more) && Replaced(start, state, key, start.writers[key].content)
              && state.target == start.target
      ensures ok <==> fault != Some(AtDirectory)
      ensures if ok then PhaseOf(state, key).Finished? else PhaseOf(state, key).Renamed?
                                                            && state.Tmp(key) !in state.Now().entries
    {
      RenameReplaces(start, state, key, trace);
      state := StepRename(state, key);
      more := trace + [Rename(key)];
      if fault == Some(AtDirectory) {
        return false, more;
      }
      RunAppend(start, more, SyncDirectory(key));
      state := StepSyncDirectory(state, key);
      more := more + [SyncDirectory(key)];
      ok := true;
    }

    /** The error path: the temporary file is removed, unless that fails too. */
    method GiveUp(key: Key, works: bool, ghost start: System, ghost trace: seq<Event>) returns (ghost more: seq<Event>)
      requires Inv(start) && key in start.writers && Alone(start, state, key, trace)
      requires PhaseOf(state, key).Starting? || PhaseOf(state, key).Writing? || PhaseOf(state, key).Flushed?
      modifies this
      ensures state == Run(start, more) && PhaseOf(state, key) == Failed(works) && Beside(start, state, key)
    {
      EarlyError(start, state, key, trace, works);
      state := StepCleanup(StepFail(state, key), key, works);
      more := trace + [Fail(key), Cleanup(key, works)];
      AloneMeans(start, state, key, more);
    }

    /** write_tmp_and_rename, and the removal of the temporary file if it fails */
    method WriteTmpAndRename(key: Key, inode: Inode, payload: nat, size: nat, chunk: nat, fault: Option<Fault>,
                             cleanupWorks: bool, ghost start: System)
      returns (ok: bool, ghost trace: seq<Event>)
      requires Inv(start) && key in start.writers && state == start && PhaseOf(state, key) == Starting
      requires inode !in state.files && chunk > 0 && payload <= size == |start.writers[key].content|
      modifies this
      ensures state == Run(start, trace)
      ensures if ok then PhaseOf(state, key).Finished? else PhaseOf(state, key) == Failed(cleanupWorks)
      ensures ok <==> !BeforeRename(fault, size) && fault != Some(AtRename) && fault != Some(AtDirectory)
      ensures if ok || fault == Some(AtDirectory) then Replaced(start, state, key, start.writers[key].content)
              else Beside(start, state, key)
    {
      ok, trace := WriteTmp(key, inode, payload, size, chunk, fault, start);
      if !ok || fault == Some(AtRename) {
        trace := GiveUp(key, cleanupWorks, start, trace);
        return false, trace;
      }
      ok, trace := Publish(key, fault, start, trace);
      if !ok {
        ErrorRun(start, state, key, trace, cleanupWorks);
        LateError(state, key, cleanupWorks);
        state := StepCleanup(StepFail(state, key), key, cleanupWorks);
        trace := trace + [Fail(key), Cleanup(key, cleanupWorks)];
      }
    }

    /** write_json and write_bytes_file by one writer alone, a run of the protocol. It reports success exactly if no
        call failed; then the target has the complete content, and nothing else differs. If a call failed, nothing
        differs, except that a failure of the last call, the directory's sync, leaves the target replaced. */
    method Replace(pid: nat, payload: Bytes, newline: bool, inode: Inode, chunk: nat, fault: Option<Fault>,
                   cleanupWorks: bool)
      returns (ok: bool, key: Key, ghost trace: seq<Event>)
      requires Inv(state) && inode !in state.files && chunk > 0
      requires fault.Some? && fault.value.AtWrite? ==> fault.value.written < |payload| + if newline then 1 else 0
      modifies this
      ensures state == Run(old(state), [Begin(pid, payload, newline)] + trace) && key == TakeCount(old(state), pid)
      ensures ok <==> fault == None
      ensures if ok then PhaseOf(state, key).Finished? else PhaseOf(state, key) == Failed(cleanupWorks)
      ensures if fault == None || fault == Some(AtDirectory)
              then ReplacedBy(old(state), state, key, payload, newline)
              else Beside(old(state), state, key)
    {
      key := TakeCount(state, pid);
      var content := Payload(payload, newline);
      WriterReady(state, pid, payload, newline);
      ghost var before := state;
      state := StepBegin(state, pid, payload, newline);
      ok, trace := WriteTmpAndRename(key, inode, |payload|, |content|, chunk, fault, cleanupWorks, state);
      SinceBegin(before, state, pid, payload, newline, trace);
    }
  }
}
