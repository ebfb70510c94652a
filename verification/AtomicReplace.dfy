/** Replacing a metadata file by writing a temporary file, syncing it and renaming it over the target: any number
    of writers in any number of processes, interleaved step by step, with processes killed and power lost at any
    moment. Directory operations reach the disk in order but at their own time; unsynced file contents that a power
    loss leaves behind are arbitrary. */
module AtomicReplace {
  import opened Replies
  import opened TmpNames
  import Trees

  type Bytes = seq<Trees.Byte>
  type Inode = nat

  const NEWLINE: Trees.Byte := 10

  datatype File = File(data: Bytes, synced: bool)

  /** A directory at one moment; `age` counts how often the target had been replaced. */
  datatype Directory = Directory(entries: map<string, Inode>, age: nat)

  datatype Phase =
    | Starting
    | Writing(inode: Inode, written: nat)
    | Flushed(inode: Inode)
    | Renamed(age: nat)
    | Finished(age: nat)
    | Failing
    | Failed(cleaned: bool)

  datatype Writer = Writer(content: Bytes, phase: Phase)

  /** A call of write_json or write_bytes_file, by its process and the count it took. */
  datatype Key = Key(pid: nat, counter: nat)

  /** `journal[0]` is the directory on disk, the last element the one processes see, those between are on their
      way. `log` records every content the target has had; a power loss cuts it back to what was on disk. */
  datatype System = System(
    unix: bool, target: string, files: map<Inode, File>, journal: seq<Directory>, log: seq<Option<Bytes>>,
    writers: map<Key, Writer>, counters: map<nat, nat>)
  {
    function Now(): Directory {
      if journal == [] then Directory(map[], 0) else journal[|journal| - 1]
    }

    function Tmp(key: Key): string {
      TmpName(target, key.pid, key.counter)
    }

    function At(key: Key, phase: Phase): System {
      if key in writers then this.(writers := writers[key := writers[key].(phase := phase)]) else this
    }

    function Content(d: Directory): Option<Bytes> {
      if target in d.entries && d.entries[target] in files then Some(files[d.entries[target]].data) else None
    }

    /** What a reader finds at the target. */
    function Visible(): Option<Bytes> {
      Content(Now())
    }

    /** What is on disk at the target. */
    function Durable(): Option<Bytes> {
      if journal == [] then None else Content(journal[0])
    }
  }

  datatype Event =
    | Begin(pid: nat, payload: Bytes, newline: bool)
    | Create(key: Key, inode: Inode)
    | Append(key: Key, count: nat)
    | Sync(key: Key)
    | Rename(key: Key)
    | SyncDirectory(key: Key)
    | Fail(key: Key)
    | Cleanup(key: Key, works: bool)
    | Persist(count: nat)
    | Kill(pid: nat)
    | PowerLoss(leftovers: map<Inode, Bytes>)

  function Payload(payload: Bytes, newline: bool): Bytes {
    payload + if newline then [NEWLINE] else []
  }

  /** The content a writer is to leave: the payload, and if asked for a line feed after it. */
  ghost predicate Completes(content: Bytes, payload: Bytes, newline: bool) {
    && |content| == |payload| + (if newline then 1 else 0)
    && (forall i :: 0 <= i < |payload| ==> content[i] == payload[i])
    && (newline ==> content[|payload|] == 10)
  }

  lemma PayloadCompletes(payload: Bytes, newline: bool)
    ensures Completes(Payload(payload, newline), payload, newline)
  {
  }

  function PhaseOf(s: System, key: Key): Phase {
    if key in s.writers then s.writers[key].phase else Failed(false)
  }

  /** unique_tmp_path takes the process's next count. */
  function StepBegin(s: System, pid: nat, payload: Bytes, newline: bool): System {
    var counter := if pid in s.counters then s.counters[pid] else 0;
    s.(counters := s.counters[pid := counter + 1],
       writers := s.writers[Key(pid, counter) := Writer(Payload(payload, newline), Starting)])
  }

  /** File::create empties a file that is there. */
  function StepCreate(s: System, key: Key, inode: Inode): System {
    var now, tmp := s.Now(), s.Tmp(key);
    if PhaseOf(s, key) != Starting then s
    else if tmp in now.entries then
      s.(files := s.files[now.entries[tmp] := File([], false)]).At(key, Writing(now.entries[tmp], 0))
    else if inode in s.files then s
    else
      s.(files := s.files[inode := File([], false)],
         journal := s.journal + [now.(entries := now.entries[tmp := inode])]).At(key, Writing(inode, 0))
  }

  function StepAppend(s: System, key: Key, count: nat): System {
    match PhaseOf(s, key)
    case Writing(inode, written) =>
      var content := s.writers[key].content;
      if inode in s.files && written + count <= |content| then
        s.(files := s.files[inode := File(s.files[inode].data + content[written..written + count], false)])
          .At(key, Writing(inode, written + count))
      else s
    case _ => s
  }

  function StepSync(s: System, key: Key): System {
    match PhaseOf(s, key)
    case Writing(inode, written) =>
      if inode in s.files && written == |s.writers[key].content| then
        s.(files := s.files[inode := s.files[inode].(synced := true)]).At(key, Flushed(inode))
      else s
    case _ => s
  }

  function StepRename(s: System, key: Key): System {
    var now, tmp := s.Now(), s.Tmp(key);
    if PhaseOf(s, key).Flushed? && tmp in now.entries then
      s.(journal := s.journal + [Directory((now.entries - {tmp})[s.target := now.entries[tmp]], now.age + 1)],
         log := s.log + [Some(s.writers[key].content)]).At(key, Renamed(now.age + 1))
    else s
  }

  /** Only Unix builds sync the directory. */
  function StepSyncDirectory(s: System, key: Key): System {
    match PhaseOf(s, key)
    case Renamed(age) => s.(journal := if s.unix then [s.Now()] else s.journal).At(key, Finished(age))
    case _ => s
  }

  function StepFail(s: System, key: Key): System {
    var phase := PhaseOf(s, key);
    if phase.Failing? || phase.Failed? || phase.Finished? then s else s.At(key, Failing)
  }

  function StepCleanup(s: System, key: Key, works: bool): System {
    var now, tmp := s.Now(), s.Tmp(key);
    if PhaseOf(s, key) != Failing then s
    else if works && tmp in now.entries then
      s.(journal := s.journal + [now.(entries := now.entries - {tmp})]).At(key, Failed(true))
    else s.At(key, Failed(works))
  }

  function StepKill(s: System, pid: nat): System {
    s.(writers := map key | key in s.writers && key.pid != pid :: s.writers[key], counters := s.counters - {pid})
  }

  function StepPowerLoss(s: System, leftovers: map<Inode, Bytes>): System {
    if s.journal == [] || |s.log| <= s.journal[0].age then s
    else
      s.(files := map i | i in s.files ::
                    File(if s.files[i].synced || i !in leftovers then s.files[i].data else leftovers[i], true),
         journal := [s.journal[0]], log := s.log[..s.journal[0].age + 1], writers := map[], counters := map[])
  }

  /** A step that is not the writer's turn leaves the system alone. */
  function Step(s: System, e: Event): System {
    match e
    case Begin(pid, payload, newline) => StepBegin(s, pid, payload, newline)
    case Create(key, inode) => StepCreate(s, key, inode)
    case Append(key, count) => StepAppend(s, key, count)
    case Sync(key) => StepSync(s, key)
    case Rename(key) => StepRename(s, key)
    case SyncDirectory(key) => StepSyncDirectory(s, key)
    case Fail(key) => StepFail(s, key)
    case Cleanup(key, works) => StepCleanup(s, key, works)
    case Persist(count) => if count < |s.journal| then s.(journal := s.journal[count..]) else s
    case Kill(pid) => StepKill(s, pid)
    case PowerLoss(leftovers) => StepPowerLoss(s, leftovers)
  }

  function Run(s: System, events: seq<Event>): System
    decreases |events|
  {
    if events == [] then s else Run(Step(s, events[0]), events[1..])
  }

  // ----- what every step keeps

  ghost predicate GoodDirectory(s: System, d: Directory) {
    && d.age < |s.log|
    && (forall n :: n in d.entries ==> d.entries[n] in s.files)
    && (forall n, m :: n in d.entries && m in d.entries && n != m ==> d.entries[n] != d.entries[m])
    && (s.target in d.entries ==> s.files[d.entries[s.target]].synced)
    && s.log[d.age] == s.Content(d)
  }

  /** No other name leads to what the target is, or once was. */
  ghost predicate Apart(target: string, d: Directory, later: Directory) {
    target in d.entries ==> forall n :: n in later.entries && n != target ==> later.entries[n] != d.entries[target]
  }

  ghost predicate GoodJournal(s: System) {
    && |s.journal| > 0
    && (forall i :: 0 <= i < |s.journal| ==> GoodDirectory(s, s.journal[i]))
    && (forall i, j :: 0 <= i <= j < |s.journal| ==>
          s.journal[i].age <= s.journal[j].age && Apart(s.target, s.journal[i], s.journal[j]))
    && s.Now().age == |s.log| - 1
  }

  ghost predicate GoodWriter(s: System, key: Key)
    requires key in s.writers
  {
    var now, tmp, content := s.Now().entries, s.Tmp(key), s.writers[key].content;
    match s.writers[key].phase
    case Starting => true
    case Writing(inode, written) =>
      tmp in now && now[tmp] == inode && inode in s.files && written <= |content|
          && s.files[inode].data == content[..written]
    case Flushed(inode) => tmp in now && now[tmp] == inode && inode in s.files && s.files[inode] == File(content, true)
    case Renamed(age) => tmp !in now && age < |s.log| && s.log[age] == Some(content)
    case Finished(age) =>
      tmp !in now && age < |s.log| && s.log[age] == Some(content)
          && (s.unix ==> |s.journal| > 0 && age <= s.journal[0].age)
    case Failing => true
    case Failed(cleaned) => cleaned ==> tmp !in now
  }

  ghost predicate GoodWriters(s: System) {
    forall key :: key in s.writers ==> key.pid in s.counters && key.counter < s.counters[key.pid] && GoodWriter(s, key)
  }

  ghost predicate Inv(s: System) {
    GoodJournal(s) && GoodWriters(s)
  }

  lemma TmpNamesApart(s: System)
    ensures forall key :: s.Tmp(key) != s.target
    ensures forall key, other :: s.Tmp(key) == s.Tmp(other) ==> key == other
  {
    forall key: Key ensures s.Tmp(key) != s.target {
      TmpIsNotTheFile(s.target, key.pid, key.counter);
    }
    forall key: Key, other: Key | s.Tmp(key) == s.Tmp(other) ensures key == other {
      TmpNamesDiffer(s.target, key.pid, key.counter, s.target, other.pid, other.counter);
    }
  }

  /** A file the target never was may change. */
  lemma FileChanges(s: System, inode: Inode, file: File)
    requires GoodJournal(s)
    requires forall i :: 0 <= i < |s.journal| && s.target in s.journal[i].entries
                         ==> s.journal[i].entries[s.target] != inode
    ensures GoodJournal(s.(files := s.files[inode := file]))
  {
    var t := s.(files := s.files[inode := file]);
    forall i | 0 <= i < |s.journal| ensures GoodDirectory(t, t.journal[i]) {
      assert GoodDirectory(s, s.journal[i]);
    }
  }

  lemma DirectoryChanges(s: System, t: System, d: Directory)
    requires GoodJournal(s)
    requires t.target == s.target && t.files == s.files && t.journal == s.journal + [d] && s.log <= t.log
    requires GoodDirectory(t, d) && d.age == |t.log| - 1 && d.age >= s.Now().age
    requires Apart(s.target, d, d) && forall i :: 0 <= i < |s.journal| ==> Apart(s.target, s.journal[i], d)
    ensures GoodJournal(t)
  {
    var n := |s.journal|;
    forall i | 0 <= i < |t.journal| ensures GoodDirectory(t, t.journal[i]) {
      if i < n {
        assert GoodDirectory(s, s.journal[i]);
        assert t.log[s.journal[i].age] == s.log[s.journal[i].age];
      }
    }
    forall i, j | 0 <= i <= j < |t.journal|
      ensures t.journal[i].age <= t.journal[j].age && Apart(t.target, t.journal[i], t.journal[j])
    {
      if j < n {
        assert s.journal[i].age <= s.journal[j].age && Apart(s.target, s.journal[i], s.journal[j]);
      } else if i < n {
        assert s.journal[i].age <= s.journal[n - 1].age;
      }
    }
  }

  lemma SameJournal(s: System, t: System)
    requires GoodJournal(s)
    requires t.target == s.target && t.files == s.files && t.journal == s.journal && t.log == s.log
    ensures GoodJournal(t)
  {
    forall i | 0 <= i < |s.journal| ensures GoodDirectory(t, t.journal[i]) {
      assert GoodDirectory(s, s.journal[i]);
    }
  }

  /** A writer whose temporary file is left alone stays as it is. */
  ghost predicate LeftAlone(s: System, t: System, key: Key)
    requires key in s.writers
  {
    var before, after, tmp := s.Now().entries, t.Now().entries, s.Tmp(key);
    && key in t.writers && t.writers[key] == s.writers[key]
    && (tmp in before <==> tmp in after)
    && (tmp in before ==> after[tmp] == before[tmp])
    && (tmp in before && before[tmp] in s.files ==> before[tmp] in t.files
                                                    && t.files[before[tmp]] == s.files[before[tmp]])
  }

  ghost predicate Onwards(s: System, t: System) {
    && t.target == s.target && t.unix == s.unix && s.log <= t.log
    && |s.journal| > 0 && |t.journal| > 0 && s.journal[0].age <= t.journal[0].age
  }

  lemma OtherWriter(s: System, t: System, key: Key)
    requires key in s.writers && GoodWriter(s, key) && LeftAlone(s, t, key) && Onwards(s, t)
    ensures GoodWriter(t, key)
  {
  }

  /** A step of one writer keeps the invariant if it keeps the journal's, its own, and leaves the others alone. */
  lemma WriterStepKeeps(s: System, t: System, key: Key)
    requires Inv(s) && key in s.writers && Onwards(s, t) && GoodJournal(t)
    requires t.writers.Keys == s.writers.Keys && t.counters == s.counters
    requires GoodWriter(t, key)
    requires forall other :: other in s.writers && other != key ==> LeftAlone(s, t, other)
    ensures Inv(t)
  {
    forall other | other in t.writers && other != key ensures GoodWriter(t, other) {
      OtherWriter(s, t, other);
    }
  }

  lemma BeginKeeps(s: System, pid: nat, payload: Bytes, newline: bool)
    requires Inv(s)
    ensures Inv(StepBegin(s, pid, payload, newline))
  {
    var t := StepBegin(s, pid, payload, newline);
    SameJournal(s, t);
    forall key | key in s.writers ensures GoodWriter(t, key) && key in t.writers && t.writers[key] == s.writers[key] {
      OtherWriter(s, t, key);
    }
  }

  lemma CreateKeeps(s: System, key: Key, inode: Inode)
    requires Inv(s)
    ensures Inv(StepCreate(s, key, inode))
  {
    if PhaseOf(s, key) == Starting {
      if s.Tmp(key) in s.Now().entries {
        CreateOverOld(s, StepCreate(s, key, inode), key);
      } else if inode !in s.files {
        CreateNew(s, StepCreate(s, key, inode), key, inode);
      }
    }
  }

  lemma CreateNew(s: System, t: System, key: Key, inode: Inode)
    requires Inv(s) && PhaseOf(s, key) == Starting && s.Tmp(key) !in s.Now().entries && inode !in s.files
    requires t == StepCreate(s, key, inode)
    ensures Inv(t)
  {
    TmpNamesApart(s);
    assert GoodDirectory(s, s.Now());
    CreatedJournal(s, t, key, inode);
    WriterStepKeeps(s, t, key);
  }

  lemma CreatedJournal(s: System, t: System, key: Key, inode: Inode)
    requires GoodJournal(s) && PhaseOf(s, key) == Starting && s.Tmp(key) !in s.Now().entries && inode !in s.files
    requires t == StepCreate(s, key, inode)
    ensures GoodJournal(t)
  {
    TmpNamesApart(s);
    assert GoodDirectory(s, s.Now());
    forall i | 0 <= i < |s.journal| && s.target in s.journal[i].entries
      ensures s.journal[i].entries[s.target] != inode
    {
      assert GoodDirectory(s, s.journal[i]);
    }
    FileChanges(s, inode, File([], false));
    DirectoryChanges(s.(files := s.files[inode := File([], false)]), t, t.Now());
  }

  lemma CreateOverOld(s: System, t: System, key: Key)
    requires Inv(s) && PhaseOf(s, key) == Starting && s.Tmp(key) in s.Now().entries
    requires t == StepCreate(s, key, 0)
    ensures Inv(t)
  {
    var now, tmp := s.Now(), s.Tmp(key);
    var stale := now.entries[tmp];
    TmpNamesApart(s);
    assert GoodDirectory(s, now);
    forall i | 0 <= i < |s.journal| && s.target in s.journal[i].entries
      ensures s.journal[i].entries[s.target] != stale
    {
      assert Apart(s.target, s.journal[i], s.journal[|s.journal| - 1]);
    }
    FileChanges(s, stale, File([], false));
    SameJournal(s.(files := s.files[stale := File([], false)]), t);
    WriterStepKeeps(s, t, key);
  }

  /** A writer's temporary file is nothing the target ever was. */
  lemma TmpIsApart(s: System, key: Key)
    requires Inv(s) && s.Tmp(key) in s.Now().entries
    ensures var inode := s.Now().entries[s.Tmp(key)];
            forall i :: 0 <= i < |s.journal| && s.target in s.journal[i].entries
                ==> s.journal[i].entries[s.target] != inode
    ensures forall other: Key :: other != key && s.Tmp(other) in s.Now().entries ==>
              s.Now().entries[s.Tmp(other)] != s.Now().entries[s.Tmp(key)]
  {
    TmpNamesApart(s);
    assert GoodDirectory(s, s.Now());
    forall i | 0 <= i < |s.journal| && s.target in s.journal[i].entries
      ensures s.journal[i].entries[s.target] != s.Now().entries[s.Tmp(key)]
    {
      assert Apart(s.target, s.journal[i], s.journal[|s.journal| - 1]);
    }
  }

  /** A step that changes only the writer's temporary file and its phase */
  lemma FileStepKeeps(s: System, t: System, key: Key, inode: Inode, file: File, phase: Phase)
    requires Inv(s) && key in s.writers && s.Tmp(key) in s.Now().entries && inode == s.Now().entries[s.Tmp(key)]
    requires t == s.(files := s.files[inode := file]).At(key, phase) && GoodWriter(t, key)
    ensures Inv(t)
  {
    TmpIsApart(s, key);
    FileChanges(s, inode, file);
    SameJournal(s.(files := s.files[inode := file]), t);
    WriterStepKeeps(s, t, key);
  }

  lemma AppendKeeps(s: System, key: Key, count: nat)
    requires Inv(s)
    ensures Inv(StepAppend(s, key, count))
  {
    match PhaseOf(s, key)
    case Writing(inode, written) =>
      var content := s.writers[key].content;
      if inode in s.files && written + count <= |content| {
        var data := s.files[inode].data + content[written..written + count];
        assert GoodWriter(s, key);
        assert data == content[..written + count];
        FileStepKeeps(s, StepAppend(s, key, count), key, inode, File(data, false), Writing(inode, written + count));
      }
    case _ =>
  }

  lemma SyncKeeps(s: System, key: Key)
    requires Inv(s)
    ensures Inv(StepSync(s, key))
  {
    match PhaseOf(s, key)
    case Writing(inode, written) =>
      if inode in s.files && written == |s.writers[key].content| {
        assert GoodWriter(s, key);
        assert s.writers[key].content[..written] == s.writers[key].content;
        FileStepKeeps(s, StepSync(s, key), key, inode, File(s.files[inode].data, true), Flushed(inode));
      }
    case _ =>
  }

  lemma RenameKeeps(s: System, key: Key)
    requires Inv(s)
    ensures Inv(StepRename(s, key))
  {
    var t := StepRename(s, key);
    if PhaseOf(s, key).Flushed? && s.Tmp(key) in s.Now().entries {
      TmpNamesApart(s);
      TmpIsApart(s, key);
      assert GoodWriter(s, key) && GoodDirectory(s, s.Now());
      RenamedDirectory(s, t, key);
      DirectoryChanges(s, t, t.Now());
      WriterStepKeeps(s, t, key);
    }
  }

  lemma RenamedDirectory(s: System, t: System, key: Key)
    requires Inv(s) && PhaseOf(s, key).Flushed? && s.Tmp(key) in s.Now().entries
    requires t == StepRename(s, key)
    ensures GoodDirectory(t, t.Now()) && Apart(s.target, t.Now(), t.Now())
    ensures forall i :: 0 <= i < |s.journal| ==> Apart(s.target, s.journal[i], t.Now())
  {
    TmpNamesApart(s);
    TmpIsApart(s, key);
    assert GoodWriter(s, key) && GoodDirectory(s, s.Now());
    forall i | 0 <= i < |s.journal| ensures Apart(s.target, s.journal[i], t.Now()) {
      assert Apart(s.target, s.journal[i], s.journal[|s.journal| - 1]);
    }
  }

  lemma CleanupKeeps(s: System, key: Key, works: bool)
    requires Inv(s)
    ensures Inv(StepCleanup(s, key, works))
  {
    if PhaseOf(s, key) == Failing {
      if works && s.Tmp(key) in s.Now().entries {
        CleanedKeeps(s, key);
      } else {
        SameJournal(s, StepCleanup(s, key, works));
        WriterStepKeeps(s, StepCleanup(s, key, works), key);
      }
    }
  }

  lemma CleanedKeeps(s: System, key: Key)
    requires Inv(s) && PhaseOf(s, key) == Failing && s.Tmp(key) in s.Now().entries
    ensures Inv(StepCleanup(s, key, true))
  {
    var t := StepCleanup(s, key, true);
    CleanedJournal(s, t, key);
    TmpNamesApart(s);
    WriterStepKeeps(s, t, key);
  }

  lemma CleanedJournal(s: System, t: System, key: Key)
    requires GoodJournal(s) && PhaseOf(s, key) == Failing && s.Tmp(key) in s.Now().entries
    requires t == StepCleanup(s, key, true)
    ensures GoodJournal(t)
  {
    TmpNamesApart(s);
    assert GoodDirectory(s, s.Now());
    forall i | 0 <= i < |s.journal| ensures Apart(s.target, s.journal[i], t.Now()) {
      assert Apart(s.target, s.journal[i], s.journal[|s.journal| - 1]);
    }
    DirectoryChanges(s, t, t.Now());
  }

  lemma FailKeeps(s: System, key: Key)
    requires Inv(s)
    ensures Inv(StepFail(s, key))
  {
    if StepFail(s, key) != s {
      SameJournal(s, StepFail(s, key));
      WriterStepKeeps(s, StepFail(s, key), key);
    }
  }

  /** What is on disk moves on to a later directory. */
  lemma JournalDrops(s: System, t: System, count: nat)
    requires GoodJournal(s) && count < |s.journal|
    requires t.target == s.target && t.files == s.files && t.log == s.log && t.journal == s.journal[count..]
    ensures GoodJournal(t) && t.Now() == s.Now() && s.journal[0].age <= t.journal[0].age
  {
    forall i | 0 <= i < |t.journal| ensures t.journal[i] == s.journal[i + count] && GoodDirectory(t, t.journal[i]) {
      assert GoodDirectory(s, s.journal[i + count]);
    }
    forall i, j | 0 <= i <= j < |t.journal|
      ensures t.journal[i].age <= t.journal[j].age && Apart(t.target, t.journal[i], t.journal[j])
    {
      assert Apart(s.target, s.journal[i + count], s.journal[j + count]);
    }
  }

  lemma SyncDirectoryKeeps(s: System, key: Key)
    requires Inv(s)
    ensures Inv(StepSyncDirectory(s, key))
  {
    match PhaseOf(s, key)
    case Renamed(age) =>
      DirectorySynced(s, StepSyncDirectory(s, key));
      assert GoodWriter(s, key);
      WriterStepKeeps(s, StepSyncDirectory(s, key), key);
    case _ =>
  }

  lemma DirectorySynced(s: System, t: System)
    requires GoodJournal(s)
    requires t.target == s.target && t.files == s.files && t.log == s.log
    requires t.journal == if s.unix then [s.Now()] else s.journal
    ensures GoodJournal(t) && t.Now() == s.Now() && s.journal[0].age <= t.journal[0].age
    ensures s.unix ==> t.journal[0].age == |s.log| - 1
  {
    var last := |s.journal| - 1;
    assert s.journal[last..] == [s.Now()];
    JournalDrops(s, t, if s.unix then last else 0);
  }

  lemma PersistKeeps(s: System, count: nat)
    requires Inv(s) && count < |s.journal|
    ensures Inv(s.(journal := s.journal[count..]))
  {
    var t := s.(journal := s.journal[count..]);
    JournalDrops(s, t, count);
    forall key | key in s.writers ensures GoodWriter(t, key) {
      OtherWriter(s, t, key);
    }
  }

  lemma KillKeeps(s: System, pid: nat)
    requires Inv(s)
    ensures Inv(StepKill(s, pid))
  {
    var t := StepKill(s, pid);
    SameJournal(s, t);
    forall key | key in t.writers ensures GoodWriter(t, key) {
      OtherWriter(s, t, key);
    }
  }

  lemma PowerLossKeeps(s: System, leftovers: map<Inode, Bytes>)
    requires Inv(s)
    ensures Inv(StepPowerLoss(s, leftovers))
    ensures StepPowerLoss(s, leftovers).Visible() == s.Durable()
  {
    assert GoodDirectory(s, s.journal[0]);
  }

  lemma StepKeeps(s: System, e: Event)
    requires Inv(s)
    ensures Inv(Step(s, e))
  {
    match e
    case Begin(pid, payload, newline) => BeginKeeps(s, pid, payload, newline);
    case Create(key, inode) => CreateKeeps(s, key, inode);
    case Append(key, count) => AppendKeeps(s, key, count);
    case Sync(key) => SyncKeeps(s, key);
    case Rename(key) => RenameKeeps(s, key);
    case SyncDirectory(key) => SyncDirectoryKeeps(s, key);
    case Fail(key) => FailKeeps(s, key);
    case Cleanup(key, works) => CleanupKeeps(s, key, works);
    case Persist(count) => if count < |s.journal| { PersistKeeps(s, count); }
    case Kill(pid) => KillKeeps(s, pid);
    case PowerLoss(leftovers) => PowerLossKeeps(s, leftovers);
  }

  // ----- whole runs

  /** The complete contents that the writers of a run were given */
  function Offered(events: seq<Event>): set<Option<Bytes>> {
    if events == [] then {}
    else (if events[0].Begin? then {Some(Payload(events[0].payload, events[0].newline))} else {}) + Offered(events[1..])
  }

  /** One writer of the run was to leave this content. */
  ghost predicate Wanted(content: Option<Bytes>, events: seq<Event>) {
    content.Some? && exists i :: 0 <= i < |events| && events[i].Begin?
                                 && Completes(content.value, events[i].payload, events[i].newline)
  }

  lemma {:induction false} OfferedIsWanted(events: seq<Event>)
    ensures forall c :: c in Offered(events) ==> Wanted(c, events)
    decreases |events|
  {
    if events != [] {
      var e, rest := events[0], events[1..];
      OfferedIsWanted(rest);
      if e.Begin? {
        PayloadCompletes(e.payload, e.newline);
      }
      forall c | c in Offered(rest) ensures Wanted(c, events) {
        var i :| 0 <= i < |rest| && rest[i].Begin? && Completes(c.value, rest[i].payload, rest[i].newline);
        assert rest[i] == events[i + 1];
      }
    }
  }

  ghost predicate Known(s: System, contents: set<Option<Bytes>>) {
    && (forall i :: 0 <= i < |s.log| ==> s.log[i] in contents)
    && (forall key :: key in s.writers ==> Some(s.writers[key].content) in contents)
  }

  lemma StepKnown(s: System, e: Event, contents: set<Option<Bytes>>)
    requires Known(s, contents)
    requires e.Begin? ==> Some(Payload(e.payload, e.newline)) in contents
    ensures Known(Step(s, e), contents)
  {
    if e.Begin? || e.Kill? || e.PowerLoss? || e.Persist? {
      OthersKnown(s, e, contents);
    } else {
      OwnKnown(s, e, contents);
    }
  }

  lemma OthersKnown(s: System, e: Event, contents: set<Option<Bytes>>)
    requires Known(s, contents) && (e.Begin? || e.Kill? || e.PowerLoss? || e.Persist?)
    requires e.Begin? ==> Some(Payload(e.payload, e.newline)) in contents
    ensures Known(Step(s, e), contents)
  {
  }

  lemma OwnKnown(s: System, e: Event, contents: set<Option<Bytes>>)
    requires Known(s, contents) && !(e.Begin? || e.Kill? || e.PowerLoss? || e.Persist?)
    ensures Known(Step(s, e), contents)
  {
  }

  lemma {:induction false} RunInv(s: System, events: seq<Event>)
    requires Inv(s)
    ensures Inv(Run(s, events))
    decreases |events|
  {
    if events != [] {
      StepKeeps(s, events[0]);
      RunInv(Step(s, events[0]), events[1..]);
    }
  }

  lemma {:induction false} RunKnown(s: System, events: seq<Event>, contents: set<Option<Bytes>>)
    requires Known(s, contents) && Offered(events) <= contents
    ensures Known(Run(s, events), contents)
    decreases |events|
  {
    if events != [] {
      assert events[0].Begin? ==> Some(Payload(events[0].payload, events[0].newline)) in Offered(events);
      StepKnown(s, events[0], contents);
      RunKnown(Step(s, events[0]), events[1..], contents);
    }
  }

  /** No writer at work, and the directory on disk as it is seen; temporary files may lie around. */
  ghost predicate Quiet(s: System) {
    && s.writers == map[] && s.counters == map[]
    && |s.journal| == 1 && s.journal[0].age == 0 && s.log == [s.Visible()]
    && GoodDirectory(s, s.journal[0])
  }

  lemma Logged(s: System)
    requires GoodJournal(s)
    ensures s.journal[0].age <= |s.log| - 1
    ensures s.Visible() == s.log[|s.log| - 1] && s.Durable() == s.log[s.journal[0].age]
  {
    assert GoodDirectory(s, s.Now()) && GoodDirectory(s, s.journal[0]);
  }

  /** In every run, the target as it is seen and as it is on disk is the initial content or the complete content
      of one writer; and a writer that finished, or failed and could clean up, has left no temporary file. */
  lemma AtomicReplacement(s: System, events: seq<Event>, key: Key)
    requires Quiet(s)
    ensures var t := Run(s, events);
            && (t.Visible() == s.Visible() || Wanted(t.Visible(), events))
            && (t.Durable() == s.Visible() || Wanted(t.Durable(), events))
            && (PhaseOf(t, key).Finished? || PhaseOf(t, key) == Failed(true) ==> t.Tmp(key) !in t.Now().entries)
  {
    var contents := {s.Visible()} + Offered(events);
    RunInv(s, events);
    RunKnown(s, events, contents);
    OfferedIsWanted(events);
    Logged(Run(s, events));
  }

  // ----- what a finished write is worth

  /** `t` still has every content up to the `age`-th replacement in its past. */
  ghost predicate Remembers(s: System, t: System, age: nat) {
    age < |s.log| && age < |t.log| && t.log[..age + 1] == s.log[..age + 1]
  }

  lemma StepOnwards(s: System, e: Event)
    requires |s.journal| > 0 && |s.log| > s.journal[0].age
    requires forall i :: 0 <= i < |s.journal| ==> s.journal[0].age <= s.journal[i].age
    ensures var t := Step(s, e);
            && |t.journal| > 0 && s.journal[0].age <= t.journal[0].age
            && if e.PowerLoss? then t.log == s.log[..s.journal[0].age + 1] else s.log <= t.log
  {
  }

  lemma StepRemembers(s: System, e: Event, age: nat)
    requires Inv(s) && age <= s.journal[0].age
    ensures Inv(Step(s, e)) && Remembers(s, Step(s, e), age) && age <= Step(s, e).journal[0].age
  {
    StepKeeps(s, e);
    OldestFirst(s);
    StepOnwards(s, e);
  }

  lemma OldestFirst(s: System)
    requires Inv(s)
    ensures forall i :: 0 <= i < |s.journal| ==> s.journal[0].age <= s.journal[i].age
  {
    Logged(s);
  }

  lemma {:induction false} RunRemembers(s: System, events: seq<Event>, age: nat)
    requires Inv(s) && age <= s.journal[0].age
    ensures Inv(Run(s, events)) && Remembers(s, Run(s, events), age) && age <= Run(s, events).journal[0].age
    decreases |events|
  {
    if events == [] {
      assert GoodDirectory(s, s.journal[0]);
    } else {
      var next := Step(s, events[0]);
      StepRemembers(s, events[0], age);
      RunRemembers(next, events[1..], age);
    }
  }

  /** A replacement outlasts everything that can follow exactly if it is on disk. */
  lemma LastsExactlyWhenOnDisk(s: System, age: nat)
    requires Inv(s) && age < |s.log|
    ensures (forall events :: Remembers(s, Run(s, events), age)) <==> age <= s.journal[0].age
  {
    if age <= s.journal[0].age {
      forall events ensures Remembers(s, Run(s, events), age) {
        RunRemembers(s, events, age);
      }
    } else {
      assert GoodDirectory(s, s.journal[0]);
      var cut := StepPowerLoss(s, map[]);
      assert |cut.log| <= age;
      assert Run(s, [PowerLoss(map[])]) == Run(cut, []);
      assert !Remembers(s, Run(s, [PowerLoss(map[])]), age);
    }
  }

  /** On Unix a write that has returned is never lost: whatever follows, the target is what it wrote or what a
      later replacement wrote. */
  lemma FinishedWriteLasts(s: System, key: Key, after: seq<Event>)
    requires Inv(s) && s.unix && PhaseOf(s, key).Finished?
    ensures var age := PhaseOf(s, key).age;
            var t := Run(s, after);
            && age < |t.log| && t.log[age] == Some(s.writers[key].content)
            && t.Visible() in t.log[age..] && t.Durable() in t.log[age..]
  {
    var age := PhaseOf(s, key).age;
    assert GoodWriter(s, key);
    RunRemembers(s, after, age);
    var t := Run(s, after);
    assert t.log[age] == t.log[..age + 1][age] == s.log[..age + 1][age];
    Logged(t);
    assert t.log[age..][|t.log| - 1 - age] == t.log[|t.log| - 1];
    assert t.log[age..][t.journal[0].age - age] == t.log[t.journal[0].age];
  }

  lemma AfterRename(s: System, key: Key)
    requires Inv(s) && PhaseOf(s, key).Flushed?
    ensures var t := StepRename(s, key);
            && Inv(t) && PhaseOf(t, key).Renamed?
            && t.Visible() == Some(s.writers[key].content) && t.Durable() == s.Durable()
  {
    assert GoodWriter(s, key);
    RenameKeeps(s, key);
    Logged(StepRename(s, key));
    Logged(s);
    assert StepRename(s, key).journal[0] == s.journal[0];
  }

  lemma AfterFinish(s: System, key: Key)
    requires Inv(s) && PhaseOf(s, key).Renamed?
    ensures var t := StepSyncDirectory(s, key);
            Inv(t) && PhaseOf(t, key).Finished? && t.Durable() == if s.unix then s.Visible() else s.Durable()
  {
    SyncDirectoryKeeps(s, key);
  }

  /** If power is lost right after a write has returned, its content is there on Unix; elsewhere the directory was
      not synced, and what was on disk before the rename is there. */
  lemma PowerLossAfterFinish(s: System, key: Key, leftovers: map<Inode, Bytes>)
    requires Inv(s) && PhaseOf(s, key).Flushed?
    ensures var t := StepSyncDirectory(StepRename(s, key), key);
            && PhaseOf(t, key).Finished?
            && StepPowerLoss(t, leftovers).Visible() == if s.unix then Some(s.writers[key].content) else s.Durable()
  {
    AfterRename(s, key);
    AfterFinish(StepRename(s, key), key);
    PowerLossKeeps(StepSyncDirectory(StepRename(s, key), key), leftovers);
  }
}
