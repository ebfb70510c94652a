/** The driver's table of processes that run inside an environment, and how children inherit it. */
module EnvTable {
  import opened Replies

  /** A process id as the kernel hands it out; requests carry only its low 32 bits. */
  type Handle = nat

  const ULONG_RANGE: nat := 0x1_0000_0000
  const ENV_ID_CHARS: nat := 128
  const MAX_CHARS: nat := 1024
  const VERSION: nat := 1
  const NUL := '\0'

  datatype Status = Success | InvalidParameter | InsufficientResources | NotFound | RevisionMismatch

  datatype Environment = Environment(envId: string, sourceRoot: string, lowerRoot: string, upperRoot: string,
                                     whiteoutRoot: string)

  datatype Record = Record(pid: Handle, env: Environment)

  datatype Kind = RegisterProcess | UnregisterProcess | Check | Other

  /** A request, its strings in fixed-size character fields. */
  datatype Request = Request(version: nat, kind: Kind, pid: nat,
                             envId: string, sourceRoot: string, lowerRoot: string, upperRoot: string,
                             whiteoutRoot: string) {
    predicate Sized() {
      && pid < ULONG_RANGE && |envId| == ENV_ID_CHARS && |sourceRoot| == MAX_CHARS && |lowerRoot| == MAX_CHARS
      && |upperRoot| == MAX_CHARS && |whiteoutRoot| == MAX_CHARS
    }

    /** Every field holds a nonempty string with its end mark. */
    predicate Complete() {
      Accepted(envId) && Accepted(sourceRoot) && Accepted(lowerRoot) && Accepted(upperRoot) && Accepted(whiteoutRoot)
    }

    function Env(): Environment {
      Environment(Text(envId), Text(sourceRoot), Text(lowerRoot), Text(upperRoot), Text(whiteoutRoot))
    }
  }

  /** The string in a field: what stands before the first NUL. */
  function Text(field: string): string {
    if field == [] || field[0] == NUL then [] else [field[0]] + Text(field[1..])
  }

  predicate Accepted(field: string) {
    0 < |Text(field)| < |field|
  }

  lemma {:induction false} TextIs(field: string, chars: nat)
    requires chars <= |field| && NUL !in field[..chars]
    requires chars < |field| ==> field[chars] == NUL
    ensures Text(field) == field[..chars]
    decreases chars
  {
    if chars > 0 {
      assert field[0] == field[..chars][0];
      assert field[1..][..chars - 1] == field[..chars][1..];
      TextIs(field[1..], chars - 1);
    }
  }

  /** `text` is what stands in the field before its first NUL, and is not empty. */
  ghost predicate Holds(field: string, text: string) {
    0 < |text| < |field| && field[|text|] == '\0' && forall i :: 0 <= i < |text| ==> text[i] == field[i] != '\0'
  }

  lemma {:induction false} TextHolds(field: string)
    ensures Accepted(field) <==> exists text :: Holds(field, text)
    ensures Accepted(field) ==> Holds(field, Text(field))
  {
    var chars := 0;
    while chars < |field| && field[chars] != NUL
      invariant 0 <= chars <= |field| && NUL !in field[..chars]
    {
      chars := chars + 1;
    }
    TextIs(field, chars);
    forall i | 0 <= i < chars ensures field[i] != NUL {
      assert field[..chars][i] == field[i];
    }
    if Accepted(field) {
      assert Holds(field, Text(field));
    }
    forall text | Holds(field, text) ensures Accepted(field) {
      assert |text| == chars;
    }
  }

  /** Each part of the environment is the text in the request's field of that name. */
  ghost predicate Describes(request: Request, env: Environment) {
    && Holds(request.envId, env.envId)
    && Holds(request.sourceRoot, env.sourceRoot)
    && Holds(request.lowerRoot, env.lowerRoot)
    && Holds(request.upperRoot, env.upperRoot)
    && Holds(request.whiteoutRoot, env.whiteoutRoot)
  }

  /** AgentFsDupUserString; `granted` says whether the pool has room for the copy. */
  method DupUserString(source: string, granted: bool) returns (status: Status, copy: string)
    ensures status == if !Accepted(source) then InvalidParameter else if !granted then InsufficientResources
            else Success
    ensures status == InvalidParameter <==> forall text :: !Holds(source, text)
    ensures status == Success ==> copy == Text(source) && Holds(source, copy)
  {
    TextHolds(source);
    var chars := 0;
    while chars < |source| && source[chars] != NUL
      invariant 0 <= chars <= |source| && NUL !in source[..chars]
    {
      chars := chars + 1;
    }
    TextIs(source, chars);
    if chars == 0 || chars == |source| {
      return InvalidParameter, [];
    }
    if !granted {
      return InsufficientResources, [];
    }
    return Success, source[..chars];
  }

  // ----- the list and the table it stands for

  ghost predicate Distinct(envs: seq<Record>) {
    forall i, j :: 0 <= i < j < |envs| ==> envs[i].pid != envs[j].pid
  }

  ghost function TableOf(envs: seq<Record>): map<Handle, Environment>
    requires Distinct(envs)
  {
    map i | 0 <= i < |envs| :: envs[i].pid := envs[i].env
  }

  /** RemoveEntryList */
  function Without(envs: seq<Record>, i: nat): (rest: seq<Record>)
    requires i < |envs|
    ensures |rest| == |envs| - 1
    ensures forall j :: 0 <= j < i ==> rest[j] == envs[j]
    ensures forall j :: i < j < |envs| ==> rest[j - 1] == envs[j]
  {
    envs[..i] + envs[i + 1..]
  }

  lemma InTable(envs: seq<Record>, j: nat)
    requires Distinct(envs) && j < |envs|
    ensures envs[j].pid in TableOf(envs) && TableOf(envs)[envs[j].pid] == envs[j].env
  {
  }

  lemma FromTable(envs: seq<Record>, p: Handle) returns (j: nat)
    requires Distinct(envs) && p in TableOf(envs)
    ensures j < |envs| && envs[j].pid == p && envs[j].env == TableOf(envs)[p]
  {
    j :| 0 <= j < |envs| && envs[j].pid == p;
  }

  lemma RemovedDistinct(envs: seq<Record>, i: nat)
    requires Distinct(envs) && i < |envs|
    ensures Distinct(Without(envs, i))
  {
    var rest := Without(envs, i);
    assert forall j :: 0 <= j < |rest| ==> rest[j] == envs[if j < i then j else j + 1];
  }

  lemma KeptInTable(envs: seq<Record>, i: nat, p: Handle)
    requires i < |envs| && Distinct(envs) && Distinct(Without(envs, i)) && p in TableOf(envs) && p != envs[i].pid
    ensures p in TableOf(Without(envs, i)) && TableOf(Without(envs, i))[p] == TableOf(envs)[p]
  {
    var j := FromTable(envs, p);
    InTable(Without(envs, i), if j < i then j else j - 1);
  }

  lemma WasInTable(envs: seq<Record>, i: nat, p: Handle)
    requires i < |envs| && Distinct(envs) && Distinct(Without(envs, i)) && p in TableOf(Without(envs, i))
    ensures p in TableOf(envs) && p != envs[i].pid
  {
    var j := FromTable(Without(envs, i), p);
    InTable(envs, if j < i then j else j + 1);
  }

  lemma RemovedRecord(envs: seq<Record>, i: nat)
    requires Distinct(envs) && i < |envs|
    ensures Distinct(Without(envs, i))
    ensures TableOf(Without(envs, i)) == TableOf(envs) - {envs[i].pid}
  {
    RemovedDistinct(envs, i);
    RemovedTable(envs, i, TableOf(envs), TableOf(Without(envs, i)));
  }

  lemma RemovedTable(envs: seq<Record>, i: nat, before: map<Handle, Environment>, after: map<Handle, Environment>)
    requires i < |envs| && Distinct(envs) && Distinct(Without(envs, i))
    requires before == TableOf(envs) && after == TableOf(Without(envs, i))
    ensures after == before - {envs[i].pid}
  {
    var pid := envs[i].pid;
    forall p: Handle | p in before && p != pid ensures p in after && after[p] == before[p] {
      KeptInTable(envs, i, p);
    }
    forall p: Handle | p in after ensures p in before && p != pid {
      WasInTable(envs, i, p);
    }
    OneLess(before, after, pid);
  }

  lemma OneLess(before: map<Handle, Environment>, after: map<Handle, Environment>, pid: Handle)
    requires forall p: Handle :: p in before && p != pid ==> p in after && after[p] == before[p]
    requires forall p: Handle :: p in after ==> p in before && p != pid
    ensures after == before - {pid}
  {
  }

  lemma AppendedRecord(envs: seq<Record>, record: Record)
    requires Distinct(envs) && record.pid !in TableOf(envs)
    ensures Distinct(envs + [record])
    ensures TableOf(envs + [record]) == TableOf(envs)[record.pid := record.env]
  {
    var more := envs + [record];
    assert more[|envs|] == record;
    assert forall j :: 0 <= j < |envs| ==> more[j] == envs[j] && envs[j].pid in TableOf(envs);
    AppendedTable(envs, more, record, TableOf(envs), TableOf(more));
  }

  lemma AppendedTable(envs: seq<Record>, more: seq<Record>, record: Record, before: map<Handle, Environment>,
                      after: map<Handle, Environment>)
    requires Distinct(envs) && Distinct(more) && more == envs + [record]
    requires before == TableOf(envs) && after == TableOf(more)
    ensures after == before[record.pid := record.env]
  {
    forall p: Handle ensures p in after <==> p in before || p == record.pid {
      if p in before {
        var j := FromTable(envs, p);
        assert more[j] == envs[j];
      }
      if p in after {
        var j := FromTable(more, p);
        assert j < |envs| ==> more[j] == envs[j];
      }
      assert more[|envs|] == record;
    }
    forall p: Handle | p in after ensures after[p] == before[record.pid := record.env][p] {
      var j := FromTable(more, p);
      if j < |envs| {
        InTable(envs, j);
        assert more[j] == envs[j];
      }
    }
  }

  // ----- histories

  datatype Event =
    | Registered(pid: Handle, env: Environment)
    | Unregistered(pid: Handle)
    | Created(child: Handle, parent: Handle, memory: bool)
    | Exited(handle: Handle)

  type Table = map<Handle, Environment>

  function Step(t: Table, e: Event): Table {
    match e
    case Registered(pid, env) => t[pid := env]
    case Unregistered(pid) => t - {pid}
    case Created(child, parent, memory) => if child !in t && parent in t && memory then t[child := t[parent]] else t
    case Exited(handle) => t - {handle % ULONG_RANGE}
  }

  /** The table after a history, from an empty one. */
  function Run(events: seq<Event>): Table {
    if events == [] then map[] else Step(Run(events[..|events| - 1]), events[|events| - 1])
  }

  /** Taking an entry out first makes no difference to putting one in. */
  lemma NewEntry(table: map<Handle, Environment>, pid: Handle, env: Environment)
    ensures Step(table, Unregistered(pid))[pid := env] == table[pid := env]
    ensures pid !in Step(table, Unregistered(pid))
  {
  }

  /** The list gEnvs, its operations each under the lock. */
  class EnvList {
    var envs: seq<Record>

    ghost predicate Valid()
      reads this
    {
      Distinct(envs)
    }

    ghost function Table(): Table
      requires Valid()
      reads this
    {
      TableOf(envs)
    }

    constructor ()
      ensures Valid() && Table() == Run([])
    {
      envs := [];
    }

    /** AgentFsFindEnvLocked */
    method FindEnv(pid: Handle) returns (at: Option<nat>)
      requires Valid()
      ensures at.None? ==> pid !in Table()
      ensures at.Some? ==> at.value < |envs| && envs[at.value].pid == pid && pid in Table()
                           && Table()[pid] == envs[at.value].env
    {
      var i := 0;
      while i < |envs|
        invariant 0 <= i <= |envs| && forall j :: 0 <= j < i ==> envs[j].pid != pid
      {
        if envs[i].pid == pid {
          return Some(i);
        }
        i := i + 1;
      }
      return None;
    }

    /** AgentFsCloneEnvForProcessLocked */
    method CloneEnv(parent: nat, pid: Handle, memory: bool, insert: bool)
      returns (status: Status, child: Option<Record>)
      requires Valid() && parent < |envs|
      requires insert ==> pid !in Table()
      modifies this
      ensures Valid()
      ensures if memory then status == Success && child == Some(Record(pid, old(envs[parent].env)))
              else status == InsufficientResources && child == None
      ensures Table() == if insert && memory then old(Table())[pid := old(envs[parent].env)] else old(Table())
    {
      if !memory {
        return InsufficientResources, None;
      }
      var env := Record(pid, envs[parent].env);
      if insert {
        AppendedRecord(envs, env);
        envs := envs + [env];
      }
      return Success, Some(env);
    }

    /** AgentFsSnapshotEnvForProcess */
    method SnapshotEnv(pid: Handle, memory: bool) returns (status: Status, snapshot: Option<Record>)
      requires Valid()
      modifies this
      ensures Valid() && Table() == old(Table())
      ensures if pid !in Table() then status == Status.NotFound && snapshot == None
              else if memory then status == Success && snapshot == Some(Record(pid, Table()[pid]))
              else status == InsufficientResources && snapshot == None
    {
      var env := FindEnv(pid);
      match env
      case None => return Status.NotFound, None;
      case Some(at) =>
        status, snapshot := CloneEnv(at, pid, memory, false);
    }

    /** AgentFsRegister; `granted` allocations succeed. */
    method Register(request: Request, granted: nat) returns (status: Status)
      requires Valid() && request.Sized()
      modifies this
      ensures Valid()
      ensures status == Success <==> request.Complete() && granted >= 6
      ensures status in {Success, InvalidParameter, InsufficientResources}
      ensures status == InvalidParameter ==> !request.Complete()
      ensures status == InsufficientResources ==> granted < 6
      ensures status == Success ==> request.pid in Table() && Describes(request, Table()[request.pid])
      ensures Table() == if status == Success then Step(old(Table()), Registered(request.pid, request.Env()))
              else old(Table())
    {
      if granted == 0 {
        return InsufficientResources;
      }
      var envId, sourceRoot, lowerRoot, upperRoot, whiteoutRoot := "", "", "", "", "";
      status, envId := DupUserString(request.envId, granted > 1);
      if status == Success {
        status, sourceRoot := DupUserString(request.sourceRoot, granted > 2);
      }
      if status == Success {
        status, lowerRoot := DupUserString(request.lowerRoot, granted > 3);
      }
      if status == Success {
        status, upperRoot := DupUserString(request.upperRoot, granted > 4);
      }
      if status == Success {
        status, whiteoutRoot := DupUserString(request.whiteoutRoot, granted > 5);
      }
      if status != Success {
        return;
      }
      var env := Record(request.pid, Environment(envId, sourceRoot, lowerRoot, upperRoot, whiteoutRoot));
      Replace(env);
    }

    /** The locked part of AgentFsRegister: an entry of the same process gives way. */
    method Replace(env: Record)
      requires Valid()
      modifies this
      ensures Valid() && Table() == old(Table())[env.pid := env.env]
    {
      Unregister(env.pid);
      AppendedRecord(envs, env);
      NewEntry(old(Table()), env.pid, env.env);
      envs := envs + [env];
    }

    /** AgentFsUnregister */
    method Unregister(pid: Handle)
      requires Valid()
      modifies this
      ensures Valid() && Table() == Step(old(Table()), Unregistered(pid))
    {
      var at := FindEnv(pid);
      if at.Some? {
        RemovedRecord(envs, at.value);
        envs := Without(envs, at.value);
      }
    }

    /** AgentFsProcessNotify for a new process; its creation fails with the returned status. */
    method ProcessCreated(child: Handle, parent: Handle, memory: bool) returns (creation: Status)
      requires Valid()
      modifies this
      ensures Valid() && Table() == Step(old(Table()), Created(child, parent, memory))
      ensures creation != Success <==> child !in old(Table()) && parent in old(Table()) && !memory
      ensures creation == Success && parent in old(Table()) ==> child in Table()
    {
      creation := Success;
      var own := FindEnv(child);
      if own.None? {
        var at := FindEnv(parent);
        if at.Some? {
          var env;
          creation, env := CloneEnv(at.value, child, memory, true);
        }
      }
    }

    /** AgentFsProcessNotify for a process that ends */
    method ProcessExited(handle: Handle)
      requires Valid()
      modifies this
      ensures Valid() && Table() == Step(old(Table()), Exited(handle))
    {
      Unregister(handle % ULONG_RANGE);
    }

    /** AgentFsMessage */
    method Message(request: Request, granted: nat) returns (status: Status)
      requires Valid() && request.Sized()
      modifies this
      ensures Valid()
      ensures status == Success <==>
              && request.version == VERSION && request.kind != Other
              && (request.kind == RegisterProcess ==> request.Complete() && granted >= 6)
      ensures request.version != VERSION <==> status == RevisionMismatch
      ensures request.version == VERSION && request.kind == Other ==> status == InvalidParameter
      ensures request.version == VERSION && request.kind == RegisterProcess && request.Complete() && granted < 6 ==>
                status == InsufficientResources
      ensures request.version == VERSION && request.kind == RegisterProcess && !request.Complete() && granted >= 6 ==>
                status == InvalidParameter
      ensures status == Success && request.kind == RegisterProcess ==>
                request.pid in Table() && Describes(request, Table()[request.pid])
      ensures Table() == if status != Success then old(Table())
                         else match request.kind
                              case RegisterProcess => Step(old(Table()), Registered(request.pid, request.Env()))
                              case UnregisterProcess => Step(old(Table()), Unregistered(request.pid))
                              case _ => old(Table())
    {
      status := Success;
      if request.version != VERSION {
        status := RevisionMismatch;
      } else if request.kind == RegisterProcess {
        status := Register(request, granted);
      } else if request.kind == UnregisterProcess {
        Unregister(request.pid);
      } else if request.kind != Check {
        status := InvalidParameter;
      }
    }
  }

  // ----- where an entry comes from

  /** An event after which the process has another entry than before, or none. */
  predicate Displaces(e: Event, pid: Handle) {
    match e
    case Registered(p, _) => p == pid
    case Unregistered(p) => p == pid
    case Created(_, _, _) => false
    case Exited(handle) => handle % ULONG_RANGE == pid
  }

  ghost predicate Undisturbed(events: seq<Event>, pid: Handle, from: nat) {
    forall i :: from <= i < |events| ==> !Displaces(events[i], pid)
  }

  /** How a process got its environment: registered by an event, or created by a process that has a lineage. */
  datatype Lineage = Root(at: nat) | Heir(of: Lineage, at: nat)

  /** At the end of `events`, `pid` still has environment `env` by this lineage. */
  ghost predicate Proves(l: Lineage, events: seq<Event>, pid: Handle, env: Environment)
    decreases l
  {
    && l.at < |events|
    && Undisturbed(events, pid, l.at + 1)
    && match l
       case Root(at) => events[at] == Registered(pid, env)
       case Heir(of, at) =>
         && events[at].Created? && events[at].child == pid && events[at].memory
         && Proves(of, events[..at], events[at].parent, env)
         && pid !in Run(events[..at])
  }

  lemma {:induction false} KeptWhileUndisturbed(events: seq<Event>, pid: Handle, from: nat)
    requires 0 < from <= |events| && Undisturbed(events, pid, from) && pid in Run(events[..from])
    ensures pid in Run(events) && Run(events)[pid] == Run(events[..from])[pid]
    decreases |events|
  {
    if from == |events| {
      assert events[..from] == events;
    } else {
      var before := events[..|events| - 1];
      assert before[..from] == events[..from];
      KeptWhileUndisturbed(before, pid, from);
    }
  }

  lemma {:induction false} LineageGivesEntry(l: Lineage, events: seq<Event>, pid: Handle, env: Environment)
    requires Proves(l, events, pid, env)
    ensures pid in Run(events) && Run(events)[pid] == env
    decreases l
  {
    var upTo := events[..l.at + 1];
    assert upTo[..l.at] == events[..l.at];
    if l.Heir? {
      LineageGivesEntry(l.of, events[..l.at], events[l.at].parent, env);
    }
    assert Run(upTo) == Step(Run(events[..l.at]), events[l.at]);
    KeptWhileUndisturbed(events, pid, l.at + 1);
  }

  lemma {:induction false} Prolong(l: Lineage, events: seq<Event>, pid: Handle, env: Environment, e: Event)
    requires Proves(l, events, pid, env) && !Displaces(e, pid)
    ensures Proves(l, events + [e], pid, env)
  {
    assert (events + [e])[..l.at] == events[..l.at];
    assert (events + [e])[l.at] == events[l.at];
  }

  lemma {:induction false} EntryHasLineage(events: seq<Event>, pid: Handle) returns (l: Lineage)
    requires pid in Run(events)
    ensures Proves(l, events, pid, Run(events)[pid])
    decreases |events|
  {
    var n := |events| - 1;
    var before, e := events[..n], events[n];
    assert events == before + [e];
    if pid in Run(before) && !Displaces(e, pid) {
      l := EntryHasLineage(before, pid);
      Prolong(l, before, pid, Run(before)[pid], e);
    } else if e.Registered? {
      l := Root(n);
    } else {
      var of := EntryHasLineage(before, e.parent);
      l := Heir(of, n);
    }
  }

  ghost predicate HasLineage(events: seq<Event>, pid: Handle, env: Environment) {
    exists l: Lineage :: Proves(l, events, pid, env)
  }

  /** A process has an environment exactly if a lineage leads to it from its registration, or from that of an
      ancestor, each process of the line having created the next while it still had the environment. */
  lemma EntriesComeFromRegistrations(events: seq<Event>, pid: Handle, env: Environment)
    ensures HasLineage(events, pid, env) <==> pid in Run(events) && Run(events)[pid] == env
  {
    if HasLineage(events, pid, env) {
      var l: Lineage :| Proves(l, events, pid, env);
      LineageGivesEntry(l, events, pid, env);
    } else if pid in Run(events) {
      var l := EntryHasLineage(events, pid);
    }
  }

  /** A child created by a managed process has the parent's environment, whatever becomes of the parent, until it
      exits, is registered anew or unregistered; one that was registered before keeps its own. */
  lemma ChildInherits(before: seq<Event>, child: Handle, parent: Handle, after: seq<Event>)
    requires parent in Run(before)
    requires forall i :: 0 <= i < |after| ==> !Displaces(after[i], child)
    ensures var now := Run(before + [Created(child, parent, true)] + after);
            child in now && now[child] == Run(before)[if child in Run(before) then child else parent]
  {
    var events := before + [Created(child, parent, true)] + after;
    var n := |before| + 1;
    assert events[..n] == before + [Created(child, parent, true)];
    assert events[..n][..|before|] == before;
    KeptWhileUndisturbed(events, child, n);
  }

  /** A process whose id fits 32 bits is gone from the table once it has exited. */
  lemma ExitForgets(events: seq<Event>, pid: Handle)
    ensures pid !in Run(events + [Exited(pid)]) <==> pid < ULONG_RANGE || pid !in Run(events)
  {
    assert (events + [Exited(pid)])[..|events|] == events;
  }
}
