/**
  Concurrent calls on one client: locked() chains every call on the promise of the call before it.
  The client is a step system; a crash may happen in any state and leaves only the file. The chain
  is proved to serialize the calls: in every reachable state the memory, the replies and the file
  are those of a serial run in call order.
 */
module SqliteQueue {
  import opened WasmSqlite

  /** Where a call is between being made and settling. */
  datatype Phase =
    | Queued                                  // awaiting the previous promise
    | Running(next: nat, rows: seq<Rows>)     // about to run statement next, or to commit
    | Saving(rows: seq<Rows>)                 // about to make the directory
    | Writing(rows: seq<Rows>, image: Image)  // the temporary file is being written
    | Written(rows: seq<Rows>, image: Image)  // about to rename
    | Settling(reply: Reply)                  // the operation is over, release() not yet called
    | Released(reply: Reply)

  /** previous is the promise the call awaits; its own promise is its position plus one. */
  datatype Process = Process(call: Call, previous: nat, phase: Phase)

  /** procs is in call order. saved and served are history variables: how many calls the file
      reflects, and how many calls have been released. */
  datatype State = State(procs: seq<Process>, queue: nat, resolved: set<nat>,
                         memory: Image, transaction: Option<Image>, disk: Image, temp: TempFile,
                         saved: nat, served: nat)

  function Initial(contents: Image): State {
    State([], 0, {0}, contents, None, contents, Absent, 0, 0)
  }

  function Calls(procs: seq<Process>): seq<Call> {
    seq(|procs|, i requires 0 <= i < |procs| => procs[i].call)
  }

  datatype Step =
    | Enqueue(call: Call) | Start(k: nat) | Statement(k: nat) | Finish(k: nat)
    | MakeDirectory(k: nat, ok: bool) | WriteTemp(k: nat, ok: bool) | Rename(k: nat, ok: bool) | Release(k: nat)

  function At(s: State, k: nat, phase: Phase): State
    requires k < |s.procs|
  {
    s.(procs := s.procs[k := s.procs[k].(phase := phase)])
  }

  /** The error path of a call: undo an open transaction, then settle with an error. */
  function Throw(s: State, k: nat): State
    requires k < |s.procs|
  {
    var s' := At(s, k, Settling(Error));
    if s.transaction.Some? then s'.(memory := s.transaction.value, transaction := None) else s'
  }

  predicate Enabled(s: State, step: Step) {
    match step
    case Enqueue(_) => true
    case Start(k) => k < |s.procs| && s.procs[k].phase.Queued? && s.procs[k].previous in s.resolved
    case Statement(k) => k < |s.procs| && s.procs[k].phase.Running?
      && s.procs[k].phase.next < |Statements(s.procs[k].call)|
    case Finish(k) => k < |s.procs| && s.procs[k].phase.Running?
      && s.procs[k].phase.next == |Statements(s.procs[k].call)|
    case MakeDirectory(k, _) => k < |s.procs| && s.procs[k].phase.Saving?
    case WriteTemp(k, _) => k < |s.procs| && s.procs[k].phase.Writing?
    case Rename(k, _) => k < |s.procs| && s.procs[k].phase.Written?
    case Release(k) => k < |s.procs| && s.procs[k].phase.Settling?
  }

  function Next(e: Engine, s: State, step: Step): State
    requires Enabled(s, step)
  {
    match step
    case Enqueue(call) =>
      s.(procs := s.procs + [Process(call, s.queue, Queued)], queue := |s.procs| + 1)
    case Start(k) =>
      if !Transactional(s.procs[k].call) then At(s, k, Running(0, []))
      else if s.transaction.Some? then At(s, k, Settling(Error))  // BEGIN inside a transaction throws
      else At(s, k, Running(0, [])).(transaction := Some(s.memory))
    case Statement(k) =>
      var p := s.procs[k].phase;
      (match e.run(s.memory, Statements(s.procs[k].call)[p.next])
       case Ran(after, rows) => At(s, k, Running(p.next + 1, p.rows + [rows])).(memory := after)
       case Fails => Throw(s, k))
    case Finish(k) =>
      var c := s.procs[k].call;
      if Transactional(c) && !e.commits(s.memory) then Throw(s, k)
      else
        var rows := s.procs[k].phase.rows;
        var s' := At(s, k, if Persists(e, c) then Saving(rows) else Settling(Results(rows)));
        if Transactional(c) then s'.(transaction := None) else s'
    case MakeDirectory(k, ok) =>
      if ok then At(s, k, Writing(s.procs[k].phase.rows, s.memory)).(temp := Partial)
      else At(s, k, Settling(Error))
    case WriteTemp(k, ok) =>
      if ok then At(s, k, Written(s.procs[k].phase.rows, s.procs[k].phase.image))
           .(temp := Whole(s.procs[k].phase.image))
      else At(s, k, Settling(Error))
    case Rename(k, ok) =>
      if ok then
        At(s, k, Settling(Results(s.procs[k].phase.rows)))
        .(disk := if s.temp.Whole? then s.temp.image else [], temp := Absent, saved := k + 1)
      else At(s, k, Settling(Error))
    case Release(k) =>
      At(s, k, Released(s.procs[k].phase.reply)).(resolved := s.resolved + {k + 1}, served := s.served + 1)
  }

  /** A run is any sequence of enabled steps; every prefix of a run is a run, so a crash at any
      step is a run that ends there. */
  ghost predicate IsRun(e: Engine, contents: Image, steps: seq<Step>)
    decreases |steps|, 0
  {
    steps == [] ||
    (IsRun(e, contents, steps[..|steps| - 1]) && Enabled(After(e, contents, steps[..|steps| - 1]), steps[|steps| - 1]))
  }

  ghost function After(e: Engine, contents: Image, steps: seq<Step>): State
    requires IsRun(e, contents, steps)
    decreases |steps|, 1
  {
    if steps == [] then Initial(contents)
    else Next(e, After(e, contents, steps[..|steps| - 1]), steps[|steps| - 1])
  }

  // ---------------------------------------------------------------- the invariant

  /** The serial image after the first m calls. */
  function Serial(e: Engine, contents: Image, procs: seq<Process>, m: nat): Image
    requires m <= |procs|
  {
    SerialImage(e, contents, Calls(procs)[..m])
  }

  /** The promise chain: one promise per call, resolved exactly up to the calls served, and no call
      beyond the first unserved one has started. */
  ghost predicate Chained(s: State) {
    && s.queue == |s.procs| && s.served <= |s.procs|
    && (forall k :: 0 <= k < |s.procs| ==> s.procs[k].previous == k)
    && (forall p: nat :: p in s.resolved <==> p <= s.served)
    && (forall k :: 0 <= k < |s.procs| ==> (s.procs[k].phase.Released? <==> k < s.served))
    && (forall k :: s.served < k < |s.procs| ==> s.procs[k].phase.Queued?)
  }

  /** The reply of a call that found this image: the serial one, or an error of the file system. */
  predicate GoodReply(e: Engine, image: Image, c: Call, reply: Reply) {
    reply == ReplyOf(e, image, c, Completes) || (reply == Error && Persists(e, c))
  }

  ghost predicate Replied(e: Engine, contents: Image, s: State, k: nat, reply: Reply)
    requires k < |s.procs|
  {
    && GoodReply(e, Serial(e, contents, s.procs, k), s.procs[k].call, reply)
    && (reply.Results? && Persists(e, s.procs[k].call) ==> k < s.saved)
  }

  /** Memory, transaction and temporary file while the call that found image base is in a phase. */
  ghost predicate InPhase(e: Engine, base: Image, c: Call, phase: Phase, memory: Image, transaction: Option<Image>,
                          temp: TempFile) {
    var all := RunAll(e, base, Statements(c));
    match phase
    case Queued => memory == base && transaction == None
    case Running(next, rows) =>
      && next <= |Statements(c)|
      && RunAll(e, base, Statements(c)[..next]) == Progress(memory, rows, false)
      && transaction == (if Transactional(c) then Some(base) else None)
    case Saving(rows) =>
      Succeeds(e, base, c) && Persists(e, c) && rows == all.rows && memory == all.image && transaction == None
    case Writing(rows, image) =>
      Succeeds(e, base, c) && Persists(e, c) && rows == all.rows && memory == all.image == image && transaction == None
    case Written(rows, image) =>
      && Succeeds(e, base, c) && Persists(e, c) && rows == all.rows && memory == all.image == image
         && transaction == None
      && temp == Whole(image)
    case Settling(_) => memory == MemoryAfter(e, base, c) && transaction == None
    case Released(_) => true
  }

  ghost predicate InProgress(e: Engine, contents: Image, s: State)
    requires s.served <= |s.procs|
  {
    var base := Serial(e, contents, s.procs, s.served);
    if s.served == |s.procs| then s.memory == base && s.transaction == None
    else InPhase(e, base, s.procs[s.served].call, s.procs[s.served].phase, s.memory, s.transaction, s.temp)
  }

  ghost predicate Invariant(e: Engine, contents: Image, s: State) {
    && Chained(s)
    && (forall k :: 0 <= k < s.served ==> Replied(e, contents, s, k, s.procs[k].phase.reply))
    && InProgress(e, contents, s)
    && (s.served < |s.procs| && s.procs[s.served].phase.Settling? ==>
          Replied(e, contents, s, s.served, s.procs[s.served].phase.reply))
    && s.saved <= |s.procs|
    && s.disk == Serial(e, contents, s.procs, s.saved)
    && (s.saved <= s.served || (s.saved == s.served + 1 && s.procs[s.served].phase.Settling?))
  }

  lemma {:induction false} EnqueueKeeps(e: Engine, contents: Image, s: State, call: Call)
    requires Invariant(e, contents, s)
    ensures Invariant(e, contents, Next(e, s, Enqueue(call)))
  {
    var s' := Next(e, s, Enqueue(call));
    forall m | 0 <= m <= |s.procs|
      ensures Calls(s'.procs)[..m] == Calls(s.procs)[..m]
    {}
    forall k | 0 <= k < s.served
      ensures Replied(e, contents, s', k, s'.procs[k].phase.reply)
    {
      assert Replied(e, contents, s, k, s.procs[k].phase.reply);
    }
  }

  /** A step of the unserved call k changes only its phase and the database: the serial images and
      the replies already given stay. */
  lemma {:induction false} SameCalls(e: Engine, contents: Image, s: State, k: nat, phase: Phase)
    requires k < |s.procs|
    ensures Calls(At(s, k, phase).procs) == Calls(s.procs)
    ensures forall m :: 0 <= m <= |s.procs| ==>
              Serial(e, contents, At(s, k, phase).procs, m) == Serial(e, contents, s.procs, m)
  {}

  /** What a step inside call k must show for the invariant to carry over. */
  lemma {:induction false} PhaseStep(e: Engine, contents: Image, s: State, s': State, k: nat, phase: Phase)
    requires Invariant(e, contents, s) && k == s.served < |s.procs|
    requires !phase.Released? && !s.procs[k].phase.Settling?
    requires s'.procs == s.procs[k := s.procs[k].(phase := phase)]
    requires s'.queue == s.queue && s'.resolved == s.resolved && s'.served == s.served
    requires InPhase(e, Serial(e, contents, s.procs, k), s.procs[k].call, phase, s'.memory, s'.transaction, s'.temp)
    requires (s'.saved == s.saved && s'.disk == s.disk)
          || (s'.saved == k + 1 && s'.disk == Serial(e, contents, s.procs, k + 1) && phase.Settling?)
    requires phase.Settling? ==>
               && GoodReply(e, Serial(e, contents, s.procs, k), s.procs[k].call, phase.reply)
               && (phase.reply.Results? && Persists(e, s.procs[k].call) ==> s'.saved == k + 1)
    ensures Invariant(e, contents, s')
  {
    SameCalls(e, contents, s, k, phase);
    assert s'.procs == At(s, k, phase).procs;
    forall j | 0 <= j < s'.served
      ensures Replied(e, contents, s', j, s'.procs[j].phase.reply)
    {
      assert Replied(e, contents, s, j, s.procs[j].phase.reply);
    }
  }

  lemma {:induction false} SerialNext(e: Engine, contents: Image, procs: seq<Process>, k: nat)
    requires k < |procs|
    ensures Serial(e, contents, procs, k + 1) == MemoryAfter(e, Serial(e, contents, procs, k), procs[k].call)
  {
    var calls := Calls(procs)[..k + 1];
    assert calls[..|calls| - 1] == Calls(procs)[..k];
  }

  /** Only the first unserved call can take a step. */
  lemma OnlyTheFirst(s: State, k: nat)
    requires Chained(s) && k < |s.procs| && !s.procs[k].phase.Released?
    requires s.procs[k].phase.Queued? ==> s.procs[k].previous in s.resolved
    ensures k == s.served
  {}

  lemma {:induction false} StatementKeeps(e: Engine, contents: Image, s: State, k: nat)
    requires Invariant(e, contents, s) && Enabled(s, Statement(k))
    ensures Invariant(e, contents, Next(e, s, Statement(k)))
  {
    OnlyTheFirst(s, k);
    var base, c, p := Serial(e, contents, s.procs, k), s.procs[k].call, s.procs[k].phase;
    var sqls := Statements(c);
    var s' := Next(e, s, Statement(k));
    assert sqls[..p.next + 1][..p.next] == sqls[..p.next];
    match e.run(s.memory, sqls[p.next])
    case Ran(after, rows) =>
      PhaseStep(e, contents, s, s', k, Running(p.next + 1, p.rows + [rows]));
    case Fails =>
      RunAllSplits(e, base, sqls[..p.next + 1], sqls[p.next + 1..]);
      assert sqls[..p.next + 1] + sqls[p.next + 1..] == sqls;
      assert RunAll(e, base, sqls).failed;
      PhaseStep(e, contents, s, s', k, Settling(Error));
  }

  lemma {:induction false} FinishKeeps(e: Engine, contents: Image, s: State, k: nat)
    requires Invariant(e, contents, s) && Enabled(s, Finish(k))
    ensures Invariant(e, contents, Next(e, s, Finish(k)))
  {
    OnlyTheFirst(s, k);
    var c, p := s.procs[k].call, s.procs[k].phase;
    var s' := Next(e, s, Finish(k));
    assert Statements(c)[..p.next] == Statements(c);
    if Transactional(c) && !e.commits(s.memory) {
      PhaseStep(e, contents, s, s', k, Settling(Error));
    } else {
      PhaseStep(e, contents, s, s', k, if Persists(e, c) then Saving(p.rows) else Settling(Results(p.rows)));
    }
  }

  lemma {:induction false} StartKeeps(e: Engine, contents: Image, s: State, k: nat)
    requires Invariant(e, contents, s) && Enabled(s, Start(k))
    ensures Invariant(e, contents, Next(e, s, Start(k)))
  {
    OnlyTheFirst(s, k);
    assert Statements(s.procs[k].call)[..0] == [];
    PhaseStep(e, contents, s, Next(e, s, Start(k)), k, Running(0, []));
  }

  lemma {:induction false} FileStepKeeps(e: Engine, contents: Image, s: State, step: Step)
    requires Invariant(e, contents, s) && Enabled(s, step)
    requires step.MakeDirectory? || step.WriteTemp? || step.Rename?
    ensures Invariant(e, contents, Next(e, s, step))
  {
    var k := step.k;
    OnlyTheFirst(s, k);
    var p, s' := s.procs[k].phase, Next(e, s, step);
    if !step.ok {
      PhaseStep(e, contents, s, s', k, Settling(Error));
    } else if step.MakeDirectory? {
      PhaseStep(e, contents, s, s', k, Writing(p.rows, s.memory));
    } else if step.WriteTemp? {
      PhaseStep(e, contents, s, s', k, Written(p.rows, p.image));
    } else {
      SerialNext(e, contents, s.procs, k);
      PhaseStep(e, contents, s, s', k, Settling(Results(p.rows)));
    }
  }

  lemma {:induction false} ReleaseKeeps(e: Engine, contents: Image, s: State, k: nat)
    requires Invariant(e, contents, s) && Enabled(s, Release(k))
    ensures Invariant(e, contents, Next(e, s, Release(k)))
  {
    OnlyTheFirst(s, k);
    var s' := Next(e, s, Release(k));
    ReleaseChains(e, s, k);
    SameCalls(e, contents, s, k, Released(s.procs[k].phase.reply));
    SerialNext(e, contents, s.procs, k);
    assert s'.procs == At(s, k, Released(s.procs[k].phase.reply)).procs;
    assert InProgress(e, contents, s');
    forall j | 0 <= j < s'.served
      ensures Replied(e, contents, s', j, s'.procs[j].phase.reply)
    {
      assert Replied(e, contents, s, j, s.procs[j].phase.reply);
      assert Serial(e, contents, s'.procs, j) == Serial(e, contents, s.procs, j);
    }
  }

  lemma ReleaseChains(e: Engine, s: State, k: nat)
    requires Chained(s) && k == s.served && Enabled(s, Release(k))
    ensures Chained(Next(e, s, Release(k)))
  {}

  /** Every reachable state satisfies the invariant. */
  lemma {:induction false} RunsKeepInvariant(e: Engine, contents: Image, steps: seq<Step>)
    requires IsRun(e, contents, steps)
    ensures Invariant(e, contents, After(e, contents, steps))
    decreases |steps|
  {
    if steps == [] {
      assert Calls([])[..0] == [];
    } else {
      var front, step := steps[..|steps| - 1], steps[|steps| - 1];
      RunsKeepInvariant(e, contents, front);
      var s := After(e, contents, front);
      match step
      case Enqueue(call) => EnqueueKeeps(e, contents, s, call);
      case Start(k) => StartKeeps(e, contents, s, k);
      case Statement(k) => StatementKeeps(e, contents, s, k);
      case Finish(k) => FinishKeeps(e, contents, s, k);
      case MakeDirectory(_, _) => FileStepKeeps(e, contents, s, step);
      case WriteTemp(_, _) => FileStepKeeps(e, contents, s, step);
      case Rename(_, _) => FileStepKeeps(e, contents, s, step);
      case Release(k) => ReleaseKeeps(e, contents, s, k);
    }
  }

  // ---------------------------------------------------------------- what callers can rely on

  predicate InBody(p: Process) {
    !p.phase.Queued? && !p.phase.Released?
  }

  predicate Settled(p: Process) {
    p.phase.Settling? || p.phase.Released?
  }

  /** At most one operation is in progress, and operations start in call order. */
  lemma {:induction false} MutualExclusion(e: Engine, contents: Image, steps: seq<Step>, i: nat, j: nat)
    requires IsRun(e, contents, steps)
    requires var s := After(e, contents, steps); i < j < |s.procs| && !s.procs[j].phase.Queued?
    ensures After(e, contents, steps).procs[i].phase.Released?
    ensures !(InBody(After(e, contents, steps).procs[i]) && InBody(After(e, contents, steps).procs[j]))
  {
    RunsKeepInvariant(e, contents, steps);
  }

  /** Every settled call got the reply of the serial run of the calls before it, or an error from
      the file system if it had to save. */
  lemma {:induction false} RepliesAreSerial(e: Engine, contents: Image, steps: seq<Step>, k: nat)
    requires IsRun(e, contents, steps)
    requires var s := After(e, contents, steps); k < |s.procs| && Settled(s.procs[k])
    ensures var s := After(e, contents, steps);
            exists io :: s.procs[k].phase.reply ==
                ReplyOf(e, SerialImage(e, contents, Calls(s.procs)[..k]), s.procs[k].call, io)
  {
    RunsKeepInvariant(e, contents, steps);
    var s := After(e, contents, steps);
    var image, c, reply := Serial(e, contents, s.procs, k), s.procs[k].call, s.procs[k].phase.reply;
    assert Replied(e, contents, s, k, reply);
    if reply != ReplyOf(e, image, c, Completes) {
      assert reply == ReplyOf(e, image, c, RenameFails);
    }
  }

  predicate AllReleased(procs: seq<Process>) {
    forall k :: 0 <= k < |procs| ==> procs[k].phase.Released?
  }

  /** Whenever every call has been released, memory is the image of the serial run. */
  lemma {:induction false} MemoryIsSerial(e: Engine, contents: Image, steps: seq<Step>)
    requires IsRun(e, contents, steps) && AllReleased(After(e, contents, steps).procs)
    ensures var s := After(e, contents, steps);
            s.memory == SerialImage(e, contents, Calls(s.procs)) && s.transaction == None
  {
    RunsKeepInvariant(e, contents, steps);
    var s := After(e, contents, steps);
    assert s.served == |s.procs|;
    assert Calls(s.procs)[..|s.procs|] == Calls(s.procs);
  }

  /** The saving call k has returned success. */
  predicate Acknowledged(e: Engine, p: Process) {
    Settled(p) && p.phase.reply.Results? && Persists(e, p.call)
  }

  /** The file holds the image of a serial run of the first m calls, m beyond every acknowledged one. */
  predicate FileHolds(e: Engine, contents: Image, s: State, m: nat) {
    && m <= |s.procs|
    && s.disk == SerialImage(e, contents, Calls(s.procs)[..m])
    && forall k :: 0 <= k < |s.procs| && Acknowledged(e, s.procs[k]) ==> k < m
  }

  lemma AcknowledgedIsSaved(e: Engine, contents: Image, s: State, k: nat)
    requires Invariant(e, contents, s) && k < |s.procs| && Acknowledged(e, s.procs[k])
    ensures k < s.saved
  {
    assert Replied(e, contents, s, k, s.procs[k].phase.reply);
  }

  /** Crash safety: in every reachable state, which is what a crash at that point leaves, the file
      holds a committed state of the history, never older than the last acknowledged write. */
  lemma {:induction false} CrashSafety(e: Engine, contents: Image, steps: seq<Step>) returns (m: nat)
    requires IsRun(e, contents, steps)
    ensures FileHolds(e, contents, After(e, contents, steps), m)
  {
    RunsKeepInvariant(e, contents, steps);
    var s := After(e, contents, steps);
    m := s.saved;
    forall k: nat | k < |s.procs| && Acknowledged(e, s.procs[k])
      ensures k < m
    {
      AcknowledgedIsSaved(e, contents, s, k);
    }
  }

  // ---------------------------------------------------------------- progress

  /** No call is stuck: as long as a call is not released, some call can take its next step. */
  lemma {:induction false} SomeCallCanStep(e: Engine, contents: Image, steps: seq<Step>) returns (step: Step)
    requires IsRun(e, contents, steps) && !AllReleased(After(e, contents, steps).procs)
    ensures Enabled(After(e, contents, steps), step) && !step.Enqueue?
  {
    RunsKeepInvariant(e, contents, steps);
    var s := After(e, contents, steps);
    var k := s.served;
    assert k < |s.procs|;
    match s.procs[k].phase
    case Queued => step := Start(k);
    case Running(next, _) => step := if next < |Statements(s.procs[k].call)| then Statement(k) else Finish(k);
    case Saving(_) => step := MakeDirectory(k, true);
    case Writing(_, _) => step := WriteTemp(k, true);
    case Written(_, _) => step := Rename(k, true);
    case Settling(_) => step := Release(k);
  }

  /** The most steps a call may still take. */
  function Remaining(p: Process): nat {
    var n := |Statements(p.call)|;
    match p.phase
    case Queued => 6 + n
    case Running(next, _) => 5 + (if next <= n then n - next else 0)
    case Saving(_) => 4
    case Writing(_, _) => 3
    case Written(_, _) => 2
    case Settling(_) => 1
    case Released(_) => 0
  }

  predicate IsStepOf(step: Step, k: nat) {
    !step.Enqueue? && step.k == k
  }

  function StepsOf(steps: seq<Step>, k: nat): nat
    decreases |steps|
  {
    if steps == [] then 0
    else StepsOf(steps[..|steps| - 1], k) + (if IsStepOf(steps[|steps| - 1], k) then 1 else 0)
  }

  /** A step of a call uses up one of its steps, and leaves the other calls alone. */
  lemma StepUsesUp(e: Engine, s: State, step: Step, k: nat)
    requires Enabled(s, step) && k < |s.procs|
    ensures var s' := Next(e, s, step);
            && k < |s'.procs| && s'.procs[k].call == s.procs[k].call
            && Remaining(s'.procs[k]) + (if IsStepOf(step, k) then 1 else 0) <= Remaining(s.procs[k])
  {}

  lemma {:induction false} NoStepsBefore(e: Engine, contents: Image, steps: seq<Step>, k: nat)
    requires IsRun(e, contents, steps) && k >= |After(e, contents, steps).procs|
    ensures StepsOf(steps, k) == 0
    decreases |steps|
  {
    if steps != [] {
      var front := steps[..|steps| - 1];
      assert |After(e, contents, front).procs| <= |After(e, contents, steps).procs|;
      NoStepsBefore(e, contents, front, k);
    }
  }

  /** Every call is over after at most six steps and one for each of its statements. */
  lemma {:induction false} CallsAreShort(e: Engine, contents: Image, steps: seq<Step>, k: nat)
    requires IsRun(e, contents, steps) && k < |After(e, contents, steps).procs|
    ensures var p := After(e, contents, steps).procs[k];
            StepsOf(steps, k) + Remaining(p) <= 6 + |Statements(p.call)|
    decreases |steps|
  {
    var front, step := steps[..|steps| - 1], steps[|steps| - 1];
    var s := After(e, contents, front);
    if k < |s.procs| {
      CallsAreShort(e, contents, front, k);
      StepUsesUp(e, s, step, k);
    } else {
      NoStepsBefore(e, contents, front, k);
    }
  }
}
