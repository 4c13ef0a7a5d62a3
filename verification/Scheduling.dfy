/** The parallel test scheduler as a state machine: what the master does on each message,
    together with the batches its workers are running. */
module Scheduling {
  import opened Wrappers
  import opened Subsequences

  type Key = string

  /** A test file together with the conflict keys found for it. */
  datatype Test = Test(file: string, conflicts: seq<Key>)

  /** An entry of the map from conflict key to worker; the map keeps insertion order. */
  datatype Lock = Lock(key: Key, worker: nat)

  const ALL: Key := "all"

  /** The master's own variables. */
  datatype Master = Master(
    testFiles: seq<Test>,            // a stack, popped at the end
    sequentialTests: seq<Test>,
    waitingTests: map<Key, seq<Test>>,
    activeConflicts: seq<Lock>,
    workers: set<nat>,
    testsInProgress: int)

  /** What bounds a batch: the number of files at the start, and the cap on a batch. */
  datatype Limits = Limits(totalFileCount: nat, maxBatchSize: nat)

  /** The master and its workers. A worker with an empty batch is about to say "ready";
      one with a batch is about to say "tests_finished". */
  datatype System = System(master: Master, running: map<nat, seq<Test>>, done: seq<Test>)

  // ---------- The lock table ----------

  function Holder(active: seq<Lock>, key: Key): Option<nat> {
    if active == [] then None
    else if active[0].key == key then Some(active[0].worker)
    else Holder(active[1..], key)
  }

  function SetLock(active: seq<Lock>, key: Key, worker: nat): seq<Lock> {
    if active == [] then [Lock(key, worker)]
    else if active[0].key == key then [Lock(key, worker)] + active[1..]
    else [active[0]] + SetLock(active[1..], key, worker)
  }

  function TakeKeys(active: seq<Lock>, keys: seq<Key>, worker: nat): seq<Lock> {
    if keys == [] then active else SetLock(TakeKeys(active, Front(keys), worker), Last(keys), worker)
  }

  function TakeLocks(active: seq<Lock>, files: seq<Test>, worker: nat): seq<Lock> {
    if files == [] then active
    else TakeKeys(TakeLocks(active, Front(files), worker), Last(files).conflicts, worker)
  }

  /** Every key has one entry, as in a map. */
  ghost predicate Distinct(active: seq<Lock>) {
    active == [] || (Holder(active[1..], active[0].key) == None && Distinct(active[1..]))
  }

  /** The first of a test's keys that is held. */
  function FirstHeld(keys: seq<Key>, active: seq<Lock>): Option<Key> {
    if keys == [] then None
    else if Holder(active, keys[0]).Some? then Some(keys[0])
    else FirstHeld(keys[1..], active)
  }

  // ---------- Handling "tests_finished" ----------

  datatype Released = Released(active: seq<Lock>, waiting: map<Key, seq<Test>>, testFiles: seq<Test>)

  function QueueOf(waiting: map<Key, seq<Test>>, key: Key): seq<Test> {
    if key in waiting then waiting[key] else []
  }

  /** Drops the worker's locks one by one; each takes its waiting queue back to the stack. */
  function Release(active: seq<Lock>, worker: nat, waiting: map<Key, seq<Test>>, testFiles: seq<Test>): Released {
    if active == [] then Released([], waiting, testFiles)
    else
      var l := active[0];
      if l.worker == worker then
        Release(active[1..], worker, waiting - {l.key}, testFiles + Reverse(QueueOf(waiting, l.key)))
      else
        var r := Release(active[1..], worker, waiting, testFiles);
        r.(active := [l] + r.active)
  }

  function Finish(m: Master, worker: nat): Master {
    var r := Release(m.activeConflicts, worker, m.waitingTests, m.testFiles);
    m.(activeConflicts := r.active, waitingTests := r.waiting, testFiles := r.testFiles,
       testsInProgress := m.testsInProgress - 1)
  }

  // ---------- Handling "ready" ----------

  /** Sequential tests join the stack once a single worker is left. */
  function Admit(m: Master): Master {
    if |m.workers| == 1 && m.sequentialTests != [] then
      m.(testFiles := m.testFiles + m.sequentialTests, sequentialTests := [])
    else m
  }

  function MaxBatchSize(valgrind: bool, shuffle: bool): nat {
    if valgrind then 1 else if shuffle then 4 else 32
  }

  function CeilDiv(a: nat, b: nat): nat
    requires b > 0
  {
    (a + b - 1) / b
  }

  function BatchSize(limits: Limits, workers: nat): (size: nat)
    requires workers > 0
    ensures size <= limits.maxBatchSize && (limits.maxBatchSize >= 1 ==> size >= 1)
  {
    var average := Max(1, CeilDiv(limits.totalFileCount, workers));
    if limits.maxBatchSize <= average then limits.maxBatchSize else average
  }

  datatype Filled = Filled(testFiles: seq<Test>, waiting: map<Key, seq<Test>>, files: seq<Test>)

  /** Pops tests into the batch; a test with a held key goes to that key's waiting queue. */
  function Fill(testFiles: seq<Test>, waiting: map<Key, seq<Test>>, active: seq<Lock>, files: seq<Test>,
                batchSize: nat): Filled
    decreases |testFiles|
  {
    if |files| > batchSize || testFiles == [] then Filled(testFiles, waiting, files)
    else
      var file := Last(testFiles);
      match FirstHeld(file.conflicts, active)
      case Some(key) =>
        Fill(Front(testFiles), waiting[key := QueueOf(waiting, key) + [file]], active, files, batchSize)
      case None =>
        Fill(Front(testFiles), waiting, active, files + [file], batchSize)
  }

  /** The batch for the worker that spoke; an empty one means it is terminated. */
  function Dispatch(limits: Limits, m: Master, worker: nat): (r: (Master, seq<Test>))
    requires worker in m.workers
  {
    var a := Admit(m);
    var f := Fill(a.testFiles, a.waitingTests, a.activeConflicts, [], BatchSize(limits, |a.workers|));
    if f.files != [] then
      (a.(testFiles := f.testFiles, waitingTests := f.waiting,
          activeConflicts := TakeLocks(a.activeConflicts, f.files, worker),
          testsInProgress := a.testsInProgress + 1), f.files)
    else
      (a.(testFiles := f.testFiles, waitingTests := f.waiting, workers := a.workers - {worker}), [])
  }

  // ---------- The system ----------

  function FinishStep(s: System, worker: nat): System
    requires worker in s.running
  {
    System(Finish(s.master, worker), s.running[worker := []], s.done + s.running[worker])
  }

  function DispatchStep(limits: Limits, s: System, worker: nat): System
    requires worker in s.running && worker in s.master.workers
  {
    var (m, files) := Dispatch(limits, s.master, worker);
    System(m, if files != [] then s.running[worker := files] else s.running - {worker}, s.done)
  }

  /** One message from a live worker: "tests_finished" falls through to "ready". */
  function Step(limits: Limits, s: System, worker: nat): System
    requires worker in s.running && worker in s.master.workers
  {
    DispatchStep(limits, if s.running[worker] != [] then FinishStep(s, worker) else s, worker)
  }

  /** The condition under which the master keeps listening. */
  predicate Listening(m: Master) {
    m.testFiles != [] || m.sequentialTests != [] || m.testsInProgress > 0
  }

  function Parallel(tests: seq<Test>): seq<Test> {
    if tests == [] then []
    else Parallel(Front(tests)) + if ALL in Last(tests).conflicts then [] else [Last(tests)]
  }

  function Sequential(tests: seq<Test>): seq<Test> {
    if tests == [] then []
    else Sequential(Front(tests)) + if ALL in Last(tests).conflicts then [Last(tests)] else []
  }

  function WorkerCount(requested: int, tests: seq<Test>): (n: nat)
    ensures 1 <= n <= Max(1, requested) && n <= Max(1, |Parallel(tests)|)
    ensures n == Max(1, requested) || n == Max(1, |Parallel(tests)|)
  {
    var files := |Parallel(tests)|;
    Max(1, if requested <= files then requested else files)
  }

  /** Workers 1 to `n`, none of them busy. */
  function Spawn(n: nat): map<nat, seq<Test>> {
    if n == 0 then map[] else Spawn(n - 1)[n := []]
  }

  function Initial(tests: seq<Test>, requested: int, shuffle: bool): System {
    var files := Parallel(tests);
    var workers := Spawn(WorkerCount(requested, tests));
    System(Master(if shuffle then files else Reverse(files), Sequential(tests), map[], [], workers.Keys, 0),
           workers, [])
  }

  function InitialLimits(tests: seq<Test>, valgrind: bool, shuffle: bool): Limits {
    Limits(|Parallel(tests)|, MaxBatchSize(valgrind, shuffle))
  }
}
