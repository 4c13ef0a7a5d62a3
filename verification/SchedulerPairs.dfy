/** Tests that are never overtaken: in every unshuffled run a test with a single conflict key stays
    ahead of every later one that asks for that key first of all. */
module SchedulerPairs {
  import opened Wrappers
  import opened Subsequences
  import opened Scheduling
  import opened SchedulerSafety
  import opened SchedulerRuns
  import opened SchedulerOrder

  /** What is watched: `later` has to come after the first `ahead` tests that line up under `key`. */
  datatype Watch = Watch(key: Key, later: Test, ahead: nat)

  /** The later test asks for the key first of all. */
  predicate AsksFirst(w: Watch) {
    && w.key != ALL && ALL !in w.later.conflicts
    && w.later.conflicts != [] && w.later.conflicts[0] == w.key
  }

  /** In a stretch of tests that comes after `n` tests that line up, the watched one is nowhere too early. */
  ghost predicate Behind(n: nat, s: seq<Test>, w: Watch) {
    s == [] || (Behind(n, Front(s), w) && (Last(s) == w.later ==> w.ahead <= n + |Pick(Front(s), w.key)|))
  }

  // ---------- Stretches of tests ----------

  lemma {:induction false} BehindConcat(n: nat, s: seq<Test>, t: seq<Test>, w: Watch)
    ensures Behind(n, s + t, w) <==> Behind(n, s, w) && Behind(n + |Pick(s, w.key)|, t, w)
    decreases |t|
  {
    if t == [] {
      assert s + t == s;
    } else {
      assert Front(s + t) == s + Front(t) && Last(s + t) == Last(t);
      BehindConcat(n, s, Front(t), w);
      PickConcat(s, Front(t), w.key);
    }
  }

  lemma {:induction false} BehindAt(n: nat, s: seq<Test>, w: Watch, p: nat)
    requires Behind(n, s, w) && p < |s| && s[p] == w.later
    ensures w.ahead <= n + |Pick(s[..p], w.key)|
  {
    if p == |s| - 1 {
      assert s[..p] == Front(s);
    } else {
      BehindAt(n, Front(s), w, p);
      assert Front(s)[..p] == s[..p];
    }
  }

  lemma {:induction false} BehindFreely(n: nat, s: seq<Test>, w: Watch)
    requires w.later in s ==> w.ahead <= n
    ensures Behind(n, s, w)
  {
    if s != [] {
      BehindFreely(n, Front(s), w);
      assert Last(s) in s;
    }
  }

  /** Tests that neither line up nor are the watched one can be put in or left out anywhere; so can
      any that do not line up once enough are ahead. */
  lemma HarmlessBetween(n: nat, s: seq<Test>, q: seq<Test>, t: seq<Test>, w: Watch)
    requires Pick(q, w.key) == [] && (w.later in q ==> w.ahead <= n)
    ensures Behind(n, s + (q + t), w) <==> Behind(n, s + t, w)
  {
    var m := n + |Pick(s, w.key)|;
    BehindConcat(n, s, q + t, w);
    BehindConcat(m, q, t, w);
    BehindConcat(n, s, t, w);
    BehindFreely(m, q, w);
  }

  lemma PickOne(t: Test, key: Key)
    ensures Pick([t], key) == if LinesUp(t, key) then [t] else []
  {
    PickAppend([], t, key);
    assert [] + [t] == [t];
  }

  lemma ReverseLast(s: seq<Test>)
    requires s != []
    ensures Reverse(s) == [Last(s)] + Reverse(Front(s))
  {
    assert s == Front(s) + [Last(s)];
    ReverseConcat(Front(s), [Last(s)]);
    assert Reverse([Last(s)]) == [Last(s)];
  }

  // ---------- The invariant ----------

  ghost function RunningOf(active: seq<Lock>, running: map<nat, seq<Test>>, key: Key): seq<Test> {
    var h := Holder(active, key);
    if h.Some? && h.value in running then running[h.value] else []
  }

  /** How many tests that line up are done or running. */
  ghost function Started(done: seq<Test>, running: seq<Test>, key: Key): nat {
    |Pick(done, key)| + |Pick(running, key)|
  }

  /** The watched test is nowhere too early: not among the done and running tests, not in the queue
      of the key and on the stack; and where it waits for another key, enough tests have started. */
  ghost predicate WatchInv(s: System, w: Watch) {
    var m := s.master;
    && Watched(s.done, RunningOf(m.activeConflicts, s.running, w.key), m.waitingTests, m.testFiles, w)
    && forall t :: t in m.sequentialTests ==> ALL in t.conflicts
  }

  ghost predicate Watched(done: seq<Test>, running: seq<Test>, waiting: map<Key, seq<Test>>, testFiles: seq<Test>,
                          w: Watch) {
    && Behind(0, done + running, w)
    && Behind(Started(done, running, w.key), QueueOf(waiting, w.key) + Reverse(testFiles), w)
    && NotEarlyElsewhere(waiting, Started(done, running, w.key), w)
  }

  ghost predicate NotEarlyElsewhere(waiting: map<Key, seq<Test>>, n: nat, w: Watch) {
    forall k :: k in waiting && k != w.key && w.later in waiting[k] ==> w.ahead <= n
  }

  // ---------- Finishing ----------

  /** A queue that goes back to the stack. */
  lemma RequeueBehind(own: seq<Test>, q: seq<Test>, testFiles: seq<Test>, n: nat, w: Watch)
    requires Pick(q, w.key) == [] && (w.later in q ==> w.ahead <= n)
    requires Behind(n, own + Reverse(testFiles), w)
    ensures Behind(n, own + Reverse(testFiles + Reverse(q)), w)
  {
    RequeueReversed(q, testFiles);
    HarmlessBetween(n, own, q, Reverse(testFiles), w);
  }

  lemma RequeueReversed(q: seq<Test>, testFiles: seq<Test>)
    ensures Reverse(testFiles + Reverse(q)) == q + Reverse(testFiles)
  {
    ReverseConcat(testFiles, Reverse(q));
    ReverseReverse(q);
  }

  /** A lock is dropped, and its queue goes back to the stack. */
  lemma ReleaseOneBehind(waiting: map<Key, seq<Test>>, k: Key, testFiles: seq<Test>, n: nat, w: Watch)
    requires NotEarlyElsewhere(waiting, n, w)
    requires k in waiting && k != w.key ==> Pick(waiting[k], w.key) == []
    requires Behind(n, QueueOf(waiting, w.key) + Reverse(testFiles), w)
    ensures Behind(n, QueueOf(waiting - {k}, w.key) + Reverse(testFiles + Reverse(QueueOf(waiting, k))), w)
  {
    var q := QueueOf(waiting, k);
    if k == w.key {
      RequeueReversed(q, testFiles);
      NoneInFront(q + Reverse(testFiles));
    } else {
      assert Pick(q, w.key) == [];
      RequeueBehind(QueueOf(waiting, w.key), q, testFiles, n, w);
    }
  }

  lemma {:induction false} ReleaseBehind(active: seq<Lock>, worker: nat, waiting: map<Key, seq<Test>>,
                                         testFiles: seq<Test>, n: nat, w: Watch)
    requires Distinct(active) && NotEarlyElsewhere(waiting, n, w)
    requires forall k :: k in waiting && k != w.key ==> Pick(waiting[k], w.key) == []
    requires Behind(n, QueueOf(waiting, w.key) + Reverse(testFiles), w)
    ensures var rest := if Holder(active, w.key) == Some(worker) then [] else QueueOf(waiting, w.key);
            Behind(n, rest + Reverse(Release(active, worker, waiting, testFiles).testFiles), w)
  {
    if active == [] {
    } else if active[0].worker != worker {
      ReleaseBehind(active[1..], worker, waiting, testFiles, n, w);
    } else {
      var k := active[0].key;
      ReleaseOneBehind(waiting, k, testFiles, n, w);
      ReleaseBehind(active[1..], worker, waiting - {k}, testFiles + Reverse(QueueOf(waiting, k)), n, w);
    }
  }

  /** What runs with the key after a batch has finished. */
  lemma FinishedRunning(s: System, worker: nat, key: Key)
    requires worker in s.running && Distinct(s.master.activeConflicts)
    ensures var s', running := FinishStep(s, worker), RunningOf(s.master.activeConflicts, s.running, key);
            var running' := RunningOf(s'.master.activeConflicts, s'.running, key);
            if Holder(s.master.activeConflicts, key) == Some(worker) then running == s.running[worker] && running' == []
            else running' == running
  {
    ReleaseHolder(s.master.activeConflicts, worker, s.master.waitingTests, s.master.testFiles, key);
  }

  /** The batch of the worker goes from running to done. */
  lemma FinishedBehind(s: System, worker: nat, w: Watch)
    requires worker in s.running && AsksFirst(w) && LocksOk(s.master.activeConflicts, s.running)
    requires Behind(0, s.done + RunningOf(s.master.activeConflicts, s.running, w.key), w)
    ensures var s' := FinishStep(s, worker);
            var running := RunningOf(s.master.activeConflicts, s.running, w.key);
            var running' := RunningOf(s'.master.activeConflicts, s'.running, w.key);
            && Behind(0, s'.done + running', w)
            && Started(s'.done, running', w.key) == Started(s.done, running, w.key)
  {
    var batch, running := s.running[worker], RunningOf(s.master.activeConflicts, s.running, w.key);
    FinishedRunning(s, worker, w.key);
    PickConcat(s.done, batch, w.key);
    if Holder(s.master.activeConflicts, w.key) == Some(worker) {
      assert s.done + batch + [] == s.done + batch;
    } else {
      BystanderPicksNothing(s, worker, w.key);
      assert w.later !in batch;
      Assoc(s.done, batch, running);
      HarmlessBetween(0, s.done, batch, running, w);
    }
  }

  lemma FinishWatched(s: System, worker: nat, w: Watch)
    requires worker in s.running && AsksFirst(w) && WatchInv(s, w)
    requires LocksOk(s.master.activeConflicts, s.running)
    requires WaitingOk(s.master.waitingTests, s.master.activeConflicts)
    ensures WatchInv(FinishStep(s, worker), w)
  {
    var m, s' := s.master, FinishStep(s, worker);
    var n := Started(s.done, RunningOf(m.activeConflicts, s.running, w.key), w.key);
    FinishedBehind(s, worker, w);
    OthersPickNothing(m.waitingTests, m.activeConflicts, w.key);
    ReleaseBehind(m.activeConflicts, worker, m.waitingTests, m.testFiles, n, w);
    forall k
      ensures k in s'.master.waitingTests ==> k in m.waitingTests && s'.master.waitingTests[k] == m.waitingTests[k]
    {
      ReleaseWaiting(m.activeConflicts, worker, m.waitingTests, m.testFiles, k);
    }
    ReleaseWaiting(m.activeConflicts, worker, m.waitingTests, m.testFiles, w.key);
  }

  // ---------- Filling a batch ----------

  lemma ReverseFront(own: seq<Test>, testFiles: seq<Test>)
    requires testFiles != []
    ensures own + Reverse(testFiles) == own + ([Last(testFiles)] + Reverse(Front(testFiles)))
    ensures own + Reverse(testFiles) == own + [Last(testFiles)] + Reverse(Front(testFiles))
  {
    ReverseLast(testFiles);
    Assoc(own, [Last(testFiles)], Reverse(Front(testFiles)));
  }

  /** A filling pass while the key is held: what asks for it goes to its queue. */
  lemma {:induction false} FillHeldBehind(testFiles: seq<Test>, waiting: map<Key, seq<Test>>, active: seq<Lock>,
                                          files: seq<Test>, batchSize: nat, n: nat, w: Watch)
    requires AsksFirst(w) && Holder(active, w.key).Some? && NotEarlyElsewhere(waiting, n, w)
    requires Behind(n, QueueOf(waiting, w.key) + Reverse(testFiles), w)
    ensures var f := Fill(testFiles, waiting, active, files, batchSize);
            NotEarlyElsewhere(f.waiting, n, w) && Behind(n, QueueOf(f.waiting, w.key) + Reverse(f.testFiles), w)
    decreases |testFiles|
  {
    if |files| <= batchSize && testFiles != [] {
      var file, own := Last(testFiles), QueueOf(waiting, w.key);
      FirstHeldMeaning(file.conflicts, active);
      ReverseFront(own, testFiles);
      PickOne(file, w.key);
      match FirstHeld(file.conflicts, active)
      case Some(k) =>
        if k != w.key {
          HarmlessBetween(n, own, [file], Reverse(Front(testFiles)), w);
        }
        FillHeldBehind(Front(testFiles), waiting[k := QueueOf(waiting, k) + [file]], active, files, batchSize, n, w);
      case None =>
        assert w.key !in file.conflicts;
        HarmlessBetween(n, own, [file], Reverse(Front(testFiles)), w);
        FillHeldBehind(Front(testFiles), waiting, active, files + [file], batchSize, n, w);
    }
  }

  /** A test that does not line up is put aside: if it is the watched one, enough are in the batch. */
  lemma PutAside(files: seq<Test>, file: Test, rest: seq<Test>, n: nat, w: Watch)
    requires !LinesUp(file, w.key) && Behind(n, files + ([file] + rest), w)
    ensures Behind(n, files + rest, w) && (file == w.later ==> w.ahead <= n + |Pick(files, w.key)|)
  {
    var m := n + |Pick(files, w.key)|;
    PickOne(file, w.key);
    BehindConcat(n, files, [file] + rest, w);
    BehindConcat(m, [file], rest, w);
    BehindConcat(n, files, rest, w);
    if file == w.later {
      BehindAt(m, [file], w, 0);
    }
  }

  /** A filling pass while the key is free: the watched test is put aside only after enough tests
      that line up are in the batch. */
  lemma {:induction false} FillFreeBehind(testFiles: seq<Test>, waiting: map<Key, seq<Test>>, active: seq<Lock>,
                                          files: seq<Test>, batchSize: nat, n: nat, w: Watch)
    requires AsksFirst(w) && Holder(active, w.key) == None
    requires NotEarlyElsewhere(waiting, n + |Pick(files, w.key)|, w)
    requires Behind(n, files + Reverse(testFiles), w)
    ensures var f := Fill(testFiles, waiting, active, files, batchSize);
            && NotEarlyElsewhere(f.waiting, n + |Pick(f.files, w.key)|, w)
            && Behind(n, f.files + Reverse(f.testFiles), w)
            && QueueOf(f.waiting, w.key) == QueueOf(waiting, w.key)
    decreases |testFiles|
  {
    if |files| <= batchSize && testFiles != [] {
      var file, rest := Last(testFiles), Reverse(Front(testFiles));
      FirstHeldMeaning(file.conflicts, active);
      ReverseFront(files, testFiles);
      match FirstHeld(file.conflicts, active)
      case Some(k) =>
        PutAside(files, file, rest, n, w);
        FillFreeBehind(Front(testFiles), waiting[k := QueueOf(waiting, k) + [file]], active, files, batchSize, n, w);
      case None =>
        PickAppend(files, file, w.key);
        FillFreeBehind(Front(testFiles), waiting, active, files + [file], batchSize, n, w);
    }
  }

  // ---------- Dispatching ----------

  lemma AdmitWatched(s: System, w: Watch)
    requires AsksFirst(w) && WatchInv(s, w)
    ensures WatchInv(s.(master := Admit(s.master)), w)
  {
    var m := s.master;
    var later, own := Reverse(m.sequentialTests), QueueOf(m.waitingTests, w.key);
    var n := Started(s.done, RunningOf(m.activeConflicts, s.running, w.key), w.key);
    ReverseConcat(m.testFiles, m.sequentialTests);
    ReverseMultiset(m.sequentialTests);
    PickNone(later, w.key);
    HarmlessBetween(n, own, later, Reverse(m.testFiles), w);
  }

  /** What runs with the key after a dispatch, in terms of the batch. */
  lemma ServedRunning(active: seq<Lock>, running: map<nat, seq<Test>>, worker: nat, files: seq<Test>, key: Key)
    requires LocksOk(active, running) && Free(files, active)
    requires worker in running && running[worker] == []
    ensures var active' := if files == [] then active else TakeLocks(active, files, worker);
            var running' := if files == [] then running - {worker} else running[worker := files];
            RunningOf(active', running', key) ==
            if Holder(active, key).Some? then RunningOf(active, running, key)
            else if AskedBy(files, key) then files else []
    ensures Holder(active, key).Some? ==> !AskedBy(files, key)
  {
    if files != [] {
      TakeLocksHolder(active, files, worker, key);
    }
  }

  lemma UnaskedPicksNothing(files: seq<Test>, key: Key)
    requires !AskedBy(files, key)
    ensures Pick(files, key) == []
  {
    PickNone(files, key);
  }

  /** Filling a batch, and serving it, keeps the watch: the key is held, */
  lemma FillHeldWatched(done: seq<Test>, running: seq<Test>, waiting: map<Key, seq<Test>>, testFiles: seq<Test>,
                        active: seq<Lock>, size: nat, w: Watch)
    requires AsksFirst(w) && Watched(done, running, waiting, testFiles, w) && Holder(active, w.key).Some?
    ensures var f := Fill(testFiles, waiting, active, [], size); Watched(done, running, f.waiting, f.testFiles, w)
  {
    FillHeldBehind(testFiles, waiting, active, [], size, Started(done, running, w.key), w);
  }

  /** or free. */
  lemma FillFreeWatched(done: seq<Test>, waiting: map<Key, seq<Test>>, testFiles: seq<Test>, active: seq<Lock>,
                        size: nat, w: Watch)
    requires AsksFirst(w) && Watched(done, [], waiting, testFiles, w)
    requires Holder(active, w.key) == None && QueueOf(waiting, w.key) == []
    ensures var f := Fill(testFiles, waiting, active, [], size);
            Watched(done, if AskedBy(f.files, w.key) then f.files else [], f.waiting, f.testFiles, w)
  {
    var f, n := Fill(testFiles, waiting, active, [], size), |Pick(done, w.key)|;
    assert Started(done, [], w.key) == n;
    NoneInFront(done);
    FillFreeBehind(testFiles, waiting, active, [], size, n, w);
    BatchWatched(done, f.files, f.waiting, f.testFiles, w);
  }

  /** The batch runs with the key if it asks for it, and is harmless if not. */
  lemma BatchWatched(done: seq<Test>, files: seq<Test>, waiting: map<Key, seq<Test>>, testFiles: seq<Test>, w: Watch)
    requires Behind(0, done, w) && Behind(|Pick(done, w.key)|, files + Reverse(testFiles), w)
    requires QueueOf(waiting, w.key) == [] && NotEarlyElsewhere(waiting, Started(done, files, w.key), w)
    ensures Watched(done, if AskedBy(files, w.key) then files else [], waiting, testFiles, w)
  {
    FreeServed(done, files, Reverse(testFiles), |Pick(done, w.key)|, w);
    if AskedBy(files, w.key) {
      EmptyQueueWatched(done, files, waiting, testFiles, w);
    } else {
      UnaskedPicksNothing(files, w.key);
      NoneInFront(done);
      EmptyQueueWatched(done, [], waiting, testFiles, w);
    }
  }

  lemma EmptyQueueWatched(done: seq<Test>, running: seq<Test>, waiting: map<Key, seq<Test>>, testFiles: seq<Test>,
                          w: Watch)
    requires QueueOf(waiting, w.key) == [] && Behind(0, done + running, w)
    requires Behind(Started(done, running, w.key), Reverse(testFiles), w)
    requires NotEarlyElsewhere(waiting, Started(done, running, w.key), w)
    ensures Watched(done, running, waiting, testFiles, w)
  {
    NoneInFront(Reverse(testFiles));
  }

  lemma DispatchWatched(limits: Limits, s: System, worker: nat, w: Watch, a: Master, f: Filled)
    requires a == Admit(s.master) && s.running.Keys == s.master.workers && |a.workers| > 0
    requires f == Fill(a.testFiles, a.waitingTests, a.activeConflicts, [], BatchSize(limits, |a.workers|))
    requires LocksOk(a.activeConflicts, s.running) && WaitingOk(a.waitingTests, a.activeConflicts)
    requires worker in s.running && s.running[worker] == [] && Free(f.files, a.activeConflicts)
    requires AsksFirst(w) && WatchInv(s.(master := a), w)
    ensures WatchInv(DispatchStep(limits, s, worker), w)
  {
    var running := RunningOf(a.activeConflicts, s.running, w.key);
    ServedRunning(a.activeConflicts, s.running, worker, f.files, w.key);
    if Holder(a.activeConflicts, w.key).Some? {
      FillHeldWatched(s.done, running, a.waitingTests, a.testFiles, a.activeConflicts,
                      BatchSize(limits, |a.workers|), w);
    } else {
      FillFreeWatched(s.done, a.waitingTests, a.testFiles, a.activeConflicts, BatchSize(limits, |a.workers|), w);
    }
  }

  lemma NoneInFront(s: seq<Test>)
    ensures [] + s == s && s + [] == s
  {
  }

  /** The key was free: the batch comes after what is done, and the stack after the batch. */
  lemma FreeServed(done: seq<Test>, files: seq<Test>, rest: seq<Test>, n: nat, w: Watch)
    requires n == |Pick(done, w.key)| && Behind(0, done, w) && Behind(n, files + rest, w)
    ensures Behind(0, done + files, w) && Behind(n + |Pick(files, w.key)|, rest, w)
  {
    BehindConcat(n, files, rest, w);
    BehindConcat(0, done, files, w);
  }

  lemma StepWatched(limits: Limits, s: System, worker: nat, w: Watch, tests: seq<Test>)
    requires Inv(s, tests) && worker in s.running && AsksFirst(w) && WatchInv(s, w)
    ensures WatchInv(Step(limits, s, worker), w)
  {
    var s1 := s;
    if s.running[worker] != [] {
      FinishKeepsInv(s, worker, tests);
      FinishWatched(s, worker, w);
      s1 := FinishStep(s, worker);
    }
    var a := Admit(s1.master);
    var f := Fill(a.testFiles, a.waitingTests, a.activeConflicts, [], BatchSize(limits, |a.workers|));
    DispatchFill(limits, s1, worker, tests, a, f);
    AdmitWatched(s1, w);
    DispatchWatched(limits, s1, worker, w, a, f);
  }

  lemma {:induction false} RunWatched(limits: Limits, s0: System, speakers: seq<nat>, w: Watch, tests: seq<Test>)
    requires Inv(s0, tests) && AsksFirst(w) && WatchInv(s0, w) && RunFrom(limits, s0, speakers).Some?
    ensures WatchInv(RunFrom(limits, s0, speakers).value, w)
  {
    if speakers != [] {
      RunKeepsInv(limits, s0, Front(speakers), tests);
      RunWatched(limits, s0, Front(speakers), w, tests);
      StepWatched(limits, RunFrom(limits, s0, Front(speakers)).value, Last(speakers), w, tests);
    }
  }

  // ---------- The earlier test stays ahead ----------

  lemma {:induction false} ParallelConcat(a: seq<Test>, b: seq<Test>)
    ensures Parallel(a + b) == Parallel(a) + Parallel(b)
    decreases |b|
  {
    if b == [] {
      assert a + b == a;
    } else {
      var last := if ALL in Last(b).conflicts then [] else [Last(b)];
      assert Front(a + b) == a + Front(b) && Last(a + b) == Last(b);
      ParallelConcat(a, Front(b));
      assert Parallel(b) == Parallel(Front(b)) + last;
      Assoc(Parallel(a), Parallel(Front(b)), last);
    }
  }

  lemma {:induction false} ParallelMembers(tests: seq<Test>)
    ensures forall t :: t in Parallel(tests) ==> t in tests
    ensures forall t :: t in Sequential(tests) ==> ALL in t.conflicts
  {
    if tests != [] {
      ParallelMembers(Front(tests));
    }
  }

  lemma BehindAfter(first: seq<Test>, rest: seq<Test>, w: Watch)
    requires w.later !in first && w.ahead == |Pick(first, w.key)|
    ensures Behind(0, first + rest, w)
  {
    BehindFreely(0, first, w);
    BehindFreely(w.ahead, rest, w);
    BehindConcat(0, first, rest, w);
  }

  /** At the start the watched test is where it was given. */
  lemma GivenBehind(a: seq<Test>, b: seq<Test>, w: Watch)
    requires w.key != ALL && w.later !in a && w.ahead == |Pick(a, w.key)|
    ensures Behind(0, Parallel(a + b), w)
  {
    ParallelMembers(a);
    PickPartition(a, w.key);
    BehindAfter(Parallel(a), Parallel(b), w);
    ParallelConcat(a, b);
  }

  lemma WatchedAtStart(order: seq<Test>, testFiles: seq<Test>, w: Watch)
    requires Behind(0, order, w) && Reverse(testFiles) == order
    ensures Watched([], [], map[], testFiles, w)
  {
    NoneInFront(order);
    assert QueueOf(map[], w.key) == [];
    assert Pick([], w.key) == [];
  }

  lemma InitialWatched(tests: seq<Test>, requested: int, w: Watch)
    requires Behind(0, Parallel(tests), w)
    ensures WatchInv(Initial(tests, requested, false), w)
  {
    ParallelMembers(tests);
    ReverseReverse(Parallel(tests));
    WatchedAtStart(Parallel(tests), Reverse(Parallel(tests)), w);
  }

  lemma {:induction false} PickMembers(s: seq<Test>, key: Key)
    ensures forall t :: t in Pick(s, key) ==> t in s
  {
    if s != [] {
      PickMembers(Front(s), key);
    }
  }

  lemma PickPrefix(s: seq<Test>, p: nat, key: Key)
    requires p <= |s|
    ensures Pick(s[..p], key) <= Pick(s, key)
  {
    assert s == s[..p] + s[p..];
    PickConcat(s[..p], s[p..], key);
  }

  /** Wherever `u` is in the list, `t` is before it. */
  ghost predicate Ahead(done: seq<Test>, t: Test, u: Test) {
    forall p :: 0 <= p < |done| && done[p] == u ==> t in done[..p]
  }

  ghost predicate UnshuffledRun(tests: seq<Test>, requested: int, valgrind: bool, speakers: seq<nat>, s: System) {
    RunFrom(InitialLimits(tests, valgrind, false), Initial(tests, requested, false), speakers) == Some(s)
  }

  /** Enough tests that line up are ahead, so the one in question is. */
  lemma EnoughAhead(done: seq<Test>, tests: seq<Test>, p: nat, i: nat, key: Key)
    requires p <= |done| && i < |tests| && LinesUp(tests[i], key)
    requires Pick(done, key) <= Pick(tests, key) && |Pick(tests[..i + 1], key)| <= |Pick(done[..p], key)|
    ensures tests[i] in done[..p]
  {
    PickPrefix(done, p, key);
    PickPrefix(tests, i + 1, key);
    TakeNext(tests, i);
    PickAppend(tests[..i], tests[i], key);
    var n := |Pick(tests[..i], key)|;
    assert Pick(tests[..i + 1], key)[n] == tests[i];
    assert Pick(done[..p], key)[n] == Pick(tests, key)[n] == tests[i];
    PickMembers(done[..p], key);
    assert tests[i] in Pick(done[..p], key);
  }

  lemma WatchedFromStart(tests: seq<Test>, requested: int, i: nat, w: Watch)
    requires i < |tests| && AsksFirst(w) && w.later !in tests[..i + 1] && w.ahead == |Pick(tests[..i + 1], w.key)|
    ensures WatchInv(Initial(tests, requested, false), w)
  {
    GivenBehind(tests[..i + 1], tests[i + 1..], w);
    assert tests[..i + 1] + tests[i + 1..] == tests;
    InitialWatched(tests, requested, w);
  }

  /** In every unshuffled run the watched test is nowhere too early among the tests done. */
  lemma DoneBehind(tests: seq<Test>, requested: int, valgrind: bool, speakers: seq<nat>, s: System, w: Watch)
    requires UnshuffledRun(tests, requested, valgrind, speakers, s)
    requires AsksFirst(w) && WatchInv(Initial(tests, requested, false), w)
    ensures Behind(0, s.done, w)
  {
    InitialInv(tests, requested, false);
    RunWatched(InitialLimits(tests, valgrind, false), Initial(tests, requested, false), speakers, w, tests);
    BehindConcat(0, s.done, RunningOf(s.master.activeConflicts, s.running, w.key), w);
  }

  /** A test with a single key stays ahead of every later one that asks for the key first of all. */
  lemma StaysAhead(tests: seq<Test>, requested: int, valgrind: bool, speakers: seq<nat>, s: System,
                   i: nat, later: Test, key: Key)
    requires UnshuffledRun(tests, requested, valgrind, speakers, s)
    requires i < |tests| && later !in tests[..i + 1] && LinesUp(tests[i], key)
    requires key != ALL && ALL !in later.conflicts && later.conflicts != [] && later.conflicts[0] == key
    ensures Ahead(s.done, tests[i], later)
  {
    var w := Watch(key, later, |Pick(tests[..i + 1], key)|);
    WatchedFromStart(tests, requested, i, w);
    DoneBehind(tests, requested, valgrind, speakers, s, w);
    OriginalOrder(tests, requested, valgrind, speakers, s, key);
    forall p | 0 <= p < |s.done| && s.done[p] == later ensures tests[i] in s.done[..p] {
      BehindAt(0, s.done, w, p);
      EnoughAhead(s.done, tests, p, i, key);
    }
  }
}
