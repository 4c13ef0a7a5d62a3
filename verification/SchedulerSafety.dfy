/** Safety of the scheduler in every reachable state: mutual exclusion per conflict key,
    nothing lost, nothing run twice, no stuck state, and a bound on every run. */
module SchedulerSafety {
  import opened Wrappers
  import opened Subsequences
  import opened Gathering
  import opened Scheduling

  // ---------- The invariant ----------

  /** Held keys belong to busy workers, and every key of a running test is held by its worker. */
  ghost predicate LocksOk(active: seq<Lock>, running: map<nat, seq<Test>>) {
    && Distinct(active)
    && (forall k :: Holder(active, k).Some? ==>
          Holder(active, k).value in running && running[Holder(active, k).value] != [])
    && (forall w, t, k :: w in running && t in running[w] && k in t.conflicts ==> Holder(active, k) == Some(w))
  }

  /** A waiting queue is not empty, its key is held, and its tests asked for that key. */
  ghost predicate WaitingOk(waiting: map<Key, seq<Test>>, active: seq<Lock>) {
    forall k :: k in waiting ==>
      waiting[k] != [] && Holder(active, k).Some? &&
      forall t :: t in waiting[k] ==> k in t.conflicts && ALL !in t.conflicts
  }

  ghost predicate NoneSequential(tests: seq<Test>) {
    forall t :: t in tests ==> ALL !in t.conflicts
  }

  /** While several workers live, no "all" test is on the stack or running. */
  ghost predicate AllAlone(s: System) {
    |s.running| > 1 ==>
      NoneSequential(s.master.testFiles) && forall w :: w in s.running ==> NoneSequential(s.running[w])
  }

  ghost function Busy(running: map<nat, seq<Test>>): set<nat> {
    set w | w in running && running[w] != []
  }

  /** Tests the master has not handed out yet. */
  ghost function Pending(m: Master): multiset<Test> {
    multiset(m.testFiles) + multiset(m.sequentialTests) + Gather(m.waitingTests)
  }

  ghost predicate Conserved(s: System, tests: seq<Test>) {
    Pending(s.master) + Gather(s.running) + multiset(s.done) == multiset(tests)
  }

  ghost predicate Inv(s: System, tests: seq<Test>) {
    && s.running.Keys == s.master.workers
    && LocksOk(s.master.activeConflicts, s.running)
    && WaitingOk(s.master.waitingTests, s.master.activeConflicts)
    && AllAlone(s)
    && s.master.testsInProgress == |Busy(s.running)|
    && (s.running == map[] ==> Pending(s.master) == multiset{})
    && Conserved(s, tests)
  }

  // ---------- The lock table ----------

  lemma {:induction false} SetLockHolder(active: seq<Lock>, key: Key, worker: nat, k: Key)
    ensures Holder(SetLock(active, key, worker), k) == if k == key then Some(worker) else Holder(active, k)
  {
    if active != [] && active[0].key != key {
      SetLockHolder(active[1..], key, worker, k);
      assert SetLock(active, key, worker)[1..] == SetLock(active[1..], key, worker);
    } else if active != [] {
      assert SetLock(active, key, worker)[1..] == active[1..];
    }
  }

  lemma {:induction false} SetLockDistinct(active: seq<Lock>, key: Key, worker: nat)
    requires Distinct(active)
    ensures Distinct(SetLock(active, key, worker))
  {
    if active != [] && active[0].key != key {
      SetLockDistinct(active[1..], key, worker);
      SetLockHolder(active[1..], key, worker, active[0].key);
      assert SetLock(active, key, worker)[1..] == SetLock(active[1..], key, worker);
    } else if active != [] {
      assert SetLock(active, key, worker)[1..] == active[1..];
    }
  }

  lemma {:induction false} TakeKeysHolder(active: seq<Lock>, keys: seq<Key>, worker: nat, k: Key)
    ensures Holder(TakeKeys(active, keys, worker), k) == if k in keys then Some(worker) else Holder(active, k)
    ensures Distinct(active) ==> Distinct(TakeKeys(active, keys, worker))
  {
    if keys != [] {
      TakeKeysHolder(active, Front(keys), worker, k);
      SetLockHolder(TakeKeys(active, Front(keys), worker), Last(keys), worker, k);
      if Distinct(active) {
        SetLockDistinct(TakeKeys(active, Front(keys), worker), Last(keys), worker);
      }
      assert keys == Front(keys) + [Last(keys)];
    }
  }

  ghost predicate AskedBy(files: seq<Test>, k: Key) {
    exists t :: t in files && k in t.conflicts
  }

  lemma {:induction false} TakeLocksHolder(active: seq<Lock>, files: seq<Test>, worker: nat, k: Key)
    ensures Holder(TakeLocks(active, files, worker), k) == if AskedBy(files, k) then Some(worker) else Holder(active, k)
    ensures Distinct(active) ==> Distinct(TakeLocks(active, files, worker))
  {
    if files != [] {
      TakeLocksHolder(active, Front(files), worker, k);
      TakeKeysHolder(TakeLocks(active, Front(files), worker), Last(files).conflicts, worker, k);
      assert files == Front(files) + [Last(files)];
      assert AskedBy(files, k) <==> AskedBy(Front(files), k) || k in Last(files).conflicts;
    }
  }

  lemma {:induction false} FirstHeldMeaning(keys: seq<Key>, active: seq<Lock>)
    ensures FirstHeld(keys, active) == None ==> forall k :: k in keys ==> Holder(active, k) == None
    ensures FirstHeld(keys, active).Some? ==>
              FirstHeld(keys, active).value in keys && Holder(active, FirstHeld(keys, active).value).Some?
  {
    if keys != [] {
      FirstHeldMeaning(keys[1..], active);
      assert keys == [keys[0]] + keys[1..];
    }
  }

  // ---------- Releasing ----------

  lemma {:induction false} ReleaseHolder(active: seq<Lock>, worker: nat, waiting: map<Key, seq<Test>>,
                                         testFiles: seq<Test>, k: Key)
    requires Distinct(active)
    ensures var r := Release(active, worker, waiting, testFiles);
            && Distinct(r.active)
            && Holder(r.active, k) == if Holder(active, k) == Some(worker) then None else Holder(active, k)
  {
    if active != [] {
      var l := active[0];
      if l.worker == worker {
        ReleaseHolder(active[1..], worker, waiting - {l.key}, testFiles + Reverse(QueueOf(waiting, l.key)), k);
      } else {
        ReleaseHolder(active[1..], worker, waiting, testFiles, k);
        ReleaseHolder(active[1..], worker, waiting, testFiles, l.key);
        var r := Release(active[1..], worker, waiting, testFiles);
        assert ([l] + r.active)[1..] == r.active;
      }
    }
  }

  lemma {:induction false} ReleaseWaiting(active: seq<Lock>, worker: nat, waiting: map<Key, seq<Test>>,
                                          testFiles: seq<Test>, k: Key)
    requires Distinct(active)
    ensures var r := Release(active, worker, waiting, testFiles);
            && (k in r.waiting <==> k in waiting && Holder(active, k) != Some(worker))
            && (k in r.waiting ==> r.waiting[k] == waiting[k])
  {
    if active != [] {
      var l := active[0];
      if l.worker == worker {
        ReleaseWaiting(active[1..], worker, waiting - {l.key}, testFiles + Reverse(QueueOf(waiting, l.key)), k);
      } else {
        ReleaseWaiting(active[1..], worker, waiting, testFiles, k);
      }
    }
  }

  lemma {:induction false} ReleaseConserves(active: seq<Lock>, worker: nat, waiting: map<Key, seq<Test>>,
                                            testFiles: seq<Test>)
    ensures var r := Release(active, worker, waiting, testFiles);
            multiset(r.testFiles) + Gather(r.waiting) == multiset(testFiles) + Gather(waiting)
  {
    if active != [] {
      var l := active[0];
      if l.worker == worker {
        var q := QueueOf(waiting, l.key);
        ReleaseConserves(active[1..], worker, waiting - {l.key}, testFiles + Reverse(q));
        ReverseMultiset(q);
        if l.key in waiting {
          GatherRemove(waiting, l.key);
        } else {
          assert waiting - {l.key} == waiting;
        }
      } else {
        ReleaseConserves(active[1..], worker, waiting, testFiles);
      }
    }
  }

  lemma {:induction false} ReleaseMembers(active: seq<Lock>, worker: nat, waiting: map<Key, seq<Test>>,
                                          testFiles: seq<Test>)
    requires NoneSequential(testFiles)
    requires forall k :: k in waiting ==> NoneSequential(waiting[k])
    ensures NoneSequential(Release(active, worker, waiting, testFiles).testFiles)
  {
    if active != [] {
      var l := active[0];
      if l.worker == worker {
        var q := QueueOf(waiting, l.key);
        assert NoneSequential(q);
        ReverseMultiset(q);
        ReleaseMembers(active[1..], worker, waiting - {l.key}, testFiles + Reverse(q));
      } else {
        ReleaseMembers(active[1..], worker, waiting, testFiles);
      }
    }
  }

  lemma FinishKeepsLocks(s: System, worker: nat)
    requires worker in s.running
    requires LocksOk(s.master.activeConflicts, s.running)
    requires WaitingOk(s.master.waitingTests, s.master.activeConflicts)
    ensures LocksOk(FinishStep(s, worker).master.activeConflicts, FinishStep(s, worker).running)
    ensures WaitingOk(FinishStep(s, worker).master.waitingTests, FinishStep(s, worker).master.activeConflicts)
  {
    var m, s' := s.master, FinishStep(s, worker);
    var active, active', running' := m.activeConflicts, s'.master.activeConflicts, s'.running;
    ReleaseHolder(active, worker, m.waitingTests, m.testFiles, ALL);
    forall k
      ensures Holder(active', k) == if Holder(active, k) == Some(worker) then None else Holder(active, k)
    {
      ReleaseHolder(active, worker, m.waitingTests, m.testFiles, k);
    }
    forall k | k in s'.master.waitingTests
      ensures k in m.waitingTests && s'.master.waitingTests[k] == m.waitingTests[k] && Holder(active', k).Some?
    {
      ReleaseWaiting(active, worker, m.waitingTests, m.testFiles, k);
    }
    forall w, t: Test, k | w in running' && t in running'[w] && k in t.conflicts
      ensures Holder(active', k) == Some(w)
    {
      assert t in s.running[w] && Holder(active, k) == Some(w);
    }
  }

  lemma FinishConserves(s: System, worker: nat, tests: seq<Test>)
    requires Conserved(s, tests) && worker in s.running
    ensures Conserved(FinishStep(s, worker), tests)
  {
    var m, s' := s.master, FinishStep(s, worker);
    var idle, batch := Gather(s.running - {worker}), multiset(s.running[worker]);
    ReleaseConserves(m.activeConflicts, worker, m.waitingTests, m.testFiles);
    var rest := multiset(m.sequentialTests);
    calc {
      Pending(s'.master);
      multiset(s'.master.testFiles) + Gather(s'.master.waitingTests) + rest;
      multiset(m.testFiles) + Gather(m.waitingTests) + rest;
      Pending(m);
    }
    GatherRemove(s.running, worker);
    GatherUpdate(s.running, worker, []);
    assert Gather(s.running) == batch + idle && Gather(s'.running) == idle;
    assert multiset(s'.done) == multiset(s.done) + batch;
  }

  lemma FinishKeepsInv(s: System, worker: nat, tests: seq<Test>)
    requires Inv(s, tests) && worker in s.running && s.running[worker] != []
    ensures Inv(FinishStep(s, worker), tests)
  {
    var m, s' := s.master, FinishStep(s, worker);
    FinishKeepsLocks(s, worker);
    assert Busy(s'.running) == Busy(s.running) - {worker};
    FinishConserves(s, worker, tests);
    assert s'.running.Keys == s.running.Keys;
    assert |s'.running| == |s.running| by {
      assert |s'.running.Keys| == |s.running.Keys|;
    }
    if |s.running| > 1 {
      ReleaseMembers(m.activeConflicts, worker, m.waitingTests, m.testFiles);
    }
  }

  // ---------- Filling a batch ----------

  ghost predicate Free(files: seq<Test>, active: seq<Lock>) {
    forall t, k :: t in files && k in t.conflicts ==> Holder(active, k) == None
  }

  lemma {:induction false} FillConserves(testFiles: seq<Test>, waiting: map<Key, seq<Test>>, active: seq<Lock>,
                                         files: seq<Test>, batchSize: nat)
    ensures var f := Fill(testFiles, waiting, active, files, batchSize);
            multiset(f.testFiles) + Gather(f.waiting) + multiset(f.files)
            == multiset(testFiles) + Gather(waiting) + multiset(files)
    decreases |testFiles|
  {
    if |files| <= batchSize && testFiles != [] {
      var file := Last(testFiles);
      Append(Front(testFiles), file);
      assert testFiles == Front(testFiles) + [file];
      match FirstHeld(file.conflicts, active)
      case Some(key) =>
        GatherPut(waiting, key, QueueOf(waiting, key), file);
        Gathering.Assoc(multiset(Front(testFiles)), Gather(waiting), multiset{file});
        SwapLast(multiset(Front(testFiles)), Gather(waiting), multiset{file});
        FillConserves(Front(testFiles), waiting[key := QueueOf(waiting, key) + [file]], active, files, batchSize);
      case None =>
        var a, b, c := multiset(Front(testFiles)), Gather(waiting), multiset(files);
        Append(files, file);
        Gathering.Assoc(a + b, c, multiset{file});
        SwapLast(a + b, c, multiset{file});
        SwapLast(a, b, multiset{file});
        FillConserves(Front(testFiles), waiting, active, files + [file], batchSize);
    }
  }

  /** Batches hold only free tests; queues stay well-formed; an empty batch empties the stack. */
  lemma {:induction false} FillMeaning(testFiles: seq<Test>, waiting: map<Key, seq<Test>>, active: seq<Lock>,
                                       files: seq<Test>, batchSize: nat)
    requires Free(files, active) && WaitingOk(waiting, active)
    requires NoneSequential(testFiles) || forall k :: Holder(active, k) == None
    ensures var f := Fill(testFiles, waiting, active, files, batchSize);
            && Free(f.files, active) && WaitingOk(f.waiting, active)
            && (f.files == [] ==> f.testFiles == [])
            && (NoneSequential(testFiles) ==> NoneSequential(f.testFiles))
            && (NoneSequential(testFiles) && NoneSequential(files) ==> NoneSequential(f.files))
            && |f.files| >= |files|
    decreases |testFiles|
  {
    if |files| <= batchSize && testFiles != [] {
      var file := Last(testFiles);
      FirstHeldMeaning(file.conflicts, active);
      match FirstHeld(file.conflicts, active)
      case Some(key) =>
        FillMeaning(Front(testFiles), waiting[key := QueueOf(waiting, key) + [file]], active, files, batchSize);
      case None =>
        FillMeaning(Front(testFiles), waiting, active, files + [file], batchSize);
    }
  }

  /** With no key held, nothing is put aside: a non-empty stack gives a non-empty batch. */
  lemma {:induction false} FillUnhindered(testFiles: seq<Test>, waiting: map<Key, seq<Test>>, active: seq<Lock>,
                                          files: seq<Test>, batchSize: nat)
    requires forall k :: Holder(active, k) == None
    ensures var f := Fill(testFiles, waiting, active, files, batchSize);
            f.waiting == waiting && (f.files == [] ==> testFiles == [])
    decreases |testFiles|
  {
    if |files| <= batchSize && testFiles != [] {
      FirstHeldMeaning(Last(testFiles).conflicts, active);
      FillUnhindered(Front(testFiles), waiting, active, files + [Last(testFiles)], batchSize);
      FillGrows(Front(testFiles), waiting, active, files + [Last(testFiles)], batchSize);
    }
  }

  lemma {:induction false} FillGrows(testFiles: seq<Test>, waiting: map<Key, seq<Test>>, active: seq<Lock>,
                                     files: seq<Test>, batchSize: nat)
    ensures files <= Fill(testFiles, waiting, active, files, batchSize).files
    decreases |testFiles|
  {
    if |files| <= batchSize && testFiles != [] {
      var file := Last(testFiles);
      match FirstHeld(file.conflicts, active)
      case Some(key) =>
        FillGrows(Front(testFiles), waiting[key := QueueOf(waiting, key) + [file]], active, files, batchSize);
      case None =>
        FillGrows(Front(testFiles), waiting, active, files + [file], batchSize);
    }
  }

  // ---------- Dispatching ----------

  lemma Alone(s: System, worker: nat)
    requires LocksOk(s.master.activeConflicts, s.running)
    requires worker in s.running && s.running[worker] == [] && |s.running| == 1
    ensures s.running.Keys == {worker}
    ensures forall k :: Holder(s.master.activeConflicts, k) == None
  {
    assert |s.running.Keys - {worker}| == 0;
    assert s.running.Keys == {worker};
  }

  /** What the filled batch looks like in an invariant state, for the idle worker that spoke. */
  lemma DispatchFill(limits: Limits, s: System, worker: nat, tests: seq<Test>, a: Master, f: Filled)
    requires Inv(s, tests) && worker in s.running && s.running[worker] == []
    requires a == Admit(s.master)
    requires f == Fill(a.testFiles, a.waitingTests, a.activeConflicts, [], BatchSize(limits, |a.workers|))
    ensures Free(f.files, a.activeConflicts) && WaitingOk(f.waiting, a.activeConflicts)
    ensures f.files == [] ==> f.testFiles == []
    ensures |s.running| > 1 ==> NoneSequential(f.testFiles) && NoneSequential(f.files)
    ensures |s.running| == 1 && f.files == [] ==> f.waiting == map[] && a.sequentialTests == []
  {
    assert |s.master.workers| == |s.running|;
    if |s.running| == 1 {
      Alone(s, worker);
      FillUnhindered(a.testFiles, a.waitingTests, a.activeConflicts, [], BatchSize(limits, |a.workers|));
      assert a.waitingTests == map[];
    }
    FillMeaning(a.testFiles, a.waitingTests, a.activeConflicts, [], BatchSize(limits, |a.workers|));
  }

  /** What a dispatch leaves is what filling a batch leaves. */
  lemma DispatchLeaves(limits: Limits, m: Master, worker: nat)
    requires worker in m.workers
    ensures var a := Admit(m);
            var f := Fill(a.testFiles, a.waitingTests, a.activeConflicts, [], BatchSize(limits, |a.workers|));
            var (m', files) := Dispatch(limits, m, worker);
            Filled(m'.testFiles, m'.waitingTests, files) == f && m'.sequentialTests == a.sequentialTests
  {
  }

  /** A master that is left, together with what it hands out, has everything it had. */
  lemma DispatchPending(limits: Limits, m: Master, worker: nat)
    requires worker in m.workers
    ensures var (m', files) := Dispatch(limits, m, worker); Pending(m') + multiset(files) == Pending(m)
  {
    var a := Admit(m);
    var (m', files) := Dispatch(limits, m, worker);
    DispatchLeaves(limits, m, worker);
    FillConserves(a.testFiles, a.waitingTests, a.activeConflicts, [], BatchSize(limits, |a.workers|));
    AdmitPending(m);
    HandOut(multiset(m'.testFiles), Gather(m'.waitingTests), multiset(files), multiset(a.sequentialTests),
            multiset(a.testFiles), Gather(a.waitingTests));
  }

  lemma HandOut(left: multiset<Test>, waiting: multiset<Test>, files: multiset<Test>, later: multiset<Test>,
                all: multiset<Test>, before: multiset<Test>)
    requires left + waiting + files == all + before
    ensures left + later + waiting + files == all + later + before
  {
    SwapLast(left, later, waiting);
    SwapLast(left + waiting, later, files);
    SwapLast(all, later, before);
  }

  lemma AdmitPending(m: Master)
    ensures Pending(Admit(m)) == Pending(m)
  {
    assert multiset(m.testFiles + m.sequentialTests) == multiset(m.testFiles) + multiset(m.sequentialTests);
  }

  lemma DispatchConserves(limits: Limits, s: System, worker: nat, tests: seq<Test>)
    requires s.running.Keys == s.master.workers && Conserved(s, tests)
    requires worker in s.running && s.running[worker] == []
    ensures Conserved(DispatchStep(limits, s, worker), tests)
  {
    var (m, files) := Dispatch(limits, s.master, worker);
    var s' := DispatchStep(limits, s, worker);
    DispatchPending(limits, s.master, worker);
    GatherRemove(s.running, worker);
    GatherUpdate(s.running, worker, files);
    assert Gather(s'.running) == Gather(s.running) + multiset(files);
  }

  lemma GrantKeepsLocks(active: seq<Lock>, running: map<nat, seq<Test>>, worker: nat, files: seq<Test>)
    requires LocksOk(active, running) && Free(files, active)
    requires worker in running && running[worker] == [] && files != []
    ensures LocksOk(TakeLocks(active, files, worker), running[worker := files])
    ensures forall k :: Holder(active, k).Some? ==> Holder(TakeLocks(active, files, worker), k).Some?
  {
    var active', running' := TakeLocks(active, files, worker), running[worker := files];
    TakeLocksHolder(active, files, worker, ALL);
    forall k
      ensures Holder(active', k) == if AskedBy(files, k) then Some(worker) else Holder(active, k)
      ensures AskedBy(files, k) ==> Holder(active, k) == None
    {
      TakeLocksHolder(active, files, worker, k);
    }
    forall k | Holder(active', k).Some?
      ensures Holder(active', k).value in running' && running'[Holder(active', k).value] != []
    {
      if !AskedBy(files, k) {
        assert Holder(active, k).Some? && Holder(active, k).value != worker;
      }
    }
    forall w, t: Test, k | w in running' && t in running'[w] && k in t.conflicts
      ensures Holder(active', k) == Some(w)
    {
      if w == worker {
        assert AskedBy(files, k);
      } else {
        assert t in running[w] && Holder(active, k) == Some(w);
      }
    }
  }

  lemma GrantKeepsBusy(running: map<nat, seq<Test>>, worker: nat, files: seq<Test>)
    requires worker in running && running[worker] == [] && files != []
    ensures |Busy(running[worker := files])| == |Busy(running)| + 1
    ensures |running[worker := files]| == |running| > 0
  {
    var running' := running[worker := files];
    assert running'.Keys == running.Keys;
    assert |running'| == |running'.Keys| == |running.Keys| == |running|;
    assert Busy(running') == Busy(running) + {worker};
  }

  lemma GrantKeepsInv(limits: Limits, s: System, worker: nat, tests: seq<Test>)
    requires Inv(s, tests) && worker in s.running && s.running[worker] == []
    requires Dispatch(limits, s.master, worker).1 != []
    ensures Inv(DispatchStep(limits, s, worker), tests)
  {
    var a := Admit(s.master);
    var f := Fill(a.testFiles, a.waitingTests, a.activeConflicts, [], BatchSize(limits, |a.workers|));
    var s' := DispatchStep(limits, s, worker);
    DispatchConserves(limits, s, worker, tests);
    assert s'.running == s.running[worker := f.files];
    GrantKeepsBusy(s.running, worker, f.files);
    assert && LocksOk(s'.master.activeConflicts, s'.running)
           && WaitingOk(s'.master.waitingTests, s'.master.activeConflicts) && AllAlone(s') by {
      DispatchFill(limits, s, worker, tests, a, f);
      GrantKeepsLocks(a.activeConflicts, s.running, worker, f.files);
    }
  }

  lemma TerminateKeepsInv(limits: Limits, s: System, worker: nat, tests: seq<Test>)
    requires Inv(s, tests) && worker in s.running && s.running[worker] == []
    requires Dispatch(limits, s.master, worker).1 == []
    ensures Inv(DispatchStep(limits, s, worker), tests)
    ensures DispatchStep(limits, s, worker).running == map[] ==>
              var m := DispatchStep(limits, s, worker).master;
              m.testFiles == [] && m.sequentialTests == [] && m.waitingTests == map[]
  {
    var a := Admit(s.master);
    var f := Fill(a.testFiles, a.waitingTests, a.activeConflicts, [], BatchSize(limits, |a.workers|));
    var s' := DispatchStep(limits, s, worker);
    DispatchFill(limits, s, worker, tests, a, f);
    DispatchConserves(limits, s, worker, tests);
    assert s'.running == s.running - {worker};
    assert s'.running.Keys == s.running.Keys - {worker};
    assert |s'.running| == |s'.running.Keys| == |s.running.Keys| - 1;
    assert Busy(s'.running) == Busy(s.running);
    GatherEmpty<Key, Test>(map[]);
  }

  /** Every message keeps the invariant. */
  lemma StepKeepsInv(limits: Limits, s: System, worker: nat, tests: seq<Test>)
    requires Inv(s, tests) && worker in s.running
    ensures Inv(Step(limits, s, worker), tests)
  {
    var s1 := s;
    if s.running[worker] != [] {
      FinishKeepsInv(s, worker, tests);
      s1 := FinishStep(s, worker);
    }
    if Dispatch(limits, s1.master, worker).1 != [] {
      GrantKeepsInv(limits, s1, worker, tests);
    } else {
      TerminateKeepsInv(limits, s1, worker, tests);
    }
  }
}
