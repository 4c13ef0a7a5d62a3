/** Without shuffling, tests that conflict on one key alone run in their original order, and tests
    marked "all" in the reverse of it. */
module SchedulerOrder {
  import opened Wrappers
  import opened Subsequences
  import opened Scheduling
  import opened SchedulerSafety
  import opened SchedulerRuns

  /** A test lines up under its only conflict key, and if it is marked "all", under that mark. */
  predicate LinesUp(t: Test, key: Key) {
    key in t.conflicts && (key == ALL || forall k :: k in t.conflicts ==> k == key)
  }

  /** The tests that line up under `key`, in order. */
  function Pick(tests: seq<Test>, key: Key): seq<Test> {
    if tests == [] then []
    else Pick(Front(tests), key) + if LinesUp(Last(tests), key) then [Last(tests)] else []
  }

  // ---------- Picking ----------

  lemma {:induction false} PickConcat(a: seq<Test>, b: seq<Test>, key: Key)
    ensures Pick(a + b, key) == Pick(a, key) + Pick(b, key)
    decreases |b|
  {
    if b == [] {
      assert a + b == a;
    } else {
      assert Front(a + b) == a + Front(b);
      PickConcat(a, Front(b), key);
    }
  }

  lemma {:induction false} PickReverse(s: seq<Test>, key: Key)
    ensures Pick(Reverse(s), key) == Reverse(Pick(s, key))
  {
    if s != [] {
      PickReverse(s[1..], key);
      PickConcat(Reverse(s[1..]), [s[0]], key);
      PickConcat([s[0]], s[1..], key);
      PickAppend([], s[0], key);
      assert s == [s[0]] + s[1..] && [] + [s[0]] == [s[0]];
      ReverseConcat(Pick([s[0]], key), Pick(s[1..], key));
    }
  }

  lemma {:induction false} PickNone(s: seq<Test>, key: Key)
    requires forall t :: t in s ==> !LinesUp(t, key)
    ensures Pick(s, key) == []
  {
    if s != [] {
      PickNone(Front(s), key);
      assert Last(s) in s;
    }
  }

  // ---------- The invariant ----------

  ghost function RunningPick(active: seq<Lock>, running: map<nat, seq<Test>>, key: Key): seq<Test> {
    var h := Holder(active, key);
    if h.Some? && h.value in running then Pick(running[h.value], key) else []
  }

  /** Done, running, waiting, and still on the stack (from its top). */
  ghost function Lineup(s: System, key: Key): seq<Test> {
    Pick(s.done, key) + RunningPick(s.master.activeConflicts, s.running, key)
    + (Pick(QueueOf(s.master.waitingTests, key), key) + Reverse(Pick(s.master.testFiles, key)))
  }

  /** The order in which tests come out: "all" tests are not reversed with the others, so the
      stack turns them round. */
  ghost function Outcome(tests: seq<Test>, key: Key): seq<Test> {
    if key == ALL then Reverse(Pick(tests, key)) else Pick(tests, key)
  }

  /** All in line, or all still in the list of sequential tests. */
  ghost predicate OrderInv(s: System, key: Key, tests: seq<Test>) {
    var later := Reverse(Pick(s.master.sequentialTests, key));
    (later == [] && Lineup(s, key) == Outcome(tests, key)) || (Lineup(s, key) == [] && later == Outcome(tests, key))
  }

  /** While several workers live no "all" test is on the stack; a single idle one holds no key. */
  ghost predicate NoAllInTheWay(testFiles: seq<Test>, active: seq<Lock>) {
    NoneSequential(testFiles) || forall k :: Holder(active, k) == None
  }

  // ---------- Finishing ----------

  /** Popping a queue onto the stack puts its head on top. */
  lemma PushBack(testFiles: seq<Test>, q: seq<Test>, key: Key)
    ensures Reverse(Pick(testFiles + Reverse(q), key)) == Pick(q, key) + Reverse(Pick(testFiles, key))
  {
    PickConcat(testFiles, Reverse(q), key);
    PickReverse(q, key);
    ReverseConcat(Pick(testFiles, key), Reverse(Pick(q, key)));
    ReverseReverse(Pick(q, key));
  }

  /** One lock is dropped and its queue goes back to the stack. */
  lemma ReleaseOneOrder(active: seq<Lock>, waiting: map<Key, seq<Test>>, testFiles: seq<Test>, key: Key)
    requires active != [] && Distinct(active)
    requires forall k :: k in waiting && k != key ==> Pick(waiting[k], key) == []
    ensures var l, rest := active[0], waiting - {active[0].key};
            var more := testFiles + Reverse(QueueOf(waiting, l.key));
            if l.key == key then
              Holder(active[1..], key) == None
              && Reverse(Pick(more, key)) == Pick(QueueOf(waiting, key), key) + Reverse(Pick(testFiles, key))
            else
              Holder(active[1..], key) == Holder(active, key) && QueueOf(rest, key) == QueueOf(waiting, key)
              && Reverse(Pick(more, key)) == Reverse(Pick(testFiles, key))
  {
    var l := active[0];
    PushBack(testFiles, QueueOf(waiting, l.key), key);
    if l.key != key {
      assert Pick(QueueOf(waiting, l.key), key) == [];
    }
  }

  lemma {:induction false} ReleaseOrder(active: seq<Lock>, worker: nat, waiting: map<Key, seq<Test>>,
                                        testFiles: seq<Test>, key: Key)
    requires Distinct(active)
    requires forall k :: k in waiting && k != key ==> Pick(waiting[k], key) == []
    ensures var r := Release(active, worker, waiting, testFiles);
            Reverse(Pick(r.testFiles, key)) ==
            (if Holder(active, key) == Some(worker) then Pick(QueueOf(waiting, key), key) else [])
            + Reverse(Pick(testFiles, key))
  {
    if active != [] {
      var l := active[0];
      if l.worker == worker {
        var more := testFiles + Reverse(QueueOf(waiting, l.key));
        ReleaseOrder(active[1..], worker, waiting - {l.key}, more, key);
        ReleaseOneOrder(active, waiting, testFiles, key);
      } else {
        ReleaseOrder(active[1..], worker, waiting, testFiles, key);
      }
    }
  }

  lemma OthersPickNothing(waiting: map<Key, seq<Test>>, active: seq<Lock>, key: Key)
    requires WaitingOk(waiting, active)
    ensures forall k :: k in waiting && k != key ==> Pick(waiting[k], key) == []
  {
    forall k | k in waiting && k != key ensures Pick(waiting[k], key) == [] {
      PickNone(waiting[k], key);
    }
  }

  lemma BystanderPicksNothing(s: System, worker: nat, key: Key)
    requires LocksOk(s.master.activeConflicts, s.running) && worker in s.running
    requires Holder(s.master.activeConflicts, key) != Some(worker)
    ensures Pick(s.running[worker], key) == []
  {
    PickNone(s.running[worker], key);
  }

  /** The worker's batch goes from running to done. */
  lemma FinishDone(s: System, worker: nat, key: Key, active': seq<Lock>)
    requires worker in s.running && LocksOk(s.master.activeConflicts, s.running)
    requires Holder(active', key) ==
             var h := Holder(s.master.activeConflicts, key); if h == Some(worker) then None else h
    ensures Pick(s.done + s.running[worker], key) + RunningPick(active', s.running[worker := []], key)
            == Pick(s.done, key) + RunningPick(s.master.activeConflicts, s.running, key)
  {
    PickConcat(s.done, s.running[worker], key);
    if Holder(s.master.activeConflicts, key) != Some(worker) {
      BystanderPicksNothing(s, worker, key);
    }
  }

  /** Its queue goes back to the stack. */
  lemma FinishStack(m: Master, worker: nat, key: Key, r: Released)
    requires Distinct(m.activeConflicts) && WaitingOk(m.waitingTests, m.activeConflicts)
    requires r == Release(m.activeConflicts, worker, m.waitingTests, m.testFiles)
    ensures Pick(QueueOf(r.waiting, key), key) + Reverse(Pick(r.testFiles, key))
            == Pick(QueueOf(m.waitingTests, key), key) + Reverse(Pick(m.testFiles, key))
  {
    OthersPickNothing(m.waitingTests, m.activeConflicts, key);
    ReleaseWaiting(m.activeConflicts, worker, m.waitingTests, m.testFiles, key);
    ReleaseOrder(m.activeConflicts, worker, m.waitingTests, m.testFiles, key);
    if Holder(m.activeConflicts, key) == Some(worker) {
      assert QueueOf(r.waiting, key) == [];
    } else {
      assert QueueOf(r.waiting, key) == QueueOf(m.waitingTests, key);
    }
  }

  lemma FinishOrder(s: System, worker: nat, key: Key)
    requires worker in s.running
    requires LocksOk(s.master.activeConflicts, s.running)
    requires WaitingOk(s.master.waitingTests, s.master.activeConflicts)
    ensures Lineup(FinishStep(s, worker), key) == Lineup(s, key)
  {
    var m := s.master;
    var r := Release(m.activeConflicts, worker, m.waitingTests, m.testFiles);
    ReleaseHolder(m.activeConflicts, worker, m.waitingTests, m.testFiles, key);
    FinishDone(s, worker, key, r.active);
    FinishStack(m, worker, key, r);
  }

  // ---------- Dispatching ----------

  /** Putting the top of the stack in a waiting queue leaves the line-up as it was. */
  lemma QueueOrder(testFiles: seq<Test>, waiting: map<Key, seq<Test>>, k: Key, key: Key)
    requires testFiles != [] && (LinesUp(Last(testFiles), key) ==> k == key)
    ensures Pick(QueueOf(waiting[k := QueueOf(waiting, k) + [Last(testFiles)]], key), key)
            + Reverse(Pick(Front(testFiles), key))
            == Pick(QueueOf(waiting, key), key) + Reverse(Pick(testFiles, key))
  {
    if k == key {
      MoveToBatch(QueueOf(waiting, k), testFiles, key);
    } else {
      PopOrder(testFiles, key);
    }
  }

  /** A filling pass while the key is held: its tests move from the stack to its queue. */
  lemma {:induction false} FillHeld(testFiles: seq<Test>, waiting: map<Key, seq<Test>>, active: seq<Lock>,
                                    files: seq<Test>, batchSize: nat, key: Key)
    requires Holder(active, key).Some? && NoAllInTheWay(testFiles, active)
    ensures var f := Fill(testFiles, waiting, active, files, batchSize);
            && Pick(f.files, key) == Pick(files, key)
            && Pick(QueueOf(f.waiting, key), key) + Reverse(Pick(f.testFiles, key))
               == Pick(QueueOf(waiting, key), key) + Reverse(Pick(testFiles, key))
    decreases |testFiles|
  {
    if |files| <= batchSize && testFiles != [] {
      var file := Last(testFiles);
      FirstHeldMeaning(file.conflicts, active);
      match FirstHeld(file.conflicts, active)
      case Some(k) =>
        QueueOrder(testFiles, waiting, k, key);
        FillHeld(Front(testFiles), waiting[k := QueueOf(waiting, k) + [file]], active, files, batchSize, key);
      case None =>
        PopOrder(testFiles, key);
        PickAppend(files, file, key);
        assert !LinesUp(file, key);
        FillHeld(Front(testFiles), waiting, active, files + [file], batchSize, key);
    }
  }

  lemma MoveToBatch(files: seq<Test>, testFiles: seq<Test>, key: Key)
    requires testFiles != []
    ensures Pick(files + [Last(testFiles)], key) + Reverse(Pick(Front(testFiles), key))
            == Pick(files, key) + Reverse(Pick(testFiles, key))
  {
    var file := Last(testFiles);
    PopOrder(testFiles, key);
    PickAppend(files, file, key);
    Assoc(Pick(files, key), if LinesUp(file, key) then [file] else [], Reverse(Pick(Front(testFiles), key)));
  }

  /** A filling pass while the key is free: its tests move from the stack to the batch. */
  lemma {:induction false} FillFree(testFiles: seq<Test>, waiting: map<Key, seq<Test>>, active: seq<Lock>,
                                    files: seq<Test>, batchSize: nat, key: Key)
    requires Holder(active, key) == None && NoAllInTheWay(testFiles, active)
    ensures var f := Fill(testFiles, waiting, active, files, batchSize);
            && QueueOf(f.waiting, key) == QueueOf(waiting, key)
            && Pick(f.files, key) + Reverse(Pick(f.testFiles, key)) == Pick(files, key) + Reverse(Pick(testFiles, key))
    decreases |testFiles|
  {
    if |files| <= batchSize && testFiles != [] {
      var file := Last(testFiles);
      FirstHeldMeaning(file.conflicts, active);
      match FirstHeld(file.conflicts, active)
      case Some(k) =>
        PopOrder(testFiles, key);
        assert !LinesUp(file, key);
        FillFree(Front(testFiles), waiting[k := QueueOf(waiting, k) + [file]], active, files, batchSize, key);
      case None =>
        MoveToBatch(files, testFiles, key);
        FillFree(Front(testFiles), waiting, active, files + [file], batchSize, key);
    }
  }

  lemma PickAppend(s: seq<Test>, t: Test, key: Key)
    ensures Pick(s + [t], key) == Pick(s, key) + if LinesUp(t, key) then [t] else []
  {
    assert Front(s + [t]) == s;
  }

  lemma PopOrder(testFiles: seq<Test>, key: Key)
    requires testFiles != []
    ensures Reverse(Pick(testFiles, key)) ==
            (if LinesUp(Last(testFiles), key) then [Last(testFiles)] else []) + Reverse(Pick(Front(testFiles), key))
  {
    ReverseConcat(Pick(Front(testFiles), key), if LinesUp(Last(testFiles), key) then [Last(testFiles)] else []);
    assert Reverse([Last(testFiles)]) == [Last(testFiles)];
  }

  lemma AdmitOrder(s: System, key: Key, tests: seq<Test>)
    requires OrderInv(s, key, tests)
    ensures OrderInv(s.(master := Admit(s.master)), key, tests)
  {
    var m := s.master;
    var a := Admit(m);
    if a != m {
      var first, later := Reverse(Pick(m.testFiles, key)), Reverse(Pick(m.sequentialTests, key));
      AdmitStack(m.testFiles, m.sequentialTests, key);
      assert Reverse(Pick(a.testFiles, key)) == later + first;
      if later == [] {
        assert later + first == first;
      } else {
        NothingInLine(s, key);
        assert later + first == later;
        assert Lineup(s.(master := a), key) == later;
      }
    }
  }

  lemma AdmitStack(testFiles: seq<Test>, sequential: seq<Test>, key: Key)
    ensures Reverse(Pick(testFiles + sequential, key)) == Reverse(Pick(sequential, key)) + Reverse(Pick(testFiles, key))
  {
    PickConcat(testFiles, sequential, key);
    ReverseConcat(Pick(testFiles, key), Pick(sequential, key));
  }

  lemma NothingInLine(s: System, key: Key)
    requires Lineup(s, key) == []
    ensures Pick(s.done, key) == [] && RunningPick(s.master.activeConflicts, s.running, key) == []
    ensures Pick(QueueOf(s.master.waitingTests, key), key) == [] && Reverse(Pick(s.master.testFiles, key)) == []
  {
    var d, r := Pick(s.done, key), RunningPick(s.master.activeConflicts, s.running, key);
    var q, t := Pick(QueueOf(s.master.waitingTests, key), key), Reverse(Pick(s.master.testFiles, key));
    assert |d + r + (q + t)| == |d| + |r| + |q| + |t|;
  }

  lemma GrantOrder(active: seq<Lock>, running: map<nat, seq<Test>>, worker: nat, files: seq<Test>, key: Key)
    requires LocksOk(active, running) && Free(files, active)
    requires worker in running && running[worker] == [] && files != []
    ensures RunningPick(TakeLocks(active, files, worker), running[worker := files], key) ==
            if Holder(active, key).Some? then RunningPick(active, running, key) else Pick(files, key)
  {
    TakeLocksHolder(active, files, worker, key);
    if !AskedBy(files, key) {
      PickNone(files, key);
    }
  }

  /** After a dispatch the key is with the worker that held it, or with the one just served. */
  lemma ServedOrder(active: seq<Lock>, running: map<nat, seq<Test>>, worker: nat, files: seq<Test>, key: Key)
    requires LocksOk(active, running) && Free(files, active)
    requires worker in running && running[worker] == []
    ensures files != [] ==>
              RunningPick(TakeLocks(active, files, worker), running[worker := files], key)
              == RunningPick(active, running, key) + Pick(files, key)
    ensures files == [] ==> RunningPick(active, running - {worker}, key) == RunningPick(active, running, key)
    ensures Holder(active, key).Some? ==> Pick(files, key) == []
    ensures Holder(active, key) == None ==> RunningPick(active, running, key) == []
  {
    if Holder(active, key).Some? {
      PickNone(files, key);
    }
    if files != [] {
      GrantOrder(active, running, worker, files, key);
    }
  }

  lemma DispatchOrder(limits: Limits, s: System, worker: nat, key: Key, a: Master, f: Filled)
    requires a == Admit(s.master) && s.running.Keys == s.master.workers && |a.workers| > 0
    requires f == Fill(a.testFiles, a.waitingTests, a.activeConflicts, [], BatchSize(limits, |a.workers|))
    requires LocksOk(a.activeConflicts, s.running) && WaitingOk(a.waitingTests, a.activeConflicts)
    requires worker in s.running && s.running[worker] == [] && Free(f.files, a.activeConflicts)
    requires NoAllInTheWay(a.testFiles, a.activeConflicts)
    ensures Lineup(DispatchStep(limits, s, worker), key) == Lineup(s.(master := a), key)
    ensures DispatchStep(limits, s, worker).master.sequentialTests == a.sequentialTests
  {
    ServedOrder(a.activeConflicts, s.running, worker, f.files, key);
    FillLineup(a.testFiles, a.waitingTests, a.activeConflicts, BatchSize(limits, |a.workers|), key, f);
    var d, r := Pick(s.done, key), RunningPick(a.activeConflicts, s.running, key);
    var b, q := Pick(f.files, key), Pick(QueueOf(f.waiting, key), key) + Reverse(Pick(f.testFiles, key));
    var s' := DispatchStep(limits, s, worker);
    assert s'.master.waitingTests == f.waiting && s'.master.testFiles == f.testFiles;
    assert RunningPick(s'.master.activeConflicts, s'.running, key) == r + b;
    Assoc(d, r, b);
    Assoc(d + r, b, q);
  }

  lemma FillLineup(testFiles: seq<Test>, waiting: map<Key, seq<Test>>, active: seq<Lock>, batchSize: nat,
                   key: Key, f: Filled)
    requires f == Fill(testFiles, waiting, active, [], batchSize) && WaitingOk(waiting, active)
    requires NoAllInTheWay(testFiles, active)
    ensures Pick(f.files, key) + (Pick(QueueOf(f.waiting, key), key) + Reverse(Pick(f.testFiles, key)))
            == Pick(QueueOf(waiting, key), key) + Reverse(Pick(testFiles, key))
  {
    var b, q := Pick(f.files, key), Pick(QueueOf(f.waiting, key), key);
    var t := Reverse(Pick(f.testFiles, key));
    if Holder(active, key).Some? {
      FillHeld(testFiles, waiting, active, [], batchSize, key);
      assert b == [] && b + (q + t) == q + t;
    } else {
      FillFree(testFiles, waiting, active, [], batchSize, key);
      assert QueueOf(waiting, key) == [];
      assert q == [] && b + (q + t) == b + t;
    }
  }

  lemma StepKeepsOrder(limits: Limits, s: System, worker: nat, key: Key, tests: seq<Test>)
    requires Inv(s, tests) && OrderInv(s, key, tests) && worker in s.running
    ensures OrderInv(Step(limits, s, worker), key, tests)
  {
    var s1 := s;
    if s.running[worker] != [] {
      FinishKeepsInv(s, worker, tests);
      FinishOrder(s, worker, key);
      s1 := FinishStep(s, worker);
    }
    var a := Admit(s1.master);
    var f := Fill(a.testFiles, a.waitingTests, a.activeConflicts, [], BatchSize(limits, |a.workers|));
    AdmitNoAll(s1, worker, tests);
    DispatchFill(limits, s1, worker, tests, a, f);
    DispatchOrder(limits, s1, worker, key, a, f);
    AdmitOrder(s1, key, tests);
  }

  lemma AdmitNoAll(s: System, worker: nat, tests: seq<Test>)
    requires Inv(s, tests) && worker in s.running && s.running[worker] == []
    ensures NoAllInTheWay(Admit(s.master).testFiles, s.master.activeConflicts)
  {
    if |s.running| <= 1 {
      IdleHoldsNothing(s, worker);
    } else {
      assert |s.running.Keys| == |s.running|;
    }
  }

  lemma IdleHoldsNothing(s: System, worker: nat)
    requires LocksOk(s.master.activeConflicts, s.running)
    requires |s.running| <= 1 && worker in s.running && s.running[worker] == []
    ensures forall k :: Holder(s.master.activeConflicts, k) == None
  {
    forall k ensures Holder(s.master.activeConflicts, k) == None {
      var h := Holder(s.master.activeConflicts, k);
      if h.Some? {
        OnlyOne(s.running, h.value, worker);
      }
    }
  }

  lemma OnlyOne(running: map<nat, seq<Test>>, a: nat, b: nat)
    requires |running| <= 1 && a in running && b in running
    ensures a == b
  {
    assert |running.Keys| == |running|;
    assert |running.Keys - {a}| == 0;
  }

  // ---------- Whole runs ----------

  lemma {:induction false} PickPartition(tests: seq<Test>, key: Key)
    ensures key != ALL ==> Pick(Parallel(tests), key) == Pick(tests, key) && Pick(Sequential(tests), key) == []
    ensures key == ALL ==> Pick(Parallel(tests), key) == [] && Pick(Sequential(tests), key) == Pick(tests, key)
  {
    if tests != [] {
      PickPartition(Front(tests), key);
      PickAppend(Parallel(Front(tests)), Last(tests), key);
      PickAppend(Sequential(Front(tests)), Last(tests), key);
      assert Parallel(Front(tests)) + [] == Parallel(Front(tests));
      assert Sequential(Front(tests)) + [] == Sequential(Front(tests));
    }
  }

  lemma {:induction false} RunKeepsOrder(limits: Limits, s0: System, speakers: seq<nat>, key: Key, tests: seq<Test>)
    requires Inv(s0, tests) && OrderInv(s0, key, tests) && RunFrom(limits, s0, speakers).Some?
    ensures OrderInv(RunFrom(limits, s0, speakers).value, key, tests)
  {
    if speakers != [] {
      RunKeepsInv(limits, s0, Front(speakers), tests);
      RunKeepsOrder(limits, s0, Front(speakers), key, tests);
      StepKeepsOrder(limits, RunFrom(limits, s0, Front(speakers)).value, Last(speakers), key, tests);
    }
  }

  lemma InitialOrder(tests: seq<Test>, requested: int, key: Key)
    ensures OrderInv(Initial(tests, requested, false), key, tests)
  {
    var files := Parallel(tests);
    PickPartition(tests, key);
    PickReverse(files, key);
    ReverseReverse(Pick(files, key));
    assert Reverse(Pick(Reverse(files), key)) == Pick(files, key);
  }

  /** At any point of an unshuffled run, the tests done so far that line up under `key` are the
      first of them in the original order, or, for tests marked "all", in the reverse of it; at the
      end they are all of them. */
  lemma OriginalOrder(tests: seq<Test>, requested: int, valgrind: bool, speakers: seq<nat>, s: System, key: Key)
    requires RunFrom(InitialLimits(tests, valgrind, false), Initial(tests, requested, false), speakers) == Some(s)
    ensures Pick(s.done, key) <= if key == ALL then Reverse(Pick(tests, key)) else Pick(tests, key)
    ensures !Listening(s.master) ==>
              Pick(s.done, key) == if key == ALL then Reverse(Pick(tests, key)) else Pick(tests, key)
  {
    InitialInv(tests, requested, false);
    InitialOrder(tests, requested, key);
    RunKeepsOrder(InitialLimits(tests, valgrind, false), Initial(tests, requested, false), speakers, key, tests);
    DoneFirst(s, key);
    if !Listening(s.master) {
      RunsEverything(tests, requested, valgrind, false, speakers, s);
      NothingLeftToOrder(s, key);
    }
  }

  lemma DoneFirst(s: System, key: Key)
    ensures Pick(s.done, key) <= Lineup(s, key)
  {
  }

  /** So a finished run keeps the order of the tests whose only key is the one named, and of those
      marked "all" exactly if these read the same backwards. */
  lemma OrderIsKeptIff(tests: seq<Test>, requested: int, valgrind: bool, speakers: seq<nat>, s: System, key: Key)
    requires RunFrom(InitialLimits(tests, valgrind, false), Initial(tests, requested, false), speakers) == Some(s)
    requires !Listening(s.master)
    ensures Pick(s.done, key) == Pick(tests, key) <==> key != ALL || Reverse(Pick(tests, key)) == Pick(tests, key)
  {
    OriginalOrder(tests, requested, valgrind, speakers, s, key);
  }

  lemma NothingLeftToOrder(s: System, key: Key)
    requires s.master.waitingTests == map[] && s.master.testFiles == []
    requires forall w :: w in s.running ==> s.running[w] == []
    ensures Lineup(s, key) == Pick(s.done, key)
  {
  }

  /** Two tests marked "all": any run that finishes has run the second one first. */
  lemma AllRunsBackwards(a: Test, b: Test, requested: int, valgrind: bool, speakers: seq<nat>, s: System)
    requires ALL in a.conflicts && ALL in b.conflicts
    requires RunFrom(InitialLimits([a, b], valgrind, false), Initial([a, b], requested, false), speakers) == Some(s)
    requires !Listening(s.master)
    ensures Pick(s.done, ALL) == [b, a]
  {
    OriginalOrder([a, b], requested, valgrind, speakers, s, ALL);
    PickBoth(a, b);
  }

  lemma PickBoth(a: Test, b: Test)
    requires ALL in a.conflicts && ALL in b.conflicts
    ensures Reverse(Pick([a, b], ALL)) == [b, a]
  {
    PickAppend([a], b, ALL);
    PickAppend([], a, ALL);
    assert [a] + [b] == [a, b] && [] + [a] == [a];
    assert Pick([a, b], ALL) == [a, b];
    ReverseConcat([a], [b]);
    assert Reverse([a]) == [a] && Reverse([b]) == [b];
  }
}
