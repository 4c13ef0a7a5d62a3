/** The master loop as the test runner has it: variables updated in place, message by message. */
module SchedulerMaster {
  import opened Wrappers
  import opened Subsequences
  import opened Scheduling

  datatype Message = Ready | TestsFinished

  class Scheduler {
    var testFiles: seq<Test>
    var sequentialTests: seq<Test>
    var waitingTests: map<Key, seq<Test>>
    var activeConflicts: seq<Lock>
    var workers: set<nat>
    var testsInProgress: int
    const limits: Limits

    ghost function View(): Master
      reads this
    {
      Master(testFiles, sequentialTests, waitingTests, activeConflicts, workers, testsInProgress)
    }

    constructor (tests: seq<Test>, requested: int, valgrind: bool, shuffle: bool)
      ensures View() == Initial(tests, requested, shuffle).master
      ensures limits == InitialLimits(tests, valgrind, shuffle)
    {
      var files, last := [], [];
      for i := 0 to |tests|
        invariant files == Parallel(tests[..i]) && last == Sequential(tests[..i])
      {
        assert Front(tests[..i + 1]) == tests[..i];
        if ALL in tests[i].conflicts {
          last := last + [tests[i]];
        } else {
          files := files + [tests[i]];
        }
      }
      assert tests[..|tests|] == tests;
      limits := Limits(|files|, MaxBatchSize(valgrind, shuffle));
      sequentialTests := last;
      testFiles := if shuffle then files else Reverse(files);
      waitingTests, activeConflicts, testsInProgress := map[], [], 0;
      workers := Spawn(WorkerCount(requested, tests)).Keys;
    }

    /** Whatever the message, the worker is then given its next batch; `files` is what it is
        sent, and nothing to send means it has been terminated. */
    method Receive(worker: nat, message: Message) returns (files: seq<Test>)
      requires worker in workers
      modifies this
      ensures (View(), files) ==
              Dispatch(limits, if message.Ready? then old(View()) else Finish(old(View()), worker), worker)
    {
      if message.TestsFinished? {
        Release(worker);
      }
      files := Schedule(worker);
    }

    /** The part of "tests_finished" before it falls through. */
    method Release(worker: nat)
      modifies this
      ensures View() == Finish(old(View()), worker)
    {
      testsInProgress := testsInProgress - 1;
      var snapshot := activeConflicts;
      ghost var goal := Scheduling.Release(snapshot, worker, waitingTests, testFiles);
      var kept := 0;
      for i := 0 to |snapshot|
        invariant kept <= |activeConflicts| && activeConflicts[kept..] == snapshot[i..]
        invariant testsInProgress == old(testsInProgress) - 1
        invariant sequentialTests == old(sequentialTests) && workers == old(workers)
        invariant OnTheWay(goal, activeConflicts[..kept], snapshot[i..], worker, waitingTests, testFiles)
      {
        var l := snapshot[i];
        ReleaseNext(goal, activeConflicts[..kept], snapshot[i..], worker, waitingTests, testFiles);
        assert snapshot[i..][1..] == snapshot[i + 1..];
        if l.worker == worker {
          // the entry the loop stands on is the one the key names: keys are unique
          activeConflicts := activeConflicts[..kept] + activeConflicts[kept + 1..];
          Requeue(l.key);
        } else {
          TakeNext(activeConflicts, kept);
          kept := kept + 1;
        }
      }
    }

    /** A released key's queue is popped onto the stack and unset. */
    method Requeue(key: Key)
      modifies this`testFiles, this`waitingTests
      ensures testFiles == old(testFiles) + Reverse(QueueOf(old(waitingTests), key))
      ensures waitingTests == old(waitingTests) - {key}
    {
      if key in waitingTests {
        var queue := waitingTests[key];
        while queue != []
          invariant testFiles + Reverse(queue) == old(testFiles) + Reverse(QueueOf(old(waitingTests), key))
          invariant waitingTests == old(waitingTests)
          decreases |queue|
        {
          assert queue == Front(queue) + [Last(queue)];
          ReverseConcat(Front(queue), [Last(queue)]);
          assert Reverse([Last(queue)]) == [Last(queue)];
          testFiles := testFiles + [Last(queue)];
          queue := Front(queue);
        }
      }
      waitingTests := waitingTests - {key};
    }

    /** The handling of "ready". */
    method Schedule(worker: nat) returns (files: seq<Test>)
      requires worker in workers
      modifies this
      ensures (View(), files) == Dispatch(limits, old(View()), worker)
    {
      if |workers| == 1 && sequentialTests != [] {
        testFiles, sequentialTests := testFiles + sequentialTests, [];
      }
      var averageFilesPerWorker := Max(1, CeilDiv(limits.totalFileCount, |workers|));
      var batchSize := if limits.maxBatchSize <= averageFilesPerWorker then limits.maxBatchSize
                       else averageFilesPerWorker;
      files := FillBatch(batchSize);
      if files != [] {
        TakeAll(files, worker);
        testsInProgress := testsInProgress + 1;
      } else {
        workers := workers - {worker};
      }
    }

    /** Pops tests into the batch, or into the waiting queue of a held key. */
    method FillBatch(batchSize: nat) returns (files: seq<Test>)
      modifies `testFiles, `waitingTests
      ensures Filled(testFiles, waitingTests, files)
           == Fill(old(testFiles), old(waitingTests), activeConflicts, [], batchSize)
    {
      files := [];
      while |files| <= batchSize && testFiles != []
        invariant Fill(testFiles, waitingTests, activeConflicts, files, batchSize)
                  == Fill(old(testFiles), old(waitingTests), activeConflicts, [], batchSize)
        decreases |testFiles|
      {
        var file := Last(testFiles);
        testFiles := Front(testFiles);
        var held := FindHeld(file.conflicts);
        if held.Some? {
          waitingTests := waitingTests[held.value := QueueOf(waitingTests, held.value) + [file]];
        } else {
          files := files + [file];
        }
      }
    }

    /** The scan over a test's keys that stops at the first held one. */
    method FindHeld(keys: seq<Key>) returns (held: Option<Key>)
      ensures held == FirstHeld(keys, activeConflicts)
    {
      for i := 0 to |keys|
        invariant FirstHeld(keys[i..], activeConflicts) == FirstHeld(keys, activeConflicts)
      {
        assert keys[i..][1..] == keys[i + 1..];
        if Holder(activeConflicts, keys[i]).Some? {
          return Some(keys[i]);
        }
      }
      return None;
    }

    /** Every key of the batch is recorded for the worker. */
    method TakeAll(files: seq<Test>, worker: nat)
      modifies this`activeConflicts
      ensures activeConflicts == TakeLocks(old(activeConflicts), files, worker)
    {
      for i := 0 to |files|
        invariant activeConflicts == TakeLocks(old(activeConflicts), files[..i], worker)
      {
        var keys := files[i].conflicts;
        ghost var before := activeConflicts;
        for j := 0 to |keys|
          invariant activeConflicts == TakeKeys(before, keys[..j], worker)
        {
          assert Front(keys[..j + 1]) == keys[..j];
          activeConflicts := SetLock(activeConflicts, keys[j], worker);
        }
        assert keys[..|keys|] == keys && Front(files[..i + 1]) == files[..i];
      }
      assert files[..|files|] == files;
    }
  }

  /** The goal of a release pass, seen from the middle of it. */
  ghost predicate OnTheWay(goal: Released, kept: seq<Lock>, rest: seq<Lock>, worker: nat,
                           waiting: map<Key, seq<Test>>, testFiles: seq<Test>) {
    var r := Release(rest, worker, waiting, testFiles);
    goal == Released(kept + r.active, r.waiting, r.testFiles)
  }

  lemma ReleaseNext(goal: Released, kept: seq<Lock>, rest: seq<Lock>, worker: nat,
                    waiting: map<Key, seq<Test>>, testFiles: seq<Test>)
    requires rest != [] && OnTheWay(goal, kept, rest, worker, waiting, testFiles)
    ensures var l := rest[0];
            if l.worker == worker then
              OnTheWay(goal, kept, rest[1..], worker, waiting - {l.key}, testFiles + Reverse(QueueOf(waiting, l.key)))
            else
              OnTheWay(goal, kept + [l], rest[1..], worker, waiting, testFiles)
  {
    if rest[0].worker != worker {
      Assoc(kept, [rest[0]], Release(rest[1..], worker, waiting, testFiles).active);
    }
  }
}
