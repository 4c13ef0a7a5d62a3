/** How large the batches are. */
module SchedulerBatches {
  import opened Subsequences
  import opened Scheduling
  import opened SchedulerRuns

  lemma CeilIsLeast(a: nat, b: nat)
    requires b > 0
    ensures CeilDiv(a, b) * b >= a && (CeilDiv(a, b) > 0 ==> (CeilDiv(a, b) - 1) * b < a)
  {
    var q, r := (a + b - 1) / b, (a + b - 1) % b;
    assert a + b - 1 == q * b + r;
    assert (q - 1) * b == q * b - b;
  }

  lemma Times(n: nat, k: nat, b: nat)
    requires n <= k
    ensures n * b <= k * b
  {
  }

  /** A batch of this size for every worker covers all files, unless the cap is smaller; and no
      smaller size of at least one does. */
  lemma BatchSizeIsLeast(limits: Limits, workers: nat, n: nat)
    requires workers > 0 && limits.maxBatchSize >= 1 && n >= 1
    ensures var size := BatchSize(limits, workers);
            && 1 <= size <= limits.maxBatchSize
            && (size < limits.maxBatchSize ==> size * workers >= limits.totalFileCount)
            && (n < size ==> n * workers < limits.totalFileCount)
  {
    var ceil, size := CeilDiv(limits.totalFileCount, workers), BatchSize(limits, workers);
    CeilIsLeast(limits.totalFileCount, workers);
    if size < limits.maxBatchSize {
      Times(ceil, size, workers);
    }
    if n < size {
      Times(n, ceil - 1, workers);
    }
  }

  /** A batch takes tests from the top of the stack. It ends with one test more than its size, and
      sooner only when the stack is empty. */
  lemma {:induction false} FillStops(testFiles: seq<Test>, waiting: map<Key, seq<Test>>, active: seq<Lock>,
                                     files: seq<Test>, size: nat)
    requires |files| <= size + 1
    ensures var f := Fill(testFiles, waiting, active, files, size);
            && f.testFiles <= testFiles && files <= f.files
            && |f.files| <= size + 1 && (|f.files| <= size ==> f.testFiles == [])
    decreases |testFiles|
  {
    if |files| <= size && testFiles != [] {
      var file, rest := Last(testFiles), Front(testFiles);
      assert testFiles == rest + [file];
      match FirstHeld(file.conflicts, active)
      case Some(key) => FillStops(rest, waiting[key := QueueOf(waiting, key) + [file]], active, files, size);
      case None => FillStops(rest, waiting, active, files + [file], size);
    }
  }

  /** No worker's batch has more than so many tests. */
  ghost predicate BatchesUpTo(s: System, n: nat) {
    forall w :: w in s.running ==> |s.running[w]| <= n
  }

  lemma StepKeepsSmall(limits: Limits, s: System, worker: nat)
    requires worker in s.running && worker in s.master.workers
    requires BatchesUpTo(s, limits.maxBatchSize + 1)
    ensures BatchesUpTo(Step(limits, s, worker), limits.maxBatchSize + 1)
  {
    var t := if s.running[worker] != [] then FinishStep(s, worker) else s;
    var a := Admit(t.master);
    assert a.workers == t.master.workers && |a.workers| > 0 by {
      assert worker in a.workers;
    }
    FillStops(a.testFiles, a.waitingTests, a.activeConflicts, [], BatchSize(limits, |a.workers|));
  }

  /** In every state of every run a batch has at most 33 tests; 5 if the tests are shuffled, and 2
      under valgrind. */
  lemma {:induction false} BatchesStaySmall(tests: seq<Test>, requested: int, valgrind: bool, shuffle: bool,
                                            speakers: seq<nat>, worker: nat)
    requires var r := RunFrom(InitialLimits(tests, valgrind, shuffle), Initial(tests, requested, shuffle), speakers);
             r.Some? && worker in r.value.running
    ensures var r := RunFrom(InitialLimits(tests, valgrind, shuffle), Initial(tests, requested, shuffle), speakers);
            |r.value.running[worker]| <= if valgrind then 2 else if shuffle then 5 else 33
  {
    RunStaysSmall(tests, requested, valgrind, shuffle, speakers);
  }

  lemma {:induction false} RunStaysSmall(tests: seq<Test>, requested: int, valgrind: bool, shuffle: bool,
                                         speakers: seq<nat>)
    requires var limits := InitialLimits(tests, valgrind, shuffle);
             RunFrom(limits, Initial(tests, requested, shuffle), speakers).Some?
    ensures var limits := InitialLimits(tests, valgrind, shuffle);
            BatchesUpTo(RunFrom(limits, Initial(tests, requested, shuffle), speakers).value, limits.maxBatchSize + 1)
    decreases |speakers|
  {
    var limits, start := InitialLimits(tests, valgrind, shuffle), Initial(tests, requested, shuffle);
    if speakers == [] {
      SpawnMeaning(WorkerCount(requested, tests));
    } else {
      RunStaysSmall(tests, requested, valgrind, shuffle, Front(speakers));
      StepKeepsSmall(limits, RunFrom(limits, start, Front(speakers)).value, Last(speakers));
    }
  }
}
