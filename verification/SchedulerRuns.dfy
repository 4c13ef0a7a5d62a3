/** The scheduler over whole runs: from the initial state, through any sequence of messages
    from live workers, to the point where the master stops listening. */
module SchedulerRuns {
  import opened Wrappers
  import opened Subsequences
  import opened Gathering
  import opened Scheduling
  import opened SchedulerSafety

  /** The state after the given workers have spoken, one message each, if all were alive. */
  function RunFrom(limits: Limits, s: System, speakers: seq<nat>): Option<System> {
    if speakers == [] then Some(s)
    else
      match RunFrom(limits, s, Front(speakers))
      case None => None
      case Some(t) =>
        var w := Last(speakers);
        if w in t.running && w in t.master.workers then Some(Step(limits, t, w)) else None
  }

  // ---------- The initial state ----------

  lemma {:induction false} SpawnMeaning(n: nat)
    ensures forall w :: w in Spawn(n) <==> 1 <= w <= n
    ensures forall w :: w in Spawn(n) ==> Spawn(n)[w] == []
    ensures |Spawn(n)| == n
  {
    if n > 0 {
      SpawnMeaning(n - 1);
      assert Spawn(n).Keys == Spawn(n - 1).Keys + {n};
      assert |Spawn(n)| == |Spawn(n).Keys| && |Spawn(n - 1)| == |Spawn(n - 1).Keys|;
    }
  }

  /** One more element goes to either of two multisets, or to their sum. */
  lemma OneMore(a: multiset<Test>, b: multiset<Test>, t: Test)
    ensures a + (b + multiset{t}) == (a + b) + multiset{t}
    ensures (a + multiset{t}) + b == (a + b) + multiset{t}
  {
    Gathering.Assoc(a, b, multiset{t});
    SwapLast(a, multiset{t}, b);
  }

  lemma AppendIf(s: seq<Test>, t: Test, c: bool)
    ensures multiset(s + if c then [t] else []) == if c then multiset(s) + multiset{t} else multiset(s)
  {
    Append(s, t);
    assert s + [] == s;
  }

  lemma {:induction false} PartitionKeepsAll(tests: seq<Test>)
    ensures multiset(Parallel(tests)) + multiset(Sequential(tests)) == multiset(tests)
  {
    if tests != [] {
      var t := Last(tests);
      var a, b := Parallel(Front(tests)), Sequential(Front(tests));
      PartitionKeepsAll(Front(tests));
      OneMore(multiset(a), multiset(b), t);
      AppendIf(a, t, ALL !in t.conflicts);
      AppendIf(b, t, ALL in t.conflicts);
      AppendLast(tests);
    }
  }

  lemma AppendLast(tests: seq<Test>)
    requires tests != []
    ensures multiset(tests) == multiset(Front(tests)) + multiset{Last(tests)}
  {
    assert tests == Front(tests) + [Last(tests)];
    Append(Front(tests), Last(tests));
  }

  lemma {:induction false} ParallelHasNoAll(tests: seq<Test>)
    ensures NoneSequential(Parallel(tests))
  {
    if tests != [] {
      ParallelHasNoAll(Front(tests));
    }
  }

  lemma InitialInv(tests: seq<Test>, requested: int, shuffle: bool)
    ensures Inv(Initial(tests, requested, shuffle), tests)
    ensures |Initial(tests, requested, shuffle).running| == WorkerCount(requested, tests)
    ensures Pending(Initial(tests, requested, shuffle).master) == multiset(tests)
  {
    var s := Initial(tests, requested, shuffle);
    SpawnMeaning(WorkerCount(requested, tests));
    PartitionKeepsAll(tests);
    ParallelHasNoAll(tests);
    var files := Parallel(tests);
    ReverseMultiset(files);
    GatherEmpty<Key, Test>(map[]);
    GatherEmpty(s.running);
    assert Busy(s.running) == {};
    assert s.running != map[] by {
      assert |s.running| > 0;
    }
  }

  lemma {:induction false} RunKeepsInv(limits: Limits, s0: System, speakers: seq<nat>, tests: seq<Test>)
    requires Inv(s0, tests) && RunFrom(limits, s0, speakers).Some?
    ensures Inv(RunFrom(limits, s0, speakers).value, tests)
  {
    if speakers != [] {
      RunKeepsInv(limits, s0, Front(speakers), tests);
      StepKeepsInv(limits, RunFrom(limits, s0, Front(speakers)).value, Last(speakers), tests);
    }
  }

  /** The invariant holds in every reachable state. */
  lemma Reachable(tests: seq<Test>, requested: int, valgrind: bool, shuffle: bool, speakers: seq<nat>, s: System)
    requires RunFrom(InitialLimits(tests, valgrind, shuffle), Initial(tests, requested, shuffle), speakers) == Some(s)
    ensures Inv(s, tests)
  {
    InitialInv(tests, requested, shuffle);
    RunKeepsInv(InitialLimits(tests, valgrind, shuffle), Initial(tests, requested, shuffle), speakers, tests);
  }

  // ---------- What it means for every reachable state ----------

  /** Worker `w` is running test `t`, which conflicts on `k`. */
  ghost predicate RunsWith(s: System, w: nat, t: Test, k: Key) {
    w in s.running && t in s.running[w] && k in t.conflicts
  }

  /** Two running tests that share a conflict key are in the batch of one worker, the one
      recorded for the key; a test marked "all" runs only while a single worker lives. */
  ghost predicate Exclusive(s: System) {
    && (forall w1: nat, w2: nat, t1, t2, k :: RunsWith(s, w1, t1, k) && RunsWith(s, w2, t2, k) ==>
          w1 == w2 && Holder(s.master.activeConflicts, k) == Some(w1))
    && (forall w: nat, t :: RunsWith(s, w, t, ALL) ==> s.running.Keys == {w})
  }

  lemma InvExcludes(s: System, tests: seq<Test>)
    requires Inv(s, tests)
    ensures Exclusive(s)
  {
    forall w1: nat, w2: nat, t1, t2, k | RunsWith(s, w1, t1, k) && RunsWith(s, w2, t2, k)
      ensures w1 == w2 && Holder(s.master.activeConflicts, k) == Some(w1)
    {
      var h := Holder(s.master.activeConflicts, k);
      assert h == Some(w1) && h.value == w1;
      assert h == Some(w2) && h.value == w2;
    }
    forall w: nat, t | RunsWith(s, w, t, ALL)
      ensures s.running.Keys == {w}
    {
      assert |s.running.Keys| == |s.running|;
      assert |s.running.Keys - {w}| == 0;
    }
  }

  lemma MutualExclusion(tests: seq<Test>, requested: int, valgrind: bool, shuffle: bool, speakers: seq<nat>, s: System)
    requires RunFrom(InitialLimits(tests, valgrind, shuffle), Initial(tests, requested, shuffle), speakers) == Some(s)
    ensures Exclusive(s)
  {
    Reachable(tests, requested, valgrind, shuffle, speakers, s);
    InvExcludes(s, tests);
  }

  /** Every test is in exactly one place, and a waiting queue's key is held by a busy worker. */
  lemma NothingLost(tests: seq<Test>, requested: int, valgrind: bool, shuffle: bool, speakers: seq<nat>, s: System)
    requires RunFrom(InitialLimits(tests, valgrind, shuffle), Initial(tests, requested, shuffle), speakers) == Some(s)
    ensures multiset(s.master.testFiles) + multiset(s.master.sequentialTests) + Gather(s.master.waitingTests)
            + Gather(s.running) + multiset(s.done) == multiset(tests)
    ensures forall k :: k in s.master.waitingTests ==>
              var h := Holder(s.master.activeConflicts, k);
              s.master.waitingTests[k] != [] && h.Some? && h.value in s.running && s.running[h.value] != []
  {
    Reachable(tests, requested, valgrind, shuffle, speakers, s);
  }

  /** While the master listens some worker is alive, and any live worker's message can be handled. */
  lemma NeverStuck(tests: seq<Test>, requested: int, valgrind: bool, shuffle: bool, speakers: seq<nat>, s: System)
    requires RunFrom(InitialLimits(tests, valgrind, shuffle), Initial(tests, requested, shuffle), speakers) == Some(s)
    ensures Listening(s.master) ==> s.running != map[]
    ensures forall w :: w in s.running ==>
              RunFrom(InitialLimits(tests, valgrind, shuffle), Initial(tests, requested, shuffle), speakers + [w]).Some?
  {
    Reachable(tests, requested, valgrind, shuffle, speakers, s);
    if s.running == map[] {
      assert Busy(s.running) == {};
      assert |Pending(s.master)| == 0;
    }
    forall w | w in s.running
      ensures RunFrom(InitialLimits(tests, valgrind, shuffle), Initial(tests, requested, shuffle), speakers + [w]).Some?
    {
      assert Front(speakers + [w]) == speakers;
    }
  }

  /** When the master stops listening, every test has run exactly once and nothing is left. */
  lemma RunsEverything(tests: seq<Test>, requested: int, valgrind: bool, shuffle: bool, speakers: seq<nat>, s: System)
    requires RunFrom(InitialLimits(tests, valgrind, shuffle), Initial(tests, requested, shuffle), speakers) == Some(s)
    requires !Listening(s.master)
    ensures multiset(s.done) == multiset(tests)
    ensures s.master.waitingTests == map[] && forall w :: w in s.running ==> s.running[w] == []
  {
    Reachable(tests, requested, valgrind, shuffle, speakers, s);
    assert Busy(s.running) == {};
    forall w | w in s.running ensures s.running[w] == [] {
      assert w !in Busy(s.running);
    }
    assert forall k :: k in s.master.waitingTests ==> Holder(s.master.activeConflicts, k).Some?;
    assert forall k :: Holder(s.master.activeConflicts, k) == None;
    assert s.master.waitingTests == map[];
    GatherEmpty(s.running);
    GatherEmpty(s.master.waitingTests);
  }

  /** A worker is terminated as the last one only when every queue is empty. */
  lemma LastWorkerLeavesNothing(tests: seq<Test>, requested: int, valgrind: bool, shuffle: bool,
                                speakers: seq<nat>, s: System)
    requires RunFrom(InitialLimits(tests, valgrind, shuffle), Initial(tests, requested, shuffle), speakers) == Some(s)
    requires s.running == map[]
    ensures !Listening(s.master) && s.master.waitingTests == map[] && multiset(s.done) == multiset(tests)
  {
    NeverStuck(tests, requested, valgrind, shuffle, speakers, s);
    RunsEverything(tests, requested, valgrind, shuffle, speakers, s);
  }

  // ---------- Every run is short ----------

  /** What is left to do: tests to hand out and workers to terminate. */
  ghost function Work(s: System): nat {
    |Pending(s.master)| + |s.running|
  }

  lemma FinishKeepsWork(s: System, worker: nat)
    requires worker in s.running
    ensures Work(FinishStep(s, worker)) == Work(s)
  {
    var m, s' := s.master, FinishStep(s, worker);
    ReleaseConserves(m.activeConflicts, worker, m.waitingTests, m.testFiles);
    var a, b, c := multiset(s'.master.testFiles), Gather(s'.master.waitingTests), multiset(m.sequentialTests);
    assert a + c + b == (a + b) + c;
    assert multiset(m.testFiles) + c + Gather(m.waitingTests) == (multiset(m.testFiles) + Gather(m.waitingTests)) + c;
    assert s'.running.Keys == s.running.Keys;
    assert |s'.running| == |s'.running.Keys| == |s.running.Keys| == |s.running|;
  }

  lemma DispatchReducesWork(limits: Limits, s: System, worker: nat)
    requires worker in s.running && worker in s.master.workers
    ensures Work(DispatchStep(limits, s, worker)) < Work(s)
  {
    var (m, files) := Dispatch(limits, s.master, worker);
    var s' := DispatchStep(limits, s, worker);
    DispatchPending(limits, s.master, worker);
    assert |Pending(m)| + |multiset(files)| == |Pending(m) + multiset(files)|;
    if files != [] {
      assert s'.running.Keys == s.running.Keys;
      assert |s'.running| == |s'.running.Keys| == |s.running.Keys| == |s.running|;
    } else {
      assert Pending(m) + multiset(files) == Pending(m);
      assert s'.running.Keys == s.running.Keys - {worker};
      assert |s'.running| == |s'.running.Keys| == |s.running.Keys| - 1;
    }
  }

  lemma {:induction false} RunReducesWork(limits: Limits, s0: System, speakers: seq<nat>)
    requires RunFrom(limits, s0, speakers).Some?
    ensures Work(RunFrom(limits, s0, speakers).value) + |speakers| <= Work(s0)
  {
    if speakers != [] {
      RunReducesWork(limits, s0, Front(speakers));
      var t, w := RunFrom(limits, s0, Front(speakers)).value, Last(speakers);
      if t.running[w] != [] {
        FinishKeepsWork(t, w);
        DispatchReducesWork(limits, FinishStep(t, w), w);
      } else {
        DispatchReducesWork(limits, t, w);
      }
    }
  }

  /** No run has more scheduling messages than there are tests and workers together. */
  lemma RunsAreBounded(tests: seq<Test>, requested: int, valgrind: bool, shuffle: bool, speakers: seq<nat>)
    requires RunFrom(InitialLimits(tests, valgrind, shuffle), Initial(tests, requested, shuffle), speakers).Some?
    ensures |speakers| <= |tests| + WorkerCount(requested, tests)
  {
    InitialInv(tests, requested, shuffle);
    RunReducesWork(InitialLimits(tests, valgrind, shuffle), Initial(tests, requested, shuffle), speakers);
    assert |multiset(tests)| == |tests|;
  }
}
