/** Tests that are overtaken: for any two lists of conflict keys with a key in common, a run in
    which a test with the one is overtaken by a later test with the other, unless
    `SchedulerPairs.StaysAhead` rules it out. */
module SchedulerOvertaking {
  import opened Wrappers
  import opened Subsequences
  import opened Scheduling
  import opened SchedulerSafety
  import opened SchedulerRuns
  import opened SchedulerPairs

  /** A state of the machine, written out. */
  function State(stack: seq<Test>, later: seq<Test>, waiting: map<Key, seq<Test>>, active: seq<Lock>,
                 running: map<nat, seq<Test>>, busy: int, done: seq<Test>): System {
    System(Master(stack, later, waiting, active, running.Keys, busy), running, done)
  }

  // ---------- One message ----------

  lemma PopRuns(stack: seq<Test>, file: Test, waiting: map<Key, seq<Test>>, active: seq<Lock>, files: seq<Test>,
                size: nat)
    requires |files| <= size && FirstHeld(file.conflicts, active) == None
    ensures Fill(stack + [file], waiting, active, files, size) == Fill(stack, waiting, active, files + [file], size)
  {
    assert Front(stack + [file]) == stack;
  }

  lemma PopWaits(stack: seq<Test>, file: Test, waiting: map<Key, seq<Test>>, active: seq<Lock>, files: seq<Test>,
                 size: nat, key: Key)
    requires |files| <= size && FirstHeld(file.conflicts, active) == Some(key)
    ensures Fill(stack + [file], waiting, active, files, size)
         == Fill(stack, waiting[key := QueueOf(waiting, key) + [file]], active, files, size)
  {
    assert Front(stack + [file]) == stack;
  }

  lemma {:induction false} NoneHeld(keys: seq<Key>, active: seq<Lock>)
    requires forall k :: k in keys ==> Holder(active, k) == None
    ensures FirstHeld(keys, active) == None
  {
    FirstHeldMeaning(keys, active);
  }

  lemma OnlyOneHeld(keys: seq<Key>, active: seq<Lock>, key: Key)
    requires key in keys && Holder(active, key).Some?
    requires forall k :: k in keys && k != key ==> Holder(active, k) == None
    ensures FirstHeld(keys, active) == Some(key)
  {
    FirstHeldMeaning(keys, active);
  }

  /** A message from a live worker leads from one state to the next. */
  ghost predicate Message(limits: Limits, s: System, worker: nat, t: System) {
    worker in s.running && worker in s.master.workers && Step(limits, s, worker) == t
  }

  /** With a cap of one a worker is given two tests at most; a single worker would be given the
      sequential tests first. */
  predicate CanServe(limits: Limits, s: System, worker: nat) {
    && limits.maxBatchSize == 1 && s.running.Keys == s.master.workers && worker in s.running
    && (s.master.sequentialTests == [] || |s.running.Keys| > 1)
  }

  /** What serving an idle worker with this batch leads to. */
  function Served(s: System, worker: nat, f: Filled): System {
    var m := s.master;
    if f.files != [] then
      State(f.testFiles, m.sequentialTests, f.waiting, TakeLocks(m.activeConflicts, f.files, worker),
            s.running[worker := f.files], m.testsInProgress + 1, s.done)
    else
      State(f.testFiles, m.sequentialTests, f.waiting, m.activeConflicts, s.running - {worker}, m.testsInProgress,
            s.done)
  }

  /** What giving back the locks of a finished batch leads to. */
  function GivenBack(s: System, worker: nat, r: Released): System
    requires worker in s.running
  {
    State(r.testFiles, s.master.sequentialTests, r.waiting, r.active, s.running[worker := []],
          s.master.testsInProgress - 1, s.done + s.running[worker])
  }

  lemma Serves(limits: Limits, s: System, worker: nat, f: Filled, t: System)
    requires CanServe(limits, s, worker) && s.running[worker] == []
    requires f == Fill(s.master.testFiles, s.master.waitingTests, s.master.activeConflicts, [], 1)
    requires t == Served(s, worker, f)
    ensures Message(limits, s, worker, t)
  {
    var running := s.running;
    assert Admit(s.master) == s.master;
    assert BatchSize(limits, |running.Keys|) == 1;
    assert running[worker := f.files].Keys == running.Keys && (running - {worker}).Keys == running.Keys - {worker};
  }

  /** A finished batch first gives its locks and their queues back. */
  lemma Finishes(limits: Limits, s: System, worker: nat, r: Released, f: Filled, t: System)
    requires CanServe(limits, s, worker) && s.running[worker] != []
    requires r == Release(s.master.activeConflicts, worker, s.master.waitingTests, s.master.testFiles)
    requires f == Fill(r.testFiles, r.waiting, r.active, [], 1) && t == Served(GivenBack(s, worker, r), worker, f)
    ensures Message(limits, s, worker, t)
  {
    var s' := GivenBack(s, worker, r);
    assert s'.running.Keys == s.running.Keys;
    assert FinishStep(s, worker) == s';
    Serves(limits, s', worker, f, t);
  }

  /** The last worker is given the sequential tests on top of the stack. */
  lemma Admits(limits: Limits, stack: seq<Test>, later: seq<Test>, waiting: map<Key, seq<Test>>, active: seq<Lock>,
               running: map<nat, seq<Test>>, busy: int, done: seq<Test>, worker: nat)
    requires running.Keys == {worker} && running[worker] == []
    ensures Step(limits, State(stack, later, waiting, active, running, busy, done), worker)
         == Step(limits, State(stack + later, [], waiting, active, running, busy, done), worker)
  {
    assert |running.Keys| == 1;
    assert later == [] ==> stack + later == stack;
  }

  lemma RunOn(limits: Limits, s0: System, speakers: seq<nat>, s: System, worker: nat, t: System)
    requires RunFrom(limits, s0, speakers) == Some(s) && Message(limits, s, worker, t)
    ensures RunFrom(limits, s0, speakers + [worker]) == Some(t)
  {
    assert Front(speakers + [worker]) == speakers;
  }

  lemma ServesOn(limits: Limits, s0: System, speakers: seq<nat>, s: System, worker: nat, f: Filled, t: System)
    requires RunFrom(limits, s0, speakers) == Some(s) && CanServe(limits, s, worker) && s.running[worker] == []
    requires f == Fill(s.master.testFiles, s.master.waitingTests, s.master.activeConflicts, [], 1)
    requires t == Served(s, worker, f)
    ensures RunFrom(limits, s0, speakers + [worker]) == Some(t)
  {
    Serves(limits, s, worker, f, t);
    RunOn(limits, s0, speakers, s, worker, t);
  }

  lemma FinishesOn(limits: Limits, s0: System, speakers: seq<nat>, s: System, worker: nat, r: Released, f: Filled,
                   t: System)
    requires RunFrom(limits, s0, speakers) == Some(s) && CanServe(limits, s, worker) && s.running[worker] != []
    requires r == Release(s.master.activeConflicts, worker, s.master.waitingTests, s.master.testFiles)
    requires f == Fill(r.testFiles, r.waiting, r.active, [], 1) && t == Served(GivenBack(s, worker, r), worker, f)
    ensures RunFrom(limits, s0, speakers + [worker]) == Some(t)
  {
    Finishes(limits, s, worker, r, f, t);
    RunOn(limits, s0, speakers, s, worker, t);
  }

  // ---------- The start ----------

  lemma {:induction false} NoAll(tests: seq<Test>)
    requires NoneSequential(tests)
    ensures Parallel(tests) == tests && Sequential(tests) == []
  {
    if tests != [] {
      var last := Last(tests);
      assert last in tests && forall t :: t in Front(tests) ==> t in tests;
      NoAll(Front(tests));
      AddLast(tests);
      assert Parallel(tests) == Parallel(Front(tests)) + [last];
      assert Sequential(tests) == Sequential(Front(tests)) + [];
    }
  }

  lemma AddLast(tests: seq<Test>)
    requires tests != []
    ensures Front(tests) + [Last(tests)] == tests
  {
  }

  lemma Starts(tests: seq<Test>, workers: nat)
    requires NoneSequential(tests) && 1 <= workers <= |tests|
    ensures Initial(tests, workers, false) == State(Reverse(tests), [], map[], [], Spawn(workers), 0, [])
    ensures InitialLimits(tests, true, false).maxBatchSize == 1
  {
    NoAll(tests);
  }

  lemma ReverseFour(a: Test, b: Test, c: Test, d: Test)
    ensures Reverse([a, b, c, d]) == [d, c, b, a]
  {
    ReverseLast([a, b, c, d]);
    ReverseLast([a, b, c]);
    ReverseLast([a, b]);
    assert Front([a, b, c, d]) == [a, b, c] && Front([a, b, c]) == [a, b] && Front([a, b]) == [a];
    assert Reverse([a]) == [a];
  }

  lemma SpawnTwo()
    ensures Spawn(2) == map[1 := [], 2 := []]
  {
    assert Spawn(0) == map[] && Spawn(1) == map[1 := []];
  }

  /** Two tests are popped into a batch that starts empty, and no more. */
  lemma PopTwo(stack: seq<Test>, b: Test, a: Test, waiting: map<Key, seq<Test>>, active: seq<Lock>)
    requires FirstHeld(a.conflicts, active) == None && FirstHeld(b.conflicts, active) == None
    ensures Fill(stack + [b, a], waiting, active, [], 1) == Filled(stack, waiting, [a, b])
  {
    assert stack + [b, a] == stack + [b] + [a];
    PopRuns(stack + [b], a, waiting, active, [], 1);
    PopRuns(stack, b, waiting, active, [a], 1);
    assert [] + [a] == [a] && [a] + [b] == [a, b];
  }

  // ---------- A test that waits is passed by one with another first key ----------

  /** A worker takes two keys; of two tests after it, the earlier one asks for the first of these
      only, and the later one for the second of them first of all. */
  ghost predicate Crossing(t: Test, u: Test, x: Test, z: Test, k: Key, h: Key) {
    && x.conflicts == [k, h] && z.conflicts == [] && k != h
    && k in t.conflicts && h !in t.conflicts && u.conflicts != [] && u.conflicts[0] == h
    && NoneSequential([x, z, t, u])
  }

  lemma CrossingTakes(limits: Limits, s0: System, speakers: seq<nat>, t: Test, u: Test, x: Test, z: Test,
                      k: Key, h: Key)
    requires Crossing(t, u, x, z, k, h) && limits.maxBatchSize == 1
    requires RunFrom(limits, s0, speakers)
          == Some(State([u, t, z, x], [], map[], [], map[1 := [], 2 := []], 0, []))
    ensures RunFrom(limits, s0, speakers + [1])
         == Some(State([u, t], [], map[], [Lock(k, 1), Lock(h, 1)], map[1 := [x, z], 2 := []], 1, []))
  {
    NoneHeld(x.conflicts, []);
    NoneHeld(z.conflicts, []);
    PopTwo([u, t], z, x, map[], []);
    assert [u, t] + [z, x] == [u, t, z, x];
    TakesBoth(x, z, k, h);
    var s := State([u, t, z, x], [], map[], [], map[1 := [], 2 := []], 0, []);
    assert s.running[1 := [x, z]] == map[1 := [x, z], 2 := []];
    ServesOn(limits, s0, speakers, s, 1, Filled([u, t], map[], [x, z]),
             State([u, t], [], map[], [Lock(k, 1), Lock(h, 1)], map[1 := [x, z], 2 := []], 1, []));
  }

  lemma TakesBoth(x: Test, z: Test, k: Key, h: Key)
    requires x.conflicts == [k, h] && z.conflicts == [] && k != h
    ensures TakeLocks([], [x, z], 1) == [Lock(k, 1), Lock(h, 1)]
  {
    assert Front([x, z]) == [x] && Front([x]) == [];
    assert Front([k, h]) == [k] && Front([k]) == [];
    assert TakeKeys([], [k], 1) == SetLock([], k, 1) == [Lock(k, 1)];
    assert SetLock([Lock(k, 1)], h, 1) == [Lock(k, 1)] + SetLock([], h, 1);
    assert TakeKeys([], [k, h], 1) == [Lock(k, 1), Lock(h, 1)];
    assert TakeLocks([], [x], 1) == TakeKeys(TakeLocks([], [], 1), [k, h], 1);
  }

  lemma HoldsTwo(k: Key, v: nat, h: Key, w: nat, c: Key)
    ensures Holder([Lock(k, v), Lock(h, w)], c) == if c == k then Some(v) else if c == h then Some(w) else None
  {
    assert [Lock(k, v), Lock(h, w)] == [Lock(k, v)] + ([Lock(h, w)] + []);
    HolderHead(Lock(k, v), [Lock(h, w)] + [], c);
    HolderHead(Lock(h, w), [], c);
  }

  lemma HolderHead(l: Lock, rest: seq<Lock>, c: Key)
    ensures Holder([l] + rest, c) == if l.key == c then Some(l.worker) else Holder(rest, c)
  {
    assert ([l] + rest)[1..] == rest;
  }

  lemma ReleaseHead(l: Lock, rest: seq<Lock>, waiting: map<Key, seq<Test>>, stack: seq<Test>)
    ensures Release([l] + rest, l.worker, waiting, stack)
         == Release(rest, l.worker, waiting - {l.key}, stack + Reverse(QueueOf(waiting, l.key)))
  {
    assert ([l] + rest)[1..] == rest;
  }

  lemma CrossingHeld(t: Test, u: Test, k: Key, h: Key)
    requires k in t.conflicts && h !in t.conflicts && u.conflicts != [] && u.conflicts[0] == h
    ensures var active := [Lock(k, 1), Lock(h, 1)];
            FirstHeld(t.conflicts, active) == Some(k) && FirstHeld(u.conflicts, active) == Some(h)
  {
    var active := [Lock(k, 1), Lock(h, 1)];
    forall c ensures Holder(active, c) == if c == k || c == h then Some(1) else None {
      HoldsTwo(k, 1, h, 1, c);
    }
    OnlyOneHeld(t.conflicts, active, k);
  }

  lemma BothWait(t: Test, u: Test, k: Key, h: Key, active: seq<Lock>)
    requires FirstHeld(t.conflicts, active) == Some(k) && FirstHeld(u.conflicts, active) == Some(h) && k != h
    ensures Fill([u, t], map[], active, [], 1) == Filled([], map[k := [t], h := [u]], [])
  {
    PopWaits([u], t, map[], active, [], 1, k);
    PopWaits([], u, map[k := [t]], active, [], 1, h);
    assert [u] + [t] == [u, t] && [] + [u] == [u] && [] + [t] == [t];
  }

  lemma CrossingWaits(limits: Limits, s0: System, speakers: seq<nat>, t: Test, u: Test, x: Test, z: Test,
                      k: Key, h: Key)
    requires Crossing(t, u, x, z, k, h) && limits.maxBatchSize == 1
    requires RunFrom(limits, s0, speakers)
          == Some(State([u, t], [], map[], [Lock(k, 1), Lock(h, 1)], map[1 := [x, z], 2 := []], 1, []))
    ensures RunFrom(limits, s0, speakers + [2])
         == Some(State([], [], map[k := [t], h := [u]], [Lock(k, 1), Lock(h, 1)], map[1 := [x, z]], 1, []))
  {
    var active := [Lock(k, 1), Lock(h, 1)];
    CrossingHeld(t, u, k, h);
    BothWait(t, u, k, h, active);
    var s := State([u, t], [], map[], active, map[1 := [x, z], 2 := []], 1, []);
    assert s.running - {2} == map[1 := [x, z]];
    ServesOn(limits, s0, speakers, s, 2, Filled([], map[k := [t], h := [u]], []),
             State([], [], map[k := [t], h := [u]], active, map[1 := [x, z]], 1, []));
  }

  /** The locks are given back in the order they were taken, each with its queue. */
  lemma CrossingLands(limits: Limits, s0: System, speakers: seq<nat>, t: Test, u: Test, x: Test, z: Test,
                      k: Key, h: Key)
    returns (active: seq<Lock>)
    requires Crossing(t, u, x, z, k, h) && limits.maxBatchSize == 1
    requires RunFrom(limits, s0, speakers)
          == Some(State([], [], map[k := [t], h := [u]], [Lock(k, 1), Lock(h, 1)], map[1 := [x, z]], 1, []))
    ensures RunFrom(limits, s0, speakers + [1])
         == Some(State([], [], map[], active, map[1 := [u, t]], 1, [x, z]))
  {
    ReleasesTwo(t, u, k, h);
    NoneHeld(t.conflicts, []);
    NoneHeld(u.conflicts, []);
    PopTwo([], t, u, map[], []);
    assert [] + [t, u] == [t, u] && [] + [x, z] == [x, z];
    active := TakeLocks([], [u, t], 1);
    var s := State([], [], map[k := [t], h := [u]], [Lock(k, 1), Lock(h, 1)], map[1 := [x, z]], 1, []);
    assert s.running[1 := []][1 := [u, t]] == map[1 := [u, t]];
    FinishesOn(limits, s0, speakers, s, 1, Released([], map[], [t, u]), Filled([], map[], [u, t]),
               State([], [], map[], active, map[1 := [u, t]], 1, [x, z]));
  }

  lemma ReleasesTwo(t: Test, u: Test, k: Key, h: Key)
    requires k != h
    ensures Release([Lock(k, 1), Lock(h, 1)], 1, map[k := [t], h := [u]], []) == Released([], map[], [t, u])
  {
    var waiting: map<Key, seq<Test>> := map[k := [t], h := [u]];
    assert [Lock(k, 1), Lock(h, 1)] == [Lock(k, 1)] + ([Lock(h, 1)] + []);
    ReleaseHead(Lock(k, 1), [Lock(h, 1)] + [], waiting, []);
    ReleaseHead(Lock(h, 1), [], map[h := [u]], [t]);
    assert waiting - {k} == map[h := [u]] && map[h := [u]] - {h} == map[];
    assert Reverse([t]) == [t] && Reverse([u]) == [u] && [] + [t] == [t] && [t] + [u] == [t, u];
  }

  /** The batch of the worker that speaks is done. */
  lemma Ends(limits: Limits, s0: System, speakers: seq<nat>, s: System, worker: nat) returns (t: System)
    requires RunFrom(limits, s0, speakers) == Some(s)
    requires worker in s.running && worker in s.master.workers && s.running[worker] != []
    ensures RunFrom(limits, s0, speakers + [worker]) == Some(t) && t.done == s.done + s.running[worker]
  {
    t := Step(limits, s, worker);
    RunOn(limits, s0, speakers, s, worker, t);
  }

  /** The later test lands on top of the earlier one, and runs first. */
  lemma LandsOnTop(t: Test, u: Test, x: Test, z: Test, k: Key, h: Key) returns (speakers: seq<nat>, s: System)
    requires Crossing(t, u, x, z, k, h)
    ensures UnshuffledRun([x, z, t, u], 2, true, speakers, s) && s.done == [x, z] + [u, t]
  {
    var limits := InitialLimits([x, z, t, u], true, false);
    var s0 := State([u, t, z, x], [], map[], [], map[1 := [], 2 := []], 0, []);
    Starts([x, z, t, u], 2);
    ReverseFour(x, z, t, u);
    SpawnTwo();
    speakers := [];
    CrossingTakes(limits, s0, speakers, t, u, x, z, k, h);
    CrossingWaits(limits, s0, speakers + [1], t, u, x, z, k, h);
    var active := CrossingLands(limits, s0, speakers + [1] + [2], t, u, x, z, k, h);
    speakers := speakers + [1] + [2] + [1];
    s := Ends(limits, s0, speakers, State([], [], map[], active, map[1 := [u, t]], 1, [x, z]), 1);
    speakers := speakers + [1];
  }

  // ---------- A test that waits again gets in line behind ----------

  /** Both tests ask for one key, the later one first of all; the earlier one also asks for another,
      which is held when it comes up; only then is the first key taken. */
  ghost predicate Chasing(t: Test, u: Test, x: Test, z: Test, y: Test, v: Test, k: Key, h: Key) {
    && x.conflicts == [k] && z.conflicts == [] && y.conflicts == [h] && v.conflicts == [] && k != h
    && k in t.conflicts && h in t.conflicts && u.conflicts != [] && u.conflicts[0] == h
    && NoneSequential([x, z, t, y, v, u])
  }

  lemma TakesFirstKey(limits: Limits, t: Test, u: Test, x: Test, z: Test, y: Test, v: Test, k: Key, h: Key)
    requires Chasing(t, u, x, z, y, v, k, h) && limits.maxBatchSize == 1
    ensures Message(limits, State([u, v, y, t, z, x], [], map[], [], map[1 := [], 2 := [], 3 := []], 0, []), 1,
                    State([u, v, y, t], [], map[], [Lock(k, 1)], map[1 := [x, z], 2 := [], 3 := []], 1, []))
  {
    NoneHeld(x.conflicts, []);
    NoneHeld(z.conflicts, []);
    PopTwo([u, v, y, t], z, x, map[], []);
    assert [u, v, y, t] + [z, x] == [u, v, y, t, z, x];
    TakesOne([], x, z, k, 1);
    var s := State([u, v, y, t, z, x], [], map[], [], map[1 := [], 2 := [], 3 := []], 0, []);
    assert s.running[1 := [x, z]] == map[1 := [x, z], 2 := [], 3 := []];
    Serves(limits, s, 1, Filled([u, v, y, t], map[], [x, z]),
           State([u, v, y, t], [], map[], [Lock(k, 1)], map[1 := [x, z], 2 := [], 3 := []], 1, []));
  }

  lemma ChasingTakes(limits: Limits, s0: System, speakers: seq<nat>, t: Test, u: Test, x: Test, z: Test,
                     y: Test, v: Test, k: Key, h: Key)
    requires Chasing(t, u, x, z, y, v, k, h) && limits.maxBatchSize == 1
    requires RunFrom(limits, s0, speakers)
          == Some(State([u, v, y, t, z, x], [], map[], [], map[1 := [], 2 := [], 3 := []], 0, []))
    ensures RunFrom(limits, s0, speakers + [1])
         == Some(State([u, v, y, t], [], map[], [Lock(k, 1)], map[1 := [x, z], 2 := [], 3 := []], 1, []))
  {
    var s := State([u, v, y, t, z, x], [], map[], [], map[1 := [], 2 := [], 3 := []], 0, []);
    var next := State([u, v, y, t], [], map[], [Lock(k, 1)], map[1 := [x, z], 2 := [], 3 := []], 1, []);
    TakesFirstKey(limits, t, u, x, z, y, v, k, h);
    RunOn(limits, s0, speakers, s, 1, next);
  }

  lemma TakesOne(active: seq<Lock>, x: Test, z: Test, k: Key, worker: nat)
    requires x.conflicts == [k] && z.conflicts == []
    ensures TakeLocks(active, [x, z], worker) == SetLock(active, k, worker)
  {
    assert Front([x, z]) == [x] && Front([x]) == [] && Front([k]) == [];
    assert TakeKeys(active, [k], worker) == SetLock(active, k, worker);
    assert TakeLocks(active, [x], worker) == TakeKeys(TakeLocks(active, [], worker), [k], worker);
  }

  /** The earlier test waits for the held key, and the next one takes the other. */
  lemma PassesHeldKey(limits: Limits, t: Test, u: Test, x: Test, z: Test, y: Test, v: Test, k: Key, h: Key)
    requires Chasing(t, u, x, z, y, v, k, h) && limits.maxBatchSize == 1
    ensures Message(limits, State([u, v, y, t], [], map[], [Lock(k, 1)], map[1 := [x, z], 2 := [], 3 := []], 1, []), 2,
                    State([u], [], map[k := [t]], [Lock(k, 1), Lock(h, 2)],
                          map[1 := [x, z], 2 := [y, v], 3 := []], 2, []))
  {
    var active := [Lock(k, 1)];
    OneHeld(t, y, v, k, h);
    OneWaitsTwoRun(u, t, y, v, k, active);
    TakesOne(active, y, v, h, 2);
    assert SetLock(active, h, 2) == [Lock(k, 1)] + SetLock([], h, 2);
    var s := State([u, v, y, t], [], map[], active, map[1 := [x, z], 2 := [], 3 := []], 1, []);
    assert s.running[2 := [y, v]] == map[1 := [x, z], 2 := [y, v], 3 := []];
    Serves(limits, s, 2, Filled([u], map[k := [t]], [y, v]),
           State([u], [], map[k := [t]], [Lock(k, 1), Lock(h, 2)], map[1 := [x, z], 2 := [y, v], 3 := []], 2, []));
  }

  lemma ChasingPasses(limits: Limits, s0: System, speakers: seq<nat>, t: Test, u: Test, x: Test, z: Test,
                      y: Test, v: Test, k: Key, h: Key)
    requires Chasing(t, u, x, z, y, v, k, h) && limits.maxBatchSize == 1
    requires RunFrom(limits, s0, speakers)
          == Some(State([u, v, y, t], [], map[], [Lock(k, 1)], map[1 := [x, z], 2 := [], 3 := []], 1, []))
    ensures RunFrom(limits, s0, speakers + [2])
         == Some(State([u], [], map[k := [t]], [Lock(k, 1), Lock(h, 2)], map[1 := [x, z], 2 := [y, v], 3 := []], 2, []))
  {
    var s := State([u, v, y, t], [], map[], [Lock(k, 1)], map[1 := [x, z], 2 := [], 3 := []], 1, []);
    var next := State([u], [], map[k := [t]], [Lock(k, 1), Lock(h, 2)], map[1 := [x, z], 2 := [y, v], 3 := []], 2, []);
    PassesHeldKey(limits, t, u, x, z, y, v, k, h);
    RunOn(limits, s0, speakers, s, 2, next);
  }

  lemma HoldsOne(k: Key, worker: nat, c: Key)
    ensures Holder([Lock(k, worker)], c) == if c == k then Some(worker) else None
  {
    assert [Lock(k, worker)] == [Lock(k, worker)] + [];
    HolderHead(Lock(k, worker), [], c);
  }

  lemma OneHeld(t: Test, y: Test, v: Test, k: Key, h: Key)
    requires k in t.conflicts && y.conflicts == [h] && v.conflicts == [] && k != h
    ensures var active := [Lock(k, 1)];
            && FirstHeld(t.conflicts, active) == Some(k)
            && FirstHeld(y.conflicts, active) == None && FirstHeld(v.conflicts, active) == None
  {
    var active := [Lock(k, 1)];
    forall c ensures Holder(active, c) == if c == k then Some(1) else None {
      HoldsOne(k, 1, c);
    }
    OnlyOneHeld(t.conflicts, active, k);
    NoneHeld(y.conflicts, active);
    NoneHeld(v.conflicts, active);
  }

  lemma OneWaitsTwoRun(u: Test, t: Test, y: Test, v: Test, k: Key, active: seq<Lock>)
    requires FirstHeld(t.conflicts, active) == Some(k)
    requires FirstHeld(y.conflicts, active) == None && FirstHeld(v.conflicts, active) == None
    ensures Fill([u, v, y, t], map[], active, [], 1) == Filled([u], map[k := [t]], [y, v])
  {
    assert [u, v, y] + [t] == [u, v, y, t] && [u] + [v, y] == [u, v, y] && [] + [t] == [t];
    PopWaits([u, v, y], t, map[], active, [], 1, k);
    PopTwo([u], v, y, map[k := [t]], active);
  }

  lemma ChasingWaits(limits: Limits, s0: System, speakers: seq<nat>, t: Test, u: Test, x: Test, z: Test,
                     y: Test, v: Test, k: Key, h: Key)
    requires Chasing(t, u, x, z, y, v, k, h) && limits.maxBatchSize == 1
    requires RunFrom(limits, s0, speakers)
          == Some(State([u], [], map[k := [t]], [Lock(k, 1), Lock(h, 2)],
                        map[1 := [x, z], 2 := [y, v], 3 := []], 2, []))
    ensures RunFrom(limits, s0, speakers + [3])
         == Some(State([], [], map[k := [t], h := [u]], [Lock(k, 1), Lock(h, 2)], map[1 := [x, z], 2 := [y, v]], 2, []))
  {
    var active, waiting: map<Key, seq<Test>> := [Lock(k, 1), Lock(h, 2)], map[k := [t]];
    HoldsTwo(k, 1, h, 2, h);
    PopWaits([], u, waiting, active, [], 1, h);
    assert [] + [u] == [u] && waiting[h := [u]] == map[k := [t], h := [u]];
    var s := State([u], [], waiting, active, map[1 := [x, z], 2 := [y, v], 3 := []], 2, []);
    assert s.running - {3} == map[1 := [x, z], 2 := [y, v]];
    ServesOn(limits, s0, speakers, s, 3, Filled([], map[k := [t], h := [u]], []),
             State([], [], map[k := [t], h := [u]], active, map[1 := [x, z], 2 := [y, v]], 2, []));
  }

  /** The earlier test comes back, and has to wait again, now behind the later one. */
  lemma QueuesBehind(limits: Limits, t: Test, u: Test, x: Test, z: Test, y: Test, v: Test, k: Key, h: Key)
    requires Chasing(t, u, x, z, y, v, k, h) && limits.maxBatchSize == 1
    ensures Message(limits, State([], [], map[k := [t], h := [u]], [Lock(k, 1), Lock(h, 2)],
                                  map[1 := [x, z], 2 := [y, v]], 2, []), 1,
                    State([], [], map[h := [u, t]], [Lock(h, 2)], map[2 := [y, v]], 1, [x, z]))
  {
    ReleasesFirst(t, u, k, h);
    WaitsBehind(t, u, h);
    assert [] + [x, z] == [x, z];
    var s := State([], [], map[k := [t], h := [u]], [Lock(k, 1), Lock(h, 2)], map[1 := [x, z], 2 := [y, v]], 2, []);
    assert s.running[1 := []] - {1} == map[2 := [y, v]];
    Finishes(limits, s, 1, Released([Lock(h, 2)], map[h := [u]], [t]),
               Filled([], map[h := [u, t]], []),
             State([], [], map[h := [u, t]], [Lock(h, 2)], map[2 := [y, v]], 1, [x, z]));
  }

  lemma ChasingQueues(limits: Limits, s0: System, speakers: seq<nat>, t: Test, u: Test, x: Test, z: Test,
                      y: Test, v: Test, k: Key, h: Key)
    requires Chasing(t, u, x, z, y, v, k, h) && limits.maxBatchSize == 1
    requires RunFrom(limits, s0, speakers)
          == Some(State([], [], map[k := [t], h := [u]], [Lock(k, 1), Lock(h, 2)],
                        map[1 := [x, z], 2 := [y, v]], 2, []))
    ensures RunFrom(limits, s0, speakers + [1])
         == Some(State([], [], map[h := [u, t]], [Lock(h, 2)], map[2 := [y, v]], 1, [x, z]))
  {
    var s := State([], [], map[k := [t], h := [u]], [Lock(k, 1), Lock(h, 2)], map[1 := [x, z], 2 := [y, v]], 2, []);
    var next := State([], [], map[h := [u, t]], [Lock(h, 2)], map[2 := [y, v]], 1, [x, z]);
    QueuesBehind(limits, t, u, x, z, y, v, k, h);
    RunOn(limits, s0, speakers, s, 1, next);
  }

  lemma WaitsBehind(t: Test, u: Test, h: Key)
    requires h in t.conflicts
    ensures Fill([t], map[h := [u]], [Lock(h, 2)], [], 1) == Filled([], map[h := [u, t]], [])
  {
    var active, waiting: map<Key, seq<Test>> := [Lock(h, 2)], map[h := [u]];
    forall c ensures Holder(active, c) == if c == h then Some(2) else None {
      HoldsOne(h, 2, c);
    }
    OnlyOneHeld(t.conflicts, active, h);
    PopWaits([], t, waiting, active, [], 1, h);
    assert [] + [t] == [t] && QueueOf(waiting, h) + [t] == [u, t];
    assert waiting[h := [u, t]] == map[h := [u, t]];
  }

  lemma ReleaseKeeps(l: Lock, rest: seq<Lock>, worker: nat, waiting: map<Key, seq<Test>>, stack: seq<Test>)
    requires l.worker != worker
    ensures var r := Release(rest, worker, waiting, stack);
            Release([l] + rest, worker, waiting, stack) == r.(active := [l] + r.active)
  {
    assert ([l] + rest)[1..] == rest;
  }

  lemma ReleasesFirst(t: Test, u: Test, k: Key, h: Key)
    requires k != h
    ensures Release([Lock(k, 1), Lock(h, 2)], 1, map[k := [t], h := [u]], [])
         == Released([Lock(h, 2)], map[h := [u]], [t])
  {
    var waiting: map<Key, seq<Test>> := map[k := [t], h := [u]];
    assert [Lock(k, 1), Lock(h, 2)] == [Lock(k, 1)] + ([Lock(h, 2)] + []);
    ReleaseHead(Lock(k, 1), [Lock(h, 2)] + [], waiting, []);
    ReleaseKeeps(Lock(h, 2), [], 1, map[h := [u]], [t]);
    assert waiting - {k} == map[h := [u]] && Reverse([t]) == [t] && [] + [t] == [t];
  }

  lemma ChasingOvertakes(limits: Limits, s0: System, speakers: seq<nat>, t: Test, u: Test, x: Test, z: Test,
                         y: Test, v: Test, k: Key, h: Key)
    returns (active: seq<Lock>)
    requires Chasing(t, u, x, z, y, v, k, h) && limits.maxBatchSize == 1
    requires RunFrom(limits, s0, speakers)
          == Some(State([], [], map[h := [u, t]], [Lock(h, 2)], map[2 := [y, v]], 1, [x, z]))
    ensures RunFrom(limits, s0, speakers + [2])
         == Some(State([], [], map[], active, map[2 := [u, t]], 1, [x, z, y, v]))
  {
    ReleasesOne(t, u, h);
    NoneHeld(t.conflicts, []);
    NoneHeld(u.conflicts, []);
    PopTwo([], t, u, map[], []);
    assert [] + [t, u] == [t, u] && [x, z] + [y, v] == [x, z, y, v];
    active := TakeLocks([], [u, t], 2);
    var s := State([], [], map[h := [u, t]], [Lock(h, 2)], map[2 := [y, v]], 1, [x, z]);
    assert s.running[2 := []][2 := [u, t]] == map[2 := [u, t]];
    FinishesOn(limits, s0, speakers, s, 2, Released([], map[], [t, u]), Filled([], map[], [u, t]),
               State([], [], map[], active, map[2 := [u, t]], 1, [x, z, y, v]));
  }

  lemma ReleasesOne(t: Test, u: Test, h: Key)
    ensures Release([Lock(h, 2)], 2, map[h := [u, t]], []) == Released([], map[], [t, u])
  {
    var waiting: map<Key, seq<Test>> := map[h := [u, t]];
    assert [Lock(h, 2)] == [Lock(h, 2)] + [];
    ReleaseHead(Lock(h, 2), [], waiting, []);
    ReverseLast([u, t]);
    assert Front([u, t]) == [u] && Reverse([u]) == [u] && waiting - {h} == map[] && [] + [t, u] == [t, u];
  }

  lemma SpawnThree()
    ensures Spawn(3) == map[1 := [], 2 := [], 3 := []]
  {
    SpawnTwo();
  }

  lemma ReverseSix(a: Test, b: Test, c: Test, d: Test, e: Test, f: Test)
    ensures Reverse([a, b, c, d, e, f]) == [f, e, d, c, b, a]
  {
    assert [a, b, c, d, e, f] == [a, b] + [c, d, e, f];
    ReverseConcat([a, b], [c, d, e, f]);
    ReverseFour(c, d, e, f);
    ReverseLast([a, b]);
    assert Front([a, b]) == [a] && Reverse([a]) == [a];
  }

  /** The earlier test has to wait twice, and the later one runs first. */
  lemma WaitsTwice(t: Test, u: Test, x: Test, z: Test, y: Test, v: Test, k: Key, h: Key)
    returns (speakers: seq<nat>, s: System)
    requires Chasing(t, u, x, z, y, v, k, h)
    ensures UnshuffledRun([x, z, t, y, v, u], 3, true, speakers, s) && s.done == [x, z, y, v] + [u, t]
  {
    var limits := InitialLimits([x, z, t, y, v, u], true, false);
    var s0 := State([u, v, y, t, z, x], [], map[], [], map[1 := [], 2 := [], 3 := []], 0, []);
    Starts([x, z, t, y, v, u], 3);
    ReverseSix(x, z, t, y, v, u);
    SpawnThree();
    speakers := [];
    ChasingTakes(limits, s0, speakers, t, u, x, z, y, v, k, h);
    speakers := speakers + [1];
    ChasingPasses(limits, s0, speakers, t, u, x, z, y, v, k, h);
    speakers := speakers + [2];
    ChasingWaits(limits, s0, speakers, t, u, x, z, y, v, k, h);
    speakers := speakers + [3];
    ChasingQueues(limits, s0, speakers, t, u, x, z, y, v, k, h);
    speakers := speakers + [1];
    var active := ChasingOvertakes(limits, s0, speakers, t, u, x, z, y, v, k, h);
    speakers := speakers + [2];
    s := Ends(limits, s0, speakers, State([], [], map[], active, map[2 := [u, t]], 1, [x, z, y, v]), 2);
    speakers := speakers + [2];
  }

  // ---------- Tests marked "all" ----------

  /** With a single worker a later test marked "all" comes first. */
  lemma AllComesFirst(t: Test, u: Test) returns (speakers: seq<nat>, s: System)
    requires ALL in u.conflicts
    ensures UnshuffledRun([t, u], 1, true, speakers, s) && s.done == [] + [u, t]
  {
    var limits := InitialLimits([t, u], true, false);
    var stack, later := if ALL in t.conflicts then [] else [t], if ALL in t.conflicts then [t, u] else [u];
    var s0 := State(stack, later, map[], [], map[1 := []], 0, []);
    AllSplits(t, u);
    speakers := [];
    AllOnTop(limits, s0, speakers, t, u, stack, later);
    speakers := speakers + [1];
    s := Ends(limits, s0, speakers, State([], [], map[], TakeLocks([], [u, t], 1), map[1 := [u, t]], 1, []), 1);
    speakers := speakers + [1];
  }

  lemma AllOnTop(limits: Limits, s0: System, speakers: seq<nat>, t: Test, u: Test, stack: seq<Test>, later: seq<Test>)
    requires limits.maxBatchSize == 1 && stack + later == [t, u]
    requires RunFrom(limits, s0, speakers) == Some(State(stack, later, map[], [], map[1 := []], 0, []))
    ensures RunFrom(limits, s0, speakers + [1])
         == Some(State([], [], map[], TakeLocks([], [u, t], 1), map[1 := [u, t]], 1, []))
  {
    var before := State(stack, later, map[], [], map[1 := []], 0, []);
    var after := State([], [], map[], TakeLocks([], [u, t], 1), map[1 := [u, t]], 1, []);
    LastServes(limits, t, u);
    Admits(limits, stack, later, map[], [], map[1 := []], 0, [], 1);
    RunOn(limits, s0, speakers, before, 1, after);
  }

  lemma LastServes(limits: Limits, t: Test, u: Test)
    requires limits.maxBatchSize == 1
    ensures Message(limits, State([t, u], [], map[], [], map[1 := []], 0, []), 1,
                    State([], [], map[], TakeLocks([], [u, t], 1), map[1 := [u, t]], 1, []))
  {
    NoneHeld(t.conflicts, []);
    NoneHeld(u.conflicts, []);
    PopTwo([], t, u, map[], []);
    assert [] + [t, u] == [t, u];
    var s := State([t, u], [], map[], [], map[1 := []], 0, []);
    assert s.running[1 := [u, t]] == map[1 := [u, t]];
    Serves(limits, s, 1, Filled([], map[], [u, t]),
           State([], [], map[], TakeLocks([], [u, t], 1), map[1 := [u, t]], 1, []));
  }

  lemma AllSplits(t: Test, u: Test)
    requires ALL in u.conflicts
    ensures var stack, later := if ALL in t.conflicts then [] else [t], if ALL in t.conflicts then [t, u] else [u];
            Initial([t, u], 1, false) == State(stack, later, map[], [], map[1 := []], 0, [])
  {
    assert Front([t, u]) == [t] && Front([t]) == [] && [] + [t] == [t];
    assert Parallel([t]) == if ALL in t.conflicts then [] else [t];
    assert Sequential([t]) == if ALL in t.conflicts then [t] else [];
    assert Spawn(0) == map[] && Spawn(1) == map[1 := []];
  }

  /** With two workers a test marked "all" is kept for later. */
  lemma AllIsKept(t: Test, u: Test, v: Test) returns (speakers: seq<nat>, s: System)
    requires ALL in t.conflicts && ALL !in u.conflicts && v.conflicts == []
    ensures UnshuffledRun([t, u, v], 2, true, speakers, s) && s.done == [] + [u, v]
  {
    var limits := InitialLimits([t, u, v], true, false);
    var s0 := State([v, u], [t], map[], [], map[1 := [], 2 := []], 0, []);
    AllKeptBack(t, u, v);
    speakers := [];
    AllStaysBack(limits, s0, speakers, t, u, v);
    speakers := speakers + [1];
    var last := State([], [t], map[], TakeLocks([], [u, v], 1), map[1 := [u, v], 2 := []], 1, []);
    s := Ends(limits, s0, speakers, last, 1);
    speakers := speakers + [1];
  }

  lemma AllStaysBack(limits: Limits, s0: System, speakers: seq<nat>, t: Test, u: Test, v: Test)
    requires limits.maxBatchSize == 1
    requires RunFrom(limits, s0, speakers) == Some(State([v, u], [t], map[], [], map[1 := [], 2 := []], 0, []))
    ensures RunFrom(limits, s0, speakers + [1])
         == Some(State([], [t], map[], TakeLocks([], [u, v], 1), map[1 := [u, v], 2 := []], 1, []))
  {
    var before := State([v, u], [t], map[], [], map[1 := [], 2 := []], 0, []);
    var after := State([], [t], map[], TakeLocks([], [u, v], 1), map[1 := [u, v], 2 := []], 1, []);
    FirstServes(limits, t, u, v);
    RunOn(limits, s0, speakers, before, 1, after);
  }

  lemma FirstServes(limits: Limits, t: Test, u: Test, v: Test)
    requires limits.maxBatchSize == 1
    ensures Message(limits, State([v, u], [t], map[], [], map[1 := [], 2 := []], 0, []), 1,
                    State([], [t], map[], TakeLocks([], [u, v], 1), map[1 := [u, v], 2 := []], 1, []))
  {
    NoneHeld(u.conflicts, []);
    NoneHeld(v.conflicts, []);
    PopTwo([], v, u, map[], []);
    var s := State([v, u], [t], map[], [], map[1 := [], 2 := []], 0, []);
    assert [] + [v, u] == [v, u] && s.running.Keys == {1, 2} && |{1, 2}| == 2;
    assert s.running[1 := [u, v]] == map[1 := [u, v], 2 := []];
    Serves(limits, s, 1, Filled([], map[], [u, v]),
           State([], [t], map[], TakeLocks([], [u, v], 1), map[1 := [u, v], 2 := []], 1, []));
  }

  lemma AllKeptBack(t: Test, u: Test, v: Test)
    requires ALL in t.conflicts && ALL !in u.conflicts && v.conflicts == []
    ensures Initial([t, u, v], 2, false) == State([v, u], [t], map[], [], map[1 := [], 2 := []], 0, [])
  {
    SplitLast([], t);
    SplitLast([t], u);
    SplitLast([t, u], v);
    assert [] + [t] == [t] && [t] + [u] == [t, u] && [t, u] + [v] == [t, u, v] && [u] + [v] == [u, v];
    ReverseLast([u, v]);
    assert Front([u, v]) == [u] && Reverse([u]) == [u];
    SpawnTwo();
  }

  lemma SplitLast(tests: seq<Test>, t: Test)
    ensures Parallel(tests + [t]) == Parallel(tests) + if ALL in t.conflicts then [] else [t]
    ensures Sequential(tests + [t]) == Sequential(tests) + if ALL in t.conflicts then [t] else []
  {
    assert Front(tests + [t]) == tests;
  }

  // ---------- Exactly when a test can be overtaken ----------

  /** Two tests of the list, with these conflict keys; the later one is not there before. */
  ghost predicate IsPair(tests: seq<Test>, i: nat, j: nat, first: seq<Key>, second: seq<Key>) {
    && i < j < |tests| && tests[i].conflicts == first && tests[j].conflicts == second
    && tests[j] !in tests[..i + 1]
  }

  /** In every unshuffled run, at any point, a test with the one list of keys comes before every
      later test with the other. */
  ghost predicate NeverOvertaken(first: seq<Key>, second: seq<Key>) {
    forall tests: seq<Test>, requested: int, valgrind: bool, speakers: seq<nat>, s: System, i: nat, j: nat ::
      UnshuffledRun(tests, requested, valgrind, speakers, s) && IsPair(tests, i, j, first, second) ==>
        Ahead(s.done, tests[i], tests[j])
  }

  lemma Overtaken(tests: seq<Test>, requested: int, speakers: seq<nat>, s: System, i: nat, j: nat, p: nat,
                  first: seq<Key>, second: seq<Key>)
    requires UnshuffledRun(tests, requested, true, speakers, s) && IsPair(tests, i, j, first, second)
    requires p < |s.done| && s.done[p] == tests[j] && tests[i] !in s.done[..p]
    ensures !NeverOvertaken(first, second)
  {
  }

  /** With a conflict key in common, a test is never overtaken by a later one exactly if the later
      one is not marked "all" and every key of the earlier one is the first key of the later one. */
  lemma NeverOvertakenIff(first: seq<Key>, second: seq<Key>, common: Key)
    requires common in first && common in second
    ensures NeverOvertaken(first, second) <==> ALL !in second && forall k :: k in first ==> k == second[0]
  {
    var h := second[0];
    if ALL in second {
      MarkedOvertakes(first, second);
    } else if ALL in first {
      MarkedIsOvertaken(first, second);
    } else if k :| k in first && k != h {
      if h in first {
        TwiceOvertaken(first, second, k);
      } else {
        CrossOvertaken(first, second, k);
      }
    } else {
      SingleKeyStaysAhead(first, second);
    }
  }

  /** In particular, of two tests that share a key, the later one asking for nothing else, the earlier
      one is never overtaken exactly if it asks for nothing else either. */
  lemma SecondKeyIsOvertaken(first: seq<Key>, key: Key)
    requires key in first && key != ALL
    ensures NeverOvertaken(first, [key]) <==> forall k :: k in first ==> k == key
  {
    NeverOvertakenIff(first, [key], key);
  }

  lemma SingleKeyStaysAhead(first: seq<Key>, second: seq<Key>)
    requires first != [] && second != [] && ALL !in second && forall k :: k in first ==> k == second[0]
    ensures NeverOvertaken(first, second)
  {
    forall tests: seq<Test>, requested: int, valgrind: bool, speakers: seq<nat>, s: System, i: nat, j: nat
      | UnshuffledRun(tests, requested, valgrind, speakers, s) && IsPair(tests, i, j, first, second)
      ensures Ahead(s.done, tests[i], tests[j])
    {
      assert first[0] in first && second[0] in second;
      StaysAhead(tests, requested, valgrind, speakers, s, i, tests[j], second[0]);
    }
  }

  lemma MarkedOvertakes(first: seq<Key>, second: seq<Key>)
    requires ALL in second
    ensures !NeverOvertaken(first, second)
  {
    var t, u := Test("1", first), Test("2", second);
    var speakers, s := AllComesFirst(t, u);
    assert [t, u][..1] == [t];
    Overtaken([t, u], 1, speakers, s, 0, 1, 0, first, second);
  }

  lemma MarkedIsOvertaken(first: seq<Key>, second: seq<Key>)
    requires ALL in first && ALL !in second
    ensures !NeverOvertaken(first, second)
  {
    var t, u, v := Test("1", first), Test("2", second), Test("3", []);
    var speakers, s := AllIsKept(t, u, v);
    assert [t, u, v][..1] == [t];
    Overtaken([t, u, v], 2, speakers, s, 0, 1, 0, first, second);
  }

  lemma CrossOvertaken(first: seq<Key>, second: seq<Key>, k: Key)
    requires ALL !in first && ALL !in second && second != [] && k in first && second[0] !in first
    ensures !NeverOvertaken(first, second)
  {
    var x, z, t, u := Test("1", [k, second[0]]), Test("2", []), Test("3", first), Test("4", second);
    assert second[0] in second;
    var speakers, s := LandsOnTop(t, u, x, z, k, second[0]);
    assert [x, z, t, u][..3] == [x, z, t] && s.done[..2] == [x, z];
    Overtaken([x, z, t, u], 2, speakers, s, 2, 3, 2, first, second);
  }

  lemma TwiceOvertaken(first: seq<Key>, second: seq<Key>, k: Key)
    requires ALL !in first && ALL !in second && second != []
    requires k in first && second[0] in first && k != second[0]
    ensures !NeverOvertaken(first, second)
  {
    var h := second[0];
    var x, z, t := Test("1", [k]), Test("2", []), Test("3", first);
    var y, v, u := Test("4", [h]), Test("5", []), Test("6", second);
    assert h in second;
    var speakers, s := WaitsTwice(t, u, x, z, y, v, k, h);
    assert [x, z, t, y, v, u][..3] == [x, z, t] && s.done[..4] == [x, z, y, v];
    Overtaken([x, z, t, y, v, u], 3, speakers, s, 2, 5, 4, first, second);
  }
}
