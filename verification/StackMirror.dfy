/** The debugger's own stack of frames beside the engine's: pushed and popped by the begin and
    end handlers of calls, rebuilt when debugging starts in the middle of a request. */
module StackMirror {
  import opened Wrappers
  import opened Subsequences

  /** How the handlers of a call are run. `Observed`: by the observer, as long as it is on.
      `Direct`: around the execution of the code itself, whether the observer is on or not, as for
      evaluated code. `Declined`: never, as for a function first called while the observer was off. */
  datatype Handlers = Observed | Direct | Declined

  /** A call in progress: its execute data, of which no two are live at once; whether it has a
      function; whether that is user code; and how its handlers are run. */
  datatype Call = Call(id: nat, hasFunc: bool, user: bool, handlers: Handlers)

  /** A debugger frame: the call it was made for, and the stamp, the execute data calling it. */
  datatype Frame = Frame(call: nat, stamp: Option<nat>)

  /** `marks` says of each call in progress whether it is recorded: its begin pushed a frame, or
      the last rebuild made one. */
  datatype State = State(engine: seq<Call>, marks: seq<bool>, debugger: seq<Frame>, active: bool)

  /** `prev_execute_data` of the innermost call. */
  function Prev(engine: seq<Call>): Option<nat> {
    if |engine| < 2 then None else Some(engine[|engine| - 2].id)
  }

  function FrameOf(engine: seq<Call>): Frame
    requires engine != []
  {
    Frame(Last(engine).id, Prev(engine))
  }

  /** The frames of the recorded calls, outermost first. */
  function Recorded(engine: seq<Call>, marks: seq<bool>): seq<Frame>
    requires |marks| == |engine|
  {
    if engine == [] then []
    else Recorded(Front(engine), Front(marks)) + if Last(marks) then [FrameOf(engine)] else []
  }

  function Funcs(engine: seq<Call>): (marks: seq<bool>)
    ensures |marks| == |engine|
  {
    if engine == [] then [] else Funcs(Front(engine)) + [Last(engine).hasFunc]
  }

  // ---------- The events ----------

  /** A call begins (`stays`: a client is connected or may still come); the innermost call ends;
      the observer is switched on as it is, or after a rebuild, from within an internal function
      whose own frame is dropped again, or not; it is switched off; or the stack is rebuilt while
      the observer stays off, for a connection that then fails or for a notification. */
  datatype Event =
    | Begin(call: Call, stays: bool)
    | End
    | SwitchOn
    | SwitchOnRebuilt(ownFrame: bool)
    | SwitchOff
    | RebuildOnly(ownFrame: bool)

  predicate Belongs(debugger: seq<Frame>, engine: seq<Call>) {
    debugger != [] && Last(debugger).stamp == Prev(engine)
  }

  /** Whether the handlers of a call run. */
  predicate Runs(active: bool, call: Call) {
    call.handlers.Direct? || (call.handlers.Observed? && active)
  }

  function BeginCall(s: State, call: Call, stays: bool): State {
    var engine := s.engine + [call];
    if !Runs(s.active, call) then State(engine, s.marks + [false], s.debugger, s.active)
    else if call.user && s.debugger == [] && !stays then State(engine, s.marks + [false], s.debugger, false)
    else State(engine, s.marks + [true], s.debugger + [FrameOf(engine)], s.active)
  }

  function EndCall(s: State): State
    requires s.engine != [] && |s.marks| == |s.engine|
  {
    var debugger :=
      if Runs(s.active, Last(s.engine)) && Belongs(s.debugger, s.engine) then Front(s.debugger) else s.debugger;
    State(Front(s.engine), Front(s.marks), debugger, s.active)
  }

  predicate CanDrop(engine: seq<Call>, ownFrame: bool) {
    ownFrame ==> engine != [] && Last(engine).hasFunc
  }

  /** Every call with a function gets a frame; the one that asked may be dropped. */
  function RebuiltMarks(engine: seq<Call>, ownFrame: bool): (marks: seq<bool>)
    requires CanDrop(engine, ownFrame)
    ensures |marks| == |engine|
  {
    if ownFrame then Funcs(Front(engine)) + [false] else Funcs(engine)
  }

  function Rebuilt(engine: seq<Call>, ownFrame: bool): seq<Frame>
    requires CanDrop(engine, ownFrame)
  {
    var all := Recorded(engine, Funcs(engine));
    if ownFrame then Front(all) else all
  }

  predicate Possible(s: State, e: Event) {
    |s.marks| == |s.engine| &&
    match e
    case Begin(call, _) =>
      && (forall i :: 0 <= i < |s.engine| ==> s.engine[i].id != call.id)
      && (!call.handlers.Declined? ==> call.hasFunc)
      && (call.handlers.Direct? ==> call.user)
    case End => s.engine != []
    case SwitchOn => true
    case SwitchOnRebuilt(own) => !s.active && CanDrop(s.engine, own)
    case SwitchOff => true
    case RebuildOnly(own) => !s.active && CanDrop(s.engine, own)
  }

  function Step(s: State, e: Event): State
    requires Possible(s, e)
  {
    match e
    case Begin(call, stays) => BeginCall(s, call, stays)
    case End => EndCall(s)
    case SwitchOn => s.(active := true)
    case SwitchOnRebuilt(own) =>
      s.(active := true, marks := RebuiltMarks(s.engine, own), debugger := Rebuilt(s.engine, own))
    case SwitchOff => s.(active := false)
    case RebuildOnly(own) => s.(marks := RebuiltMarks(s.engine, own), debugger := Rebuilt(s.engine, own))
  }

  // ---------- What holds in every state ----------

  ghost predicate Distinct(engine: seq<Call>) {
    forall i, j :: 0 <= i < j < |engine| ==> engine[i].id != engine[j].id
  }

  /** The debugger's stack is exactly the list of recorded calls in progress. */
  ghost predicate Mirrors(s: State) {
    |s.marks| == |s.engine| && s.debugger == Recorded(s.engine, s.marks)
  }

  /** The frames of the recorded calls in progress are all there, in order; any others are stale. */
  ghost predicate Holds(s: State) {
    |s.marks| == |s.engine| && Distinct(s.engine) && IsSubsequence(Recorded(s.engine, s.marks), s.debugger)
  }

  /** A request: from any depth of the engine's stack, with an empty debugger stack. */
  ghost predicate Initial(s: State) {
    |s.marks| == |s.engine| && Distinct(s.engine) && s.debugger == [] && forall i :: 0 <= i < |s.marks| ==> !s.marks[i]
  }

  ghost predicate Leads(start: State, es: seq<Event>, s: State) {
    if es == [] then s == start
    else exists p :: Leads(start, Front(es), p) && Possible(p, Last(es)) && s == Step(p, Last(es))
  }

  lemma {:induction false} NothingRecorded(engine: seq<Call>, marks: seq<bool>)
    requires |marks| == |engine| && forall i :: 0 <= i < |marks| ==> !marks[i]
    ensures Recorded(engine, marks) == []
    decreases |engine|
  {
    if engine != [] {
      NothingRecorded(Front(engine), Front(marks));
    }
  }

  /** The last recorded frame belongs to some call, and is stamped with the call before it. */
  lemma {:induction false} LastRecorded(engine: seq<Call>, marks: seq<bool>) returns (k: nat)
    requires |marks| == |engine| && Recorded(engine, marks) != []
    ensures k < |engine| && marks[k] && Last(Recorded(engine, marks)) == FrameOf(engine[..k + 1])
    ensures forall i :: k < i < |engine| ==> !marks[i]
    decreases |engine|
  {
    if Last(marks) {
      k := |engine| - 1;
      assert engine[..k + 1] == engine;
    } else {
      k := LastRecorded(Front(engine), Front(marks));
      assert Front(engine)[..k + 1] == engine[..k + 1];
    }
  }

  /** The stamp tells: the innermost recorded frame carries the stamp of the innermost call
      exactly if that call is recorded. */
  lemma StampTells(engine: seq<Call>, marks: seq<bool>)
    requires engine != [] && |marks| == |engine| && Distinct(engine)
    ensures var r := Recorded(engine, marks);
            Last(marks) <==> r != [] && Last(r).stamp == Prev(engine)
  {
    var r := Recorded(engine, marks);
    if r != [] {
      var k := LastRecorded(engine, marks);
      if k == |engine| - 1 {
        assert engine[..k + 1] == engine;
      } else {
        assert k > 0 ==> engine[..k + 1][k - 1].id != engine[|engine| - 2].id;
      }
    }
  }

  lemma RebuiltMirrors(engine: seq<Call>, own: bool)
    requires CanDrop(engine, own)
    ensures Rebuilt(engine, own) == Recorded(engine, RebuiltMarks(engine, own))
  {
    if own {
      var m := RebuiltMarks(engine, own);
      assert Front(m) == Funcs(Front(engine)) && Front(Funcs(engine)) == Funcs(Front(engine));
    }
  }

  lemma RecordedNext(engine: seq<Call>, marks: seq<bool>, call: Call, mark: bool)
    requires |marks| == |engine|
    ensures Recorded(engine + [call], marks + [mark])
         == if mark then Recorded(engine, marks) + [FrameOf(engine + [call])] else Recorded(engine, marks)
  {
    assert Front(engine + [call]) == engine && Front(marks + [mark]) == marks;
  }

  lemma BeginHolds(s: State, call: Call, stays: bool)
    requires Holds(s) && Possible(s, Begin(call, stays))
    ensures Holds(BeginCall(s, call, stays))
  {
    RecordedNext(s.engine, s.marks, call, true);
    RecordedNext(s.engine, s.marks, call, false);
    SubsequenceAppendLast(Recorded(s.engine, s.marks), s.debugger, FrameOf(s.engine + [call]));
  }

  /** A subsequence without its last element, in a sequence with or without its own. */
  lemma SubsequenceFront<T>(s: seq<T>, a: seq<T>)
    requires s != [] && IsSubsequence(s, a)
    ensures a != [] && IsSubsequence(Front(s), a) && IsSubsequence(Front(s), Front(a))
  {
    SubsequenceLength(s, a);
    SubsequenceLast(s, a);
    SubsequenceAppendLast(Front(s), Front(a), Last(a));
    assert Front(a) + [Last(a)] == a;
  }

  /** What the end of a call removes is never the frame of another call in progress. */
  lemma EndHolds(s: State)
    requires Holds(s) && s.engine != []
    ensures Holds(EndCall(s))
  {
    var r, kept := Recorded(s.engine, s.marks), Recorded(Front(s.engine), Front(s.marks));
    assert EndCall(s).debugger == s.debugger || (s.debugger != [] && EndCall(s).debugger == Front(s.debugger));
    if Last(s.marks) {
      assert r == kept + [FrameOf(s.engine)];
      assert Front(r) == kept;
      SubsequenceFront(r, s.debugger);
    } else {
      assert r == kept + [] == kept;
      StampTells(s.engine, s.marks);
    }
    if r != [] && !Last(s.marks) {
      SubsequenceLength(r, s.debugger);
      SubsequenceLast(r, s.debugger);
    }
  }

  lemma StepHolds(s: State, e: Event)
    requires Holds(s) && Possible(s, e)
    ensures Holds(Step(s, e))
  {
    match e
    case Begin(call, stays) => BeginHolds(s, call, stays);
    case End => EndHolds(s);
    case SwitchOnRebuilt(own) => RebuiltMirrors(s.engine, own); SubsequenceRefl(Rebuilt(s.engine, own));
    case RebuildOnly(own) => RebuiltMirrors(s.engine, own); SubsequenceRefl(Rebuilt(s.engine, own));
    case _ =>
  }

  /** Whatever happens in a request, no frame of a recorded call in progress is ever lost. */
  lemma {:induction false} NoFrameIsLost(start: State, es: seq<Event>, s: State)
    requires Initial(start) && Leads(start, es, s)
    ensures Holds(s)
  {
    if es == [] {
      NothingRecorded(s.engine, s.marks);
    } else {
      var p :| Leads(start, Front(es), p) && Possible(p, Last(es)) && s == Step(p, Last(es));
      NoFrameIsLost(start, Front(es), p);
      StepHolds(p, Last(es));
    }
  }

  lemma {:induction false} FullSubsequence<T>(s: seq<T>, a: seq<T>)
    requires IsSubsequence(s, a) && |s| == |a|
    ensures s == a
  {
    if s != [] {
      if s[0] == a[0] && IsSubsequence(s[1..], a[1..]) {
        FullSubsequence(s[1..], a[1..]);
        assert s == [s[0]] + s[1..] && a == [a[0]] + a[1..];
      } else {
        SubsequenceLength(s, a[1..]);
        assert false;
      }
    }
  }

  /** So the stack is right exactly if it has no more frames than there are recorded calls. */
  lemma MirrorsIff(s: State)
    requires Holds(s)
    ensures Mirrors(s) <==> |s.debugger| == |Recorded(s.engine, s.marks)|
  {
    if |s.debugger| == |Recorded(s.engine, s.marks)| {
      FullSubsequence(Recorded(s.engine, s.marks), s.debugger);
    }
  }

  // ---------- The mirror ----------

  /** The top frame belongs to the innermost call exactly if that call is recorded. */
  lemma BelongsIffRecorded(s: State)
    requires s.engine != [] && Distinct(s.engine) && Mirrors(s)
    ensures Belongs(s.debugger, s.engine) <==> Last(s.marks)
    ensures Last(s.marks) ==> s.debugger != [] && Last(s.debugger) == FrameOf(s.engine)
  {
    StampTells(s.engine, s.marks);
  }

  /** The end of a call removes that call's own frame if its handlers run and it has one, and
      otherwise nothing. */
  lemma EndPopsOwnFrame(s: State)
    requires s.engine != [] && Distinct(s.engine) && Mirrors(s)
    ensures if Runs(s.active, Last(s.engine)) && Last(s.marks) then
              s.debugger == EndCall(s).debugger + [FrameOf(s.engine)]
            else EndCall(s).debugger == s.debugger
  {
    BelongsIffRecorded(s);
  }

  lemma EndMirrorsIff(s: State)
    requires s.engine != [] && Distinct(s.engine) && Mirrors(s)
    ensures Mirrors(EndCall(s)) <==> !(Last(s.marks) && !Runs(s.active, Last(s.engine)))
  {
    EndPopsOwnFrame(s);
    var kept := Recorded(Front(s.engine), Front(s.marks));
    if Last(s.marks) {
      assert s.debugger == kept + [FrameOf(s.engine)];
      assert Front(s.debugger) == kept && |s.debugger| == |kept| + 1;
    } else {
      assert s.debugger == kept;
    }
  }

  /** One step keeps the mirror unless it is the end of a recorded call whose handlers do not run. */
  lemma StepMirrorsIff(s: State, e: Event)
    requires Distinct(s.engine) && Mirrors(s) && Possible(s, e)
    ensures Mirrors(Step(s, e)) <==> !(e.End? && Last(s.marks) && !Runs(s.active, Last(s.engine)))
  {
    match e
    case Begin(call, stays) =>
      RecordedNext(s.engine, s.marks, call, true);
      RecordedNext(s.engine, s.marks, call, false);
    case End => EndMirrorsIff(s);
    case SwitchOnRebuilt(own) => RebuiltMirrors(s.engine, own);
    case RebuildOnly(own) => RebuiltMirrors(s.engine, own);
    case _ =>
  }

  /** The handlers run for every recorded call. */
  ghost predicate AllRun(active: bool, engine: seq<Call>, marks: seq<bool>) {
    |marks| == |engine| && forall i :: 0 <= i < |engine| && marks[i] ==> Runs(active, engine[i])
  }

  ghost predicate Inv(s: State) {
    Holds(s) && (s.active ==> Mirrors(s) && AllRun(true, s.engine, s.marks))
  }

  /** The observer is switched on while there are no more frames than recorded calls in progress,
      or rebuilt; and in either case the handlers are not declined for a call with a frame. */
  ghost predicate CleanSwitch(s: State, e: Event) {
    Possible(s, e) &&
    match e
    case SwitchOn =>
      s.active || (|s.debugger| == |Recorded(s.engine, s.marks)| && AllRun(true, s.engine, s.marks))
    case SwitchOnRebuilt(own) => AllRun(true, s.engine, RebuiltMarks(s.engine, own))
    case _ => true
  }

  lemma InvStep(s: State, e: Event)
    requires Inv(s) && CleanSwitch(s, e)
    ensures Inv(Step(s, e))
  {
    StepHolds(s, e);
    MirrorsIff(s);
    if e.SwitchOnRebuilt? {
      RebuiltMirrors(s.engine, e.ownFrame);
    } else if s.active {
      StepMirrorsIff(s, e);
    }
  }

  /** A run in which the observer is only ever switched on cleanly. */
  ghost predicate LeadsCleanly(start: State, es: seq<Event>, s: State) {
    if es == [] then s == start
    else exists p :: LeadsCleanly(start, Front(es), p) && CleanSwitch(p, Last(es)) && s == Step(p, Last(es))
  }

  /** In every state of such a run, from any depth, as long as the observer is on, the debugger's
      stack is exactly the list of recorded calls in progress, and their handlers will run. */
  lemma {:induction false} AlwaysMirrors(start: State, es: seq<Event>, s: State)
    requires Initial(start) && LeadsCleanly(start, es, s)
    ensures Inv(s)
  {
    if es == [] {
      NothingRecorded(s.engine, s.marks);
    } else {
      var p :| LeadsCleanly(start, Front(es), p) && CleanSwitch(p, Last(es)) && s == Step(p, Last(es));
      AlwaysMirrors(start, Front(es), p);
      InvStep(p, Last(es));
    }
  }

  ghost predicate NoneDeclined(engine: seq<Call>) {
    forall i :: 0 <= i < |engine| ==> !engine[i].handlers.Declined?
  }

  /** An event of a request that has the handlers installed on every call, and in which only the
      absence of a client switches the observer off. */
  predicate Installed(e: Event) {
    && !e.SwitchOff? && !e.RebuildOnly?
    && (e.Begin? ==> !e.call.handlers.Declined?)
  }

  ghost predicate MirrorsAndRuns(s: State) {
    Distinct(s.engine) && Mirrors(s) && AllRun(s.active, s.engine, s.marks) && NoneDeclined(s.engine)
  }

  lemma BeginMirrorsAndRuns(s: State, call: Call, stays: bool)
    requires MirrorsAndRuns(s) && Possible(s, Begin(call, stays)) && Installed(Begin(call, stays))
    ensures MirrorsAndRuns(BeginCall(s, call, stays))
  {
    var t := BeginCall(s, call, stays);
    StepMirrorsIff(s, Begin(call, stays));
    if t.active != s.active {
      NothingMarked(s.engine, s.marks);
    }
    forall i | 0 <= i < |t.engine|
      ensures !t.engine[i].handlers.Declined? && (t.marks[i] ==> Runs(t.active, t.engine[i]))
    {
      assert i < |s.engine| ==> t.engine[i] == s.engine[i] && t.marks[i] == s.marks[i];
    }
    assert Distinct(t.engine);
  }

  lemma EndMirrorsAndRuns(s: State)
    requires MirrorsAndRuns(s) && s.engine != []
    ensures MirrorsAndRuns(EndCall(s))
  {
    assert Last(s.marks) ==> Runs(s.active, s.engine[|s.engine| - 1]);
    EndMirrorsIff(s);
    LastRuns(s);
  }

  /** With handlers installed on every call, the stack is right in every state of a request that
      starts at any depth, with the observer on or off, and switches it on at any points, plainly
      or by a rebuild. */
  lemma {:induction false} InstalledMirrors(start: State, es: seq<Event>, s: State)
    requires Initial(start) && NoneDeclined(start.engine) && Leads(start, es, s)
    requires forall i :: 0 <= i < |es| ==> Installed(es[i])
    ensures MirrorsAndRuns(s)
  {
    if es == [] {
      NothingRecorded(s.engine, s.marks);
    } else {
      var e := es[|es| - 1];
      var p :| Leads(start, Front(es), p) && Possible(p, e) && s == Step(p, e);
      InstalledMirrors(start, Front(es), p);
      match e
      case Begin(call, stays) => BeginMirrorsAndRuns(p, call, stays);
      case End => EndMirrorsAndRuns(p);
      case SwitchOn =>
      case SwitchOnRebuilt(own) => RebuiltMirrors(p.engine, own);
    }
  }

  lemma {:induction false} NothingMarked(engine: seq<Call>, marks: seq<bool>)
    requires |marks| == |engine| && Recorded(engine, marks) == []
    ensures forall i :: 0 <= i < |marks| ==> !marks[i]
    decreases |engine|
  {
    if engine != [] {
      NothingMarked(Front(engine), Front(marks));
      assert forall i :: 0 <= i < |marks| - 1 ==> marks[i] == Front(marks)[i];
    }
  }

  // ---------- The conditions are exact ----------

  /** The mirror lasts while the calls in progress end one after the other. */
  ghost predicate Lasts(s: State)
    requires |s.marks| == |s.engine|
    decreases |s.engine|
  {
    Mirrors(s) && (s.engine != [] ==> Lasts(EndCall(s)))
  }

  /** If the handlers run for all recorded calls, the mirror lasts; if they do not run for one,
      it breaks when that call has ended. */
  lemma {:induction false} LastsIff(s: State)
    requires Distinct(s.engine) && Mirrors(s)
    ensures Lasts(s) <==> AllRun(s.active, s.engine, s.marks)
    decreases |s.engine|
  {
    if s.engine != [] {
      EndMirrorsIff(s);
      var t := EndCall(s);
      if Last(s.marks) && !Runs(s.active, Last(s.engine)) {
        assert s.marks[|s.engine| - 1] && !Runs(s.active, s.engine[|s.engine| - 1]);
      } else {
        LastsIff(t);
        LastRuns(s);
      }
    }
  }

  lemma LastRuns(s: State)
    requires s.engine != [] && |s.marks| == |s.engine| && (Last(s.marks) ==> Runs(s.active, Last(s.engine)))
    ensures AllRun(s.active, s.engine, s.marks) <==> AllRun(s.active, Front(s.engine), Front(s.marks))
  {
    if AllRun(s.active, Front(s.engine), Front(s.marks)) {
      forall i | 0 <= i < |s.engine| && s.marks[i] ensures Runs(s.active, s.engine[i]) {
        assert i < |s.engine| - 1 ==> Front(s.marks)[i] && Runs(s.active, Front(s.engine)[i]);
      }
    }
    if AllRun(s.active, s.engine, s.marks) {
      forall i | 0 <= i < |s.engine| - 1 && Front(s.marks)[i] ensures Runs(s.active, Front(s.engine)[i]) {
        assert s.marks[i];
      }
    }
  }

  /** Switched on as it is, the stack is right exactly if it has no more frames than there are
      recorded calls in progress; it also stays right exactly if the switch is clean. */
  lemma SwitchOnMirrorsIff(s: State)
    requires Holds(s) && !s.active
    ensures var t := Step(s, SwitchOn);
            && (Mirrors(t) <==> |s.debugger| == |Recorded(s.engine, s.marks)|)
            && (Lasts(t) <==> CleanSwitch(s, SwitchOn))
  {
    var t := Step(s, SwitchOn);
    MirrorsIff(t);
    if Mirrors(t) {
      LastsIff(t);
    }
  }

  /** A rebuild gives the right stack at once, and it stays right exactly if the handlers are not
      declined for a call it made a frame for. */
  lemma RebuildLastsIff(s: State, own: bool)
    requires Distinct(s.engine) && Possible(s, SwitchOnRebuilt(own))
    ensures var t := Step(s, SwitchOnRebuilt(own));
            Mirrors(t) && (Lasts(t) <==> CleanSwitch(s, SwitchOnRebuilt(own)))
  {
    RebuiltMirrors(s.engine, own);
    LastsIff(Step(s, SwitchOnRebuilt(own)));
  }

  // ---------- Where the mirror breaks ----------

  /** A function first called while the observer was off: the rebuild makes a frame for the call,
      and its end does not pop it. */
  lemma DeclinedCallBreaksRebuild(id: nat, user: bool, stays: bool)
    ensures var call := Call(id, true, user, Declined);
            var s := Step(State([], [], [], false), Begin(call, stays));
            var t := Step(s, SwitchOnRebuilt(false));
            && Mirrors(t) && !Lasts(t)
            && Step(t, End) == State([], [], [Frame(id, None)], true)
  {
    var call := Call(id, true, user, Declined);
    var s := Step(State([], [], [], false), Begin(call, stays));
    assert s.engine == [] + [call] && Front(s.engine) == [];
    assert Funcs(s.engine) == [] + [true];
    RecordedNext([], [], call, true);
    assert Step(s, SwitchOnRebuilt(false)) == State([call], [true], [Frame(id, None)], true);
  }

  /** An observed call that ends while the observer is off: its frame is still there when the
      observer is switched on again. */
  lemma StaleFrameStays(s: State)
    requires s.active && Distinct(s.engine) && Mirrors(s) && s.engine != [] && Last(s.marks)
    requires Last(s.engine).handlers.Observed?
    ensures var t := Step(Step(Step(s, SwitchOff), End), SwitchOn);
            t.debugger == s.debugger && !Mirrors(t)
  {
    EndMirrorsIff(Step(s, SwitchOff));
    EndPopsOwnFrame(Step(s, SwitchOff));
  }

  // ---------- The handlers, on a growable vector ----------

  /** The vector: its storage grows from 0 to 32 elements and then by half. */
  class Vector<T(0)> {
    var count: nat
    var data: array<T>

    constructor ()
      ensures Valid() && Elements() == [] && fresh(data)
    {
      count := 0;
      data := new T[0];
    }

    ghost predicate Valid()
      reads this
    {
      count <= data.Length && (data.Length == 0 || data.Length >= 32)
    }

    ghost function Elements(): seq<T>
      requires Valid()
      reads this, data
    {
      data[..count]
    }

    /** The size the storage grows to. */
    static function Grown(capacity: nat): nat {
      if capacity == 0 then 32 else capacity * 3 / 2
    }

    method Push(x: T)
      requires Valid()
      modifies this, data
      ensures Valid() && Elements() == old(Elements()) + [x]
      ensures if old(count) < old(data.Length) then data == old(data)
              else fresh(data) && data.Length == Grown(old(data.Length))
    {
      if count + 1 > data.Length {
        var grown := new T[if data.Length == 0 then 32 else data.Length * 3 / 2];
        for i := 0 to count
          invariant grown[..i] == data[..i]
          modifies grown
        {
          grown[i] := data[i];
        }
        data := grown;
      }
      data[count] := x;
      count := count + 1;
    }

    method Pop()
      requires Valid() && Elements() != []
      modifies `count
      ensures Valid() && Elements() == Front(old(Elements()))
    {
      count := count - 1;
    }

    method Empty()
      requires Valid()
      modifies `count
      ensures Valid() && Elements() == []
    {
      while count > 0
        invariant Valid()
        modifies `count
      {
        Pop();
      }
    }
  }

  class Observer {
    const stack: Vector<Frame>
    var active: bool

    ghost predicate Valid()
      reads this, stack, stack.data
    {
      stack.Valid()
    }

    /** The observer's part of a state. */
    ghost predicate Shows(s: State)
      reads this, stack, stack.data
    {
      Valid() && s.debugger == stack.Elements() && s.active == active
    }

    constructor ()
      ensures Valid() && fresh(stack) && fresh(stack.data) && stack.Elements() == [] && active
    {
      stack := new Vector<Frame>();
      active := true;
    }

    /** What the handlers do when a call begins, however they were reached. */
    method CodeBegin(ghost s: State, engine: seq<Call>, stays: bool)
      requires Valid() && Shows(s) && engine != [] && Front(engine) == s.engine && Runs(active, Last(engine))
      modifies this, stack, stack.data
      ensures Shows(BeginCall(s, Last(engine), stays)) && (stack.data == old(stack.data) || fresh(stack.data))
      ensures if Last(engine).user && old(stack.Elements()) == [] && !stays then stack.Elements() == [] && !active
              else stack.Elements() == old(stack.Elements()) + [FrameOf(engine)] && active == old(active)
    {
      var call := engine[|engine| - 1];
      assert s.engine + [call] == engine;
      if call.user && stack.count == 0 && !stays {
        active := false;
        return;
      }
      stack.Push(FrameOf(engine));
    }

    method CodeEnd(ghost s: State, engine: seq<Call>)
      requires Valid() && Shows(s) && engine != [] && s.engine == engine && |s.marks| == |engine|
      requires Runs(active, Last(engine))
      modifies this, stack, stack.data
      ensures Shows(EndCall(s)) && stack.data == old(stack.data)
    {
      if stack.count == 0 || stack.data[stack.count - 1].stamp != Prev(engine) {
        return;
      }
      stack.Pop();
    }

    /** The observer's handler: it leaves evaluated code alone. */
    method ExecuteBegin(ghost s: State, engine: seq<Call>, stays: bool)
      requires Valid() && Shows(s) && engine != [] && Front(engine) == s.engine
      modifies this, stack, stack.data
      ensures Shows(if Last(engine).handlers.Direct? then s else BeginCall(s, Last(engine), stays))
      ensures stack.data == old(stack.data) || fresh(stack.data)
    {
      if !active {
        return;
      }
      if engine[|engine| - 1].handlers.Observed? {
        CodeBegin(s, engine, stays);
      }
    }

    method ExecuteEnd(ghost s: State, engine: seq<Call>)
      requires Valid() && Shows(s) && engine != [] && s.engine == engine && |s.marks| == |engine|
      modifies this, stack, stack.data
      ensures Shows(if Last(engine).handlers.Direct? then s else EndCall(s)) && stack.data == old(stack.data)
    {
      if !active {
        return;
      }
      if engine[|engine| - 1].handlers.Observed? {
        CodeEnd(s, engine);
      }
    }

    /** Around the execution of user code: handles what the observer leaves alone. */
    method ExecuteExBegin(ghost s: State, engine: seq<Call>, stays: bool)
      requires Valid() && Shows(s) && engine != [] && Front(engine) == s.engine
      modifies this, stack, stack.data
      ensures Shows(if Last(engine).handlers.Direct? then BeginCall(s, Last(engine), stays) else s)
      ensures stack.data == old(stack.data) || fresh(stack.data)
    {
      if engine[|engine| - 1].handlers.Direct? {
        CodeBegin(s, engine, stays);
      }
    }

    method ExecuteExEnd(ghost s: State, engine: seq<Call>)
      requires Valid() && Shows(s) && engine != [] && s.engine == engine && |s.marks| == |engine|
      modifies this, stack, stack.data
      ensures Shows(if Last(engine).handlers.Direct? then EndCall(s) else s) && stack.data == old(stack.data)
    {
      if engine[|engine| - 1].handlers.Direct? {
        CodeEnd(s, engine);
      }
    }

    method AddFramesRecursively(engine: seq<Call>)
      requires Valid()
      modifies stack, stack.data
      ensures Valid() && stack.Elements() == old(stack.Elements()) + Recorded(engine, Funcs(engine))
      ensures stack.data == old(stack.data) || fresh(stack.data)
      decreases |engine|
    {
      if engine == [] {
        return;
      }
      AddFramesRecursively(engine[..|engine| - 1]);
      assert Front(Funcs(engine)) == Funcs(Front(engine));
      if engine[|engine| - 1].hasFunc {
        stack.Push(FrameOf(engine));
      }
    }

    method SwitchOnRebuiltStack(ghost s: State, engine: seq<Call>, ownFrame: bool)
      requires Valid() && Shows(s) && s.engine == engine && Possible(s, SwitchOnRebuilt(ownFrame))
      modifies this, stack, stack.data
      ensures Shows(Step(s, SwitchOnRebuilt(ownFrame)))
    {
      stack.Empty();
      AddFramesRecursively(engine);
      if ownFrame {
        stack.Pop();
      }
      active := true;
    }
  }
}
