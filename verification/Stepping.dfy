/** Stepping: the flags that step_into, step_over and step_out set, and the conditions under
    which the statement handler stops. Execution is a sequence of calls, returns and statements
    on one stack; a statement is handled if the handler gets past its early exits. */
module Stepping {
  import opened Subsequences

  datatype Event = Call | Return | Stmt(handled: bool)

  datatype Command = StepInto | StepOver | StepOut | Continue

  /** The frames' function numbers, outermost first (a frame's level is its position, from 1);
      the number given last; the flags and what the pending step remembers. */
  datatype State = State(
    stack: seq<int>, count: int,
    doStep: bool, doNext: bool, doFinish: bool,
    nextHasStack: bool, nextLevel: nat, finishLevel: int, finishFuncNr: int)

  const INITIAL := State([], -1, false, false, false, false, 0, 0, 0)

  // ---------- The transitions ----------

  function Issue(s: State, c: Command): State {
    match c
    case Continue => s
    case StepInto => s.(doStep := true, doNext := false, doFinish := false)
    case StepOver =>
      s.(doStep := false, doNext := true, doFinish := false, nextHasStack := s.stack != [], nextLevel := |s.stack|)
    case StepOut =>
      s.(doStep := false, doNext := false, doFinish := true,
         finishLevel := if s.stack == [] then -1 else |s.stack|,
         finishFuncNr := if s.stack == [] then -1 else Last(s.stack))
  }

  predicate NextMet(s: State)
    requires s.stack != []
  {
    s.nextLevel >= |s.stack|
  }

  predicate FinishMet(s: State)
    requires s.stack != []
  {
    |s.stack| < s.finishLevel || (|s.stack| == s.finishLevel && Last(s.stack) > s.finishFuncNr)
  }

  /** What a handled statement does: the first flag whose condition holds is cleared and execution stops. */
  function Statement(s: State): (State, bool)
    requires s.stack != []
  {
    if s.doFinish && FinishMet(s) then (s.(doFinish := false), true)
    else if s.doNext && NextMet(s) then (s.(doNext := false), true)
    else if s.doStep then (s.(doStep := false), true)
    else (s, false)
  }

  predicate Possible(s: State, e: Event) {
    s.stack == [] ==> e == Call || e == Stmt(false)
  }

  function Step(s: State, e: Event): (State, bool)
    requires Possible(s, e)
  {
    match e
    case Call => (s.(stack := s.stack + [s.count + 1], count := s.count + 1), false)
    case Return => (s.(stack := Front(s.stack)), false)
    case Stmt(handled) => if handled then Statement(s) else (s, false)
  }

  // ---------- The handlers as they change the debugger's globals ----------

  class Debugger {
    var stack: seq<int>
    var count: int
    var doStep: bool
    var doNext: bool
    var doFinish: bool
    var nextHasStack: bool
    var nextLevel: nat
    var finishLevel: int
    var finishFuncNr: int

    ghost function View(): State
      reads this
    {
      State(stack, count, doStep, doNext, doFinish, nextHasStack, nextLevel, finishLevel, finishFuncNr)
    }

    constructor ()
      ensures View() == INITIAL
    {
      stack, count := [], -1;
      doStep, doNext, doFinish := false, false, false;
      nextHasStack, nextLevel, finishLevel, finishFuncNr := false, 0, 0, 0;
    }

    method AddStackFrame()
      modifies this
      ensures View() == Step(old(View()), Call).0
    {
      count := count + 1;
      stack := stack + [count];
    }

    method PopStackFrame()
      requires stack != []
      modifies this
      ensures View() == Step(old(View()), Return).0
    {
      stack := stack[..|stack| - 1];
    }

    method HandleCommand(c: Command)
      modifies this
      ensures View() == Issue(old(View()), c)
    {
      match c
      case Continue =>
      case StepInto =>
        doNext, doStep, doFinish := false, true, false;
      case StepOut =>
        doNext, doStep, doFinish := false, false, true;
        if |stack| > 0 {
          finishLevel, finishFuncNr := |stack|, stack[|stack| - 1];
        } else {
          finishLevel, finishFuncNr := -1, -1;
        }
      case StepOver =>
        doNext, doStep, doFinish := true, false, false;
        if |stack| > 0 {
          nextLevel, nextHasStack := |stack|, true;
        } else {
          nextLevel, nextHasStack := 0, false;
        }
    }

    method StatementCall() returns (stopped: bool)
      requires stack != []
      modifies this
      ensures (View(), stopped) == Statement(old(View()))
    {
      var level, nr := |stack|, stack[|stack| - 1];
      if doFinish && (level < finishLevel || (level == finishLevel && nr > finishFuncNr)) {
        doFinish := false;
        return true;
      }
      if doNext && nextLevel >= level {
        doNext := false;
        return true;
      }
      if doStep {
        doStep := false;
        return true;
      }
      return false;
    }
  }

  // ---------- Every reachable state ----------

  datatype Act = Do(event: Event) | Tell(command: Command)

  predicate CanAct(s: State, a: Act) {
    a.Do? ==> Possible(s, a.event)
  }

  function Next(s: State, a: Act): State
    requires CanAct(s, a)
  {
    match a
    case Do(e) => Step(s, e).0
    case Tell(c) => Issue(s, c)
  }

  ghost predicate Leads(acts: seq<Act>, s: State) {
    if acts == [] then s == INITIAL
    else exists p :: Leads(Front(acts), p) && CanAct(p, Last(acts)) && s == Next(p, Last(acts))
  }

  predicate Numbered(stack: seq<int>, count: int) {
    && (forall i :: 0 <= i < |stack| ==> stack[i] <= count)
    && forall i, j :: 0 <= i < j < |stack| ==> stack[i] < stack[j]
  }

  predicate AtMostOne(s: State) {
    !(s.doStep && s.doNext) && !(s.doStep && s.doFinish) && !(s.doNext && s.doFinish)
  }

  predicate Inv(s: State) {
    AtMostOne(s) && Numbered(s.stack, s.count)
  }

  /** Whatever happens and whatever the user asks for, at most one step is pending, and the
      frames on the stack are numbered in the order they were entered. */
  lemma {:induction false} ReachableInv(acts: seq<Act>, s: State)
    requires Leads(acts, s)
    ensures Inv(s)
  {
    if acts != [] {
      var p :| Leads(Front(acts), p) && CanAct(p, Last(acts)) && s == Next(p, Last(acts));
      ReachableInv(Front(acts), p);
      InvStep(p, Last(acts));
    }
  }

  lemma InvStep(s: State, a: Act)
    requires Inv(s) && CanAct(s, a)
    ensures Inv(Next(s, a))
  {
  }

  /** A stop leaves no step pending, so that after it only a new command can stop again. */
  lemma StopClears(s: State)
    requires Inv(s) && s.stack != [] && Statement(s).1
    ensures var t := Statement(s).0; !t.doStep && !t.doNext && !t.doFinish && t.stack == s.stack
  {
  }

  // ---------- Running until the next stop ----------

  /** How deep a run is that started at level `from`. */
  function Level(from: int, es: seq<Event>): int {
    if es == [] then from
    else Level(from, Front(es)) + if Last(es) == Call then 1 else if Last(es) == Return then -1 else 0
  }

  /** Well nested: there is a frame for every return and every handled statement. */
  predicate Nested(from: nat, es: seq<Event>) {
    es == [] ||
    (Nested(from, Front(es)) && Level(from, Front(es)) >= 0
     && (Level(from, Front(es)) == 0 ==> Last(es) == Call || Last(es) == Stmt(false)))
  }

  /** The frame that was on top when the run started has been popped at some point. */
  predicate Popped(from: nat, es: seq<Event>) {
    Level(from, es) < from || (es != [] && Popped(from, Front(es)))
  }

  /** Where a run is: its state, or the state right after its first stop and which event that was. */
  datatype Progress = Running(state: State) | Stopped(state: State, at: nat)

  /** The events after an impossible one are not executed. */
  function Run(s: State, es: seq<Event>): Progress {
    if es == [] then Running(s)
    else
      var p := Run(s, Front(es));
      if p.Stopped? || !Possible(p.state, Last(es)) then p
      else
        var (t, stopped) := Step(p.state, Last(es));
        if stopped then Stopped(t, |es| - 1) else Running(t)
  }

  predicate SameStep(s: State, t: State) {
    t == s.(stack := t.stack, count := t.count)
  }

  /** A run that has not stopped has only moved the stack, in step with the events. */
  lemma {:induction false} Moves(s: State, es: seq<Event>)
    requires Inv(s) && Nested(|s.stack|, es) && Run(s, es).Running?
    ensures var t := Run(s, es).state;
            Inv(t) && SameStep(s, t) && t.count >= s.count && |t.stack| == Level(|s.stack|, es)
  {
    if es != [] {
      Moves(s, Front(es));
      InvStep(Run(s, Front(es)).state, Do(Last(es)));
    }
  }

  /** The frame at the starting level is another one exactly when the first has been popped. */
  lemma {:induction false} PoppedIff(s: State, es: seq<Event>)
    requires Inv(s) && s.stack != [] && Nested(|s.stack|, es) && Run(s, es).Running?
    ensures var t, n := Run(s, es).state, |s.stack|;
            if Popped(n, es) then |t.stack| >= n ==> t.stack[n - 1] > s.count
            else |t.stack| >= n && t.stack[n - 1] == s.stack[n - 1]
  {
    if es != [] {
      var f := Front(es);
      PoppedIff(s, f);
      Moves(s, f);
      Moves(s, es);
    }
  }

  predicate HandledAt(es: seq<Event>, k: nat) {
    k < |es| && es[k] == Stmt(true)
  }

  /** step_into stops at the first handled statement. */
  predicate IntoStop(es: seq<Event>, k: nat) {
    HandledAt(es, k)
  }

  /** step_over stops at the first handled statement that is no deeper than where it was issued. */
  predicate OverStop(from: nat, es: seq<Event>, k: nat) {
    HandledAt(es, k) && Level(from, es[..k]) <= from
  }

  /** step_out stops at the first handled statement that comes after the issuing frame has been
      popped and is no deeper than that frame was. */
  predicate OutStop(from: nat, es: seq<Event>, k: nat) {
    HandledAt(es, k) && Popped(from, es[..k]) && Level(from, es[..k]) <= from
  }

  predicate CommandStop(c: Command, from: nat, es: seq<Event>, k: nat) {
    match c
    case StepInto => IntoStop(es, k)
    case StepOver => OverStop(from, es, k)
    case StepOut => OutStop(from, es, k)
    case Continue => false
  }

  /** A run stops at the first event where the command's condition holds, and otherwise not at all. */
  ghost predicate StopsFirst(p: Progress, c: Command, from: nat, es: seq<Event>) {
    match p
    case Stopped(_, k) =>
      k < |es| && CommandStop(c, from, es, k) && forall j: nat :: j < k ==> !CommandStop(c, from, es, j)
    case Running(_) => forall j: nat :: j < |es| ==> !CommandStop(c, from, es, j)
  }

  /** When a pending step stops, in terms of the frames. */
  lemma StatementStops(s: State, c: Command, t: State)
    requires Inv(s) && s.stack != [] && !s.doStep && !s.doNext && !s.doFinish
    requires SameStep(Issue(s, c), t) && t.stack != []
    ensures Statement(t).1 <==>
              match c
              case Continue => false
              case StepInto => true
              case StepOver => |t.stack| <= |s.stack|
              case StepOut => |t.stack| < |s.stack| || (|t.stack| == |s.stack| && Last(t.stack) > Last(s.stack))
  {
  }

  /** One statement, wherever the run is: it stops exactly if the command's condition holds. */
  lemma StopsIff(s: State, c: Command, es: seq<Event>)
    requires Inv(s) && s.stack != [] && !s.doStep && !s.doNext && !s.doFinish
    requires Nested(|s.stack|, es) && es != [] && Run(Issue(s, c), Front(es)).Running?
    ensures Run(Issue(s, c), es).Stopped? <==> CommandStop(c, |s.stack|, es, |es| - 1)
  {
    var i, f := Issue(s, c), Front(es);
    InvStep(s, Tell(c));
    Moves(i, f);
    PoppedIff(i, f);
    assert es[..|es| - 1] == f;
    var t := Run(i, f).state;
    if Last(es) == Stmt(true) {
      StatementStops(s, c, t);
    }
  }

  /** Where the next stop is, for every command and every course of execution. */
  lemma {:induction false} NextStop(s: State, c: Command, es: seq<Event>)
    requires Inv(s) && s.stack != [] && !s.doStep && !s.doNext && !s.doFinish
    requires Nested(|s.stack|, es)
    ensures StopsFirst(Run(Issue(s, c), es), c, |s.stack|, es)
  {
    if es != [] {
      var f := Front(es);
      NextStop(s, c, f);
      forall k: nat | k < |f| ensures CommandStop(c, |s.stack|, es, k) <==> CommandStop(c, |s.stack|, f, k) {
        assert es[..k] == f[..k] && es[k] == f[k];
      }
      if Run(Issue(s, c), f).Running? {
        StopsIff(s, c, es);
      }
    }
  }

  /** A step issued before there is any frame: step_over and step_out then never stop. */
  lemma {:induction false} NoFrameNoStop(s: State, c: Command, es: seq<Event>)
    requires Inv(s) && s.stack == [] && !s.doStep && !s.doNext && !s.doFinish
    requires Nested(0, es) && (c == StepOver || c == StepOut)
    ensures Run(Issue(s, c), es).Running?
  {
    if es != [] {
      NoFrameNoStop(s, c, Front(es));
      InvStep(s, Tell(c));
      Moves(Issue(s, c), Front(es));
    }
  }

  /** The first handled statement after the issuing frame has been popped. */
  ghost predicate FirstOutside(from: nat, es: seq<Event>, k: nat) {
    HandledAt(es, k) && Popped(from, es[..k])
    && forall j: nat :: j < k ==> !(HandledAt(es, j) && Popped(from, es[..j]))
  }

  /** Exactly when step_out stops where it is meant to: when that statement is no deeper than
      the frame it was issued in. */
  lemma StepOutStopsThereIff(s: State, es: seq<Event>, k: nat)
    requires Inv(s) && s.stack != [] && !s.doStep && !s.doNext && !s.doFinish
    requires Nested(|s.stack|, es) && FirstOutside(|s.stack|, es, k)
    ensures var p := Run(Issue(s, StepOut), es);
            (p.Stopped? && p.at == k) <==> Level(|s.stack|, es[..k]) <= |s.stack|
  {
    NextStop(s, StepOut, es);
    var n := |s.stack|;
    assert CommandStop(StepOut, n, es, k) <==> Level(n, es[..k]) <= n;
    forall j: nat | j < k ensures !CommandStop(StepOut, n, es, j) {
      assert !(HandledAt(es, j) && Popped(n, es[..j]));
    }
  }

  lemma Extend(from: nat, es: seq<Event>, e: Event)
    ensures Level(from, es + [e]) == Level(from, es) + if e == Call then 1 else if e == Return then -1 else 0
    ensures Nested(from, es) && Level(from, es) > 0 ==> Nested(from, es + [e])
    ensures Popped(from, es + [e]) <==> Popped(from, es) || Level(from, es + [e]) < from
    ensures Nested(from, es) && Level(from, es) == 0 && e == Call ==> Nested(from, es + [e])
  {
    assert Front(es + [e]) == es;
  }

  /** step_out does not always stop at the first handled statement after its frame is popped:
      here the caller goes on to call an internal function that calls back, and the first
      statement is deeper than the frame was. */
  lemma StepOutPassesBy(s: State)
    requires Inv(s) && s.stack != [] && !s.doStep && !s.doNext && !s.doFinish
    ensures var es := [Return, Call, Call, Stmt(true)];
            Nested(|s.stack|, es) && Popped(|s.stack|, es[..3]) && HandledAt(es, 3)
            && Run(Issue(s, StepOut), es).Running?
  {
    var n := |s.stack|;
    var es := [Return, Call, Call, Stmt(true)];
    Extend(n, [], Return);
    Extend(n, [Return], Call);
    Extend(n, [Return, Call], Call);
    Extend(n, [Return, Call, Call], Stmt(true));
    var e3 := [Return, Call, Call];
    assert [] + [Return] == [Return] && [Return] + [Call] == [Return, Call] && [Return, Call] + [Call] == e3;
    assert e3 + [Stmt(true)] == es && es[..3] == e3;
    assert Level(n, []) == n && Nested(n, []);
    NextStop(s, StepOut, es);
    forall j: nat | j < |es| ensures !CommandStop(StepOut, n, es, j) {
      if j == 3 {
        assert es[..j] == e3;
      } else {
        assert es[j] != Stmt(true);
      }
    }
  }
}
