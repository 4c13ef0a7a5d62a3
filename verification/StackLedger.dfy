/** The stack of frames told from the events of a request alone, without looking at what the
    handlers push and pop. */
module StackLedger {
  import opened Wrappers
  import opened Subsequences
  import opened StackMirror

  /** A call in progress, and whether the debugger owes it a frame. */
  datatype Entry = Entry(call: Call, framed: bool)

  /** The calls in progress, outermost first, and whether the observer is on. */
  datatype Ledger = Ledger(live: seq<Entry>, on: bool)

  /** A frame for each call that is owed one, naming the call and the call it was made from. */
  function FramesOf(live: seq<Entry>): seq<Frame> {
    if live == [] then []
    else
      var caller := if |live| == 1 then None else Some(live[|live| - 2].call.id);
      FramesOf(Front(live)) + if Last(live).framed then [Frame(Last(live).call.id, caller)] else []
  }

  predicate Handled(call: Call, on: bool) {
    match call.handlers
    case Direct => true
    case Observed => on
    case Declined => false
  }

  function Rebuild(live: seq<Entry>, ownFrame: bool): seq<Entry> {
    seq(|live|, i requires 0 <= i < |live| =>
      Entry(live[i].call, live[i].call.hasFunc && !(ownFrame && i == |live| - 1)))
  }

  /** What an event does to the ledger. A call whose handlers run is owed a frame, unless it is user
      code that finds the debugger's stack empty and no client to talk to. */
  function Note(l: Ledger, e: Event, empty: bool): Ledger {
    match e
    case Begin(call, stays) =>
      var alone := call.user && empty && !stays;
      Ledger(l.live + [Entry(call, Handled(call, l.on) && !alone)], l.on && !(Handled(call, true) && alone))
    case End => if l.live == [] then l else Ledger(Front(l.live), l.on)
    case SwitchOn => Ledger(l.live, true)
    case SwitchOnRebuilt(own) => Ledger(Rebuild(l.live, own), true)
    case SwitchOff => Ledger(l.live, false)
    case RebuildOnly(own) => Ledger(Rebuild(l.live, own), l.on)
  }

  ghost predicate Agrees(s: State, l: Ledger) {
    && |s.engine| == |s.marks| == |l.live|
    && s.active == l.on
    && forall i :: 0 <= i < |l.live| ==> l.live[i] == Entry(s.engine[i], s.marks[i])
  }

  /** No call in progress at the start has a frame. */
  function Opening(start: State): Ledger {
    Ledger(seq(|start.engine|, i requires 0 <= i < |start.engine| => Entry(start.engine[i], false)), start.active)
  }

  lemma {:induction false} FramesAgree(s: State, l: Ledger)
    requires Agrees(s, l)
    ensures FramesOf(l.live) == Recorded(s.engine, s.marks)
    decreases |l.live|
  {
    if l.live != [] {
      var t, k := State(Front(s.engine), Front(s.marks), [], s.active), Ledger(Front(l.live), l.on);
      forall i | 0 <= i < |k.live| ensures k.live[i] == Entry(t.engine[i], t.marks[i]) {
        assert l.live[i] == Entry(s.engine[i], s.marks[i]);
      }
      FramesAgree(t, k);
      assert l.live[|l.live| - 1] == Entry(s.engine[|l.live| - 1], s.marks[|l.live| - 1]);
      assert |l.live| > 1 ==> l.live[|l.live| - 2] == Entry(s.engine[|l.live| - 2], s.marks[|l.live| - 2]);
    }
  }

  lemma {:induction false} FuncsAt(engine: seq<Call>, i: nat)
    requires i < |engine|
    ensures Funcs(engine)[i] == engine[i].hasFunc
    decreases |engine|
  {
    if i < |engine| - 1 {
      FuncsAt(Front(engine), i);
    }
  }

  lemma RebuildAgrees(s: State, l: Ledger, own: bool)
    requires Agrees(s, l) && CanDrop(s.engine, own)
    ensures Agrees(s.(marks := RebuiltMarks(s.engine, own)), Ledger(Rebuild(l.live, own), l.on))
  {
    forall i | 0 <= i < |l.live|
      ensures Rebuild(l.live, own)[i] == Entry(s.engine[i], RebuiltMarks(s.engine, own)[i])
    {
      assert l.live[i] == Entry(s.engine[i], s.marks[i]);
      FuncsAt(s.engine, i);
      if own && i < |l.live| - 1 {
        FuncsAt(Front(s.engine), i);
      }
    }
  }

  lemma NoteAgrees(s: State, e: Event, l: Ledger)
    requires Agrees(s, l) && Possible(s, e)
    ensures Agrees(Step(s, e), Note(l, e, s.debugger == []))
  {
    match e
    case SwitchOnRebuilt(own) => RebuildAgrees(s, l, own);
    case RebuildOnly(own) => RebuildAgrees(s, l, own);
    case _ =>
  }

  // ---------- Any request ----------

  ghost predicate Writes(p: State, k: Ledger, e: Event, s: State, l: Ledger) {
    Possible(p, e) && s == Step(p, e) && l == Note(k, e, p.debugger == [])
  }

  /** A run with its ledger, in which emptiness is read off the stack itself. */
  ghost predicate Tells(start: State, es: seq<Event>, s: State, l: Ledger) {
    if es == [] then s == start && l == Opening(start)
    else exists p, k :: Tells(start, Front(es), p, k) && Writes(p, k, Last(es), s, l)
  }

  /** Every run has a ledger. */
  lemma {:induction false} RunHasLedger(start: State, es: seq<Event>, s: State) returns (l: Ledger)
    requires Leads(start, es, s)
    ensures Tells(start, es, s, l)
  {
    if es == [] {
      l := Opening(start);
    } else {
      var p :| Leads(start, Front(es), p) && Possible(p, Last(es)) && s == Step(p, Last(es));
      var k := RunHasLedger(start, Front(es), p);
      l := Note(k, Last(es), p.debugger == []);
      assert Writes(p, k, Last(es), s, l);
    }
  }

  /** In every state of every request the recorded calls are those the ledger owes a frame. */
  lemma {:induction false} RecordedAreOwed(start: State, es: seq<Event>, s: State, l: Ledger)
    requires Initial(start) && Tells(start, es, s, l)
    ensures Agrees(s, l)
  {
    if es != [] {
      var p, k :| Tells(start, Front(es), p, k) && Writes(p, k, Last(es), s, l);
      RecordedAreOwed(start, Front(es), p, k);
      NoteAgrees(p, Last(es), k);
    }
  }

  lemma {:induction false} TellsLeads(start: State, es: seq<Event>, s: State, l: Ledger)
    requires Tells(start, es, s, l)
    ensures Leads(start, es, s)
  {
    if es != [] {
      var p, k :| Tells(start, Front(es), p, k) && Writes(p, k, Last(es), s, l);
      TellsLeads(start, Front(es), p, k);
    }
  }

  /** Whatever happens in a request, every frame owed is on the stack, in order; and while the
      observer is on after clean switches only, there is nothing else on it. */
  lemma OwedFramesAreThere(start: State, es: seq<Event>, s: State, l: Ledger)
    requires Initial(start) && Tells(start, es, s, l)
    ensures IsSubsequence(FramesOf(l.live), s.debugger)
    ensures LeadsCleanly(start, es, s) && s.active ==> s.debugger == FramesOf(l.live)
  {
    RecordedAreOwed(start, es, s, l);
    FramesAgree(s, l);
    TellsLeads(start, es, s, l);
    NoFrameIsLost(start, es, s);
    if LeadsCleanly(start, es, s) {
      AlwaysMirrors(start, es, s);
    }
  }

  // ---------- A request with handlers installed on every call ----------

  predicate NoneFramed(live: seq<Entry>) {
    forall i :: 0 <= i < |live| ==> !live[i].framed
  }

  /** The ledger of a list of events: the stack is taken to be empty when no call is owed a frame. */
  function LedgerOf(start: State, es: seq<Event>): Ledger {
    if es == [] then Opening(start)
    else
      var l := LedgerOf(start, Front(es));
      Note(l, Last(es), NoneFramed(l.live))
  }

  lemma {:induction false} NoFrames(live: seq<Entry>)
    ensures FramesOf(live) == [] <==> NoneFramed(live)
  {
    if live != [] {
      NoFrames(Front(live));
      if NoneFramed(Front(live)) && !Last(live).framed {
        forall i | 0 <= i < |live| ensures !live[i].framed {
          assert i < |live| - 1 ==> live[i] == Front(live)[i];
        }
      }
      if NoneFramed(live) {
        assert NoneFramed(Front(live)) && !live[|live| - 1].framed;
      }
    }
  }

  /** With handlers installed on every call, the stack holds in every state exactly the frames that
      the events of the request alone account for. */
  lemma {:induction false} StackIsLedger(start: State, es: seq<Event>, s: State)
    requires Initial(start) && NoneDeclined(start.engine) && Leads(start, es, s)
    requires forall i :: 0 <= i < |es| ==> Installed(es[i])
    ensures var l := LedgerOf(start, es); Agrees(s, l) && s.debugger == FramesOf(l.live)
  {
    InstalledMirrors(start, es, s);
    if es != [] {
      var e := es[|es| - 1];
      var p :| Leads(start, Front(es), p) && Possible(p, e) && s == Step(p, e);
      var l := LedgerOf(start, Front(es));
      StackIsLedger(start, Front(es), p);
      NoFrames(l.live);
      NoteAgrees(p, e, l);
    }
    FramesAgree(s, LedgerOf(start, es));
  }
}
