/** The operation slot of one vault panel (apps/proofofhumanity/app/holder-vault-panel.tsx): at most one
    operation is current, and a generation number tells a current operation from a superseded one. */
module HolderPanel {
  import opened Base

  datatype Action = Enroll | Unlock | AddPasskey | BindProof | Backup | Restore

  datatype Notice = Succeeded(action: Action) | Failed(action: Action) | Aborted(action: Action) | Canceled

  /** A started operation: its generation, and the abort controller whose signal it was given. */
  datatype Pending = Pending(action: Action, generation: nat, controller: nat)

  /** The session binding stands as a number; a controller is aborted once it is in `aborted`. */
  datatype Slot = Slot(
    busy: Option<Action>, generation: nat, notice: Option<Notice>, binding: nat, controller: nat,
    aborted: set<nat>, pending: map<nat, Pending>)

  /** How the operation itself ends, before its signal is checked for the last time; an error may be the abort
      of a ceremony. */
  datatype Ending = Done | Error(abort: bool)

  function NoticeOf(action: Action, ending: Ending): Notice {
    if ending.Error? && !ending.abort then Failed(action) else Aborted(action)
  }

  datatype Event =
    | Start(id: nat, action: Action)
    | Finish(id: nat, ending: Ending)
    | Cancel
    | Unmount
    | SessionChange(binding: nat)

  function Opened(binding: nat): Slot { Slot(None, 0, None, binding, 0, {}, map[]) }

  // ---------------------------------------------------------------- steps

  /** Aborts the controller in force and puts a new one in its place. */
  function Invalidate(s: Slot): Slot { s.(aborted := s.aborted + {s.controller}, controller := s.controller + 1) }

  function Supersede(s: Slot): Slot { s.(generation := s.generation + 1, busy := None) }

  function StartStep(s: Slot, id: nat, action: Action): Slot {
    if s.busy.Some? || id in s.pending then s
    else
      s.(busy := Some(action), generation := s.generation + 1, notice := None,
         pending := s.pending[id := Pending(action, s.generation + 1, s.controller)])
  }

  /** What the operation's own last step writes: it checks its signal, not its generation. */
  function Concluded(s: Slot, p: Pending, ending: Ending): Slot {
    if ending.Done? && p.controller !in s.aborted then s.(notice := Some(Succeeded(p.action)))
    else if p.generation == s.generation then
      s.(notice := Some(NoticeOf(p.action, ending)))
    else s
  }

  function FinishStep(s: Slot, id: nat, ending: Ending): Slot {
    if id !in s.pending then s
    else
      var p := s.pending[id];
      var t := Concluded(s, p, ending);
      t.(pending := s.pending - {id}, busy := if p.generation == s.generation then None else s.busy)
  }

  function Step(s: Slot, e: Event): Slot {
    match e
    case Start(id, action) => StartStep(s, id, action)
    case Finish(id, ending) => FinishStep(s, id, ending)
    case Cancel => Invalidate(Supersede(s)).(notice := Some(Canceled))
    case Unmount => Invalidate(Supersede(s))
    case SessionChange(binding) =>
      if binding == s.binding then Supersede(s) else Invalidate(Supersede(s)).(binding := binding)
  }

  function Run(s: Slot, events: seq<Event>): Slot
    decreases |events|
  {
    if events == [] then s else Run(Step(s, events[0]), events[1..])
  }

  // ---------------------------------------------------------------- the panel as it runs

  class Panel {
    var busy: Option<Action>
    var generation: nat
    var notice: Option<Notice>
    var binding: nat
    var controller: nat
    var aborted: set<nat>
    var pending: map<nat, Pending>

    function View(): Slot
      reads this
    {
      Slot(busy, generation, notice, binding, controller, aborted, pending)
    }

    constructor (binding: nat)
      ensures View() == Opened(binding)
    {
      this.binding := binding;
      busy, generation, notice, controller, aborted, pending := None, 0, None, 0, {}, map[];
    }

    /** The part of `run` before the operation is awaited. */
    method Start(id: nat, action: Action)
      requires id !in pending
      modifies this
      ensures View() == StartStep(old(View()), id, action)
      ensures SlotOk(old(View())) ==> SlotOk(View())
    {
      ghost var before := View();
      if busy.Some? { return; }
      busy := Some(action);
      generation := generation + 1;
      notice := None;
      pending := pending[id := Pending(action, generation, controller)];
      if SlotOk(before) { StepKeepsSlot(before, Event.Start(id, action)); }
    }

    /** The part of `run` after the operation has ended, with the operation's own last step. */
    method Finish(id: nat, ending: Ending)
      requires id in pending
      modifies this
      ensures View() == FinishStep(old(View()), id, ending)
      ensures SlotOk(old(View())) ==> SlotOk(View())
    {
      ghost var before := View();
      var p := pending[id];
      pending := pending - {id};
      if ending.Done? && p.controller !in aborted {
        notice := Some(Succeeded(p.action));
      } else if generation == p.generation {
        notice := Some(NoticeOf(p.action, ending));
      }
      if generation == p.generation { busy := None; }
      if SlotOk(before) { StepKeepsSlot(before, Event.Finish(id, ending)); }
    }

    method Cancel()
      modifies this
      ensures View() == Step(old(View()), Event.Cancel)
      ensures SlotOk(old(View())) ==> SlotOk(View()) && busy == None
    {
      ghost var before := View();
      generation := generation + 1;
      busy := None;
      aborted, controller := aborted + {controller}, controller + 1;
      notice := Some(Canceled);
      if SlotOk(before) { StepKeepsSlot(before, Event.Cancel); }
    }

    method Unmount()
      modifies this
      ensures View() == Step(old(View()), Event.Unmount)
      ensures SlotOk(old(View())) ==> SlotOk(View()) && busy == None
    {
      ghost var before := View();
      generation := generation + 1;
      busy := None;
      aborted, controller := aborted + {controller}, controller + 1;
      if SlotOk(before) { StepKeepsSlot(before, Event.Unmount); }
    }

    method ChangeSession(next: nat)
      modifies this
      ensures View() == Step(old(View()), SessionChange(next))
      ensures SlotOk(old(View())) ==> SlotOk(View()) && busy == None
    {
      ghost var before := View();
      generation := generation + 1;
      busy := None;
      if next != binding {
        aborted, controller := aborted + {controller}, controller + 1;
        binding := next;
      }
      if SlotOk(before) { StepKeepsSlot(before, SessionChange(next)); }
    }
  }

  // ---------------------------------------------------------------- the busy slot

  predicate Current(s: Slot, id: nat) { id in s.pending && s.pending[id].generation == s.generation }

  /** The slot is taken exactly when one unfinished operation holds the current generation, and it names that
      operation's action. */
  predicate SlotOk(s: Slot) {
    && (s.busy.Some? <==> exists id :: id in s.pending && Current(s, id))
    && (forall id :: id in s.pending && Current(s, id) ==> s.busy == Some(s.pending[id].action))
    && (forall i, j :: i in s.pending && j in s.pending && s.pending[i].generation == s.pending[j].generation
          ==> i == j)
    && (forall id :: id in s.pending ==> s.pending[id].generation <= s.generation)
  }

  lemma StartKeepsSlot(s: Slot, id: nat, action: Action)
    requires SlotOk(s)
    ensures SlotOk(StartStep(s, id, action))
  {
    var t := StartStep(s, id, action);
    if t != s { assert Current(t, id); }
  }

  lemma FinishKeepsSlot(s: Slot, id: nat, ending: Ending)
    requires SlotOk(s)
    ensures SlotOk(FinishStep(s, id, ending))
  {
    hide Concluded;
    var t := FinishStep(s, id, ending);
    if id in s.pending {
      assert t.generation == s.generation by { ConcludedKeeps(s, s.pending[id], ending); }
      if t.busy.Some? {
        var other :| other in s.pending && Current(s, other);
        assert Current(t, other);
      }
    }
  }

  lemma ConcludedKeeps(s: Slot, p: Pending, ending: Ending)
    ensures Concluded(s, p, ending) == s.(notice := Concluded(s, p, ending).notice)
  {
  }

  lemma StepKeepsSlot(s: Slot, e: Event)
    requires SlotOk(s)
    ensures SlotOk(Step(s, e))
  {
    match e
    case Start(id, action) => StartKeepsSlot(s, id, action);
    case Finish(id, ending) => FinishKeepsSlot(s, id, ending);
    case _ =>
  }

  lemma {:induction false} RunKeepsSlot(s: Slot, events: seq<Event>)
    requires SlotOk(s)
    ensures SlotOk(Run(s, events))
    decreases |events|
  {
    if events != [] {
      StepKeepsSlot(s, events[0]);
      RunKeepsSlot(Step(s, events[0]), events[1..]);
    }
  }

  /** From the moment a panel opens, over every sequence of starts, ends, cancellations, unmounts and session
      changes, its slot is exact. */
  lemma SlotIsExact(binding: nat, events: seq<Event>)
    ensures SlotOk(Run(Opened(binding), events))
  {
    OpenedIsOk(binding);
    RunKeepsSlot(Opened(binding), events);
  }

  // ---------------------------------------------------------------- superseded operations

  /** The operation ends without touching the slot, the notice or anything else. */
  predicate EndsSilently(s: Slot, id: nat, ending: Ending)
    requires id in s.pending
  {
    FinishStep(s, id, ending) == s.(pending := s.pending - {id})
  }

  /** A superseded operation never clears the slot, and never writes the notice except by succeeding with a
      signal that was not aborted. */
  lemma SupersededEndsSilentlyExactlyWhen(s: Slot, id: nat, ending: Ending)
    requires id in s.pending && !Current(s, id)
    ensures FinishStep(s, id, ending).busy == s.busy
    ensures EndsSilently(s, id, ending) <==>
      ending.Error? || s.pending[id].controller in s.aborted || s.notice == Some(Succeeded(s.pending[id].action))
  {
  }

  /** Superseded operations are aborted, and the current one is not. */
  predicate AbortsOk(s: Slot) {
    && (forall id :: id in s.pending ==> (Current(s, id) <==> s.pending[id].controller !in s.aborted))
    && (forall id :: id in s.pending && Current(s, id) ==> s.pending[id].controller == s.controller)
    && (forall c :: c in s.aborted ==> c < s.controller)
  }

  /** A step keeps that, except a session change to the binding in force while an operation is running. */
  lemma StepKeepsAbortsExactlyWhen(s: Slot, e: Event)
    requires SlotOk(s) && AbortsOk(s)
    ensures AbortsOk(Step(s, e)) <==> !(e == SessionChange(s.binding) && s.busy.Some?)
  {
    var t := Step(s, e);
    if e == SessionChange(s.binding) && s.busy.Some? {
      var id :| id in s.pending && Current(s, id);
      assert id in t.pending && !Current(t, id);
    }
  }

  /** Session changes are real ones: the effect that reports them depends on the binding. */
  predicate RealChanges(s: Slot, events: seq<Event>)
    decreases |events|
  {
    events == [] || (events[0] != SessionChange(s.binding) && RealChanges(Step(s, events[0]), events[1..]))
  }

  lemma {:induction false} RunKeepsAborts(s: Slot, events: seq<Event>)
    requires SlotOk(s) && AbortsOk(s) && RealChanges(s, events)
    ensures AbortsOk(Run(s, events))
    decreases |events|
  {
    if events != [] {
      StepKeepsSlot(s, events[0]);
      StepKeepsAbortsExactlyWhen(s, events[0]);
      RunKeepsAborts(Step(s, events[0]), events[1..]);
    }
  }

  /** Hence, from the moment a panel opens, in every such sequence no superseded operation, however it ends, clears
      the slot or overwrites the notice, and the current operation's signal is live. */
  lemma SupersededAreSilent(binding: nat, events: seq<Event>, id: nat, ending: Ending)
    requires RealChanges(Opened(binding), events)
    ensures var t := Run(Opened(binding), events);
      AbortsOk(t) && (id in t.pending && !Current(t, id) ==> EndsSilently(t, id, ending))
  {
    OpenedIsOk(binding);
    RunKeepsAborts(Opened(binding), events);
    var t := Run(Opened(binding), events);
    if id in t.pending && !Current(t, id) { SupersededEndsSilentlyExactlyWhen(t, id, ending); }
  }

  /** And the current operation, when it ends, frees the slot and leaves the notice of its ending: success, the abort of
      its ceremony, or failure. */
  lemma CurrentSpeaks(binding: nat, events: seq<Event>, id: nat, ending: Ending)
    requires RealChanges(Opened(binding), events)
    requires var t := Run(Opened(binding), events); id in t.pending && Current(t, id)
    ensures var t := Run(Opened(binding), events); var action := t.pending[id].action;
      FinishStep(t, id, ending) == t.(
        busy := None, pending := t.pending - {id},
        notice := Some(match ending
                       case Done => Succeeded(action)
                       case Error(abort) => if abort then Aborted(action) else Failed(action)))
  {
    OpenedIsOk(binding);
    RunKeepsAborts(Opened(binding), events);
  }

  lemma OpenedIsOk(binding: nat)
    ensures SlotOk(Opened(binding)) && AbortsOk(Opened(binding))
  {
  }

  /** Otherwise it can: a session change to the binding in force supersedes an operation without aborting it, and
      its success then overwrites the notice. */
  lemma UnabortedSuccessSpeaks(binding: nat)
    ensures var s := Run(Opened(binding), [Start(0, Enroll), SessionChange(binding)]);
      && 0 in s.pending && !Current(s, 0) && s.notice == None
      && FinishStep(s, 0, Done).notice == Some(Succeeded(Enroll))
  {
    var s := Step(Step(Opened(binding), Start(0, Enroll)), SessionChange(binding));
    var events := [Start(0, Enroll), SessionChange(binding)];
    assert events[1..] == [SessionChange(binding)] && events[1..][1..] == [];
    assert Run(s, []) == s;
    assert Run(Step(Opened(binding), Start(0, Enroll)), [SessionChange(binding)]) == s;
  }
}
