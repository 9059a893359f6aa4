/** Any number of tabs enrolling, restoring, adding passkeys and binding proofs against one database
    (apps/proofofhumanity/app/holder-vault-panel.tsx). Each operation is a sequence of steps, and the steps of
    all operations interleave freely; an operation may be dropped before any step. */
module VaultProtocol {
  import opened Base
  import opened VaultStore

  /** An operation that has not ended. */
  datatype Operation =
    | Creating(b: Bound, vault: Vault)
    | Reading(b: Bound, change: Change)
    | Deriving(b: Bound, change: Change, read: Vault)
    | Swapping(b: Bound, change: Change, read: Vault, replacement: Vault)
    | Committing(b: Bound, change: Change, read: Vault, replacement: Vault, observed: Record)

  /** What the log keeps of a committed write, with the store object that made it. */
  datatype Entry = Initialized(b: Bound, vault: Vault) | Changed(b: Bound, change: Change)

  datatype System = System(cell: Option<Record>, operations: map<nat, Operation>, log: seq<Entry>)

  const EMPTY: System := System(None, map[], [])

  /** Enrolling and restoring start with a vault; adding a passkey and binding a proof with a change. `Advance`
      lets an operation take its next step and `Drop` ends it: an error, a cancellation, a closed tab. */
  datatype Event =
    | StartCreate(id: nat, b: Bound, vault: Vault)
    | StartChange(id: nat, b: Bound, change: Change)
    | Advance(id: nat)
    | Drop(id: nat)

  function End(s: System, id: nat): System { s.(operations := s.operations - {id}) }

  function Continue(s: System, id: nat, op: Operation): System { s.(operations := s.operations[id := op]) }

  function Create(s: System, id: nat, op: Operation): System
    requires op.Creating?
  {
    var w := InitializeCell(op.b, s.cell, op.vault);
    End(s, id).(cell := w.cell, log := if w.answer == Ok(true) then s.log + [Initialized(op.b, op.vault)] else s.log)
  }

  /** Reads the vault through a store object, which refuses a foreign one. */
  function Read(s: System, id: nat, op: Operation): System
    requires op.Reading?
  {
    if s.cell.Some? && Fits(op.b, s.cell.value.vault)
    then Continue(s, id, Deriving(op.b, op.change, s.cell.value.vault))
    else End(s, id)
  }

  function Derive(s: System, id: nat, op: Operation): System
    requires op.Deriving?
  {
    var replacement := Apply(op.change, op.read);
    if replacement.Some? then Continue(s, id, Swapping(op.b, op.change, op.read, replacement.value)) else End(s, id)
  }

  function Observe(digest: Digest, s: System, id: nat, op: Operation): System
    requires op.Swapping?
  {
    var seen := ObserveCell(op.b, s.cell, digest, digest(op.read), op.replacement);
    if seen.Ok? && seen.value.Some?
    then Continue(s, id, Committing(op.b, op.change, op.read, op.replacement, seen.value.value))
    else End(s, id)
  }

  function Commit(s: System, id: nat, op: Operation): System
    requires op.Committing?
  {
    var w := CommitCell(op.b, s.cell, op.observed, op.replacement);
    End(s, id).(cell := w.cell, log := if w.answer == Ok(true) then s.log + [Changed(op.b, op.change)] else s.log)
  }

  function Step(digest: Digest, s: System, e: Event): System {
    match e
    case StartCreate(id, b, vault) => if id in s.operations then s else Continue(s, id, Creating(b, vault))
    case StartChange(id, b, change) => if id in s.operations then s else Continue(s, id, Reading(b, change))
    case Drop(id) => End(s, id)
    case Advance(id) =>
      if id !in s.operations then s
      else
        match s.operations[id]
        case Creating(_, _) => Create(s, id, s.operations[id])
        case Reading(_, _) => Read(s, id, s.operations[id])
        case Deriving(_, _, _) => Derive(s, id, s.operations[id])
        case Swapping(_, _, _, _) => Observe(digest, s, id, s.operations[id])
        case Committing(_, _, _, _, _) => Commit(s, id, s.operations[id])
  }

  function Run(digest: Digest, s: System, events: seq<Event>): System
    decreases |events|
  {
    if events == [] then s else Run(digest, Step(digest, s, events[0]), events[1..])
  }

  // ---------------------------------------------------------------- the serial reading of a log

  /** Applies the committed writes one after the other, with nothing in between. */
  function Replay(log: seq<Entry>): Option<Vault> {
    if log == [] then None
    else
      var before := Replay(log[..|log| - 1]);
      match log[|log| - 1]
      case Initialized(_, v) => if |log| == 1 then Some(v) else None
      case Changed(_, c) => if before.Some? then Apply(c, before.value) else None
  }

  function Content(cell: Option<Record>): Option<Vault> {
    if cell.Some? then Some(cell.value.vault) else None
  }

  ghost predicate CollisionFree(digest: Digest) { forall v, w :: digest(v) == digest(w) ==> v == w }

  // ---------------------------------------------------------------- invariant

  /** The store object of an operation that has read the vault is bound to the vault now stored. */
  predicate StillBound(b: Bound, cell: Option<Record>) { cell.Some? && Fits(b, cell.value.vault) }

  predicate OperationOk(digest: Digest, cell: Option<Record>, op: Operation) {
    match op
    case Creating(_, _) => true
    case Reading(_, _) => true
    case Deriving(b, _, read) => Fits(b, read) && StillBound(b, cell)
    case Swapping(b, change, read, replacement) =>
      Fits(b, read) && StillBound(b, cell) && Apply(change, read) == Some(replacement)
    case Committing(b, change, read, replacement, observed) =>
      && Fits(b, read) && StillBound(b, cell) && Apply(change, read) == Some(replacement)
      && digest(observed.vault) == digest(read)
      && observed.revision <= cell.value.revision
      && (observed.revision == cell.value.revision ==> cell.value.vault == observed.vault)
  }

  /** The stored vault is the serial result of the committed writes, one revision each, and no operation holds
      a revision whose content it has not seen. */
  predicate Inv(digest: Digest, s: System) {
    && Replay(s.log) == Content(s.cell)
    && (s.cell.None? ==> s.log == [])
    && (s.cell.Some? ==> WellFormed(s.cell.value.vault) && s.cell.value.revision == |s.log| <= MAX_SAFE_INTEGER)
    && (forall i :: 0 <= i < |s.log| ==> StillBound(s.log[i].b, s.cell))
    && forall id :: id in s.operations ==> OperationOk(digest, s.cell, s.operations[id])
  }

  lemma ReplayPush(log: seq<Entry>, e: Entry)
    ensures Replay(log + [e]) ==
      match e
      case Initialized(_, v) => if log == [] then Some(v) else None
      case Changed(_, c) => if Replay(log).Some? then Apply(c, Replay(log).value) else None
  {
    assert (log + [e])[..|log|] == log;
  }

  /** A derived vault keeps the id and binding, and every slot in its place. */
  predicate Extends(v: Vault, w: Vault) {
    v.vaultId == w.vaultId && v.binding == w.binding && v.keySlots <= w.keySlots
  }

  /** When a change can be made to a vault. */
  predicate Possible(v: Vault, c: Change) {
    c.AddSlot? ==>
      |v.keySlots| < 16 && forall i :: 0 <= i < |v.keySlots| ==> v.keySlots[i].credentialId != c.slot.credentialId
  }

  /** A possible change alters one thing: a slot is added behind the others, or the payload is replaced. */
  lemma ApplyMeaning(c: Change, v: Vault)
    requires WellFormed(v)
    ensures Apply(c, v).Some? <==> Possible(v, c)
    ensures Apply(c, v).Some? ==>
      var w := Apply(c, v).value;
      && WellFormed(w) && Extends(v, w)
      && (match c
          case AddSlot(slot) => w.keySlots == v.keySlots + [slot] && w.payload == v.payload
          case SetPayload(payload) => w.keySlots == v.keySlots && w.payload == payload)
  {
  }

  /** A commit replaces content equal to what the operation read and derived its replacement from. */
  lemma CommitReplacesWhatItRead(digest: Digest, s: System, op: Operation)
    requires CollisionFree(digest) && Inv(digest, s) && op in s.operations.Values && op.Committing?
    requires CommitCell(op.b, s.cell, op.observed, op.replacement).answer == Ok(true)
    ensures Content(s.cell) == Some(op.read) && Apply(op.change, op.read) == Some(op.replacement)
    ensures CommitCell(op.b, s.cell, op.observed, op.replacement)
         == ContentCas(s.cell, digest, digest(op.read), op.replacement)
  {
    var id :| id in s.operations && s.operations[id] == op;
    assert OperationOk(digest, s.cell, op);
  }

  lemma CellUnchanged(digest: Digest, s: System, t: System)
    requires Inv(digest, s) && t.cell == s.cell && t.log == s.log
    requires forall id :: id in t.operations ==>
      (id in s.operations && t.operations[id] == s.operations[id]) || OperationOk(digest, s.cell, t.operations[id])
    ensures Inv(digest, t)
  {
    hide OperationOk, Replay;
    forall id | id in t.operations ensures OperationOk(digest, t.cell, t.operations[id]) {
      if id in s.operations && t.operations[id] == s.operations[id] {
        assert OperationOk(digest, s.cell, s.operations[id]);
      }
    }
  }

  /** A write that moves the revision on leaves every other operation's claim in place. */
  lemma OthersStayOk(digest: Digest, cell: Option<Record>, next: Option<Record>, op: Operation)
    requires OperationOk(digest, cell, op) && next.Some?
    requires cell.Some? ==> cell.value.revision < next.value.revision && Extends(cell.value.vault, next.value.vault)
    requires WellFormed(next.value.vault)
    ensures OperationOk(digest, next, op)
  {
  }

  lemma CreateKeepsInv(digest: Digest, s: System, id: nat, op: Operation)
    requires Inv(digest, s) && op.Creating?
    ensures Inv(digest, Create(s, id, op))
  {
    var t := Create(s, id, op);
    if t.log == s.log {
      CellUnchanged(digest, s, t);
    } else {
      ReplayPush(s.log, Initialized(op.b, op.vault));
      forall i | i in t.operations ensures OperationOk(digest, t.cell, t.operations[i]) {
        OthersStayOk(digest, s.cell, t.cell, s.operations[i]);
      }
    }
  }

  lemma CommitKeepsInv(digest: Digest, s: System, id: nat)
    requires CollisionFree(digest) && Inv(digest, s) && id in s.operations && s.operations[id].Committing?
    ensures Inv(digest, Commit(s, id, s.operations[id]))
  {
    var op := s.operations[id];
    var t := Commit(s, id, op);
    if CommitCell(op.b, s.cell, op.observed, op.replacement).answer == Ok(true) {
      CommitReplacesWhatItRead(digest, s, op);
      ReplayPush(s.log, Changed(op.b, op.change));
      ApplyMeaning(op.change, op.read);
      hide OperationOk, Replay, Apply;
      forall i | i in t.operations ensures OperationOk(digest, t.cell, t.operations[i]) {
        assert OperationOk(digest, s.cell, s.operations[i]);
        OthersStayOk(digest, s.cell, t.cell, s.operations[i]);
      }
    } else {
      CellUnchanged(digest, s, t);
    }
  }

  lemma ObserveKeepsInv(digest: Digest, s: System, id: nat)
    requires Inv(digest, s) && id in s.operations && s.operations[id].Swapping?
    ensures Inv(digest, Observe(digest, s, id, s.operations[id]))
  {
    var t := Observe(digest, s, id, s.operations[id]);
    assert OperationOk(digest, s.cell, s.operations[id]);
    if id in t.operations { assert OperationOk(digest, s.cell, t.operations[id]); }
    CellUnchanged(digest, s, t);
  }

  lemma DeriveKeepsInv(digest: Digest, s: System, id: nat)
    requires Inv(digest, s) && id in s.operations && s.operations[id].Deriving?
    ensures Inv(digest, Derive(s, id, s.operations[id]))
  {
    var t := Derive(s, id, s.operations[id]);
    assert OperationOk(digest, s.cell, s.operations[id]);
    CellUnchanged(digest, s, t);
  }

  lemma StepKeepsInv(digest: Digest, s: System, e: Event)
    requires CollisionFree(digest) && Inv(digest, s)
    ensures Inv(digest, Step(digest, s, e))
  {
    hide Replay;
    if e.Advance? && e.id in s.operations {
      var op := s.operations[e.id];
      match op
      case Creating(_, _) => CreateKeepsInv(digest, s, e.id, op);
      case Reading(_, _) => CellUnchanged(digest, s, Step(digest, s, e));
      case Deriving(_, _, _) => DeriveKeepsInv(digest, s, e.id);
      case Swapping(_, _, _, _) => ObserveKeepsInv(digest, s, e.id);
      case Committing(_, _, _, _, _) => CommitKeepsInv(digest, s, e.id);
    } else {
      CellUnchanged(digest, s, Step(digest, s, e));
    }
  }

  // ---------------------------------------------------------------- main results

  lemma {:induction false} RunKeepsInv(digest: Digest, s: System, events: seq<Event>)
    requires CollisionFree(digest) && Inv(digest, s)
    ensures Inv(digest, Run(digest, s, events))
    decreases |events|
  {
    hide Inv;
    if events != [] {
      StepKeepsInv(digest, s, events[0]);
      RunKeepsInv(digest, Step(digest, s, events[0]), events[1..]);
    }
  }

  lemma EmptyIsOk(digest: Digest)
    ensures Inv(digest, EMPTY)
  {
  }

  /** Every interleaving from an empty database is serial: the stored vault is what the committed writes give when
      they are carried out one after the other, in the order of their commits, one revision each. */
  lemma InterleavingsAreSerial(digest: Digest, events: seq<Event>)
    requires CollisionFree(digest)
    ensures var t := Run(digest, EMPTY, events);
      Replay(t.log) == Content(t.cell) && (t.cell.Some? ==> t.cell.value.revision == |t.log|)
  {
    EmptyIsOk(digest);
    RunKeepsInv(digest, EMPTY, events);
  }

  // ---------------------------------------------------------------- what is stored, read off the log

  /** The slots that the changes in a log added, in order. */
  function AddedSlots(log: seq<Entry>): seq<Slot> {
    if log == [] then []
    else
      AddedSlots(log[..|log| - 1]) +
      match log[|log| - 1]
      case Changed(_, AddSlot(slot)) => [slot]
      case _ => []
  }

  /** The payload that the last change of one in a log set, or the first one. */
  function LastPayload(log: seq<Entry>, first: nat): nat {
    if log == [] then first
    else
      match log[|log| - 1]
      case Changed(_, SetPayload(payload)) => payload
      case _ => LastPayload(log[..|log| - 1], first)
  }

  lemma {:induction false} ReplayMeaning(log: seq<Entry>)
    requires Replay(log).Some?
    ensures log != [] && log[0].Initialized? && forall i :: 0 < i < |log| ==> log[i].Changed?
    ensures var v, first := Replay(log).value, log[0].vault;
      && v.vaultId == first.vaultId && v.binding == first.binding
      && v.keySlots == first.keySlots + AddedSlots(log)
      && v.payload == LastPayload(log, first.payload)
  {
    var before := log[..|log| - 1];
    if Replay(before).Some? { ReplayMeaning(before); } else { assert before == []; }
  }

  /** Over every interleaving from an empty database: the first committed write created the vault, and all others
      changed it. Its key slots are those it was created with and then the added ones in the order of their commits;
      its payload is the one set last. There are 1 to 16 slots, no credential twice. Every write came from a store
      object opened for this vault and binding. */
  lemma StoredIsTheLog(digest: Digest, events: seq<Event>)
    requires CollisionFree(digest)
    ensures var t := Run(digest, EMPTY, events);
      && (t.log == [] <==> t.cell.None?)
      && (t.cell.Some? ==>
            var v := t.cell.value.vault;
            && t.log[0].Initialized? && (forall i :: 0 < i < |t.log| ==> t.log[i].Changed?)
            && (forall i :: 0 <= i < |t.log| ==> t.log[i].b.vaultId == v.vaultId && t.log[i].b.binding == v.binding)
            && v.vaultId == t.log[0].vault.vaultId && v.binding == t.log[0].vault.binding
            && v.keySlots == t.log[0].vault.keySlots + AddedSlots(t.log)
            && v.payload == LastPayload(t.log, t.log[0].vault.payload)
            && 1 <= |v.keySlots| <= 16
            && forall i, j :: 0 <= i < j < |v.keySlots| ==> v.keySlots[i].credentialId != v.keySlots[j].credentialId)
  {
    EmptyIsOk(digest);
    RunKeepsInv(digest, EMPTY, events);
    var t := Run(digest, EMPTY, events);
    if t.cell.Some? {
      ReplayMeaning(t.log);
      assert forall i :: 0 <= i < |t.log| ==> StillBound(t.log[i].b, t.cell);
    }
  }

  // ---------------------------------------------------------------- every write was asked for

  /** What an operation writes if it commits. */
  function EntryOf(op: Operation): Entry {
    if op.Creating? then Initialized(op.b, op.vault) else Changed(op.b, op.change)
  }

  predicate Asks(e: Event, entry: Entry) {
    match e
    case StartCreate(_, b, vault) => entry == Initialized(b, vault)
    case StartChange(_, b, change) => entry == Changed(b, change)
    case _ => false
  }

  /** A step adds at most one entry to the log, what its operation was to write; and operations are started by
      events or were there before. */
  lemma StepWrites(digest: Digest, s: System, e: Event)
    ensures var t := Step(digest, s, e);
      && (t.log == s.log || (e.Advance? && e.id in s.operations && t.log == s.log + [EntryOf(s.operations[e.id])]))
      && forall id :: id in t.operations ==>
           Asks(e, EntryOf(t.operations[id]))
           || (id in s.operations && EntryOf(t.operations[id]) == EntryOf(s.operations[id]))
  {
    hide InitializeCell, CommitCell, ObserveCell, Apply;
  }

  ghost predicate Asked(events: seq<Event>, entry: Entry) { exists i :: 0 <= i < |events| && Asks(events[i], entry) }

  ghost predicate Underway(s: System, entry: Entry) {
    exists id :: id in s.operations && EntryOf(s.operations[id]) == entry
  }

  lemma {:induction false} RunWrites(digest: Digest, s: System, events: seq<Event>)
    ensures s.log <= Run(digest, s, events).log
    ensures forall i :: |s.log| <= i < |Run(digest, s, events).log| ==>
      var entry := Run(digest, s, events).log[i]; Asked(events, entry) || Underway(s, entry)
    decreases |events|
  {
    if events != [] {
      hide Step;
      var t, r := Step(digest, s, events[0]), Run(digest, s, events);
      StepWrites(digest, s, events[0]);
      RunWrites(digest, t, events[1..]);
      forall i | |s.log| <= i < |r.log| ensures Asked(events, r.log[i]) || Underway(s, r.log[i]) {
        if i < |t.log| {
          assert r.log[i] == t.log[i];
        } else if Asked(events[1..], r.log[i]) {
          var k :| 0 <= k < |events[1..]| && Asks(events[1..][k], r.log[i]);
          assert Asks(events[k + 1], r.log[i]);
        } else {
          var id :| id in t.operations && EntryOf(t.operations[id]) == r.log[i];
          if Asks(events[0], r.log[i]) { assert Asked(events, r.log[i]); }
        }
      }
    }
  }

  /** Every committed write is one that some event asked for, and a committed slot is in every vault stored later. */
  lemma CommittedStays(digest: Digest, events: seq<Event>, more: seq<Event>, i: nat)
    requires CollisionFree(digest) && i < |Run(digest, EMPTY, events).log|
    ensures var t, u := Run(digest, EMPTY, events), Run(digest, EMPTY, events + more);
      && Asked(events, t.log[i]) && t.log <= u.log && u.cell.Some?
      && (t.log[i].Changed? && t.log[i].change.AddSlot? ==> t.log[i].change.slot in u.cell.value.vault.keySlots)
  {
    hide Inv;
    var t, u := Run(digest, EMPTY, events), Run(digest, EMPTY, events + more);
    RunWrites(digest, EMPTY, events);
    RunSplits(digest, EMPTY, events, more);
    RunWrites(digest, t, more);
    StoredIsTheLog(digest, events + more);
    assert u.log[i] == t.log[i];
    if t.log[i].Changed? && t.log[i].change.AddSlot? { AddedIsListed(u.log, i); }
  }

  lemma {:induction false} AddedIsListed(log: seq<Entry>, i: nat)
    requires i < |log| && log[i].Changed? && log[i].change.AddSlot?
    ensures log[i].change.slot in AddedSlots(log)
    decreases |log|
  {
    if i < |log| - 1 { AddedIsListed(log[..|log| - 1], i); }
  }

  // ---------------------------------------------------------------- an operation left to itself

  function FiveSteps(id: nat, b: Bound, c: Change): seq<Event> {
    [StartChange(id, b, c), Advance(id), Advance(id), Advance(id), Advance(id)]
  }

  /** A change whose steps no other step interrupts is committed if and only if the store object is bound to the stored
      vault, the change is possible and revisions are not exhausted; otherwise nothing is written. */
  lemma AloneCommitsExactlyWhen(digest: Digest, s: System, id: nat, b: Bound, c: Change)
    requires id !in s.operations && s.cell.Some? && WellFormed(s.cell.value.vault)
    ensures var v := s.cell.value.vault; var t := Run(digest, s, FiveSteps(id, b, c));
      if b == Bound(v.vaultId, v.binding) && Possible(v, c) && s.cell.value.revision != 9007199254740991
      then t.log == s.log + [Changed(b, c)] && t.cell.Some? && t.cell.value.revision == s.cell.value.revision + 1
      else t.log == s.log && t.cell == s.cell
  {
    var e := FiveSteps(id, b, c);
    var s1 := Step(digest, s, e[0]);
    var s2 := Step(digest, s1, Advance(id));
    var s3 := Step(digest, s2, Advance(id));
    var s4 := Step(digest, s3, Advance(id));
    var s5 := Step(digest, s4, Advance(id));
    FiveIsFive(digest, s, e);
  }

  /** And a vault that an operation was started with is stored if and only if it is well formed, the store object is
      bound to it and the database is empty. */
  lemma AloneCreatesExactlyWhen(digest: Digest, s: System, id: nat, b: Bound, vault: Vault)
    requires id !in s.operations
    ensures var t := Run(digest, s, [StartCreate(id, b, vault), Advance(id)]);
      if s.cell.None? && b == Bound(vault.vaultId, vault.binding) && 1 <= |vault.keySlots| <= 16
         && (forall i, j :: 0 <= i < j < |vault.keySlots| ==>
               vault.keySlots[i].credentialId != vault.keySlots[j].credentialId)
      then t.log == s.log + [Initialized(b, vault)] && t.cell == Some(Record(vault, 1))
      else t.log == s.log && t.cell == s.cell
  {
    var e := [StartCreate(id, b, vault), Advance(id)];
    assert e[1..] == [Advance(id)] && e[1..][1..] == [];
    var s1 := Step(digest, s, e[0]);
    assert Run(digest, s1, [Advance(id)]) == Step(digest, s1, Advance(id));
  }

  lemma FiveIsFive(digest: Digest, s: System, e: seq<Event>)
    requires |e| == 5
    ensures Run(digest, s, e) ==
      Step(digest, Step(digest, Step(digest, Step(digest, Step(digest, s, e[0]), e[1]), e[2]), e[3]), e[4])
  {
    hide Step;
    var s1 := Step(digest, s, e[0]);
    var s2 := Step(digest, s1, e[1]);
    var s3 := Step(digest, s2, e[2]);
    var s4 := Step(digest, s3, e[3]);
    assert e[1..][1..] == e[2..] && e[2..][1..] == e[3..] && e[3..][1..] == e[4..] && e[4..][1..] == [];
    assert Run(digest, s4, e[4..]) == Step(digest, s4, e[4]);
    assert Run(digest, s3, e[3..]) == Run(digest, s4, e[4..]);
    assert Run(digest, s2, e[2..]) == Run(digest, s3, e[3..]);
    assert Run(digest, s1, e[1..]) == Run(digest, s2, e[2..]);
  }

  /** An occupied database stays occupied by the same vault, with every key slot it had. */
  predicate Keeps(before: Option<Record>, after: Option<Record>) {
    before.Some? ==>
      && after.Some? && before.value.revision <= after.value.revision
      && Extends(before.value.vault, after.value.vault)
      && (before.value.revision == after.value.revision ==> before == after)
  }

  lemma StepKeepsVault(digest: Digest, s: System, e: Event)
    requires CollisionFree(digest) && Inv(digest, s)
    ensures Keeps(s.cell, Step(digest, s, e).cell)
  {
    if e.Advance? && e.id in s.operations && s.operations[e.id].Committing? {
      var op := s.operations[e.id];
      if CommitCell(op.b, s.cell, op.observed, op.replacement).answer == Ok(true) {
        CommitReplacesWhatItRead(digest, s, op);
        ApplyMeaning(op.change, op.read);
      }
    }
  }

  lemma {:induction false} RunKeepsVault(digest: Digest, s: System, events: seq<Event>)
    requires CollisionFree(digest) && Inv(digest, s)
    ensures Keeps(s.cell, Run(digest, s, events).cell)
    decreases |events|
  {
    hide Inv;
    if events != [] {
      var t := Step(digest, s, events[0]);
      StepKeepsVault(digest, s, events[0]);
      StepKeepsInv(digest, s, events[0]);
      RunKeepsVault(digest, t, events[1..]);
    }
  }

  lemma {:induction false} RunSplits(digest: Digest, s: System, xs: seq<Event>, ys: seq<Event>)
    ensures Run(digest, s, xs + ys) == Run(digest, Run(digest, s, xs), ys)
    decreases |xs|
  {
    if xs == [] {
      assert xs + ys == ys;
    } else {
      assert (xs + ys)[1..] == xs[1..] + ys;
      RunSplits(digest, Step(digest, s, xs[0]), xs[1..], ys);
    }
  }

  /** Over every interleaving from an empty database, from the moment it is occupied its vault id and binding are
      fixed and no committed key slot is lost or moved. */
  lemma VaultIsNeverLost(digest: Digest, events: seq<Event>, more: seq<Event>)
    requires CollisionFree(digest)
    ensures Keeps(Run(digest, EMPTY, events).cell, Run(digest, EMPTY, events + more).cell)
  {
    hide Inv, Keeps;
    EmptyIsOk(digest);
    RunKeepsInv(digest, EMPTY, events);
    RunSplits(digest, EMPTY, events, more);
    RunKeepsVault(digest, Run(digest, EMPTY, events), more);
  }

  /** A commit goes through exactly when nothing was committed since the operation observed the record and
      revisions are not exhausted; the binding check inside the transaction never fails. */
  lemma CommitsExactlyWhenUnchanged(digest: Digest, s: System, id: nat)
    requires Inv(digest, s) && id in s.operations && s.operations[id].Committing?
    ensures s.cell.Some?
    ensures var op := s.operations[id];
      var answer := CommitCell(op.b, s.cell, op.observed, op.replacement).answer;
      && (answer == Ok(true) <==> s.cell.value.revision == op.observed.revision < MAX_SAFE_INTEGER)
      && answer != Err(NotBound)
  {
    assert OperationOk(digest, s.cell, s.operations[id]);
  }
}
