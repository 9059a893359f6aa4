/** The world a chain starts from, and what every run from it keeps (crates/node/src/lib.rs). */
module Genesis {
  import opened Base
  import opened L = Ledger
  import opened LedgerLaws
  import opened LedgerSupply
  import opened World
  import opened Kernel
  import opened Humans
  import opened Escrow
  import opened Runs
  import opened K = KernelSupply
  import EffectQuorum
  import Failures
  import Lifecycle
  import Lockstep
  import Transitions
  import Upheld
  import Vouchers

  /** What the seeds fix: the founders (the development account and any genesis validators), the jurors, the
      governance authority and the passport anchors, at the genesis instant. */
  datatype Seed = Seed(
    founders: set<Address>, jurors: set<Address>, governance: Address, identityRoots: set<Hash>,
    ofacRoots: set<(byte, Hash)>, scope: Hash, time: u64)

  function Founder(time: u64): Account { Account(true, time, 0, time, 0) }

  /** Each founder is seeded as an account and as a human with one emission epoch; the roots are pinned at
      block 0. */
  function GenesisWorld(s: Seed): World {
    World(L.Ledger(map a | a in s.founders :: Founder(s.time), []),
          Humanity(map a | a in s.founders :: HumanRecord(Verified, s.time, 0, {}, 0, Std), {}, [], {}, s.jurors),
          Contracts([], []),
          Passports({}, map[], map[], Some(s.governance), map r | r in s.identityRoots :: 0,
                    map r | r in s.ofacRoots :: 0, Some(s.scope)))
  }

  lemma {:induction false} WorthlessAccounts(m: map<Address, Account>, time: u64)
    requires forall a :: a in m ==> m[a] == Founder(time)
    ensures TotalWorth(m, time) == 0
    decreases |m|
  {
    if m != map[] {
      assert Worth(m[Pick(m)], time) == 0;
      WorthlessAccounts(m - {Pick(m)}, time);
    }
  }

  /** The genesis world meets every invariant the run theorems start from, with nothing issued yet. */
  lemma GenesisIsOk(s: Seed, seams: Seams)
    ensures var w := GenesisWorld(s);
      && WorldOk(w) && Supply(w.ledger, s.time) == 0 && EscrowBacked(w)
      && Transitions.WithinCapacity(w.humanity) && Vouchers.VouchesOk(w.humanity, iset{})
      && EffectQuorum.CasesOk(seams, w) && EffectQuorum.AllUnanimous(w) && Upheld.RevokedIsUpheld(w.humanity)
      && ((forall a :: a in s.founders ==> !IsEscrow(a)) ==> Lockstep.NoEscrowRegistered(w.humanity))
  {
    var w := GenesisWorld(s);
    WorthlessAccounts(w.ledger.accounts, s.time);
    forall a: Address ensures |Lifecycle.VouchesOut(w.humanity, a)| <= VOUCH_CAPACITY {
      assert Lifecycle.VouchesOut(w.humanity, a) == {};
    }
  }

  /** What is on file at genesis: the founders, verified since then and with what they have been emitted as their only
      balance, one UBI an hour; the jurors; the authority and the anchors. Nobody has sent a transaction. */
  lemma GenesisMeaning(s: Seed, a: Address, t: u64)
    requires s.time <= t
    ensures var w := GenesisWorld(s);
      && LiveBalance(w.ledger, a, t) == (if a in s.founders then 1_000_000_000_000_000_000 * (t - s.time) / 3600 else 0)
      && Lookup(w.ledger, a).nonce == 0 && w.ledger.streams == []
      && Lifecycle.StatusOf(w.humanity, a) == (if a in s.founders then Verified else Unverified)
      && (a in s.founders ==> w.humanity.humans[a] == HumanRecord(Verified, s.time, 0, {}, 0, Std))
      && w.humanity == Humanity(w.humanity.humans, {}, [], {}, s.jurors) && w.contracts == Contracts([], [])
      && w.passports.governance == Some(s.governance) && w.passports.selfScope == Some(s.scope)
      && w.passports.nullifiers == {} && w.passports.csca == map[] && w.passports.attributes == map[]
      && w.passports.identityRoots.Keys == s.identityRoots && w.passports.ofacRoots.Keys == s.ofacRoots
      && (forall r :: r in s.identityRoots ==> w.passports.identityRoots[r] == 0)
      && (forall r :: r in s.ofacRoots ==> w.passports.ofacRoots[r] == 0)
  {
    var w := GenesisWorld(s);
    LiveBalanceIsExact(w.ledger, a, t);
    EmissionNeverSaturates(t - s.time);
  }

  /** From genesis, over every run: the registry invariants hold, nobody has vouched beyond the capacity, the vouches
      of every pending human are accounted for, and every contract case was closed when it was opened. */
  lemma RegistryFromGenesis(s: Seed, seams: Seams, events: seq<Event>)
    requires Run(seams, GenesisWorld(s), events).Some?
    ensures var r := Run(seams, GenesisWorld(s), events).value;
      && HumansOk(r) && Transitions.WithinCapacity(r.humanity)
      && Vouchers.VouchesOk(r.humanity, Vouchers.Lapsed(seams, GenesisWorld(s), events, iset{}))
      && EffectQuorum.CasesOk(seams, r)
  {
    hide GenesisWorld, Run, HumansOk;
    var w := GenesisWorld(s);
    GenesisIsOk(s, seams);
    HumansOverARun(seams, w, events);
    Transitions.CapacityOverARun(seams, w, events);
    Vouchers.VouchesOverARun(seams, w, events, iset{});
    EffectQuorum.CasesOverARun(seams, w, events);
  }

  /** From genesis, after every run, a failed transaction has one post-state without exception: the charged world with
      just the sender's nonce set past it. Stale edges never occur. */
  lemma FailedTxFromGenesis(s: Seed, seams: Seams, events: seq<Event>, b: Block, tx: KernelTx)
    requires Run(seams, GenesisWorld(s), events).Some?
    ensures var w := Run(seams, GenesisWorld(s), events).value; var r := ApplyTx(seams, b, w, tx);
      r.Mined? && !r.outcome.success ==> r.world == Failures.ChargedAndBumped(w, tx, b.timestamp)
  {
    hide GenesisWorld, Run, ApplyTx, Failures.ChargedAndBumped, Failures.DropsEdgesBeforeFailing;
    var w := Run(seams, GenesisWorld(s), events).value;
    RegistryFromGenesis(s, seams, events);
    Failures.LiveEdgesStay(w, tx);
    Failures.FailedTxPostState(seams, b, w, tx);
  }

  /** From genesis, over every run, no `submitEffect` transaction commits; and with an interpreter that is a function of
      its inputs every juror of every case submitted the committed ops to the letter. */
  lemma EffectsFromGenesis(s: Seed, seams: Seams, events: seq<Event>, e: Event)
    requires Run(seams, GenesisWorld(s), events).Some?
    ensures var r := Run(seams, GenesisWorld(s), events).value;
      && (e.Tx? && e.tx.kind.SubmitEffect? ==> !Commits(seams, r, e))
      && (EffectQuorum.JurorBlind(seams) ==> EffectQuorum.AllUnanimous(r))
  {
    hide GenesisWorld, Run, Commits, EffectQuorum.JurorBlind, EffectQuorum.AllUnanimous;
    var w := GenesisWorld(s);
    var r := Run(seams, w, events).value;
    GenesisIsOk(s, seams);
    RegistryFromGenesis(s, seams, events);
    if e.Tx? && e.tx.kind.SubmitEffect? { EffectQuorum.NoSubmissionCommits(seams, r, e); }
    if EffectQuorum.JurorBlind(seams) { EffectQuorum.UnanimousOverARun(seams, w, events); }
  }

  /** From genesis, over every run, a human once revoked emits again only by a passport proof of its own, after
      registering anew. */
  lemma RevokedFromGenesis(s: Seed, seams: Seams, events: seq<Event>, i: nat, j: nat, a: Address)
    requires i <= j < |events| && Run(seams, GenesisWorld(s), events).Some?
    requires Lifecycle.StatusOf(Before(seams, GenesisWorld(s), events, i).humanity, a) == Revoked
    requires !Emits(Lifecycle.StatusOf(Before(seams, GenesisWorld(s), events, j).humanity, a))
    requires Emits(Lifecycle.StatusOf(Before(seams, GenesisWorld(s), events, j + 1).humanity, a))
    ensures events[j].Tx? && events[j].tx.kind.SubmitZkPassportProof? && events[j].tx.from == a
    ensures Lifecycle.StatusOf(Before(seams, GenesisWorld(s), events, j).humanity, a) != Revoked
  {
    hide GenesisWorld, Run, Before, Emits, HumansOk;
    GenesisIsOk(s, seams);
    Upheld.RevokedReturnsByPassportOnly(seams, GenesisWorld(s), events, i, j, a);
  }

  /** From genesis, over every run in time order: the supply is exactly the emission that reached the accounts and
      the treasury's own fees, less what revocations destroyed. */
  lemma SupplyFromGenesis(s: Seed, seams: Seams, events: seq<Event>)
    requires InOrder(events, s.time) && Run(seams, GenesisWorld(s), events).Some?
    requires Issued(seams, GenesisWorld(s), events, s.time) <= U128_MAX
    ensures var w := GenesisWorld(s); var r := Run(seams, w, events).value;
      && WorldOk(r)
      && Supply(r.ledger, LastTime(events, s.time))
           == Emitted(seams, w, events, s.time) + AllMinted(seams, w, events) - AllBurned(seams, w, events)
      && Supply(r.ledger, LastTime(events, s.time)) <= Issued(seams, w, events, s.time)
  {
    hide GenesisWorld, Run, WorldOk, Supply;
    GenesisIsOk(s, seams);
    SupplyOverARun(seams, GenesisWorld(s), events, s.time);
  }

  /** From genesis, over every run that no escrow signs: every escrow is backed and no escrow is a human. */
  lemma EscrowsFromGenesis(s: Seed, seams: Seams, events: seq<Event>)
    requires NoEscrowSigns(events) && (forall a :: a in s.founders ==> !IsEscrow(a))
    requires Run(seams, GenesisWorld(s), events).Some?
    ensures var r := Run(seams, GenesisWorld(s), events).value;
      EscrowBacked(r) && Lockstep.NoEscrowRegistered(r.humanity) && Lockstep.NoEscrowHumans(r)
  {
    hide GenesisWorld, Run, EscrowBacked, IsEscrow, RegistryOk;
    var w := GenesisWorld(s);
    GenesisIsOk(s, seams);
    BackedOverARun(seams, w, events);
    Lockstep.NoEscrowEverRegisters(seams, w, events);
    HumansOverARun(seams, w, events);
    Lockstep.UnregisteredDoNotEmit(Run(seams, w, events).value);
  }

  /** So from any point of such a run to any later one, record and account of an escrow drift apart by exactly what is
      paid to it unrecorded and what streams pay it in between. */
  lemma LockstepFromGenesis(s: Seed, seams: Seams, events: seq<Event>, more: seq<Event>, id: u64)
    requires NoEscrowSigns(events) && NoEscrowSigns(more) && (forall a :: a in s.founders ==> !IsEscrow(a))
    requires InOrder(events, s.time) && Run(seams, GenesisWorld(s), events).Some?
    requires Issued(seams, GenesisWorld(s), events, s.time) <= U128_MAX
    requires var w, t := Run(seams, GenesisWorld(s), events).value, LastTime(events, s.time);
      && id < |w.contracts.contracts| && InOrder(more, t) && Run(seams, w, more).Some?
      && Supply(w.ledger, t) + Issued(seams, w, more, t) < U128_MAX
    ensures var w, t := Run(seams, GenesisWorld(s), events).value, LastTime(events, s.time);
      var r, end, e := Run(seams, w, more).value, LastTime(more, t), ContractAddress(id);
      && id < |r.contracts.contracts|
      && Lockstep.Slack(r, id, end) == Lockstep.Slack(w, id, t)
           + Lockstep.AllUnrecorded(seams, w, more, e) + Lockstep.AllStreamed(seams, w, more, t, e)
      && (Lockstep.Slack(r, id, end) == Lockstep.Slack(w, id, t) <==>
            Lockstep.AllUnrecorded(seams, w, more, e) == 0 && Lockstep.AllStreamed(seams, w, more, t, e) == 0)
  {
    hide GenesisWorld, Run, Supply, EscrowBacked, IsEscrow, WorldOk, Lockstep.Slack, Lockstep.AllUnrecorded,
         Lockstep.AllStreamed, Issued, Lockstep.NoEscrowHumans, Lockstep.NoEscrowRegistered, NoEscrowSigns;
    SupplyFromGenesis(s, seams, events);
    EscrowsFromGenesis(s, seams, events);
    Lockstep.SlackOverARun(seams, Run(seams, GenesisWorld(s), events).value, more, LastTime(events, s.time), id);
  }
}
