/** The encrypted holder vault and the browser store that keeps one of them
    (packages/sdk/src/credential-vault.ts and credential-vault-indexeddb.ts). Ciphertexts, ids and digests are
    numbers; a transaction of the store is one atomic step. */
module VaultStore {
  import opened Base

  datatype Slot = Slot(credentialId: nat, wrappedKey: nat)

  datatype Binding = Binding(schema: nat, rpId: nat)

  datatype Vault = Vault(vaultId: nat, binding: Binding, keySlots: seq<Slot>, payload: nat)

  datatype Record = Record(vault: Vault, revision: nat)

  /** The vault id and binding that a store object was opened with. */
  datatype Bound = Bound(vaultId: nat, binding: Binding)

  datatype StoreError = NotBound | RevisionExhausted

  const MAX_KEY_SLOTS: nat := 16
  const MAX_SAFE_INTEGER: nat := 0x1F_FFFF_FFFF_FFFF

  predicate DistinctCredentials(slots: seq<Slot>) {
    forall i, j :: 0 <= i < j < |slots| ==> slots[i].credentialId != slots[j].credentialId
  }

  predicate WellFormed(v: Vault) { 1 <= |v.keySlots| <= MAX_KEY_SLOTS && DistinctCredentials(v.keySlots) }

  /** The check a store object makes of every vault it reads or writes. */
  predicate Fits(b: Bound, v: Vault) { WellFormed(v) && v.vaultId == b.vaultId && v.binding == b.binding }

  // ---------------------------------------------------------------- deriving a replacement

  datatype Change = AddSlot(slot: Slot) | SetPayload(payload: nat)

  function AppendKeySlot(v: Vault, slot: Slot): Option<Vault> {
    if |v.keySlots| >= MAX_KEY_SLOTS then None
    else if exists i :: 0 <= i < |v.keySlots| && v.keySlots[i].credentialId == slot.credentialId then None
    else Some(v.(keySlots := v.keySlots + [slot]))
  }

  function Apply(c: Change, v: Vault): Option<Vault> {
    match c
    case AddSlot(slot) => AppendKeySlot(v, slot)
    case SetPayload(payload) => Some(v.(payload := payload))
  }

  // ---------------------------------------------------------------- the store's transactions

  /** The cell after a transaction, and its answer. */
  datatype Written = Written(cell: Option<Record>, answer: Result<bool, StoreError>)

  function InitializeCell(b: Bound, cell: Option<Record>, vault: Vault): Written {
    if !Fits(b, vault) then Written(cell, Err(NotBound))
    else if cell.Some? then Written(cell, Ok(false))
    else Written(Some(Record(vault, 1)), Ok(true))
  }

  type Digest = Vault -> nat

  /** First half of a compare-and-swap: what it sees, if the digest is the expected one. */
  function ObserveCell(b: Bound, cell: Option<Record>, digest: Digest, expected: nat, replacement: Vault)
    : Result<Option<Record>, StoreError>
  {
    if !Fits(b, replacement) then Err(NotBound)
    else if cell.None? then Ok(None)
    else if !Fits(b, cell.value.vault) then Err(NotBound)
    else if digest(cell.value.vault) != expected then Ok(None)
    else Ok(cell)
  }

  /** Second half: writes if the revision is still the one seen. */
  function CommitCell(b: Bound, cell: Option<Record>, observed: Record, replacement: Vault): Written {
    if cell.None? then Written(cell, Ok(false))
    else if !Fits(b, cell.value.vault) then Written(cell, Err(NotBound))
    else if cell.value.revision != observed.revision then Written(cell, Ok(false))
    else if cell.value.revision == MAX_SAFE_INTEGER then Written(cell, Err(RevisionExhausted))
    else Written(Some(Record(replacement, cell.value.revision + 1)), Ok(true))
  }

  /** What the two halves stand for: an atomic compare-and-swap by content digest. */
  function ContentCas(cell: Option<Record>, digest: Digest, expected: nat, replacement: Vault): Written {
    if cell.None? || digest(cell.value.vault) != expected then Written(cell, Ok(false))
    else Written(Some(Record(replacement, cell.value.revision + 1)), Ok(true))
  }

  /** The database that the store objects of all tabs share. */
  class Database {
    var cell: Option<Record>

    constructor ()
      ensures cell == None
    {
      cell := None;
    }

    method Initialize(b: Bound, vault: Vault) returns (answer: Result<bool, StoreError>)
      modifies this
      ensures Written(cell, answer) == InitializeCell(b, old(cell), vault)
      ensures old(cell).Some? ==> cell == old(cell)
    {
      if !Fits(b, vault) { return Err(NotBound); }
      if cell.Some? { return Ok(false); }
      cell := Some(Record(vault, 1));
      return Ok(true);
    }

    /** A record is seen if and only if there is one, bound as the store is, with the expected digest, and the
        replacement is bound too; an unbound vault on either side is an error, never an overwrite. */
    method Observe(b: Bound, digest: Digest, expected: nat, replacement: Vault)
      returns (seen: Result<Option<Record>, StoreError>)
      ensures seen.Ok? && seen.value.Some? <==>
        Fits(b, replacement) && cell.Some? && Fits(b, cell.value.vault) && digest(cell.value.vault) == expected
      ensures seen.Ok? && seen.value.Some? ==> seen.value == cell
      ensures seen == Err(NotBound) <==> !Fits(b, replacement) || (cell.Some? && !Fits(b, cell.value.vault))
      ensures seen == ObserveCell(b, cell, digest, expected, replacement)
    {
      if !Fits(b, replacement) { return Err(NotBound); }
      if cell.None? { return Ok(None); }
      if !Fits(b, cell.value.vault) { return Err(NotBound); }
      if digest(cell.value.vault) != expected { return Ok(None); }
      return Ok(cell);
    }

    method Commit(b: Bound, observed: Record, replacement: Vault) returns (answer: Result<bool, StoreError>)
      modifies this
      ensures Written(cell, answer) == CommitCell(b, old(cell), observed, replacement)
      ensures answer != Ok(true) ==> cell == old(cell)
    {
      if cell.None? { return Ok(false); }
      var current := cell.value;
      if !Fits(b, current.vault) { return Err(NotBound); }
      if current.revision != observed.revision { return Ok(false); }
      if current.revision == MAX_SAFE_INTEGER { return Err(RevisionExhausted); }
      cell := Some(Record(replacement, current.revision + 1));
      return Ok(true);
    }
  }
}
