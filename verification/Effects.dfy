/** The canonical effect language of prompt contracts (crates/runtime/src/contracts.rs). */
module Effects {
  import opened Base

  datatype Op =
    | Transfer(to: Address, amount: u128)
    | Refund(party: Address, refund: u128)
    | OpenStream(recipient: Address, rate: u128, deposit: u128)
    | StopStream(id: u64)
    | SetVar(key: Hash, value: Hash)
    | Abort(reason: Hash)

  /** A pure decision to abort. */
  predicate IsAbort(ops: seq<Op>) { |ops| == 1 && ops[0].Abort? }
}
