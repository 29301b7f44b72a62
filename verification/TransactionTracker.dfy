/** How src/queue/tracker.rs reads the chain: what a transaction's receipt means. */
module TransactionTracker {
  import opened Wrappers

  datatype Receipt = Receipt(status: Option<nat>, blockNumber: Option<nat>)

  /** What the provider answers: an error, no receipt yet, or a receipt and the current block number,
      which may be missing because of another error. */
  datatype Answer =
    | ProviderError
    | NotMined
    | Mined(receipt: Receipt, head: Option<nat>)

  datatype CheckResult = Unknown | Pending | Processing(confirmations: nat) | Confirmed(confirmations: nat) | Reverted

  function SaturatingSub(a: nat, b: nat): nat {
    if a < b then 0 else a - b
  }

  /** The classification of `check_transaction`; `Unknown` is its error. */
  function Classify(answer: Answer, confirmationBlocks: nat): CheckResult {
    match answer
    case ProviderError => Unknown
    case NotMined => Pending
    case Mined(receipt, head) =>
      if head.None? || receipt.blockNumber.None? then Unknown
      else
        var confirmations := SaturatingSub(head.value, receipt.blockNumber.value);
        if receipt.status != Some(1) then Reverted
        else if confirmations >= confirmationBlocks then Confirmed(confirmations)
        else Processing(confirmations)
  }

  // ----- What an answer says ------------------------------------------------------------------------

  /** There is a receipt, and both its block and the current one are known. */
  predicate BlocksKnown(answer: Answer) {
    answer.Mined? && answer.receipt.blockNumber.Some? && answer.head.Some?
  }

  predicate Succeeded(answer: Answer) {
    answer.Mined? && answer.receipt.status == Some(1)
  }

  /** The receipt's block lies at least this many blocks below the current one. */
  predicate Deep(answer: Answer, confirmationBlocks: nat)
    requires BlocksKnown(answer)
  {
    confirmationBlocks == 0 || answer.receipt.blockNumber.value + confirmationBlocks <= answer.head.value
  }

  /** Every answer is read in exactly one way: a receipt without status 1 is a failure at any depth, and one
      with status 1 is confirmed exactly when its block lies deep enough. */
  lemma ReadExactly(answer: Answer, confirmationBlocks: nat)
    ensures var r := Classify(answer, confirmationBlocks);
            && (r.Pending? <==> answer.NotMined?)
            && (r.Unknown? <==> !answer.NotMined? && !BlocksKnown(answer))
            && (r.Reverted? <==> BlocksKnown(answer) && !Succeeded(answer))
            && (r.Confirmed? <==> BlocksKnown(answer) && Succeeded(answer) && Deep(answer, confirmationBlocks))
            && (r.Processing? <==> BlocksKnown(answer) && Succeeded(answer) && !Deep(answer, confirmationBlocks))
            && (r.Confirmed? || r.Processing? ==>
                  r.confirmations == SaturatingSub(answer.head.value, answer.receipt.blockNumber.value))
  {
  }

  /** Once a receipt counts as confirmed it stays confirmed as the chain grows. */
  lemma StaysConfirmed(receipt: Receipt, head: nat, later: nat, confirmationBlocks: nat)
    requires head <= later && Classify(Mined(receipt, Some(head)), confirmationBlocks).Confirmed?
    ensures Classify(Mined(receipt, Some(later)), confirmationBlocks).Confirmed?
  {
  }
}
