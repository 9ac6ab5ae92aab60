/** The UTXO seal match of `verify_unlock`: the Bitcoin out-point the cell is
    sealed to must be spent by one of the Bitcoin transaction's inputs. */
module Seal {
  import opened Base
  import opened Types

  /** The out-point an RGB++ lock is sealed to: `(btc_txid, out_index)`. */
  function SealedOutPoint(args: RgbppLock): BtcOutPoint {
    BtcOutPoint(args.btcTxid, args.outIndex)
  }

  /** `inputs.iter().any(|txin| txin.previous_output == op)`, scanning from
      the first input. */
  function AnySpends(inputs: seq<BtcTxIn>, op: BtcOutPoint): (r: bool)
    ensures r <==> exists i :: 0 <= i < |inputs| && inputs[i].previousOutput == op
  {
    if |inputs| == 0 then false
    else if inputs[0].previousOutput == op then true
    else AnySpends(inputs[1..], op)
  }

  /** Whether the Bitcoin transaction spends the cell's sealed out-point. */
  function IsSealed(args: RgbppLock, btc: BtcTx): (r: bool)
    ensures r <==> BtcTxIn(SealedOutPoint(args)) in btc.inputs
  {
    AnySpends(btc.inputs, SealedOutPoint(args))
  }

  /** Only membership matters: two input lists with the same elements, in
      any order and with any repetition, give the same outcome. */
  lemma SealIgnoresOrder(args: RgbppLock, a: BtcTx, b: BtcTx)
    requires forall x :: x in a.inputs <==> x in b.inputs
    ensures IsSealed(args, a) == IsSealed(args, b)
  {
  }

  /** Adding an input that spends some other out-point does not change the
      outcome. */
  lemma SealIgnoresUnrelatedInput(args: RgbppLock, btc: BtcTx, extra: BtcTxIn, k: nat)
    requires k <= |btc.inputs|
    requires extra.previousOutput != SealedOutPoint(args)
    ensures IsSealed(args, btc.(inputs := btc.inputs[..k] + [extra] + btc.inputs[k..])) == IsSealed(args, btc)
  {
  }
}
