/** Locating the `RGBPPUnlock` witness: normally in the lock field of the
    group's first input witness, or, when that field is exactly four bytes,
    in the witness of the transaction input that those bytes index. */
module Unlock {
  import opened Base
  import opened Types

  /** The witness sources the lock reads from: `Source::GroupInput` and
      `Source::Input`. */
  datatype Source = GroupInput | TxInput

  /** `load_witness_args(index, source)`: a group index is first mapped to
      its transaction input; a missing witness is `IndexOutOfBound`, one that
      does not decode as `WitnessArgs` is `Encoding`. */
  function LoadWitnessArgs(ctx: Context, index: nat, source: Source): (r: Result<WitnessArgs, Error>)
    ensures r.Ok? <==> exists i :: WitnessIndex(ctx, index, source) == Some(i) && ctx.tx.witnesses[i].Some?
    ensures r.Ok? ==> Some(r.value) == ctx.tx.witnesses[WitnessIndex(ctx, index, source).value]
    ensures WitnessIndex(ctx, index, source).None? ==> r == Err(IndexOutOfBound)
    ensures WitnessIndex(ctx, index, source).Some? && ctx.tx.witnesses[WitnessIndex(ctx, index, source).value].None? ==>
      r == Err(Encoding)
  {
    match WitnessIndex(ctx, index, source)
    case None => Err(IndexOutOfBound)
    case Some(i) => OkOr(ctx.tx.witnesses[i], Encoding)
  }

  /** The position in the witness list that `(index, source)` designates, if
      there is a witness there. */
  function WitnessIndex(ctx: Context, index: nat, source: Source): (r: Option<nat>)
    ensures r.Some? ==> r.value < |ctx.tx.witnesses|
    ensures source == TxInput ==> r == if index < |ctx.tx.witnesses| then Some(index) else None
    ensures source == GroupInput ==>
      (r.Some? <==> index < |ctx.groupInputs| && ctx.groupInputs[index] < |ctx.tx.witnesses|)
    ensures source == GroupInput && r.Some? ==> r.value == ctx.groupInputs[index]
  {
    var i := if source == GroupInput then
               (if index < |ctx.groupInputs| then Some(ctx.groupInputs[index]) else None)
             else Some(index);
    if i.Some? && i.value < |ctx.tx.witnesses| then i else None
  }

  /** `load_unlock(index, Source::Input)`: the lock field of the input's witness,
      decoded as `RGBPPUnlock`; never followed further. */
  function LoadUnlock(h: Host, ctx: Context, index: nat): (r: Result<RgbppUnlock, Error>)
    ensures r.Ok? <==>
      && LoadWitnessArgs(ctx, index, TxInput).Ok?
      && LoadWitnessArgs(ctx, index, TxInput).value.lock.Some?
      && h.parseUnlock(LoadWitnessArgs(ctx, index, TxInput).value.lock.value).Some?
    ensures r.Ok? ==> Some(r.value) == h.parseUnlock(LoadWitnessArgs(ctx, index, TxInput).value.lock.value)
    ensures LoadWitnessArgs(ctx, index, TxInput).Err? ==> r == Err(LoadWitnessArgs(ctx, index, TxInput).error)
    ensures r.Err? && LoadWitnessArgs(ctx, index, TxInput).Ok? ==>
      r.error == if LoadWitnessArgs(ctx, index, TxInput).value.lock.None? then ItemMissing else BadRGBPPUnlock
  {
    var w :- LoadWitnessArgs(ctx, index, TxInput);
    match w.lock
    case Some(args) => OkOr(h.parseUnlock(args), BadRGBPPUnlock)
    case None => Err(ItemMissing)
  }

  /** `fetch_unlock_from_witness`: read group input 0's lock field; a 4-byte
      field is a little-endian `u32` index into the transaction inputs'
      witnesses, anything else is the unlock itself. */
  function FetchUnlock(h: Host, ctx: Context): (r: Result<RgbppUnlock, Error>)
    ensures LoadWitnessArgs(ctx, 0, GroupInput).Err? ==> r == Err(LoadWitnessArgs(ctx, 0, GroupInput).error)
    ensures LoadWitnessArgs(ctx, 0, GroupInput).Ok? && GroupLock(ctx).None? ==> r == Err(ItemMissing)
    ensures GroupLock(ctx).Some? && |GroupLock(ctx).value| == 4 ==>
      r == LoadUnlock(h, ctx, FromLe(GroupLock(ctx).value))
    ensures GroupLock(ctx).Some? && |GroupLock(ctx).value| != 4 ==>
      r == OkOr(h.parseUnlock(GroupLock(ctx).value), BadRGBPPUnlock)
  {
    var w :- LoadWitnessArgs(ctx, 0, GroupInput);
    match w.lock
    case Some(args) =>
      if |args| == 4 then LoadUnlock(h, ctx, U32FromLe(args))
      else OkOr(h.parseUnlock(args), BadRGBPPUnlock)
    case None => Err(ItemMissing)
  }

  /** The lock field of group input 0's witness, when that witness loads. */
  function GroupLock(ctx: Context): Option<Bytes> {
    var w := LoadWitnessArgs(ctx, 0, GroupInput);
    if w.Ok? then w.value.lock else None
  }

  /** Redirection: a group lock field holding the four little-endian bytes
      of `i` loads the unlock of transaction input `i`. */
  lemma RedirectReadsEncodedIndex(h: Host, ctx: Context, i: u32)
    requires GroupLock(ctx) == Some(Le32(i))
    ensures FetchUnlock(h, ctx) == LoadUnlock(h, ctx, i)
  {
    Le32RoundTrip(i);
  }

  /** One hop only: the redirect target's lock field is decoded as an
      unlock whatever its length, four bytes included; it is never followed. */
  lemma RedirectIsOneHop(h: Host, ctx: Context, i: u32)
    requires GroupLock(ctx) == Some(Le32(i))
    requires LoadWitnessArgs(ctx, i, TxInput).Ok?
    requires LoadWitnessArgs(ctx, i, TxInput).value.lock.Some?
    ensures FetchUnlock(h, ctx) ==
      OkOr(h.parseUnlock(LoadWitnessArgs(ctx, i, TxInput).value.lock.value), BadRGBPPUnlock)
  {
    RedirectReadsEncodedIndex(h, ctx, i);
  }

  /** A group lock field of any length but four is decoded in place: the
      outcome does not depend on any other witness. */
  lemma DirectUnlockReadsNoOtherWitness(h: Host, a: Context, b: Context)
    requires GroupLock(a).Some? && |GroupLock(a).value| != 4
    requires GroupLock(a) == GroupLock(b)
    ensures FetchUnlock(h, a) == FetchUnlock(h, b)
  {
  }
}
