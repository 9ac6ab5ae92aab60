/** `verify_outputs`: every typed output of the CKB transaction must stay in
    custody, either re-sealed to an out-point of the Bitcoin transaction
    under the RGB++ lock or parked behind a valid BTC time-lock. */
module Outputs {
  import opened Base
  import opened Types
  import opened Canon

  /** The RGB++ branch: `Ok(true)` when the lock has the RGB++ code and its
      arguments name a valid seal; a lock with the RGB++ code whose
      arguments do not decode is `BadRGBPPLock`. */
  function RgbppResealed(h: Host, rgbpp: Script, lock: Script, btc: BtcTx): (r: Result<bool, Error>)
    ensures r.Err? <==> SameCode(lock, rgbpp) && h.parseRgbppLock(lock.args).None?
    ensures r.Err? ==> r.error == BadRGBPPLock
    ensures r == Ok(true) <==>
      SameCode(lock, rgbpp) && h.parseRgbppLock(lock.args).Some?
      && h.checkUtxoSeal(h.parseRgbppLock(lock.args).value, btc)
  {
    if SameCode(lock, rgbpp) then
      var args :- OkOr(h.parseRgbppLock(lock.args), BadRGBPPLock);
      Ok(h.checkUtxoSeal(args, btc))
    else Ok(false)
  }

  /** The time-lock branch: `Ok(true)` when the lock is a BTC time-lock whose
      delay condition holds for `MIN_BTC_TIME_LOCK_AFTER`; a time-lock whose
      arguments do not decode is `BadBTCTimeLock`. */
  function TimeLocked(h: Host, cfg: Config, lock: Script, btc: BtcTx): (r: Result<bool, Error>)
    ensures r.Err? <==> IsTimeLock(h, cfg, lock) && h.parseBtcTimeLock(lock.args).None?
    ensures r.Err? ==> r.error == BadBTCTimeLock
    ensures r == Ok(true) <==>
      IsTimeLock(h, cfg, lock) && h.parseBtcTimeLock(lock.args).Some?
      && h.checkBtcTimeLock(h.parseBtcTimeLock(lock.args).value, btc, h.minBtcTimeLockAfter)
  {
    if IsTimeLock(h, cfg, lock) then
      var args :- OkOr(h.parseBtcTimeLock(lock.args), BadBTCTimeLock);
      Ok(h.checkBtcTimeLock(args, btc, h.minBtcTimeLockAfter))
    else Ok(false)
  }

  /** The loop body of `verify_outputs` for one output: acceptance exactly
      for outputs in custody; otherwise it names why, with
      `OutputCellWithUnknownLock` whenever both lock arguments that were
      consulted decoded. */
  function OutputVerdict(h: Host, cfg: Config, rgbpp: Script, o: CellOutput, btc: BtcTx): (r: Result<(), Error>)
    ensures r.Ok? <==> InCustody(h, cfg, rgbpp, o, btc)
    ensures r == Err(BadRGBPPLock) <==>
      o.typ.Some? && SameCode(o.lock, rgbpp) && h.parseRgbppLock(o.lock.args).None?
    ensures r == Err(BadBTCTimeLock) <==>
      && o.typ.Some?
      && RgbppResealed(h, rgbpp, o.lock, btc) == Ok(false)
      && IsTimeLock(h, cfg, o.lock) && h.parseBtcTimeLock(o.lock.args).None?
    ensures r.Err? ==> r.error in {BadRGBPPLock, BadBTCTimeLock, OutputCellWithUnknownLock}
  {
    if o.typ.None? then Ok(())
    else
      var resealed :- RgbppResealed(h, rgbpp, o.lock, btc);
      if resealed then Ok(())
      else
        var timeLocked :- TimeLocked(h, cfg, o.lock, btc);
        if timeLocked then Ok(()) else Err(OutputCellWithUnknownLock)
  }

  /** An output the custody rule admits: untyped, re-sealed under the RGB++
      lock, or (when its RGB++ arguments, if any, decode) behind a valid
      time-lock. */
  predicate InCustody(h: Host, cfg: Config, rgbpp: Script, o: CellOutput, btc: BtcTx) {
    || o.typ.None?
    || RgbppResealed(h, rgbpp, o.lock, btc) == Ok(true)
    || (RgbppResealed(h, rgbpp, o.lock, btc) == Ok(false) && TimeLocked(h, cfg, o.lock, btc) == Ok(true))
  }

  /** An RGB++-coded output whose seal does not hold is not rejected yet: it
      gets the time-lock test like any other lock. */
  lemma FailedSealFallsThrough(h: Host, cfg: Config, rgbpp: Script, o: CellOutput, btc: BtcTx)
    requires o.typ.Some? && SameCode(o.lock, rgbpp)
    requires h.parseRgbppLock(o.lock.args).Some?
    requires !h.checkUtxoSeal(h.parseRgbppLock(o.lock.args).value, btc)
    ensures OutputVerdict(h, cfg, rgbpp, o, btc) ==
      match TimeLocked(h, cfg, o.lock, btc)
      case Ok(b) => if b then Ok(()) else Err(OutputCellWithUnknownLock)
      case Err(e) => Err(e)
  {
  }

  /** The verdict on all outputs: the verdict of the first output that fails,
      or success. */
  function OutputsCheck(h: Host, cfg: Config, rgbpp: Script, outputs: seq<CellOutput>, btc: BtcTx): (r: Result<(), Error>)
    ensures r.Ok? <==> forall i :: 0 <= i < |outputs| ==> OutputVerdict(h, cfg, rgbpp, outputs[i], btc).Ok?
    ensures r.Ok? ==> r == Ok(())
    ensures r.Err? ==>
      exists i :: (0 <= i < |outputs|
                   && OutputVerdict(h, cfg, rgbpp, outputs[i], btc) == r
                   && forall j :: 0 <= j < i ==> OutputVerdict(h, cfg, rgbpp, outputs[j], btc).Ok?)
  {
    if |outputs| == 0 then Ok(())
    else
      var _ :- OutputVerdict(h, cfg, rgbpp, outputs[0], btc);
      OutputsCheck(h, cfg, rgbpp, outputs[1..], btc)
  }

  /** The closed-world guarantee: the outputs pass exactly when every one of
      them is in custody. */
  lemma OutputsCheckIsCustody(h: Host, cfg: Config, rgbpp: Script, outputs: seq<CellOutput>, btc: BtcTx)
    ensures OutputsCheck(h, cfg, rgbpp, outputs, btc).Ok? <==>
      forall i :: 0 <= i < |outputs| ==> InCustody(h, cfg, rgbpp, outputs[i], btc)
  {
  }

  /** A typed output that is neither re-sealed nor validly time-locked is
      reported as `OutputCellWithUnknownLock` when it is the first failure
      and its lock arguments decode. */
  lemma FirstUnknownLockIsReported(h: Host, cfg: Config, rgbpp: Script, outputs: seq<CellOutput>, btc: BtcTx, k: nat)
    requires k < |outputs|
    requires forall j :: 0 <= j < k ==> InCustody(h, cfg, rgbpp, outputs[j], btc)
    requires !InCustody(h, cfg, rgbpp, outputs[k], btc)
    requires RgbppResealed(h, rgbpp, outputs[k].lock, btc).Ok?
    requires TimeLocked(h, cfg, outputs[k].lock, btc).Ok?
    ensures OutputsCheck(h, cfg, rgbpp, outputs, btc) == Err(OutputCellWithUnknownLock)
  {
  }

  /** `verify_outputs` as the source writes it: a loop over the outputs that
      skips untyped cells and returns at the first output out of custody. */
  method VerifyOutputs(h: Host, cfg: Config, rgbpp: Script, tx: CkbTx, btc: BtcTx) returns (r: Result<(), Error>)
    ensures r == OutputsCheck(h, cfg, rgbpp, tx.outputs, btc)
  {
    var index := 0;
    while index < |tx.outputs|
      invariant 0 <= index <= |tx.outputs|
      invariant forall j :: 0 <= j < index ==> OutputVerdict(h, cfg, rgbpp, tx.outputs[j], btc).Ok?
    {
      var output := tx.outputs[index];
      if output.typ.None? {
        index := index + 1;
        continue;
      }
      var resealed := RgbppResealed(h, rgbpp, output.lock, btc);
      if resealed.Err? {
        return Err(resealed.error);
      }
      if resealed.value {
        index := index + 1;
        continue;
      }
      var timeLocked := TimeLocked(h, cfg, output.lock, btc);
      if timeLocked.Err? {
        return Err(timeLocked.error);
      }
      if timeLocked.value {
        index := index + 1;
        continue;
      }
      return Err(OutputCellWithUnknownLock);
    }
    return Ok(());
  }
}
