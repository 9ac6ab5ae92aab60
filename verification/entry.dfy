/** `verify_unlock`, `main` and `program_entry`: the order of the checks and
    the exit status. */
module Entry {
  import opened Base
  import opened Types
  import opened Canon
  import opened Seal
  import opened Commitment
  import opened Unlock
  import opened Outputs

  /** `verify_unlock`: the seal match, then the light client, then the
      commitment; the first failure is the result. */
  function VerifyUnlock(h: Host, cfg: Config, lockArgs: RgbppLock, unlock: RgbppUnlock, btc: BtcTx, ctx: Context)
    : (r: Result<(), Error>)
    ensures !IsSealed(lockArgs, btc) ==> r == Err(UtxoSealMismatch)
    ensures IsSealed(lockArgs, btc) && h.checkBtcTxExists(cfg.btcLcTypeHash, btc.txid, 0, unlock.btcTxProof).Err? ==>
      r == h.checkBtcTxExists(cfg.btcLcTypeHash, btc.txid, 0, unlock.btcTxProof)
    ensures IsSealed(lockArgs, btc) && h.checkBtcTxExists(cfg.btcLcTypeHash, btc.txid, 0, unlock.btcTxProof).Ok? ==>
      r == CheckBtcTxCommitment(h, cfg, ctx.script, btc, ctx.tx, unlock)
    ensures r.Ok? <==>
      && BtcTxIn(SealedOutPoint(lockArgs)) in btc.inputs
      && h.checkBtcTxExists(cfg.btcLcTypeHash, btc.txid, 0, unlock.btcTxProof).Ok?
      && CheckBtcTxCommitment(h, cfg, ctx.script, btc, ctx.tx, unlock).Ok?
  {
    if !IsSealed(lockArgs, btc) then Err(UtxoSealMismatch)
    else
      var _ :- h.checkBtcTxExists(cfg.btcLcTypeHash, btc.txid, 0, unlock.btcTxProof);
      CheckBtcTxCommitment(h, cfg, ctx.script, btc, ctx.tx, unlock)
  }

  /** `UtxoSealMismatch` reports exactly a missing seal, provided the light
      client never reports that error itself (the commitment check never
      does). */
  lemma SealMismatchIffNotSealed(h: Host, cfg: Config, lockArgs: RgbppLock, unlock: RgbppUnlock, btc: BtcTx, ctx: Context)
    requires h.checkBtcTxExists(cfg.btcLcTypeHash, btc.txid, 0, unlock.btcTxProof) != Err(UtxoSealMismatch)
    ensures VerifyUnlock(h, cfg, lockArgs, unlock, btc, ctx) == Err(UtxoSealMismatch)
            <==> !(exists i :: 0 <= i < |btc.inputs| && btc.inputs[i].previousOutput == SealedOutPoint(lockArgs))
  {
  }

  /** What the lock reads before verifying: its own arguments, the
      configuration, the unlock witness and the parsed Bitcoin transaction. */
  datatype Loaded = Loaded(lockArgs: RgbppLock, cfg: Config, unlock: RgbppUnlock, btc: BtcTx)

  /** The loading steps of `main`, in order: own lock arguments
      (`BadRGBPPLock`), configuration, unlock witness, Bitcoin transaction. */
  function Load(h: Host, ctx: Context): (r: Result<Loaded, Error>)
    ensures h.parseRgbppLock(ctx.script.args).None? ==> r == Err(BadRGBPPLock)
    ensures h.parseRgbppLock(ctx.script.args).Some? && h.loadConfig(ctx.tx).Err? ==>
      r == Err(h.loadConfig(ctx.tx).error)
    ensures h.parseRgbppLock(ctx.script.args).Some? && h.loadConfig(ctx.tx).Ok? && FetchUnlock(h, ctx).Err? ==>
      r == Err(FetchUnlock(h, ctx).error)
    ensures h.parseRgbppLock(ctx.script.args).Some? && h.loadConfig(ctx.tx).Ok? && FetchUnlock(h, ctx).Ok? ==>
      r == match h.parseBtcTx(FetchUnlock(h, ctx).value.btcTx)
           case Err(e) => Err(e)
           case Ok(btc) =>
             Ok(Loaded(h.parseRgbppLock(ctx.script.args).value, h.loadConfig(ctx.tx).value,
                       FetchUnlock(h, ctx).value, btc))
  {
    var lockArgs :- OkOr(h.parseRgbppLock(ctx.script.args), BadRGBPPLock);
    var cfg :- h.loadConfig(ctx.tx);
    var unlock :- FetchUnlock(h, ctx);
    var btc :- h.parseBtcTx(unlock.btcTx);
    Ok(Loaded(lockArgs, cfg, unlock, btc))
  }

  /** `main`: load, then `verify_unlock`, then `verify_outputs`, stopping at
      the first failure. */
  function Main(h: Host, ctx: Context): (r: Result<(), Error>)
    ensures Load(h, ctx).Err? ==> r == Err(Load(h, ctx).error)
    ensures Load(h, ctx).Ok? ==>
      var l := Load(h, ctx).value;
      r == match VerifyUnlock(h, l.cfg, l.lockArgs, l.unlock, l.btc, ctx)
           case Err(e) => Err(e)
           case Ok(_) => OutputsCheck(h, l.cfg, ctx.script, ctx.tx.outputs, l.btc)
  {
    var l :- Load(h, ctx);
    var _ :- VerifyUnlock(h, l.cfg, l.lockArgs, l.unlock, l.btc, ctx);
    OutputsCheck(h, l.cfg, ctx.script, ctx.tx.outputs, l.btc)
  }

  /** `program_entry`: 0 on success, the error's `i8` discriminant otherwise. */
  function ProgramEntry(h: Host, ctx: Context): (code: i8)
    ensures Main(h, ctx).Ok? ==> code == 0
    ensures Main(h, ctx).Err? ==> code == h.errorCode(Main(h, ctx).error)
  {
    match Main(h, ctx)
    case Ok(_) => 0
    case Err(e) => h.errorCode(e)
  }

  /** The custody conditions a spend must meet, stated without the order in
      which they are checked: the sealed out-point is spent by the Bitcoin
      transaction, the light client accepts it, the commitment header is
      version 0 with nonzero lengths, nothing typed lies outside the
      committed prefix, the digest of the committed prefix is the one the
      Bitcoin transaction carries, and every output is in custody. */
  predicate Authorised(h: Host, ctx: Context, l: Loaded) {
    var u := l.unlock;
    var pre := Preimage(h, l.cfg, ctx.script, ctx.tx, u);
    && BtcTxIn(SealedOutPoint(l.lockArgs)) in l.btc.inputs
    && h.checkBtcTxExists(l.cfg.btcLcTypeHash, l.btc.txid, 0, u.btcTxProof).Ok?
    && u.version == 0
    && u.extraData.inputLen > 0
    && u.extraData.outputLen > 0
    && (forall i :: u.extraData.inputLen <= i < |ctx.tx.inputs| ==> ctx.tx.inputs[i].typeHash.None?)
    && (forall i :: u.extraData.outputLen <= i < |ctx.tx.outputs| ==> ctx.tx.outputs[i].typ.None?)
    && pre.Ok?
    && h.extractCommitment(l.btc) == Some(Digest(h, pre.value))
    && (forall i :: 0 <= i < |ctx.tx.outputs| ==> InCustody(h, l.cfg, ctx.script, ctx.tx.outputs[i], l.btc))
  }

  /** Soundness and completeness of `main`: it succeeds exactly when the
      loading steps succeed and the spend meets every custody condition. */
  lemma MainAcceptsExactlyAuthorised(h: Host, ctx: Context)
    ensures Main(h, ctx).Ok? <==> Load(h, ctx).Ok? && Authorised(h, ctx, Load(h, ctx).value)
  {
  }

  /** A missing seal stops `main` with `UtxoSealMismatch` before the light
      client, the commitment and the outputs are looked at. */
  lemma SealCheckedFirst(h: Host, ctx: Context)
    requires Load(h, ctx).Ok?
    requires BtcTxIn(SealedOutPoint(Load(h, ctx).value.lockArgs)) !in Load(h, ctx).value.btc.inputs
    ensures Main(h, ctx) == Err(UtxoSealMismatch)
  {
  }

  /** With the seal present and the light client satisfied, a commitment of
      an unknown version fails with `UnknownCommitmentVersion`, whatever
      the outputs are. */
  lemma UnknownVersionRejected(h: Host, ctx: Context)
    requires Load(h, ctx).Ok?
    requires var l := Load(h, ctx).value;
      && IsSealed(l.lockArgs, l.btc)
      && h.checkBtcTxExists(l.cfg.btcLcTypeHash, l.btc.txid, 0, l.unlock.btcTxProof).Ok?
      && h.extractCommitment(l.btc).Some?
      && l.unlock.version != 0
    ensures Main(h, ctx) == Err(UnknownCommitmentVersion)
  {
  }

  /** Once the unlock is verified, the result is that of the outputs check:
      a typed output out of custody whose lock arguments decode fails the
      spend with `OutputCellWithUnknownLock`, when it is the first such. */
  lemma UnknownOutputLockRejected(h: Host, ctx: Context, k: nat)
    requires Load(h, ctx).Ok?
    requires var l := Load(h, ctx).value;
      VerifyUnlock(h, l.cfg, l.lockArgs, l.unlock, l.btc, ctx).Ok?
    requires k < |ctx.tx.outputs|
    requires var l := Load(h, ctx).value;
      && (forall j :: 0 <= j < k ==> InCustody(h, l.cfg, ctx.script, ctx.tx.outputs[j], l.btc))
      && !InCustody(h, l.cfg, ctx.script, ctx.tx.outputs[k], l.btc)
      && RgbppResealed(h, ctx.script, ctx.tx.outputs[k].lock, l.btc).Ok?
      && TimeLocked(h, l.cfg, ctx.tx.outputs[k].lock, l.btc).Ok?
    ensures Main(h, ctx) == Err(OutputCellWithUnknownLock)
  {
  }

  /** The exit status is 0 exactly when the spend is accepted, given that
      every error kind has a nonzero discriminant. */
  lemma ExitStatusZeroIffAccepted(h: Host, ctx: Context)
    requires forall e :: h.errorCode(e) != 0
    ensures ProgramEntry(h, ctx) == 0 <==> Main(h, ctx).Ok?
  {
  }
}
