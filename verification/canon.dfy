/** Lock canonicalisation for the commitment: the Bitcoin txid recorded in an
    RGB++ lock or a BTC time-lock is only known after the Bitcoin
    transaction is built, so it is zeroed before the output is hashed. */
module Canon {
  import opened Base
  import opened Types

  /** `is_script_code_equal`: same code, whatever the arguments. */
  predicate SameCode(a: Script, b: Script) {
    a.codeHash == b.codeHash && a.hashType == b.hashType
  }

  /** `is_btc_time_lock(config, lock)`. */
  predicate IsTimeLock(h: Host, cfg: Config, lock: Script) {
    h.isBtcTimeLock(cfg, lock.codeHash, lock.hashType)
  }

  /** The lock an output is hashed with: a BTC time-lock (tested first) or a
      lock with the RGB++ code gets its arguments decoded, their `btc_txid`
      set to zero, and re-encoded; any other lock is kept as it is. */
  function NormaliseLock(h: Host, cfg: Config, rgbpp: Script, lock: Script): (r: Result<Script, Error>)
    ensures r.Ok? ==> SameCode(r.value, lock)
    ensures !IsTimeLock(h, cfg, lock) && !SameCode(rgbpp, lock) ==> r == Ok(lock)
    ensures r.Err? <==>
      if IsTimeLock(h, cfg, lock) then h.parseBtcTimeLock(lock.args).None?
      else SameCode(rgbpp, lock) && h.parseRgbppLock(lock.args).None?
    ensures r.Err? ==> r.error == if IsTimeLock(h, cfg, lock) then BadBTCTimeLock else BadRGBPPLock
  {
    if IsTimeLock(h, cfg, lock) then
      var args :- OkOr(h.parseBtcTimeLock(lock.args), BadBTCTimeLock);
      Ok(lock.(args := h.encodeBtcTimeLock(args.(btcTxid := ZeroHash))))
    else if SameCode(rgbpp, lock) then
      var args :- OkOr(h.parseRgbppLock(lock.args), BadRGBPPLock);
      Ok(lock.(args := h.encodeRgbppLock(args.(btcTxid := ZeroHash))))
    else
      Ok(lock)
  }

  /** The output rebuilt with its lock normalised; capacity and type script
      are kept. */
  function NormaliseOutput(h: Host, cfg: Config, rgbpp: Script, o: CellOutput): (r: Result<CellOutput, Error>)
    ensures r.Ok? ==> r.value.capacity == o.capacity && r.value.typ == o.typ
    ensures r.Ok? <==> NormaliseLock(h, cfg, rgbpp, o.lock).Ok?
    ensures r.Ok? ==> r.value.lock == NormaliseLock(h, cfg, rgbpp, o.lock).value
    ensures r.Err? ==> r.error == NormaliseLock(h, cfg, rgbpp, o.lock).error
  {
    var lock :- NormaliseLock(h, cfg, rgbpp, o.lock);
    Ok(o.(lock := lock))
  }

  /** Two locks that may differ only in the embedded `btc_txid`: same code,
      and either the same arguments or arguments that decode (as the
      structure the lock's code selects) to values equal up to `btc_txid`. */
  predicate LockEqualUpToTxid(h: Host, cfg: Config, rgbpp: Script, a: Script, b: Script) {
    && SameCode(a, b)
    && (|| a == b
        || (IsTimeLock(h, cfg, a)
            && h.parseBtcTimeLock(a.args).Some? && h.parseBtcTimeLock(b.args).Some?
            && h.parseBtcTimeLock(a.args).value.(btcTxid := ZeroHash)
               == h.parseBtcTimeLock(b.args).value.(btcTxid := ZeroHash))
        || (!IsTimeLock(h, cfg, a) && SameCode(rgbpp, a)
            && h.parseRgbppLock(a.args).Some? && h.parseRgbppLock(b.args).Some?
            && h.parseRgbppLock(a.args).value.(btcTxid := ZeroHash)
               == h.parseRgbppLock(b.args).value.(btcTxid := ZeroHash)))
  }

  /** Outputs equal up to the `btc_txid` of their lock. */
  predicate OutputEqualUpToTxid(h: Host, cfg: Config, rgbpp: Script, a: CellOutput, b: CellOutput) {
    a.capacity == b.capacity && a.typ == b.typ && LockEqualUpToTxid(h, cfg, rgbpp, a.lock, b.lock)
  }

  /** Locks that differ only in `btc_txid` normalise to the same lock. */
  lemma NormaliseIgnoresTxid(h: Host, cfg: Config, rgbpp: Script, a: Script, b: Script)
    requires LockEqualUpToTxid(h, cfg, rgbpp, a, b)
    ensures NormaliseLock(h, cfg, rgbpp, a) == NormaliseLock(h, cfg, rgbpp, b)
  {
  }

  /** Outputs that differ only in `btc_txid` normalise to the same output. */
  lemma NormaliseOutputIgnoresTxid(h: Host, cfg: Config, rgbpp: Script, a: CellOutput, b: CellOutput)
    requires OutputEqualUpToTxid(h, cfg, rgbpp, a, b)
    ensures NormaliseOutput(h, cfg, rgbpp, a) == NormaliseOutput(h, cfg, rgbpp, b)
  {
  }

  /** Rewriting the `btc_txid` of a lock's decoded arguments yields a lock
      equal up to txid to the original. */
  lemma RewrittenTxidIsEquivalent(h: Host, cfg: Config, rgbpp: Script, lock: Script, txid: Hash)
    requires CodecsRoundTrip(h)
    requires IsTimeLock(h, cfg, lock) ==> h.parseBtcTimeLock(lock.args).Some?
    requires !IsTimeLock(h, cfg, lock) && SameCode(rgbpp, lock) ==> h.parseRgbppLock(lock.args).Some?
    ensures
      var rewritten :=
        if IsTimeLock(h, cfg, lock) then
          lock.(args := h.encodeBtcTimeLock(h.parseBtcTimeLock(lock.args).value.(btcTxid := txid)))
        else if SameCode(rgbpp, lock) then
          lock.(args := h.encodeRgbppLock(h.parseRgbppLock(lock.args).value.(btcTxid := txid)))
        else lock;
      LockEqualUpToTxid(h, cfg, rgbpp, lock, rewritten)
  {
  }

  /** The normalised lock's arguments decode with a zero `btc_txid`. */
  lemma NormalisedTxidIsZero(h: Host, cfg: Config, rgbpp: Script, lock: Script)
    requires CodecsRoundTrip(h)
    requires NormaliseLock(h, cfg, rgbpp, lock).Ok?
    ensures var n := NormaliseLock(h, cfg, rgbpp, lock).value;
      && (IsTimeLock(h, cfg, lock) ==>
            h.parseBtcTimeLock(n.args).Some? && h.parseBtcTimeLock(n.args).value.btcTxid == ZeroHash)
      && (!IsTimeLock(h, cfg, lock) && SameCode(rgbpp, lock) ==>
            h.parseRgbppLock(n.args).Some? && h.parseRgbppLock(n.args).value.btcTxid == ZeroHash)
  {
  }

  /** Normalising twice is normalising once. */
  lemma NormaliseIdempotent(h: Host, cfg: Config, rgbpp: Script, lock: Script)
    requires CodecsRoundTrip(h)
    requires NormaliseLock(h, cfg, rgbpp, lock).Ok?
    ensures var n := NormaliseLock(h, cfg, rgbpp, lock).value;
      NormaliseLock(h, cfg, rgbpp, n) == Ok(n)
  {
  }

  /** Normalisation touches nothing but `btc_txid`: the normalised lock is
      equal up to txid to the original, so `out_index` of an RGB++ lock and
      `lock_script` and `after` of a time-lock are kept. */
  lemma NormaliseKeepsOtherFields(h: Host, cfg: Config, rgbpp: Script, lock: Script)
    requires CodecsRoundTrip(h)
    requires NormaliseLock(h, cfg, rgbpp, lock).Ok?
    ensures var n := NormaliseLock(h, cfg, rgbpp, lock).value;
      && LockEqualUpToTxid(h, cfg, rgbpp, lock, n)
      && (IsTimeLock(h, cfg, lock) ==>
            var t := h.parseBtcTimeLock(lock.args).value;
            h.parseBtcTimeLock(n.args) == Some(BtcTimeLock(t.lockScript, t.after, ZeroHash)))
      && (!IsTimeLock(h, cfg, lock) && SameCode(rgbpp, lock) ==>
            h.parseRgbppLock(n.args) == Some(RgbppLock(h.parseRgbppLock(lock.args).value.outIndex, ZeroHash)))
  {
  }

  /** The normalised output is equal up to txid to the original output. */
  lemma NormaliseOutputKeepsOtherFields(h: Host, cfg: Config, rgbpp: Script, o: CellOutput)
    requires CodecsRoundTrip(h)
    requires NormaliseOutput(h, cfg, rgbpp, o).Ok?
    ensures OutputEqualUpToTxid(h, cfg, rgbpp, o, NormaliseOutput(h, cfg, rgbpp, o).value)
  {
    NormaliseKeepsOtherFields(h, cfg, rgbpp, o.lock);
  }

  /** The converse of `NormaliseIgnoresTxid`: two locks with the same
      normal form are equal up to txid, so the normal form loses nothing
      but the txid. */
  lemma SameNormalFormIsEqualUpToTxid(h: Host, cfg: Config, rgbpp: Script, a: Script, b: Script)
    requires CodecsRoundTrip(h)
    requires NormaliseLock(h, cfg, rgbpp, a).Ok?
    ensures NormaliseLock(h, cfg, rgbpp, a) == NormaliseLock(h, cfg, rgbpp, b)
            <==> LockEqualUpToTxid(h, cfg, rgbpp, a, b)
  {
    if NormaliseLock(h, cfg, rgbpp, a) == NormaliseLock(h, cfg, rgbpp, b) {
      var n := NormaliseLock(h, cfg, rgbpp, a).value;
      if IsTimeLock(h, cfg, a) {
        var ta := h.parseBtcTimeLock(a.args).value;
        var tb := h.parseBtcTimeLock(b.args).value;
        assert h.parseBtcTimeLock(n.args) == Some(ta.(btcTxid := ZeroHash));
        assert h.parseBtcTimeLock(n.args) == Some(tb.(btcTxid := ZeroHash));
      } else if SameCode(rgbpp, a) {
        var ra := h.parseRgbppLock(a.args).value;
        var rb := h.parseRgbppLock(b.args).value;
        assert h.parseRgbppLock(n.args) == Some(ra.(btcTxid := ZeroHash));
        assert h.parseRgbppLock(n.args) == Some(rb.(btcTxid := ZeroHash));
      }
    } else {
      if LockEqualUpToTxid(h, cfg, rgbpp, a, b) {
        NormaliseIgnoresTxid(h, cfg, rgbpp, a, b);
      }
    }
  }

  /** The same for whole outputs. */
  lemma SameNormalOutputIsEqualUpToTxid(h: Host, cfg: Config, rgbpp: Script, a: CellOutput, b: CellOutput)
    requires CodecsRoundTrip(h)
    requires NormaliseOutput(h, cfg, rgbpp, a).Ok?
    ensures NormaliseOutput(h, cfg, rgbpp, a) == NormaliseOutput(h, cfg, rgbpp, b)
            <==> OutputEqualUpToTxid(h, cfg, rgbpp, a, b)
  {
    SameNormalFormIsEqualUpToTxid(h, cfg, rgbpp, a.lock, b.lock);
  }
}
