/** `check_btc_tx_commitment`: recompute the digest of the committed prefix
    of the CKB transaction and compare it with the commitment carried by the
    Bitcoin transaction. */
module Commitment {
  import opened Base
  import opened Types
  import opened Canon

  /** The domain tag `b"RGB++"`. */
  const Tag: Bytes := [0x52, 0x47, 0x42, 0x2B, 0x2B]

  /** The preimage header: tag, `version` as two little-endian bytes, then
      `input_len` and `output_len` as one byte each. */
  function Header(version: u16, inputLen: u8, outputLen: u8): Bytes {
    Tag + Le16(version) + [inputLen, outputLen]
  }

  /** The `previous_output` bytes of `inputs`, one after another. */
  function InputsBytes(inputs: seq<Input>): Bytes {
    if |inputs| == 0 then [] else inputs[0].previousOutput + InputsBytes(inputs[1..])
  }

  /** What one committed (output, data) pair adds: the serialised normalised
      output, `data.len() as u32` in little-endian, then the data. */
  function OutputEntry(h: Host, cfg: Config, rgbpp: Script, o: CellOutput, data: Bytes): (r: Result<Bytes, Error>)
    ensures r.Ok? <==> NormaliseOutput(h, cfg, rgbpp, o).Ok?
    ensures r.Err? ==> r.error == NormaliseOutput(h, cfg, rgbpp, o).error
    ensures r.Ok? ==>
      var n := |r.value| - |data|;
      && n >= 4
      && r.value[n..] == data
      && FromLe(r.value[n - 4 .. n]) == TruncU32(|data|)
      && r.value[..n - 4] == h.serializeOutput(NormaliseOutput(h, cfg, rgbpp, o).value)
  {
    var n :- NormaliseOutput(h, cfg, rgbpp, o);
    var e := h.serializeOutput(n) + Le32(TruncU32(|data|)) + data;
    assert e[|e| - |data| - 4 .. |e| - |data|] == Le32(TruncU32(|data|));
    Le32RoundTrip(TruncU32(|data|));
    Ok(e)
  }

  /** The entries of the committed pairs in order; the first pair whose lock
      arguments do not decode stops the computation with its error. */
  function OutputsBytes(h: Host, cfg: Config, rgbpp: Script, pairs: seq<(CellOutput, Bytes)>): (r: Result<Bytes, Error>)
    ensures r.Ok? <==> forall i :: 0 <= i < |pairs| ==> NormaliseOutput(h, cfg, rgbpp, pairs[i].0).Ok?
    ensures r.Err? ==>
      exists i :: (0 <= i < |pairs|
                   && NormaliseOutput(h, cfg, rgbpp, pairs[i].0) == Err(r.error)
                   && forall j :: 0 <= j < i ==> NormaliseOutput(h, cfg, rgbpp, pairs[j].0).Ok?)
  {
    if |pairs| == 0 then Ok([])
    else
      var e :- OutputEntry(h, cfg, rgbpp, pairs[0].0, pairs[0].1);
      var rest :- OutputsBytes(h, cfg, rgbpp, pairs[1..]);
      Ok(e + rest)
  }

  /** The (output, data) pairs covered by the commitment: `zip` then
      `take(output_len)`. */
  function CommittedPairs(tx: CkbTx, outputLen: u8): (r: seq<(CellOutput, Bytes)>)
    ensures |r| == Min(outputLen, Min(|tx.outputs|, |tx.outputsData|))
    ensures forall i :: 0 <= i < |r| ==> r[i] == (tx.outputs[i], tx.outputsData[i])
  {
    Take(Zip(tx.outputs, tx.outputsData), outputLen)
  }

  /** The byte stream fed to the hasher. */
  function Preimage(h: Host, cfg: Config, rgbpp: Script, tx: CkbTx, unlock: RgbppUnlock): (r: Result<Bytes, Error>)
    ensures var pairs := CommittedPairs(tx, unlock.extraData.outputLen);
      r.Ok? <==> forall i :: 0 <= i < |pairs| ==> NormaliseOutput(h, cfg, rgbpp, pairs[i].0).Ok?
    ensures r.Ok? ==>
      && |r.value| >= 9
      && r.value[..5] == Tag
      && FromLe(r.value[5..7]) == unlock.version
      && r.value[7] == unlock.extraData.inputLen
      && r.value[8] == unlock.extraData.outputLen
    ensures var pairs := CommittedPairs(tx, unlock.extraData.outputLen);
      r.Err? ==>
        exists i :: (0 <= i < |pairs|
                     && NormaliseOutput(h, cfg, rgbpp, pairs[i].0) == Err(r.error)
                     && forall j :: 0 <= j < i ==> NormaliseOutput(h, cfg, rgbpp, pairs[j].0).Ok?)
  {
    var version := unlock.version;
    var inputLen := unlock.extraData.inputLen;
    var outputLen := unlock.extraData.outputLen;
    var outs :- OutputsBytes(h, cfg, rgbpp, CommittedPairs(tx, outputLen));
    var p := Header(version, inputLen, outputLen) + InputsBytes(Take(tx.inputs, inputLen)) + outs;
    assert p[5..7] == Le16(version);
    Le16RoundTrip(version);
    Ok(p)
  }

  /** `sha2(sha256(preimage))`. */
  function Digest(h: Host, preimage: Bytes): Hash {
    h.sha2(h.sha256(preimage))
  }

  /** `inputs.all(|i| i.type_hash.is_none())`. */
  function NoTypedInput(inputs: seq<Input>): (r: bool)
    ensures r <==> forall i :: 0 <= i < |inputs| ==> inputs[i].typeHash.None?
  {
    |inputs| == 0 || (inputs[0].typeHash.None? && NoTypedInput(inputs[1..]))
  }

  /** `outputs.all(|o| o.type_().is_none())`. */
  function NoTypedOutput(outputs: seq<CellOutput>): (r: bool)
    ensures r <==> forall i :: 0 <= i < |outputs| ==> outputs[i].typ.None?
  {
    |outputs| == 0 || (outputs[0].typ.None? && NoTypedOutput(outputs[1..]))
  }

  /** Every input cell outside the committed prefix is untyped. */
  predicate InputsCommitted(tx: CkbTx, inputLen: u8) {
    forall i :: inputLen <= i < |tx.inputs| ==> tx.inputs[i].typeHash.None?
  }

  /** Every output outside the committed prefix is untyped. */
  predicate OutputsCommitted(tx: CkbTx, outputLen: u8) {
    forall i :: outputLen <= i < |tx.outputs| ==> tx.outputs[i].typ.None?
  }

  /** The commitment check, in the order the source performs it: extract the
      commitment, check the version, check both lengths, check that nothing
      typed lies outside the committed prefix (inputs first), build the
      preimage, compare digests. */
  function CheckBtcTxCommitment(h: Host, cfg: Config, rgbpp: Script, btc: BtcTx, tx: CkbTx, unlock: RgbppUnlock)
    : (r: Result<(), Error>)
    ensures h.extractCommitment(btc).None? ==> r == Err(BadBtcCommitment)
    ensures h.extractCommitment(btc).Some? && unlock.version != 0 ==> r == Err(UnknownCommitmentVersion)
    ensures (h.extractCommitment(btc).Some? && unlock.version == 0
             && (unlock.extraData.inputLen == 0 || unlock.extraData.outputLen == 0))
            ==> r == Err(BadBtcCommitment)
    ensures (h.extractCommitment(btc).Some? && unlock.version == 0
             && unlock.extraData.inputLen > 0 && unlock.extraData.outputLen > 0
             && !(InputsCommitted(tx, unlock.extraData.inputLen) && OutputsCommitted(tx, unlock.extraData.outputLen)))
            ==> r == Err(CommitmentMismatch)
    ensures r.Ok? <==>
      && h.extractCommitment(btc).Some?
      && unlock.version == 0
      && unlock.extraData.inputLen > 0
      && unlock.extraData.outputLen > 0
      && InputsCommitted(tx, unlock.extraData.inputLen)
      && OutputsCommitted(tx, unlock.extraData.outputLen)
      && Preimage(h, cfg, rgbpp, tx, unlock).Ok?
      && Digest(h, Preimage(h, cfg, rgbpp, tx, unlock).value) == h.extractCommitment(btc).value
    ensures (h.extractCommitment(btc).Some? && unlock.version == 0
             && unlock.extraData.inputLen > 0 && unlock.extraData.outputLen > 0
             && InputsCommitted(tx, unlock.extraData.inputLen) && OutputsCommitted(tx, unlock.extraData.outputLen))
            ==> r == match Preimage(h, cfg, rgbpp, tx, unlock)
                     case Err(e) => Err(e)
                     case Ok(p) => if Digest(h, p) == h.extractCommitment(btc).value then Ok(()) else Err(CommitmentMismatch)
    ensures r.Err? ==> r.error in {BadBtcCommitment, UnknownCommitmentVersion, CommitmentMismatch, BadBTCTimeLock, BadRGBPPLock}
  {
    var commitment :- OkOr(h.extractCommitment(btc), BadBtcCommitment);
    var inputLen := unlock.extraData.inputLen;
    var outputLen := unlock.extraData.outputLen;
    if unlock.version != 0 then Err(UnknownCommitmentVersion)
    else if inputLen == 0 then Err(BadBtcCommitment)
    else if outputLen == 0 then Err(BadBtcCommitment)
    else if !NoTypedInput(Skip(tx.inputs, inputLen)) then Err(CommitmentMismatch)
    else if !NoTypedOutput(Skip(tx.outputs, outputLen)) then Err(CommitmentMismatch)
    else
      var preimage :- Preimage(h, cfg, rgbpp, tx, unlock);
      if Digest(h, preimage) == commitment then Ok(()) else Err(CommitmentMismatch)
  }

  /** The input part reads only the `previous_output` of each input. */
  lemma {:induction false} InputsBytesOnlyOutPoints(s: seq<Input>, t: seq<Input>)
    requires |s| == |t|
    requires forall i :: 0 <= i < |s| ==> s[i].previousOutput == t[i].previousOutput
    ensures InputsBytes(s) == InputsBytes(t)
  {
    if |s| > 0 {
      InputsBytesOnlyOutPoints(s[1..], t[1..]);
    }
  }

  /** With fixed-size out-points, the input part is the out-points laid end
      to end: the `i`-th 36-byte block is the `i`-th input's out-point, so
      every committed out-point byte is in the preimage. */
  lemma {:induction false} InputsBytesLayout(s: seq<Input>, i: nat)
    requires i < |s|
    ensures |InputsBytes(s)| == OutPointSize * |s|
    ensures InputsBytes(s)[OutPointSize * i .. OutPointSize * (i + 1)] == s[i].previousOutput
  {
    InputsBytesLength(s);
    if i > 0 {
      InputsBytesLayout(s[1..], i - 1);
      var rest := InputsBytes(s[1..]);
      assert InputsBytes(s) == s[0].previousOutput + rest;
      assert InputsBytes(s)[OutPointSize * i .. OutPointSize * (i + 1)]
          == rest[OutPointSize * (i - 1) .. OutPointSize * i];
    }
  }

  lemma {:induction false} InputsBytesLength(s: seq<Input>)
    ensures |InputsBytes(s)| == OutPointSize * |s|
  {
    if |s| > 0 {
      InputsBytesLength(s[1..]);
    }
  }

  /** The output part is the same for pairs that agree up to the `btc_txid`
      of their locks and have the same data. */
  lemma {:induction false} OutputsBytesIgnoresTxid(h: Host, cfg: Config, rgbpp: Script, p: seq<(CellOutput, Bytes)>, q: seq<(CellOutput, Bytes)>)
    requires |p| == |q|
    requires forall i :: 0 <= i < |p| ==> p[i].1 == q[i].1 && OutputEqualUpToTxid(h, cfg, rgbpp, p[i].0, q[i].0)
    ensures OutputsBytes(h, cfg, rgbpp, p) == OutputsBytes(h, cfg, rgbpp, q)
  {
    if |p| > 0 {
      NormaliseOutputIgnoresTxid(h, cfg, rgbpp, p[0].0, q[0].0);
      OutputsBytesIgnoresTxid(h, cfg, rgbpp, p[1..], q[1..]);
    }
  }

  /** The two CKB transactions agree on everything the commitment covers:
      the same number of committed inputs with the same out-points, and the
      same number of committed (output, data) pairs, equal up to the
      `btc_txid` in their locks. Cells beyond the prefix, and the type hash
      of committed inputs, are free. */
  predicate SameCommittedPrefix(h: Host, cfg: Config, rgbpp: Script, a: CkbTx, b: CkbTx, inputLen: u8, outputLen: u8) {
    var pa := CommittedPairs(a, outputLen);
    var pb := CommittedPairs(b, outputLen);
    && Min(inputLen, |a.inputs|) == Min(inputLen, |b.inputs|)
    && (forall i :: 0 <= i < Min(inputLen, |a.inputs|) ==> a.inputs[i].previousOutput == b.inputs[i].previousOutput)
    && |pa| == |pb|
    && (forall i :: 0 <= i < |pa| ==> pa[i].1 == pb[i].1 && OutputEqualUpToTxid(h, cfg, rgbpp, pa[i].0, pb[i].0))
  }

  /** Prefix independence and normalisation invariance: the preimage (and so
      the digest) depends only on the committed prefix, and not on the
      `btc_txid` recorded in committed RGB++ or time-lock outputs. */
  lemma PreimageDependsOnlyOnCommittedPrefix(h: Host, cfg: Config, rgbpp: Script, a: CkbTx, b: CkbTx, unlock: RgbppUnlock)
    requires SameCommittedPrefix(h, cfg, rgbpp, a, b, unlock.extraData.inputLen, unlock.extraData.outputLen)
    ensures Preimage(h, cfg, rgbpp, a, unlock) == Preimage(h, cfg, rgbpp, b, unlock)
  {
    var inputLen := unlock.extraData.inputLen;
    var outputLen := unlock.extraData.outputLen;
    InputsBytesOnlyOutPoints(Take(a.inputs, inputLen), Take(b.inputs, inputLen));
    OutputsBytesIgnoresTxid(h, cfg, rgbpp, CommittedPairs(a, outputLen), CommittedPairs(b, outputLen));
  }

  /** Appending cells after the committed prefix leaves the preimage as it
      was. */
  lemma PreimageIgnoresAppendedCells(h: Host, cfg: Config, rgbpp: Script, tx: CkbTx, unlock: RgbppUnlock,
                                     moreInputs: seq<Input>, moreOutputs: seq<CellOutput>, moreData: seq<Bytes>)
    requires unlock.extraData.inputLen <= |tx.inputs|
    requires unlock.extraData.outputLen <= |tx.outputs| && unlock.extraData.outputLen <= |tx.outputsData|
    ensures var tx' := tx.(inputs := tx.inputs + moreInputs, outputs := tx.outputs + moreOutputs,
                           outputsData := tx.outputsData + moreData);
      Preimage(h, cfg, rgbpp, tx', unlock) == Preimage(h, cfg, rgbpp, tx, unlock)
  {
    var tx' := tx.(inputs := tx.inputs + moreInputs, outputs := tx.outputs + moreOutputs,
                   outputsData := tx.outputsData + moreData);
    var outputLen := unlock.extraData.outputLen;
    var pa := CommittedPairs(tx', outputLen);
    var pb := CommittedPairs(tx, outputLen);
    assert forall i :: 0 <= i < |pa| ==> pa[i] == pb[i];
    assert SameCommittedPrefix(h, cfg, rgbpp, tx', tx, unlock.extraData.inputLen, outputLen);
    PreimageDependsOnlyOnCommittedPrefix(h, cfg, rgbpp, tx', tx, unlock);
  }

  /** The commitment verdict sees a transaction only through its inputs, the
      types of the outputs past the committed prefix, and the preimage. */
  lemma CheckDependsOnGuardsAndPreimage(h: Host, cfg: Config, rgbpp: Script, btc: BtcTx, a: CkbTx, b: CkbTx, unlock: RgbppUnlock)
    requires a.inputs == b.inputs
    requires NoTypedOutput(Skip(a.outputs, unlock.extraData.outputLen)) == NoTypedOutput(Skip(b.outputs, unlock.extraData.outputLen))
    ensures Preimage(h, cfg, rgbpp, a, unlock) == Preimage(h, cfg, rgbpp, b, unlock) ==>
      CheckBtcTxCommitment(h, cfg, rgbpp, btc, a, unlock) == CheckBtcTxCommitment(h, cfg, rgbpp, btc, b, unlock)
  {
  }

  /** Outputs pairwise equal up to `btc_txid`, with the same inputs and data,
      give the same committed prefix. */
  lemma SamePrefixFromEquivalentOutputs(h: Host, cfg: Config, rgbpp: Script, a: CkbTx, b: CkbTx, inputLen: u8, outputLen: u8)
    requires a.inputs == b.inputs && a.outputsData == b.outputsData
    requires |a.outputs| == |b.outputs|
    requires forall i :: 0 <= i < |a.outputs| ==> OutputEqualUpToTxid(h, cfg, rgbpp, a.outputs[i], b.outputs[i])
    ensures SameCommittedPrefix(h, cfg, rgbpp, a, b, inputLen, outputLen)
  {
    var pa := CommittedPairs(a, outputLen);
    var pb := CommittedPairs(b, outputLen);
    forall i | 0 <= i < |pa|
      ensures pa[i].1 == pb[i].1 && OutputEqualUpToTxid(h, cfg, rgbpp, pa[i].0, pb[i].0)
    {
      assert pa[i] == (a.outputs[i], a.outputsData[i]);
      assert pb[i] == (b.outputs[i], b.outputsData[i]);
    }
  }

  /** Normalisation invariance of the whole check: CKB transactions that
      differ only in the `btc_txid` recorded in their RGB++ and time-lock
      outputs get the same verdict, so an output can name the Bitcoin
      transaction that commits to it. */
  lemma CommitmentIgnoresSealTxid(h: Host, cfg: Config, rgbpp: Script, btc: BtcTx, a: CkbTx, b: CkbTx, unlock: RgbppUnlock)
    requires a.inputs == b.inputs && a.outputsData == b.outputsData
    requires |a.outputs| == |b.outputs|
    requires forall i :: 0 <= i < |a.outputs| ==> OutputEqualUpToTxid(h, cfg, rgbpp, a.outputs[i], b.outputs[i])
    ensures CheckBtcTxCommitment(h, cfg, rgbpp, btc, a, unlock) == CheckBtcTxCommitment(h, cfg, rgbpp, btc, b, unlock)
  {
    var outputLen := unlock.extraData.outputLen;
    SamePrefixFromEquivalentOutputs(h, cfg, rgbpp, a, b, unlock.extraData.inputLen, outputLen);
    PreimageDependsOnlyOnCommittedPrefix(h, cfg, rgbpp, a, b, unlock);
    var sa := Skip(a.outputs, outputLen);
    var sb := Skip(b.outputs, outputLen);
    assert forall i :: 0 <= i < |sa| ==> sa[i].typ == sb[i].typ;
    CheckDependsOnGuardsAndPreimage(h, cfg, rgbpp, btc, a, b, unlock);
  }

  /** The output part of a concatenation of pairs is the concatenation of
      the output parts; the first failure wins. */
  lemma {:induction false} OutputsBytesAppend(h: Host, cfg: Config, rgbpp: Script, p: seq<(CellOutput, Bytes)>, q: seq<(CellOutput, Bytes)>)
    ensures OutputsBytes(h, cfg, rgbpp, p + q) ==
      match OutputsBytes(h, cfg, rgbpp, p)
      case Err(e) => Err(e)
      case Ok(bp) =>
        match OutputsBytes(h, cfg, rgbpp, q)
        case Err(e) => Err(e)
        case Ok(bq) => Ok(bp + bq)
  {
    if |p| == 0 {
      assert p + q == q;
      var rq := OutputsBytes(h, cfg, rgbpp, q);
      if rq.Ok? {
        assert [] + rq.value == rq.value;
      }
    } else {
      var pq := p + q;
      assert pq[0] == p[0];
      assert pq[1..] == p[1..] + q;
      OutputsBytesAppend(h, cfg, rgbpp, p[1..], q);
      var e := OutputEntry(h, cfg, rgbpp, p[0].0, p[0].1);
      var rp := OutputsBytes(h, cfg, rgbpp, p[1..]);
      var rq := OutputsBytes(h, cfg, rgbpp, q);
      if e.Ok? && rp.Ok? && rq.Ok? {
        assert e.value + (rp.value + rq.value) == (e.value + rp.value) + rq.value;
      }
    }
  }

  /** The output part of one pair is that pair's entry. */
  lemma OutputsBytesSingle(h: Host, cfg: Config, rgbpp: Script, x: (CellOutput, Bytes))
    ensures OutputsBytes(h, cfg, rgbpp, [x]) == OutputEntry(h, cfg, rgbpp, x.0, x.1)
  {
    assert [x][1..] == [];
    var e := OutputEntry(h, cfg, rgbpp, x.0, x.1);
    if e.Ok? {
      assert e.value + [] == e.value;
    }
  }

  /** The layout of the preimage after its header: with 36-byte out-points,
      the `k`-th committed input's out-point occupies bytes `9 + 36k` to
      `9 + 36(k + 1)`, and everything after the committed out-points is the
      output part. */
  lemma PreimageLayout(h: Host, cfg: Config, rgbpp: Script, tx: CkbTx, unlock: RgbppUnlock)
    requires Preimage(h, cfg, rgbpp, tx, unlock).Ok?
    ensures var p := Preimage(h, cfg, rgbpp, tx, unlock).value;
      var m := Min(unlock.extraData.inputLen, |tx.inputs|);
      && |p| >= 9 + OutPointSize * m
      && p[..9] == Header(unlock.version, unlock.extraData.inputLen, unlock.extraData.outputLen)
      && (forall k :: 0 <= k < m ==>
            p[9 + OutPointSize * k .. 9 + OutPointSize * (k + 1)] == tx.inputs[k].previousOutput)
      && OutputsBytes(h, cfg, rgbpp, CommittedPairs(tx, unlock.extraData.outputLen)) == Ok(p[9 + OutPointSize * m ..])
  {
    var inputLen := unlock.extraData.inputLen;
    var outputLen := unlock.extraData.outputLen;
    var p := Preimage(h, cfg, rgbpp, tx, unlock).value;
    var hd := Header(unlock.version, inputLen, outputLen);
    var ins := Take(tx.inputs, inputLen);
    var outs := OutputsBytes(h, cfg, rgbpp, CommittedPairs(tx, outputLen)).value;
    var m := |ins|;
    assert |hd| == 9;
    assert p == hd + InputsBytes(ins) + outs;
    InputsBytesLength(ins);
    forall k | 0 <= k < m
      ensures p[9 + OutPointSize * k .. 9 + OutPointSize * (k + 1)] == tx.inputs[k].previousOutput
    {
      InputsBytesLayout(ins, k);
    }
    assert p[9 + OutPointSize * m ..] == outs;
  }

  /** The preimage covers every committed out-point: two transactions with
      the same number of committed inputs and the same preimage commit to
      the same out-points. */
  lemma SamePreimageSameOutPoints(h: Host, cfg: Config, rgbpp: Script, a: CkbTx, b: CkbTx, unlock: RgbppUnlock, k: nat)
    requires Preimage(h, cfg, rgbpp, a, unlock).Ok?
    requires Preimage(h, cfg, rgbpp, a, unlock) == Preimage(h, cfg, rgbpp, b, unlock)
    requires Min(unlock.extraData.inputLen, |a.inputs|) == Min(unlock.extraData.inputLen, |b.inputs|)
    requires k < Min(unlock.extraData.inputLen, |a.inputs|)
    ensures a.inputs[k].previousOutput == b.inputs[k].previousOutput
  {
    PreimageLayout(h, cfg, rgbpp, a, unlock);
    PreimageLayout(h, cfg, rgbpp, b, unlock);
  }

  /** An entry covers everything about its cell but the txid: with an
      injective output serialisation and codecs that round-trip, equal
      entries for data of equal length come from outputs equal up to txid
      and from equal data. */
  lemma SameEntrySameCell(h: Host, cfg: Config, rgbpp: Script, a: CellOutput, da: Bytes, b: CellOutput, db: Bytes)
    requires CodecsRoundTrip(h)
    requires forall x, y :: h.serializeOutput(x) == h.serializeOutput(y) ==> x == y
    requires OutputEntry(h, cfg, rgbpp, a, da).Ok?
    requires OutputEntry(h, cfg, rgbpp, a, da) == OutputEntry(h, cfg, rgbpp, b, db)
    requires |da| == |db|
    ensures da == db
    ensures OutputEqualUpToTxid(h, cfg, rgbpp, a, b)
  {
    var e := OutputEntry(h, cfg, rgbpp, a, da).value;
    var na := NormaliseOutput(h, cfg, rgbpp, a).value;
    var nb := NormaliseOutput(h, cfg, rgbpp, b).value;
    assert h.serializeOutput(na) == e[..|e| - |da| - 4] == h.serializeOutput(nb);
    SameNormalOutputIsEqualUpToTxid(h, cfg, rgbpp, a, b);
  }
}
