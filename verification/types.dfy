/** The data the RGB++ lock reads: the CKB transaction as the host shows it,
    the parsed lock/unlock structures, the parsed Bitcoin transaction, the
    error kinds, and the external collaborators the lock calls into. */
module Types {
  import opened Base

  /** The error enumeration the lock exits with. The first four are the
      host's syscall failures; `External` stands for the variants this model
      does not name. Collaborators whose code is not part of this model (the
      Bitcoin parser, the light client, the configuration loader) may return
      any variant, named or not. */
  datatype Error =
    | IndexOutOfBound
    | ItemMissing
    | LengthNotEnough
    | Encoding
    | BadRGBPPLock
    | BadRGBPPUnlock
    | BadBTCTimeLock
    | UtxoSealMismatch
    | BadBtcCommitment
    | UnknownCommitmentVersion
    | CommitmentMismatch
    | OutputCellWithUnknownLock
    | External(kind: nat)

  /** A CKB script: the code identity (`code_hash`, `hash_type`) and its
      arguments. */
  datatype Script = Script(codeHash: Hash, hashType: u8, args: Bytes)

  /** A CKB cell output; `typ` is the optional type script. */
  datatype CellOutput = CellOutput(capacity: nat, lock: Script, typ: Option<Script>)

  /** The size of a serialised CKB `OutPoint` (a 32-byte tx hash and a
      4-byte index). */
  const OutPointSize: nat := 36

  /** A serialised CKB `OutPoint`: molecule lays the fixed-size struct out
      in exactly `OutPointSize` bytes. */
  type OutPointBytes = b: Bytes | |b| == OutPointSize witness seq(36, _ => 0)

  /** One input of the CKB transaction: the serialised `previous_output`
      out-point, and the type hash of the cell it consumes (what
      `load_cell_type_hash(i, Source::Input)` reports). */
  datatype Input = Input(previousOutput: OutPointBytes, typeHash: Option<Hash>)

  /** The `WitnessArgs` structure; only its `lock` field is read. */
  datatype WitnessArgs = WitnessArgs(lock: Option<Bytes>)

  /** The CKB transaction. A witness slot is `None` when its bytes do not
      decode as `WitnessArgs`. `outputs` and `outputsData` are separate
      sequences, as in the transaction itself. */
  datatype CkbTx = CkbTx(
    inputs: seq<Input>,
    outputs: seq<CellOutput>,
    outputsData: seq<Bytes>,
    witnesses: seq<Option<WitnessArgs>>)

  /** What the running lock sees: its own script, the transaction indices of
      the inputs in its script group, and the transaction. */
  datatype Context = Context(script: Script, groupInputs: seq<nat>, tx: CkbTx)

  /** `RGBPPLock` arguments: the Bitcoin out-point the cell is sealed to. */
  datatype RgbppLock = RgbppLock(outIndex: u32, btcTxid: Hash)

  /** `BTCTimeLock` arguments: the script released to after the delay, the
      delay in blocks, and the Bitcoin transaction it waits on. */
  datatype BtcTimeLock = BtcTimeLock(lockScript: Script, after: u32, btcTxid: Hash)

  /** The declared size of the committed prefix of the CKB transaction. */
  datatype ExtraCommitmentData = ExtraCommitmentData(inputLen: u8, outputLen: u8)

  /** The `RGBPPUnlock` witness. */
  datatype RgbppUnlock = RgbppUnlock(
    version: u16,
    extraData: ExtraCommitmentData,
    btcTx: Bytes,
    btcTxProof: Bytes)

  /** A Bitcoin out-point `(txid, vout)`. */
  datatype BtcOutPoint = BtcOutPoint(txid: Hash, vout: u32)

  datatype BtcTxIn = BtcTxIn(previousOutput: BtcOutPoint)

  /** The parsed Bitcoin transaction: its id and its inputs in order. */
  datatype BtcTx = BtcTx(txid: Hash, inputs: seq<BtcTxIn>)

  /** `RGBPPConfig`: the light client's type hash and the time-lock code. */
  datatype Config = Config(btcLcTypeHash: Hash, btcTimeLockTypeHash: Hash)

  /** The collaborators the lock calls but whose code is not part of this
      model, as uninterpreted functions:
      - `loadConfig`: `load_config::<RGBPPConfig>`;
      - `parseBtcTx`: `parse_btc_tx`;
      - `extractCommitment`: `bitcoin::extract_commitment`;
      - `checkBtcTxExists`: the light client, given its type hash, the txid,
        the confirmation count and the proof;
      - `isBtcTimeLock`: `is_btc_time_lock`, which looks only at the code
        identity of the lock;
      - `checkUtxoSeal`, `checkBtcTimeLock`: the rgbpp_core seal checks;
      - the molecule decoders (`from_slice`) and encoders (`as_bytes`) of the
        two lock-argument structures and of `RGBPPUnlock`, and the molecule
        serialisation of a `CellOutput`;
      - `sha256` (the streaming hasher) and `sha2` (the second hash);
      - `errorCode`: the `i8` discriminant of each error kind;
      - `minBtcTimeLockAfter`: `MIN_BTC_TIME_LOCK_AFTER`. */
  datatype Host = Host(
    loadConfig: CkbTx -> Result<Config, Error>,
    parseBtcTx: Bytes -> Result<BtcTx, Error>,
    extractCommitment: BtcTx -> Option<Hash>,
    checkBtcTxExists: (Hash, Hash, nat, Bytes) -> Result<(), Error>,
    isBtcTimeLock: (Config, Hash, u8) -> bool,
    checkUtxoSeal: (RgbppLock, BtcTx) -> bool,
    checkBtcTimeLock: (BtcTimeLock, BtcTx, nat) -> bool,
    parseRgbppLock: Bytes -> Option<RgbppLock>,
    encodeRgbppLock: RgbppLock -> Bytes,
    parseBtcTimeLock: Bytes -> Option<BtcTimeLock>,
    encodeBtcTimeLock: BtcTimeLock -> Bytes,
    parseUnlock: Bytes -> Option<RgbppUnlock>,
    serializeOutput: CellOutput -> Bytes,
    sha256: Bytes -> Hash,
    sha2: Hash -> Hash,
    errorCode: Error -> i8,
    minBtcTimeLockAfter: u32)

  /** The molecule codecs of the two lock-argument structures invert each
      other: decoding an encoding gives the structure back. */
  ghost predicate CodecsRoundTrip(h: Host) {
    && (forall a :: h.parseRgbppLock(h.encodeRgbppLock(a)) == Some(a))
    && (forall t :: h.parseBtcTimeLock(h.encodeBtcTimeLock(t)) == Some(t))
  }
}
