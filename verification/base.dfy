/** Shared building blocks: failure-compatible wrappers, the fixed-width
    integer types of the Rust source, byte strings and little-endian
    encodings. */
module Base {

  /** Rust's `Option`. */
  datatype Option<+T> = None | Some(value: T)

  /** Rust's `Result`; usable with `:-` so that `?` reads the same way. */
  datatype Result<+T, +E> = Ok(value: T) | Err(error: E) {

    predicate IsFailure() {
      Err?
    }

    function PropagateFailure<U>(): Result<U, E>
      requires Err?
    {
      Err(error)
    }

    function Extract(): T
      requires Ok?
    {
      value
    }
  }

  /** `opt.ok_or(e)`: a missing value becomes the error `e`. */
  function OkOr<T, E>(o: Option<T>, e: E): (r: Result<T, E>)
    ensures r.Ok? <==> o.Some?
    ensures o.Some? ==> r.value == o.value
    ensures o.None? ==> r.error == e
  {
    match o
    case Some(v) => Ok(v)
    case None => Err(e)
  }

  /** One byte (`u8`) and a byte string. */
  type byte = x: int | 0 <= x < 0x100
  type Bytes = seq<byte>

  type u8 = byte
  type u16 = x: int | 0 <= x < 0x1_0000
  type u32 = x: int | 0 <= x < 0x1_0000_0000
  type i8 = x: int | -0x80 <= x < 0x80

  /** A 32-byte value (`Byte32`, a transaction id or a digest). */
  type Hash = h: Bytes | |h| == 32 witness ZeroHash

  /** `Byte32::default()`. */
  const ZeroHash: Bytes := seq(32, _ => 0)

  /** 256 to the power `k`: the number of values `k` bytes can hold. */
  function Pow256(k: nat): (r: nat)
    ensures r > 0
  {
    if k == 0 then 1 else 0x100 * Pow256(k - 1)
  }

  /** The `k` little-endian bytes of `n` (least significant first), keeping
      only the low `8 * k` bits. */
  function ToLe(n: nat, k: nat): (r: Bytes)
    ensures |r| == k
  {
    if k == 0 then [] else [n % 0x100] + ToLe(n / 0x100, k - 1)
  }

  /** The unsigned integer whose little-endian bytes are `b`. */
  function FromLe(b: Bytes): nat {
    if |b| == 0 then 0 else b[0] + 0x100 * FromLe(b[1..])
  }

  /** `n.to_le_bytes()` for a `u16`. */
  function Le16(n: u16): Bytes {
    ToLe(n, 2)
  }

  /** `n.to_le_bytes()` for a `u32`. */
  function Le32(n: u32): Bytes {
    ToLe(n, 4)
  }

  /** `u32::from_le_bytes` of a 4-byte field. */
  function U32FromLe(b: Bytes): (n: u32)
    requires |b| == 4
    ensures Le32(n) == b
  {
    FromLeBound(b);
    LeOfFromLe(b);
    FromLe(b)
  }

  /** `x as u32` for a non-negative `x`: keep the low 32 bits. */
  function TruncU32(x: nat): (r: u32)
    ensures x < 0x1_0000_0000 ==> r == x
    ensures (x - r) % 0x1_0000_0000 == 0
  {
    x % 0x1_0000_0000
  }

  function Min(a: int, b: int): int {
    if a <= b then a else b
  }

  /** `iter.take(n)`: at most the first `n` elements, fewer if `s` is shorter. */
  function Take<T>(s: seq<T>, n: nat): (r: seq<T>)
    ensures |r| == Min(n, |s|)
    ensures forall i :: 0 <= i < |r| ==> r[i] == s[i]
  {
    s[..Min(n, |s|)]
  }

  /** `iter.skip(n)`: the elements after the first `n`, none if `s` is shorter. */
  function Skip<T>(s: seq<T>, n: nat): (r: seq<T>)
    ensures |r| == |s| - Min(n, |s|)
    ensures forall i :: 0 <= i < |r| ==> r[i] == s[n + i]
  {
    s[Min(n, |s|)..]
  }

  /** `a.iter().zip(b.iter())`: pairs up to the shorter of the two. */
  function Zip<A, B>(a: seq<A>, b: seq<B>): (r: seq<(A, B)>)
    ensures |r| == Min(|a|, |b|)
    ensures forall i :: 0 <= i < |r| ==> r[i] == (a[i], b[i])
  {
    seq(Min(|a|, |b|), i requires 0 <= i < Min(|a|, |b|) => (a[i], b[i]))
  }

  /** A value that fits in `k` bytes survives encoding and decoding. */
  lemma {:induction false} FromLeOfLe(n: nat, k: nat)
    requires n < Pow256(k)
    ensures FromLe(ToLe(n, k)) == n
  {
    if k > 0 {
      var r := ToLe(n, k);
      assert r[1..] == ToLe(n / 0x100, k - 1);
      FromLeOfLe(n / 0x100, k - 1);
    }
  }

  /** `k` bytes decode to a value below `256^k`. */
  lemma {:induction false} FromLeBound(b: Bytes)
    ensures FromLe(b) < Pow256(|b|)
  {
    if |b| > 0 {
      FromLeBound(b[1..]);
    }
  }

  /** Encoding the value of `b` in `|b|` bytes gives `b` back. */
  lemma {:induction false} LeOfFromLe(b: Bytes)
    ensures ToLe(FromLe(b), |b|) == b
  {
    if |b| > 0 {
      var n := FromLe(b);
      assert n % 0x100 == b[0] && n / 0x100 == FromLe(b[1..]);
      LeOfFromLe(b[1..]);
    }
  }

  /** Decoding the little-endian encoding of a `u16` gives it back. */
  lemma Le16RoundTrip(n: u16)
    ensures FromLe(Le16(n)) == n
  {
    FromLeOfLe(n, 2);
  }

  /** Decoding the little-endian encoding of a `u32` gives it back. */
  lemma Le32RoundTrip(n: u32)
    ensures FromLe(Le32(n)) == n
  {
    FromLeOfLe(n, 4);
  }
}
