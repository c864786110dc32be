/**
 The framing of krypto.go over an arbitrary public-key box. NaCl's primitives
 are parameters (`Suite`); what is modelled is how nonces, ephemeral keys and
 headers are laid out around them. Randomness (nonces, ephemeral secret keys)
 is an argument.
 */
module Crypto {
  import opened Basics

  const HEADER_CIPHERTEXT: Byte := 0
  const HEADER_WRAPPED_KEY: Byte := 1
  const HEADER_WRAPPED_PUBLIC_KEY: Byte := 2

  type Nonce = n: Bytes | |n| == 24 witness seq(24, _ => 0)
  type Key = k: Bytes | |k| == 32 witness seq(32, _ => 0)

  datatype CryptoError = KeyLength | NonceTooSmall | OpenFailed | EmptyArgument | InvalidArgument

  /** box.Seal, box.Open, the public half of a secret key, and blake2b.Sum192. */
  datatype Suite = Suite(
    pub: Key -> Key,
    seal: (Bytes, Nonce, Key, Key) -> Bytes,
    open: (Bytes, Nonce, Key, Key) -> Option<Bytes>,
    hash: Bytes -> Nonce)

  /** Whatever `mine` seals for `theirs`, `theirs` opens, given the same nonce. */
  ghost predicate Correct(b: Suite) {
    forall m: Bytes, n: Nonce, mine: Key, theirs: Key ::
      b.open(b.seal(m, n, b.pub(theirs), mine), n, b.pub(mine), theirs) == Some(m)
  }

  /** Go's copy into a fresh 32-byte array: longer slices are cut, shorter ones padded with zeros. */
  function ToKey(k: Bytes): (r: Key)
    ensures |k| == 32 ==> r == k
    ensures |k| > 32 ==> r == k[..32]
    ensures |k| < 32 ==> r[..|k|] == k && forall i :: |k| <= i < 32 ==> r[i] == 0
  {
    seq(32, i requires 0 <= i < 32 => if i < |k| then k[i] else 0)
  }

  function SodiumBox(b: Suite, m: Bytes, pk: Bytes, sk: Bytes, n: Nonce): (c: Result<Bytes, CryptoError>)
    ensures c.Ok? <==> |pk| == 32 && |sk| == 32
  {
    if |pk| != 32 || |sk| != 32 then Err(KeyLength)
    else Ok(n + b.seal(m, n, ToKey(pk), ToKey(sk)))
  }

  function SodiumBoxOpen(b: Suite, c: Bytes, pk: Bytes, sk: Bytes): (m: Result<Bytes, CryptoError>)
    ensures m.Ok? <==> |c| >= 24 && |pk| == 32 && |sk| == 32 && b.open(c[24..], c[..24], pk, sk).Some?
  {
    if |c| < 24 then Err(NonceTooSmall)
    else if |pk| != 32 || |sk| != 32 then Err(KeyLength)
    else
      match b.open(c[24..], c[..24], ToKey(pk), ToKey(sk))
      case None => Err(OpenFailed)
      case Some(m) => Ok(m)
  }

  function SodiumBoxSeal(b: Suite, m: Bytes, pk: Bytes, ephemeral: Key): (c: Result<Bytes, CryptoError>)
    ensures c.Ok? <==> m != [] && pk != []
  {
    if |m| == 0 || |pk| == 0 then Err(EmptyArgument)
    else
      var n := b.hash(b.pub(ephemeral) + pk);
      Ok(b.pub(ephemeral) + b.seal(m, n, ToKey(pk), ephemeral))
  }

  function SodiumBoxSealOpen(b: Suite, c: Bytes, pk: Bytes, sk: Bytes): (m: Result<Bytes, CryptoError>)
    ensures m.Ok? <==> |c| >= 32 && |pk| == 32 && |sk| == 32 && b.open(c[32..], b.hash(c[..32] + pk), c[..32], sk).Some?
  {
    if |c| < 32 || |pk| != 32 || |sk| != 32 then Err(InvalidArgument)
    else
      var n := b.hash(c[..32] + pk);
      match b.open(c[32..], n, c[..32], ToKey(sk))
      case None => Err(OpenFailed)
      case Some(m) => Ok(m)
  }

  function UnwrapKey(b: Suite, c: Bytes, pk: Bytes, sk: Bytes): Result<Bytes, CryptoError> {
    SodiumBoxSealOpen(b, c, pk, sk)
  }

  function WrapKey(b: Suite, pkToWrap: Bytes, pk: Bytes, ephemeral: Key): Result<Bytes, CryptoError> {
    match SodiumBoxSeal(b, pkToWrap, pk, ephemeral)
    case Err(e) => Err(e)
    case Ok(c) => Ok([HEADER_WRAPPED_PUBLIC_KEY] + c)
  }

  /** The receiver splits nonce and box exactly where the sender joined them. */
  lemma BoxRoundTrip(b: Suite, m: Bytes, mine: Key, theirs: Key, n: Nonce)
    requires Correct(b)
    ensures var c := SodiumBox(b, m, b.pub(theirs), mine, n);
            c.Ok? && SodiumBoxOpen(b, c.value, b.pub(mine), theirs) == Ok(m)
  {
    var c := SodiumBox(b, m, b.pub(theirs), mine, n).value;
    assert c[..24] == n && c[24..] == b.seal(m, n, b.pub(theirs), mine);
  }

  /** A sealed box opens to its content; only the empty message is refused. */
  lemma SealRoundTrip(b: Suite, m: Bytes, sk: Key, ephemeral: Key)
    requires Correct(b)
    ensures var c := SodiumBoxSeal(b, m, b.pub(sk), ephemeral);
            if m == [] then c == Err(EmptyArgument)
            else c.Ok? && SodiumBoxSealOpen(b, c.value, b.pub(sk), sk) == Ok(m)
  {
    if m != [] {
      var c := SodiumBoxSeal(b, m, b.pub(sk), ephemeral).value;
      assert c[..32] == b.pub(ephemeral);
      assert c[32..] == b.seal(m, b.hash(b.pub(ephemeral) + b.pub(sk)), b.pub(sk), ephemeral);
    }
  }

  /** `Correct` can be met: sealing that merely records both public keys is such a suite. */
  lemma CorrectSuiteExists() returns (b: Suite)
    ensures Correct(b)
  {
    var nonce: Nonce := seq(24, _ => 0);
    b := Suite(
      (k: Key) => k,
      (m: Bytes, n: Nonce, theirs: Key, mine: Key) => theirs + mine + m,
      (c: Bytes, n: Nonce, theirs: Key, mine: Key) =>
        if |c| >= 64 && c[..32] == mine && c[32..64] == theirs then Some(c[64..]) else None,
      (m: Bytes) => nonce);
    forall m: Bytes, n: Nonce, mine: Key, theirs: Key
      ensures b.open(b.seal(m, n, b.pub(theirs), mine), n, b.pub(mine), theirs) == Some(m)
    {
      var c := theirs + mine + m;
      assert c[..32] == theirs && c[32..64] == mine && c[64..] == m;
    }
  }
}
