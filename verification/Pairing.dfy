/** The pairing secret of pair.go, and its stored form of pairing_persistence.go. */
module Pairing {
  import opened Basics
  import opened Crypto

  datatype Pairing = Pairing(
    enclavePublicKey: Option<Bytes>,
    workstationPublicKey: Bytes,
    workstationSecretKey: Bytes,
    workstationName: string,
    snsEndpointARN: Option<string>,
    trackingID: Option<string>,
    version: string)

  datatype PersistedPairing = PersistedPairing(
    enclavePublicKey: Option<Bytes>,
    workstationPublicKey: Bytes,
    workstationSecretKey: Bytes,
    workstationName: string,
    snsEndpointARN: Option<string>,
    trackingID: Option<string>)

  function ToPersisted(p: Pairing): PersistedPairing {
    PersistedPairing(p.enclavePublicKey, p.workstationPublicKey, p.workstationSecretKey,
                     p.workstationName, p.snsEndpointARN, p.trackingID)
  }

  function FromPersisted(q: PersistedPairing): Pairing {
    Pairing(q.enclavePublicKey, q.workstationPublicKey, q.workstationSecretKey,
            q.workstationName, q.snsEndpointARN, q.trackingID, "")
  }

  /** Storing and loading a pairing loses its version and nothing else; every field is stored under its own name. */
  lemma PersistenceRoundTrip(p: Pairing, q: PersistedPairing)
    ensures var d := ToPersisted(p);
            && d.enclavePublicKey == p.enclavePublicKey && d.workstationPublicKey == p.workstationPublicKey
            && d.workstationSecretKey == p.workstationSecretKey && d.workstationName == p.workstationName
            && d.snsEndpointARN == p.snsEndpointARN && d.trackingID == p.trackingID
    ensures FromPersisted(ToPersisted(p)) == p.(version := "")
    ensures ToPersisted(FromPersisted(q)) == q
    ensures ToPersisted(p) == q <==> p.(version := "") == FromPersisted(q)
  {
  }

  /** Two secrets are the same pairing when their workstation public keys agree. */
  predicate Equals(p: Pairing, q: Pairing) {
    p.workstationPublicKey == q.workstationPublicKey
  }

  datatype PairingError = WaitingForKey | WrappedKeyUnsupported | EmptyCiphertext | UnknownHeader
                        | Crypto(reason: CryptoError)

  function EncryptMessage(b: Suite, p: Pairing, m: Bytes, n: Nonce): Result<Bytes, PairingError> {
    if p.enclavePublicKey == None then Err(WaitingForKey)
    else
      match SodiumBox(b, m, p.enclavePublicKey.value, p.workstationSecretKey, n)
      case Err(e) => Err(Crypto(e))
      case Ok(c) => Ok([HEADER_CIPHERTEXT] + c)
  }

  /** Messages can be boxed: the phone's key arrived and has the right size. */
  predicate Ready(p: Pairing) {
    p.enclavePublicKey.Some? && |p.enclavePublicKey.value| == 32 && |p.workstationSecretKey| == 32
  }

  lemma EncryptOutcome(b: Suite, p: Pairing, m: Bytes, n: Nonce)
    ensures EncryptMessage(b, p, m, n).Ok? <==> Ready(p)
    ensures EncryptMessage(b, p, m, n) == Err(WaitingForKey) <==> p.enclavePublicKey == None
  {
  }

  function DecryptMessage(b: Suite, p: Pairing, c: Bytes): Result<Bytes, PairingError> {
    if p.enclavePublicKey == None then Err(WaitingForKey)
    else
      match SodiumBoxOpen(b, c, p.enclavePublicKey.value, p.workstationSecretKey)
      case Err(e) => Err(Crypto(e))
      case Ok(m) => Ok(m)
  }

  /** What an inbound frame does to a pairing. */
  datatype Unwrapped =
    | Failed(error: PairingError)
    | Ciphertext(rest: Bytes)
    | Ignored
    | Installed(key: Bytes)

  function Unwrap(b: Suite, p: Pairing, frame: Bytes): Unwrapped {
    if frame == [] then Failed(EmptyCiphertext)
    else if frame[0] == HEADER_CIPHERTEXT then Ciphertext(frame[1..])
    else if frame[0] == HEADER_WRAPPED_KEY then Failed(WrappedKeyUnsupported)
    else if frame[0] == HEADER_WRAPPED_PUBLIC_KEY then
      if p.enclavePublicKey.Some? then Ignored
      else
        match UnwrapKey(b, frame[1..], p.workstationPublicKey, p.workstationSecretKey)
        case Err(e) => Failed(Crypto(e))
        case Ok(key) => Installed(key)
    else Failed(UnknownHeader)
  }

  /**
   What a frame is, by its first byte: 0 heads a ciphertext, 1 a key of the old kind, which
   is refused, and 2 a wrapped public key, which counts only while there is no key and must
   then open. Everything else, the empty frame included, is refused.
   */
  lemma FrameKinds(b: Suite, p: Pairing, frame: Bytes)
    ensures Unwrap(b, p, frame).Failed? <==>
            || frame == [] || frame[0] == 1 || frame[0] > 2
            || (frame[0] == 2 && p.enclavePublicKey == None && Opens(b, p, frame) == None)
    ensures Unwrap(b, p, frame).Ciphertext? <==> frame != [] && frame[0] == 0
    ensures Unwrap(b, p, frame).Ciphertext? ==> [0] + Unwrap(b, p, frame).rest == frame
    ensures Unwrap(b, p, frame).Installed? <==> p.enclavePublicKey == None && Opens(b, p, frame).Some?
    ensures Unwrap(b, p, frame).Installed? ==> Opens(b, p, frame) == Some(Unwrap(b, p, frame).key)
    ensures frame == [] ==> Unwrap(b, p, frame) == Failed(EmptyCiphertext)
    ensures frame != [] && frame[0] == 1 ==> Unwrap(b, p, frame) == Failed(WrappedKeyUnsupported)
    ensures frame != [] && frame[0] > 2 ==> Unwrap(b, p, frame) == Failed(UnknownHeader)
  {
  }

  /** Without the phone's key nothing is decrypted; with it, exactly what the box opens. */
  lemma DecryptOutcome(b: Suite, p: Pairing, c: Bytes)
    ensures p.enclavePublicKey == None ==> DecryptMessage(b, p, c) == Err(WaitingForKey)
    ensures DecryptMessage(b, p, c).Ok? <==>
            && Ready(p) && |c| >= 24
            && b.open(c[24..], c[..24], p.enclavePublicKey.value, p.workstationSecretKey).Some?
    ensures DecryptMessage(b, p, c).Ok? ==>
            b.open(c[24..], c[..24], p.enclavePublicKey.value, p.workstationSecretKey) == Some(DecryptMessage(b, p, c).value)
  {
  }

  function Received(b: Suite, p: Pairing, frame: Bytes): Pairing {
    match Unwrap(b, p, frame)
    case Installed(key) => p.(enclavePublicKey := Some(key))
    case _ => p
  }

  function ReceivedAll(b: Suite, p: Pairing, frames: seq<Bytes>): Pairing
    decreases |frames|
  {
    if frames == [] then p else ReceivedAll(b, Received(b, p, frames[0]), frames[1..])
  }

  /** The mutable object: its fields change only under its own lock. */
  class PairingSecret {
    const suite: Suite
    var enclavePublicKey: Option<Bytes>
    const workstationPublicKey: Bytes
    const workstationSecretKey: Bytes
    const workstationName: string
    var snsEndpointARN: Option<string>
    var trackingID: Option<string>
    const version: string

    ghost function View(): Pairing
      reads this
    {
      Pairing(enclavePublicKey, workstationPublicKey, workstationSecretKey, workstationName,
              snsEndpointARN, trackingID, version)
    }

    constructor (suite: Suite, p: Pairing)
      ensures this.suite == suite && View() == p
    {
      this.suite := suite;
      enclavePublicKey := p.enclavePublicKey;
      workstationPublicKey := p.workstationPublicKey;
      workstationSecretKey := p.workstationSecretKey;
      workstationName := p.workstationName;
      snsEndpointARN := p.snsEndpointARN;
      trackingID := p.trackingID;
      version := p.version;
    }

    method UnwrapKeyIfPresent(frame: Bytes)
      returns (remaining: Option<Bytes>, didUnwrapKey: bool, err: Option<PairingError>)
      modifies this`enclavePublicKey
      ensures View() == Received(suite, old(View()), frame)
      ensures err == match Unwrap(suite, old(View()), frame) case Failed(e) => Some(e) case _ => None
      ensures remaining == match Unwrap(suite, old(View()), frame) case Ciphertext(c) => Some(c) case _ => None
      ensures didUnwrapKey <==> old(enclavePublicKey) == None && enclavePublicKey.Some?
    {
      remaining, didUnwrapKey, err := None, false, None;
      if |frame| == 0 {
        err := Some(EmptyCiphertext);
        return;
      }
      if frame[0] == HEADER_CIPHERTEXT {
        remaining := Some(frame[1..]);
      } else if frame[0] == HEADER_WRAPPED_KEY {
        err := Some(WrappedKeyUnsupported);
      } else if frame[0] == HEADER_WRAPPED_PUBLIC_KEY {
        if enclavePublicKey.Some? {
          return;
        }
        var key := UnwrapKey(suite, frame[1..], workstationPublicKey, workstationSecretKey);
        if key.Err? {
          err := Some(Crypto(key.error));
          return;
        }
        enclavePublicKey := Some(key.value);
        didUnwrapKey := true;
      } else {
        err := Some(UnknownHeader);
      }
    }

    /** A whole inbound stream; `installs` counts the frames that reported a new key. */
    method ReceiveFrames(frames: seq<Bytes>) returns (installs: nat)
      modifies this`enclavePublicKey
      ensures View() == ReceivedAll(suite, old(View()), frames)
      ensures installs <= 1
      ensures installs == 1 <==> old(enclavePublicKey) == None && enclavePublicKey.Some?
    {
      installs := 0;
      var i := 0;
      assert frames[0..] == frames;
      while i < |frames|
        invariant 0 <= i <= |frames|
        invariant ReceivedAll(suite, View(), frames[i..]) == ReceivedAll(suite, old(View()), frames)
        invariant installs <= 1
        invariant installs == 1 <==> old(enclavePublicKey) == None && enclavePublicKey.Some?
        invariant old(enclavePublicKey).Some? ==> enclavePublicKey.Some?
      {
        assert frames[i..][0] == frames[i] && frames[i..][1..] == frames[i + 1..];
        var _, didUnwrapKey, _ := UnwrapKeyIfPresent(frames[i]);
        if didUnwrapKey { installs := installs + 1; }
        i := i + 1;
      }
    }
  }

  /** Frame `i` is the first wrapped public key that opens, and `key` is what it holds. */
  ghost predicate FirstOpening(b: Suite, p: Pairing, frames: seq<Bytes>, i: nat, key: Bytes) {
    && i < |frames|
    && Opens(b, p, frames[i]) == Some(key)
    && forall j :: 0 <= j < i ==> Opens(b, p, frames[j]) == None
  }

  ghost function Opens(b: Suite, p: Pairing, frame: Bytes): Option<Bytes> {
    if |frame| > 0 && frame[0] == 2 then
      match UnwrapKey(b, frame[1..], p.workstationPublicKey, p.workstationSecretKey)
      case Err(_) => None
      case Ok(key) => Some(key)
    else None
  }

  /**
   Over every inbound stream: a key already present stays; otherwise the pairing
   ends up with the content of the first wrapped key that opens, or with none if
   none opens; and no other field moves.
   */
  lemma {:induction false} KeyIsFirstThatOpens(b: Suite, p: Pairing, frames: seq<Bytes>)
    ensures var q := ReceivedAll(b, p, frames);
            && q.(enclavePublicKey := p.enclavePublicKey) == p
            && (p.enclavePublicKey.Some? ==> q == p)
            && (p.enclavePublicKey == None ==>
                  (q.enclavePublicKey == None <==> forall j :: 0 <= j < |frames| ==> Opens(b, p, frames[j]) == None))
            && (p.enclavePublicKey == None && q.enclavePublicKey.Some? ==>
                  exists i: nat :: FirstOpening(b, p, frames, i, q.enclavePublicKey.value))
    decreases |frames|
  {
    if frames == [] {
    } else {
      var p1 := Received(b, p, frames[0]);
      var rest := frames[1..];
      assert forall j :: 0 <= j < |rest| ==> rest[j] == frames[j + 1];
      KeyIsFirstThatOpens(b, p1, rest);
      var q := ReceivedAll(b, p, frames);
      if p.enclavePublicKey == None && q.enclavePublicKey.Some? {
        if p1.enclavePublicKey.Some? {
          assert FirstOpening(b, p, frames, 0, q.enclavePublicKey.value);
        } else {
          assert p1 == p;
          var i: nat :| FirstOpening(b, p, rest, i, q.enclavePublicKey.value);
          assert FirstOpening(b, p, frames, i + 1, q.enclavePublicKey.value);
        }
      }
      if p.enclavePublicKey == None && p1 == p {
        assert Opens(b, p, frames[0]) == None;
        assert forall j :: 0 < j < |frames| ==> frames[j] == rest[j - 1];
      }
    }
  }

  /**
   The whole key exchange, with the phone as `enclaveSk` and the workstation as
   `workSk`: the wrapped key frame installs the phone's public key, and from then
   on every message survives both directions.
   */
  lemma PairedConversation(b: Suite, p: Pairing, workSk: Key, enclaveSk: Key, ephemeral: Key, m: Bytes, n: Nonce)
    requires Correct(b)
    requires p.enclavePublicKey == None
    requires p.workstationSecretKey == workSk && p.workstationPublicKey == b.pub(workSk)
    ensures var wrapped := WrapKey(b, b.pub(enclaveSk), p.workstationPublicKey, ephemeral);
            && wrapped.Ok?
            && Unwrap(b, p, wrapped.value) == Installed(b.pub(enclaveSk))
            && var q := Received(b, p, wrapped.value);
            // workstation to phone
            && var out := EncryptMessage(b, q, m, n);
            && out.Ok? && out.value[0] == HEADER_CIPHERTEXT
            && SodiumBoxOpen(b, out.value[1..], p.workstationPublicKey, enclaveSk) == Ok(m)
            // phone to workstation
            && var back := SodiumBox(b, m, p.workstationPublicKey, enclaveSk, n);
            && back.Ok?
            && Unwrap(b, q, [HEADER_CIPHERTEXT] + back.value) == Ciphertext(back.value)
            && DecryptMessage(b, q, back.value) == Ok(m)
  {
    var enclavePk := b.pub(enclaveSk);
    SealRoundTrip(b, enclavePk, workSk, ephemeral);
    var sealed := SodiumBoxSeal(b, enclavePk, p.workstationPublicKey, ephemeral).value;
    assert ([HEADER_WRAPPED_PUBLIC_KEY] + sealed)[1..] == sealed;
    BoxRoundTrip(b, m, workSk, enclaveSk, n);
    BoxRoundTrip(b, m, enclaveSk, workSk, n);
    var c := SodiumBox(b, m, enclavePk, workSk, n).value;
    assert ([HEADER_CIPHERTEXT] + c)[1..] == c;
    var d := SodiumBox(b, m, p.workstationPublicKey, enclaveSk, n).value;
    assert ([HEADER_CIPHERTEXT] + d)[1..] == d;
  }
}
