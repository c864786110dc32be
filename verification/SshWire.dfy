/**
 SSH's data representation (section 5 of RFC 4251) as golang.org/x/crypto/ssh encodes
 and decodes Go structs, field by field, and what krd/host_validation.go makes of a
 user-authentication request (section 7 of RFC 4252).
 */
module SshWire {
  import opened Basics

  const TWO_32 := 0x1_0000_0000

  // ---------- numbers ----------

  function Uint32(b: Bytes): (n: nat)
    requires |b| >= 4
    ensures n < TWO_32
  {
    var (b0: int, b1: int, b2: int, b3: int) := (b[0], b[1], b[2], b[3]);
    b0 * 0x100_0000 + b1 * 0x1_0000 + b2 * 0x100 + b3
  }

  /** The low 32 bits of `n`, most significant byte first. */
  function PutUint32(n: nat): (b: Bytes)
    ensures |b| == 4
  {
    [(n / 0x100_0000) % 256, (n / 0x1_0000) % 256, (n / 0x100) % 256, n % 256]
  }

  lemma PutUint32Inverse(n: nat)
    requires n < TWO_32
    ensures Uint32(PutUint32(n)) == n
  {
    var a := n / 0x100;
    var b := a / 0x100;
    var c := b / 0x100;
    assert n == a * 0x100 + n % 256 && a == b * 0x100 + a % 256 && b == c * 0x100 + b % 256;
    assert n / 0x1_0000 == b && n / 0x100_0000 == c && c < 256;
  }

  lemma Uint32Inverse(b: Bytes)
    requires |b| >= 4
    ensures PutUint32(Uint32(b)) == b[..4]
  {
    var n := Uint32(b);
    var b0: int, b1: int, b2: int := b[0], b[1], b[2];
    assert n / 0x100 == b0 * 0x1_0000 + b1 * 0x100 + b2;
    assert n / 0x1_0000 == b0 * 0x100 + b1;
    assert n / 0x100_0000 == b0;
  }

  // ---------- structs ----------

  datatype Kind = KByte | KBool | KString

  datatype Value = VByte(byte: Byte) | VBool(flag: bool) | VString(bytes: Bytes)

  datatype Parsed = Parsed(value: Value, rest: Bytes)

  predicate HasKind(v: Value, k: Kind) {
    match v
    case VByte(_) => k == KByte
    case VBool(_) => k == KBool
    case VString(_) => k == KString
  }

  /** parseString compares the length with the remaining bytes modulo 2^32. */
  function ParseString(data: Bytes): Option<Parsed> {
    if |data| < 4 then None
    else
      var length := Uint32(data);
      var rest := data[4..];
      if |rest| % TWO_32 < length then None
      else Some(Parsed(VString(rest[..length]), rest[length..]))
  }

  function ParseField(k: Kind, data: Bytes): (r: Option<Parsed>)
    ensures r.Some? ==> HasKind(r.value.value, k)
  {
    match k
    case KByte => if |data| < 1 then None else Some(Parsed(VByte(data[0]), data[1..]))
    case KBool => if |data| < 1 then None else Some(Parsed(VBool(data[0] != 0), data[1..]))
    case KString => ParseString(data)
  }

  function ParseFields(kinds: seq<Kind>, data: Bytes): (r: Option<seq<Value>>)
    ensures r.Some? ==> |r.value| == |kinds| && forall i :: 0 <= i < |kinds| ==> HasKind(r.value[i], kinds[i])
    decreases |kinds|
  {
    if kinds == [] then if data == [] then Some([]) else None
    else
      match ParseField(kinds[0], data)
      case None => None
      case Some(p) =>
        match ParseFields(kinds[1..], p.rest)
        case None => None
        case Some(vs) => Some([p.value] + vs)
  }

  /** ssh.Unmarshal for a struct without a message type: no data at all is an error in itself. */
  function Unmarshal(kinds: seq<Kind>, data: Bytes): (r: Option<seq<Value>>)
    ensures r.Some? ==> |r.value| == |kinds| && forall i :: 0 <= i < |kinds| ==> HasKind(r.value[i], kinds[i])
  {
    if data == [] then None else ParseFields(kinds, data)
  }

  function PutString(s: Bytes): Bytes {
    PutUint32(|s|) + s
  }

  function PutValue(v: Value): (b: Bytes)
    ensures b != []
  {
    match v
    case VByte(b) => [b]
    case VBool(b) => [if b then 1 else 0]
    case VString(s) => PutString(s)
  }

  /** ssh.Marshal */
  function Marshal(vs: seq<Value>): Bytes
    decreases |vs|
  {
    if vs == [] then [] else PutValue(vs[0]) + Marshal(vs[1..])
  }

  lemma {:induction false} MarshalConcat(a: seq<Value>, b: seq<Value>)
    ensures Marshal(a + b) == Marshal(a) + Marshal(b)
    decreases |a|
  {
    if a == [] {
      assert a + b == b;
    } else {
      assert (a + b)[0] == a[0] && (a + b)[1..] == a[1..] + b;
      MarshalConcat(a[1..], b);
    }
  }

  // ---------- decoding and encoding are inverse ----------

  /** `data` with every boolean that decoding meets reduced to 0 or 1. */
  function Canonical(kinds: seq<Kind>, data: Bytes): (r: Bytes)
    ensures |r| == |data|
    decreases |kinds|
  {
    if kinds == [] then data
    else
      match ParseField(kinds[0], data)
      case None => data
      case Some(p) =>
        var used := |data| - |p.rest|;
        (if kinds[0] == KBool then [if data[0] == 0 then 0 else 1] else data[..used]) + Canonical(kinds[1..], p.rest)
  }

  lemma ParsedFieldIs(k: Kind, data: Bytes)
    requires ParseField(k, data).Some?
    ensures var p := ParseField(k, data).value;
            && |p.rest| < |data| && data[|data| - |p.rest|..] == p.rest
            && (if k == KBool then |data| - |p.rest| == 1 && PutValue(p.value) == [if data[0] == 0 then 0 else 1]
                else PutValue(p.value) == data[..|data| - |p.rest|])
  {
    if k == KString {
      var length := Uint32(data);
      Uint32Inverse(data);
      assert data[..4 + length] == data[..4] + data[4..][..length];
      assert data[4..][length..] == data[4 + length..];
    }
  }

  lemma {:induction false} MarshalInvertsParse(kinds: seq<Kind>, data: Bytes)
    requires ParseFields(kinds, data).Some?
    ensures Marshal(ParseFields(kinds, data).value) == Canonical(kinds, data)
    decreases |kinds|
  {
    if kinds != [] {
      var p := ParseField(kinds[0], data).value;
      ParsedFieldIs(kinds[0], data);
      MarshalInvertsParse(kinds[1..], p.rest);
      var vs := ParseFields(kinds[1..], p.rest).value;
      assert ([p.value] + vs)[1..] == vs;
    }
  }

  lemma ParsePutValue(k: Kind, v: Value, rest: Bytes)
    requires HasKind(v, k) && |PutValue(v) + rest| < TWO_32
    ensures ParseField(k, PutValue(v) + rest) == Some(Parsed(v, rest))
  {
    var data := PutValue(v) + rest;
    match v
    case VString(s) =>
      PutUint32Inverse(|s|);
      assert data[..4] == PutUint32(|s|) && data[4..] == s + rest;
      assert Uint32(data) == Uint32(PutUint32(|s|));
      assert (s + rest)[..|s|] == s && (s + rest)[|s|..] == rest;
    case _ =>
      assert data[1..] == rest;
  }

  /** Every struct whose encoding is below 2^32 bytes decodes to itself. */
  lemma {:induction false} ParseInvertsMarshal(kinds: seq<Kind>, vs: seq<Value>)
    requires |vs| == |kinds| && (forall i :: 0 <= i < |kinds| ==> HasKind(vs[i], kinds[i]))
    requires |Marshal(vs)| < TWO_32
    ensures ParseFields(kinds, Marshal(vs)) == Some(vs)
    decreases |kinds|
  {
    if kinds != [] {
      var rest := Marshal(vs[1..]);
      ParsePutValue(kinds[0], vs[0], rest);
      ParseInvertsMarshal(kinds[1..], vs[1..]);
      assert [vs[0]] + vs[1..] == vs;
    }
  }

  // ---------- the signature payload ----------

  /** Session, Type, User, Service, Method, Sign, Algo, PubKey */
  const PAYLOAD: seq<Kind> := [KString, KByte, KString, KString, KString, KBool, KString, KString]
  const SESSION := 0
  const SIGN := 5
  const ALGO := 6
  const PUBKEY := 7

  function StripPubkey(data: Bytes): Option<Bytes> {
    match Unmarshal(PAYLOAD, data)
    case None => None
    case Some(vs) => Some(Marshal(vs[..PUBKEY]))
  }

  function ParseSessionAndAlgo(data: Bytes): Option<(Bytes, Bytes)> {
    match Unmarshal(PAYLOAD, data)
    case None => None
    case Some(vs) => Some((vs[SESSION].bytes, vs[ALGO].bytes))
  }

  predicate NoBools(kinds: seq<Kind>) {
    forall i :: 0 <= i < |kinds| ==> kinds[i] != KBool
  }

  lemma {:induction false} CanonicalWithoutBools(kinds: seq<Kind>, data: Bytes)
    requires NoBools(kinds)
    ensures Canonical(kinds, data) == data
    decreases |kinds|
  {
    if kinds != [] && ParseField(kinds[0], data).Some? {
      var p := ParseField(kinds[0], data).value;
      ParsedFieldIs(kinds[0], data);
      CanonicalWithoutBools(kinds[1..], p.rest);
    }
  }

  function Reduced(b: Byte): Byte {
    if b == 0 then 0 else 1
  }

  predicate OneBoolAt(kinds: seq<Kind>, i: nat) {
    i < |kinds| && kinds[i] == KBool && NoBools(kinds[..i]) && NoBools(kinds[i + 1..])
  }

  /** With a single boolean, at position `i` of the struct, only that byte is affected. */
  lemma {:induction false} CanonicalAt(kinds: seq<Kind>, i: nat, data: Bytes)
    requires OneBoolAt(kinds, i) && ParseFields(kinds, data).Some?
    ensures var at := |Marshal(ParseFields(kinds, data).value[..i])|;
            at < |data| && Canonical(kinds, data) == data[at := Reduced(data[at])]
    decreases |kinds|
  {
    var p := ParseField(kinds[0], data).value;
    ParsedFieldIs(kinds[0], data);
    if i == 0 {
      CanonicalWithoutBools(kinds[1..], p.rest);
    } else {
      assert kinds[1..][..i - 1] == kinds[..i][1..] && kinds[1..][i..] == kinds[i + 1..];
      assert kinds[0] == kinds[..i][0];
      CanonicalAt(kinds[1..], i - 1, p.rest);
      MarshalledPrefix(kinds, i, data);
      CanonicalBehind(kinds, data, |Marshal(ParseFields(kinds[1..], p.rest).value[..i - 1])|);
    }
  }

  /** The affected byte, counted from the first field on rather than from the second. */
  lemma CanonicalBehind(kinds: seq<Kind>, data: Bytes, at: nat)
    requires kinds != [] && kinds[0] != KBool && ParseField(kinds[0], data).Some?
    requires var rest := ParseField(kinds[0], data).value.rest;
             at < |rest| && Canonical(kinds[1..], rest) == rest[at := Reduced(rest[at])]
    ensures var i := |data| - |ParseField(kinds[0], data).value.rest| + at;
            0 <= i < |data| && Canonical(kinds, data) == data[i := Reduced(data[i])]
  {
    var rest := ParseField(kinds[0], data).value.rest;
    ParsedFieldIs(kinds[0], data);
    UpdateBehind(data, rest, at, Reduced(rest[at]));
  }

  lemma UpdateBehind(data: Bytes, rest: Bytes, at: nat, x: Byte)
    requires |rest| <= |data| && data[|data| - |rest|..] == rest && at < |rest|
    ensures var used := |data| - |rest|;
            data[used + at] == rest[at] && data[..used] + rest[at := x] == data[used + at := x]
  {
    var used := |data| - |rest|;
    assert rest[at] == data[used..][at];
  }

  /** The encoded length of the first `i` fields, counted from the second field on. */
  lemma MarshalledPrefix(kinds: seq<Kind>, i: nat, data: Bytes)
    requires 0 < i < |kinds| && kinds[0] != KBool && ParseFields(kinds, data).Some?
    ensures var p := ParseField(kinds[0], data).value;
            |Marshal(ParseFields(kinds, data).value[..i])| ==
            |data| - |p.rest| + |Marshal(ParseFields(kinds[1..], p.rest).value[..i - 1])|
  {
    var p := ParseField(kinds[0], data).value;
    ParsedFieldIs(kinds[0], data);
    var tail := ParseFields(kinds[1..], p.rest).value;
    var front := ([p.value] + tail)[..i];
    assert front[0] == p.value && front[1..] == tail[..i - 1];
  }

  /** Where the Sign byte of a decodable payload lies: right behind the five fields before it. */
  ghost function SignAt(data: Bytes): nat
    requires Unmarshal(PAYLOAD, data).Some?
  {
    |Marshal(Unmarshal(PAYLOAD, data).value[..SIGN])|
  }

  lemma PayloadHasOneBool()
    ensures OneBoolAt(PAYLOAD, SIGN)
  {
  }

  lemma StripThenAppend(data: Bytes)
    requires Unmarshal(PAYLOAD, data).Some?
    ensures StripPubkey(data).Some?
    ensures StripPubkey(data).value + PutString(Unmarshal(PAYLOAD, data).value[PUBKEY].bytes) == Canonical(PAYLOAD, data)
  {
    MarshalInvertsParse(PAYLOAD, data);
    SplitLast(Unmarshal(PAYLOAD, data).value);
  }

  lemma SignByteReduced(data: Bytes)
    requires Unmarshal(PAYLOAD, data).Some?
    ensures SignAt(data) < |data| && Canonical(PAYLOAD, data) == data[SignAt(data) := Reduced(data[SignAt(data)])]
  {
    PayloadHasOneBool();
    CanonicalAt(PAYLOAD, SIGN, data);
  }

  lemma ReducedIff(data: Bytes, at: nat)
    requires at < |data|
    ensures data[at := Reduced(data[at])] == data <==> data[at] <= 1
  {
    var reduced := data[at := Reduced(data[at])];
    assert reduced[at] == Reduced(data[at]);
    if data[at] <= 1 { assert reduced == data; }
  }

  lemma SplitLast(vs: seq<Value>)
    requires |vs| == PUBKEY + 1 && vs[PUBKEY].VString?
    ensures Marshal(vs) == Marshal(vs[..PUBKEY]) + PutString(vs[PUBKEY].bytes)
  {
    var last := [vs[PUBKEY]];
    assert vs == vs[..PUBKEY] + last;
    MarshalConcat(vs[..PUBKEY], last);
    assert last[1..] == [] && Marshal(last) == PutValue(last[0]) + Marshal([]);
  }

  /**
   For every payload that decodes, the stripped payload followed by the length-prefixed
   public key is the payload itself, with the Sign byte reduced to 0 or 1; hence it is
   exactly the original bytes if and only if that byte was 0 or 1.
   */
  lemma StripThenAppendIff(data: Bytes)
    requires Unmarshal(PAYLOAD, data).Some?
    ensures var key := Unmarshal(PAYLOAD, data).value[PUBKEY].bytes;
            var at := SignAt(data);
            && at < |data| && StripPubkey(data).Some?
            && StripPubkey(data).value + PutString(key) == data[at := Reduced(data[at])]
            && (StripPubkey(data).value + PutString(key) == data <==> data[at] <= 1)
  {
    StripThenAppend(data);
    SignByteReduced(data);
    ReducedIff(data, SignAt(data));
  }

  /** The eight fields of an authentication request, as the protocol names them. */
  datatype Payload = Payload(
    session: Bytes, kind: Byte, user: Bytes, service: Bytes, method_: Bytes, sign: bool, algo: Bytes, pubKey: Bytes)

  function Values(p: Payload): seq<Value> {
    [VString(p.session), VByte(p.kind), VString(p.user), VString(p.service), VString(p.method_),
     VBool(p.sign), VString(p.algo), VString(p.pubKey)]
  }

  /** The byte layout of a request (section 7 of RFC 4252): eight fields in this order, strings behind their length. */
  lemma RequestLayout(p: Payload)
    ensures Marshal(Values(p)) ==
            PutString(p.session) + ([p.kind] + (PutString(p.user) + (PutString(p.service) + (PutString(p.method_)
            + ([if p.sign then 1 else 0] + (PutString(p.algo) + PutString(p.pubKey)))))))
  {
    var vs := Values(p);
    assert Marshal(vs[8..]) == [];
    MarshalFrom(vs, 7);
    MarshalFrom(vs, 6);
    MarshalFrom(vs, 5);
    MarshalFrom(vs, 4);
    MarshalFrom(vs, 3);
    MarshalFrom(vs, 2);
    MarshalFrom(vs, 1);
    MarshalFrom(vs, 0);
    assert PutString(p.pubKey) + [] == PutString(p.pubKey) && vs[0..] == vs;
  }

  lemma MarshalFrom(vs: seq<Value>, i: nat)
    requires i < |vs|
    ensures Marshal(vs[i..]) == PutValue(vs[i]) + Marshal(vs[i + 1..])
  {
    assert vs[i..][1..] == vs[i + 1..];
  }

  /** A string stands behind its length, in four bytes, the most significant first (section 5 of RFC 4251). */
  lemma StringLayout(s: Bytes)
    requires |s| < TWO_32
    ensures PutString(s) == [|s| / 0x100_0000, |s| / 0x1_0000 % 0x100, |s| / 0x100 % 0x100, |s| % 0x100] + s
  {
    TopByte(|s|);
  }

  lemma TopByte(n: nat)
    requires n < TWO_32
    ensures n / 0x100_0000 < 256 && (n / 0x100_0000) % 256 == n / 0x100_0000
  {
  }

  /**
   Every encoded request below 2^32 bytes is understood: its session and algorithm come
   out unchanged, and stripping removes just the key and its length.
   */
  lemma EncodedRequest(p: Payload)
    requires |Marshal(Values(p))| < TWO_32
    ensures var data := Marshal(Values(p));
            && ParseSessionAndAlgo(data) == Some((p.session, p.algo))
            && StripPubkey(data) == Some(Marshal(Values(p)[..PUBKEY]))
            && Marshal(Values(p)[..PUBKEY]) + PutString(p.pubKey) == data
  {
    var vs := Values(p);
    ParseInvertsMarshal(PAYLOAD, vs);
    SplitLast(vs);
    assert Marshal(vs) != [];
  }
}
