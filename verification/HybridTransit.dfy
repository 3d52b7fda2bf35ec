/**
 * The hybrid key exchange (native/hybrid_kem.rs).  The primitives are the functions of a `Primitives`
 * record; what is proved uses only the laws stated of them, and randomness is a parameter.
 */
module HybridKem {
  import opened Common
  import opened Framing

  const KEM_EK_LEN: nat := 1184
  const KEM_CT_LEN: nat := 1088
  const KEM_DK_LEN: nat := 2400
  const KEM_SEED_LEN: nat := 64
  const PUBLIC_LEN: nat := 32 + KEM_EK_LEN
  const CIPHERTEXT_LEN: nat := 32 + KEM_CT_LEN
  const SECRET_LEN: nat := 32 + KEM_SEED_LEN

  /** cSHAKE256 (section 3 of NIST SP 800-185), X25519 (section 5 of RFC 7748), ML-KEM-768 (FIPS 203),
      XChaCha20-Poly1305, SHA-256 and HMAC.  Key generation, encapsulation and encryption may fail. */
  datatype Primitives = Primitives(
    xof: (Bytes, Bytes) -> Bytes,
    xPublic: Bytes -> Bytes,
    dh: (Bytes, Bytes) -> Bytes,
    keygen: Bytes -> Option<(Bytes, Bytes)>,
    ekAccepted: Bytes -> bool,
    encaps: (Bytes, Bytes) -> Option<(Bytes, Bytes)>,
    decaps: (Bytes, Bytes) -> Option<Bytes>,
    encrypt: (Bytes, Bytes, Bytes, Bytes) -> Option<Bytes>,
    decrypt: (Bytes, Bytes, Bytes, Bytes) -> Option<Bytes>,
    sha256: Bytes -> Bytes,
    hmac: (Bytes, Bytes) -> Bytes)

  ghost predicate SizeLaws(prim: Primitives) {
    && (forall l, i :: |prim.xof(l, i)| == 32)
    && (forall x :: |prim.xPublic(x)| == 32)
    && (forall x, y :: |prim.dh(x, y)| == 32)
    && (forall m :: |prim.sha256(m)| == 32)
    && (forall k, m :: |prim.hmac(k, m)| == 32)
  }

  /** Both sides of an X25519 exchange reach one secret. */
  ghost predicate AgreementLaw(prim: Primitives) {
    forall a, b :: prim.dh(a, prim.xPublic(b)) == prim.dh(b, prim.xPublic(a))
  }

  /** A generated key is accepted, and opens every encapsulation to it. */
  ghost predicate KemLaw(prim: Primitives) {
    forall seed :: prim.keygen(seed).Some? ==>
      var (dk, ek) := prim.keygen(seed).value;
      && |ek| == KEM_EK_LEN && prim.ekAccepted(ek)
      && forall coins :: prim.encaps(ek, coins).Some? ==>
           prim.decaps(dk, prim.encaps(ek, coins).value.0) == Some(prim.encaps(ek, coins).value.1)
  }

  /** Encryption appends a 16-byte tag, and decryption accepts exactly the ciphertexts of encryption. */
  ghost predicate AeadLaw(prim: Primitives) {
    forall key, nonce, aad, m, c ::
      && (prim.decrypt(key, nonce, aad, c) == Some(m) <==> prim.encrypt(key, nonce, aad, m) == Some(c))
      && (prim.encrypt(key, nonce, aad, m) == Some(c) ==> |c| == |m| + 16)
  }

  ghost predicate Laws(prim: Primitives) {
    SizeLaws(prim) && AgreementLaw(prim) && KemLaw(prim) && AeadLaw(prim)
  }

  function Ones(n: nat): (b: Bytes)
    ensures |b| == n
  {
    seq(n, i => 1)
  }

  function Tagged(m: Bytes): Bytes {
    m + Ones(16)
  }

  function Untagged(c: Bytes): Option<Bytes> {
    if |c| >= 16 && c[|c| - 16..] == Ones(16) then Some(c[..|c| - 16]) else None
  }

  /** Constant functions, and a tag of ones. */
  function Trivial(): Primitives {
    Primitives(
      (l, i) => Ones(32), x => Ones(32), (x, y) => Ones(32),
      seed => Some((seed, Ones(KEM_EK_LEN))), ek => true,
      (ek, coins) => Some((Ones(KEM_CT_LEN), Ones(32))), (dk, ct) => Some(Ones(32)),
      (key, nonce, aad, m) => Some(Tagged(m)), (key, nonce, aad, c) => Untagged(c),
      m => Ones(32), (k, m) => Ones(32))
  }

  /** The laws do not contradict each other. */
  lemma LawsAreConsistent()
    ensures Laws(Trivial())
  {
    forall m, c ensures Untagged(c) == Some(m) <==> Tagged(m) == c {
      assert |c| >= 16 ==> c == c[..|c| - 16] + c[|c| - 16..];
      assert Tagged(m)[|m|..] == Ones(16) && Tagged(m)[..|m|] == m;
    }
  }

  datatype Refusal =
    | PreHybridKey | KeyLength | MalformedKey | PreHybridSecret | SecretLength | KeygenFailed
    | LowOrderRecipient | EncapsulationFailed | CiphertextLength | LowOrderEphemeral | DecapsulationFailed
    | PlaintextOrContextBound | SealFailed | V1Capsule | CiphertextOrContextBound | CommitmentRefused
    | AuthenticationRefused | EpochOrBindingBound | PlaintextBound | CiphertextBound | PairingRefused

  datatype Public = Public(x25519: Bytes, kem: Bytes)

  datatype Secret = Secret(x25519: Bytes, seed: Bytes, dk: Bytes, public: Public)

  predicate WellSized(p: Public) {
    |p.x25519| == 32 && |p.kem| == KEM_EK_LEN
  }

  // ------------------------------------------------------------------ key encodings

  function PublicToBytes(p: Public): Bytes {
    p.x25519 + p.kem
  }

  function PublicFromBytes(prim: Primitives, b: Bytes): Result<Public, Refusal> {
    if |b| == KEM_EK_LEN then Err(PreHybridKey)
    else if |b| != PUBLIC_LEN then Err(KeyLength)
    else if !prim.ekAccepted(b[32..]) then Err(MalformedKey)
    else Ok(Public(b[..32], b[32..]))
  }

  function SecretFromParts(prim: Primitives, x25519: Bytes, seed: Bytes): Result<Secret, Refusal> {
    match prim.keygen(seed)
    case None => Err(KeygenFailed)
    case Some((dk, ek)) => Ok(Secret(x25519, seed, dk, Public(prim.xPublic(x25519), ek)))
  }

  function SecretToBytes(s: Secret): Bytes {
    s.x25519 + s.seed
  }

  function SecretFromBytes(prim: Primitives, b: Bytes): Result<Secret, Refusal> {
    if |b| == KEM_DK_LEN then Err(PreHybridSecret)
    else if |b| != SECRET_LEN then Err(SecretLength)
    else SecretFromParts(prim, b[..32], b[32..])
  }

  /** Reading inverts writing on every well-sized key the implementation accepts, and what is read is
      what writing would have produced; the pre-hybrid length is refused by its own name. */
  lemma PublicRoundTrip(prim: Primitives, p: Public, b: Bytes)
    ensures WellSized(p) && prim.ekAccepted(p.kem) ==> PublicFromBytes(prim, PublicToBytes(p)) == Ok(p)
    ensures PublicFromBytes(prim, b) == Ok(p) <==> WellSized(p) && prim.ekAccepted(p.kem) && b == PublicToBytes(p)
    ensures PublicFromBytes(prim, b) == Err(PreHybridKey) <==> |b| == KEM_EK_LEN
  {
    var w := PublicToBytes(p);
    assert |w| == PUBLIC_LEN && |p.x25519| == 32 ==> w[..32] == p.x25519 && w[32..] == p.kem;
    assert |b| == PUBLIC_LEN ==> b == b[..32] + b[32..];
  }

  lemma SecretRoundTrip(prim: Primitives, s: Secret, b: Bytes)
    ensures SecretFromBytes(prim, b) == Ok(s) <==>
            && |s.x25519| == 32 && |s.seed| == KEM_SEED_LEN && b == SecretToBytes(s)
            && SecretFromParts(prim, s.x25519, s.seed) == Ok(s)
    ensures SecretFromBytes(prim, b) == Err(PreHybridSecret) <==> |b| == KEM_DK_LEN
  {
    var w := SecretToBytes(s);
    assert |w| == SECRET_LEN && |s.x25519| == 32 ==> w[..32] == s.x25519 && w[32..] == s.seed;
    assert |b| == SECRET_LEN ==> b == b[..32] + b[32..];
  }

  // ------------------------------------------------------------------ the transcript and the combiner

  function CShake(prim: Primitives, customization: Bytes, parts: seq<Bytes>): Bytes {
    prim.xof(customization, Framed(parts))
  }

  method CShakeXof(prim: Primitives, customization: Bytes, parts: seq<Bytes>) returns (output: Bytes)
    ensures output == CShake(prim, customization, parts)
  {
    var absorbed := Frame(parts);
    output := prim.xof(customization, absorbed);
  }

  function TranscriptParts(frame: Bytes, context: seq<Bytes>, ephemeral: Bytes, ct: Bytes, recipient: Public)
    : seq<Bytes>
  {
    [frame] + context + [ephemeral, ct, recipient.x25519, recipient.kem]
  }

  function Transcript(frame: Bytes, context: seq<Bytes>, ephemeral: Bytes, ct: Bytes, recipient: Public): Bytes {
    Framed(TranscriptParts(frame, context, ephemeral, ct, recipient))
  }

  function Combine(prim: Primitives, suite: Bytes, sharedX: Bytes, sharedK: Bytes, transcript: Bytes): Bytes {
    CShake(prim, suite, [sharedX, sharedK, transcript])
  }

  /** A transcript determines everything it is over, the number of context parts included. */
  lemma TranscriptBinds(
    f: Bytes, c: seq<Bytes>, e: Bytes, k: Bytes, r: Public, f': Bytes, c': seq<Bytes>, e': Bytes, k': Bytes, r': Public)
    requires AllFit(TranscriptParts(f, c, e, k, r)) && AllFit(TranscriptParts(f', c', e', k', r'))
    requires Transcript(f, c, e, k, r) == Transcript(f', c', e', k', r')
    ensures f == f' && c == c' && e == e' && k == k' && r == r'
  {
    var a, b := TranscriptParts(f, c, e, k, r), TranscriptParts(f', c', e', k', r');
    FramedIsInjective(a, b);
    var n := |c|;
    assert |a| == n + 5 && |b| == |c'| + 5;
    assert a[0] == f && a[1..n + 1] == c && a[n + 1] == e && a[n + 2] == k && a[n + 3] == r.x25519 && a[n + 4] == r.kem;
    assert b[0] == f' && b[1..n + 1] == c' && b[n + 1] == e' && b[n + 2] == k' && b[n + 3] == r'.x25519 &&
           b[n + 4] == r'.kem;
  }

  /** Two different inputs of the hash with one output. */
  predicate XofCollision(prim: Primitives, l: Bytes, i: Bytes, l': Bytes, i': Bytes) {
    (l, i) != (l', i') && prim.xof(l, i) == prim.xof(l', i')
  }

  datatype Exchange = Exchange(
    suite: Bytes, sharedX: Bytes, sharedK: Bytes, frame: Bytes, context: seq<Bytes>, ephemeral: Bytes, ct: Bytes,
    recipient: Public)

  function TranscriptOf(x: Exchange): Bytes {
    Transcript(x.frame, x.context, x.ephemeral, x.ct, x.recipient)
  }

  function KekOf(prim: Primitives, x: Exchange): Bytes {
    Combine(prim, x.suite, x.sharedX, x.sharedK, TranscriptOf(x))
  }

  predicate ExchangeFits(x: Exchange) {
    && AllFit(TranscriptParts(x.frame, x.context, x.ephemeral, x.ct, x.recipient))
    && Fits(x.sharedX) && Fits(x.sharedK) && Fits(TranscriptOf(x))
  }

  /** Equal keys come from equal exchanges, unless they exhibit a collision of the hash. */
  lemma KekBinds(prim: Primitives, x: Exchange, y: Exchange)
    requires ExchangeFits(x) && ExchangeFits(y) && KekOf(prim, x) == KekOf(prim, y)
    ensures || x == y
            || XofCollision(prim, x.suite, Framed([x.sharedX, x.sharedK, TranscriptOf(x)]),
                            y.suite, Framed([y.sharedX, y.sharedK, TranscriptOf(y)]))
  {
    var a, b := [x.sharedX, x.sharedK, TranscriptOf(x)], [y.sharedX, y.sharedK, TranscriptOf(y)];
    if x.suite == y.suite && Framed(a) == Framed(b) {
      FramedIsInjective(a, b);
      assert a[0] == b[0] && a[1] == b[1] && a[2] == b[2];
      TranscriptBinds(x.frame, x.context, x.ephemeral, x.ct, x.recipient, y.frame, y.context, y.ephemeral, y.ct,
                      y.recipient);
    }
  }

  // ------------------------------------------------------------------ encapsulation

  datatype Encapsulated = Encapsulated(ciphertext: Bytes, kek: Bytes, transcript: Bytes)

  /** The zero-output check of section 6.1 of RFC 7748. */
  predicate Contributory(shared: Bytes) {
    exists i :: 0 <= i < |shared| && shared[i] != 0
  }

  function Encapsulation(
    prim: Primitives, suite: Bytes, frame: Bytes, context: seq<Bytes>, recipient: Public, ephemeralSecret: Bytes,
    coins: Bytes)
    : Result<Encapsulated, Refusal>
  {
    var ephemeral := prim.xPublic(ephemeralSecret);
    var sharedX := prim.dh(ephemeralSecret, recipient.x25519);
    if !Contributory(sharedX) then Err(LowOrderRecipient)
    else if !prim.ekAccepted(recipient.kem) then Err(MalformedKey)
    else
      match prim.encaps(recipient.kem, coins)
      case None => Err(EncapsulationFailed)
      case Some((ct, sharedK)) =>
        if |ct| != KEM_CT_LEN then Err(EncapsulationFailed)
        else
          var transcript := Transcript(frame, context, ephemeral, ct, recipient);
          Ok(Encapsulated(ephemeral + ct, Combine(prim, suite, sharedX, sharedK, transcript), transcript))
  }

  /** `encapsulate`, filling the fixed-size ciphertext in its two halves. */
  method Encapsulate(
    prim: Primitives, suite: Bytes, frame: Bytes, context: seq<Bytes>, recipient: Public, ephemeralSecret: Bytes,
    coins: Bytes)
    returns (r: Result<Encapsulated, Refusal>)
    requires SizeLaws(prim)
    ensures r == Encapsulation(prim, suite, frame, context, recipient, ephemeralSecret, coins)
  {
    var ephemeral := prim.xPublic(ephemeralSecret);
    var sharedX := prim.dh(ephemeralSecret, recipient.x25519);
    if !Contributory(sharedX) { return Err(LowOrderRecipient); }
    if !prim.ekAccepted(recipient.kem) { return Err(MalformedKey); }
    var encapsulation := prim.encaps(recipient.kem, coins);
    if encapsulation.None? { return Err(EncapsulationFailed); }
    var (ct, sharedK) := encapsulation.value;
    if |ct| != KEM_CT_LEN { return Err(EncapsulationFailed); }
    var transcript := Frame(TranscriptParts(frame, context, ephemeral, ct, recipient));
    var kek := CShakeXof(prim, suite, [sharedX, sharedK, transcript]);
    var ciphertext := new Byte[CIPHERTEXT_LEN](_ => 0);
    forall i | 0 <= i < 32 { ciphertext[i] := ephemeral[i]; }
    forall i | 0 <= i < KEM_CT_LEN { ciphertext[32 + i] := ct[i]; }
    assert ciphertext[..] == ephemeral + ct;
    r := Ok(Encapsulated(ciphertext[..], kek, transcript));
  }

  lemma EncapsulatedSize(
    prim: Primitives, suite: Bytes, frame: Bytes, context: seq<Bytes>, recipient: Public, ephemeralSecret: Bytes,
    coins: Bytes)
    requires SizeLaws(prim)
    ensures var e := Encapsulation(prim, suite, frame, context, recipient, ephemeralSecret, coins);
            e.Ok? ==> |e.value.ciphertext| == CIPHERTEXT_LEN
  {
  }

  function Decapsulate(prim: Primitives, suite: Bytes, frame: Bytes, context: seq<Bytes>, s: Secret, ciphertext: Bytes)
    : Result<(Bytes, Bytes), Refusal>
  {
    if |ciphertext| != CIPHERTEXT_LEN then Err(CiphertextLength)
    else
      var ephemeral := ciphertext[..32];
      var sharedX := prim.dh(s.x25519, ephemeral);
      if !Contributory(sharedX) then Err(LowOrderEphemeral)
      else
        match prim.decaps(s.dk, ciphertext[32..])
        case None => Err(DecapsulationFailed)
        case Some(sharedK) =>
          var transcript := Transcript(frame, context, ephemeral, ciphertext[32..], s.public);
          Ok((Combine(prim, suite, sharedX, sharedK, transcript), transcript))
  }

  function Zeros(n: nat): (b: Bytes)
    ensures |b| == n
  {
    seq(n, i => 0)
  }

  lemma ContributoryExactly(prim: Primitives, a: Bytes, b: Bytes)
    requires SizeLaws(prim)
    ensures Contributory(prim.dh(a, b)) <==> prim.dh(a, b) != Zeros(32)
  {
    var shared := prim.dh(a, b);
    if !Contributory(shared) { assert shared == Zeros(32); }
    if Contributory(shared) {
      var i :| 0 <= i < |shared| && shared[i] != 0;
      assert Zeros(32)[i] == 0;
    }
  }

  /** Encapsulation refuses exactly a recipient key with an all-zero shared secret, a malformed key, or a
      failing primitive, in that order. */
  lemma EncapsulationRefusesExactly(
    prim: Primitives, suite: Bytes, frame: Bytes, context: seq<Bytes>, recipient: Public, ephemeralSecret: Bytes,
    coins: Bytes)
    requires SizeLaws(prim)
    ensures var r := Encapsulation(prim, suite, frame, context, recipient, ephemeralSecret, coins);
            var low := prim.dh(ephemeralSecret, recipient.x25519) == Zeros(32);
            var sent := prim.encaps(recipient.kem, coins);
            && (r == Err(LowOrderRecipient) <==> low)
            && (r == Err(MalformedKey) <==> !low && !prim.ekAccepted(recipient.kem))
            && (r == Err(EncapsulationFailed) <==>
                  !low && prim.ekAccepted(recipient.kem) && (sent.None? || |sent.value.0| != KEM_CT_LEN))
            && (r.Ok? <==> !low && prim.ekAccepted(recipient.kem) && sent.Some? && |sent.value.0| == KEM_CT_LEN)
  {
    ContributoryExactly(prim, ephemeralSecret, recipient.x25519);
  }

  /** Decapsulation refuses exactly a wrong length, an ephemeral key with an all-zero shared secret, or a failing
      primitive, in that order. */
  lemma DecapsulationRefusesExactly(
    prim: Primitives, suite: Bytes, frame: Bytes, context: seq<Bytes>, s: Secret, ciphertext: Bytes)
    requires SizeLaws(prim)
    ensures var r := Decapsulate(prim, suite, frame, context, s, ciphertext);
            && (r == Err(CiphertextLength) <==> |ciphertext| != CIPHERTEXT_LEN)
            && (|ciphertext| == CIPHERTEXT_LEN ==>
                  var low := prim.dh(s.x25519, ciphertext[..32]) == Zeros(32);
                  && (r == Err(LowOrderEphemeral) <==> low)
                  && (r == Err(DecapsulationFailed) <==> !low && prim.decaps(s.dk, ciphertext[32..]).None?)
                  && (r.Ok? <==> !low && prim.decaps(s.dk, ciphertext[32..]).Some?))
  {
    if |ciphertext| == CIPHERTEXT_LEN { ContributoryExactly(prim, s.x25519, ciphertext[..32]); }
  }

  /** The exchange a decapsulation is over. */
  function ExchangeOf(prim: Primitives, suite: Bytes, frame: Bytes, context: seq<Bytes>, s: Secret, ciphertext: Bytes)
    : Exchange
    requires |ciphertext| == CIPHERTEXT_LEN && prim.decaps(s.dk, ciphertext[32..]).Some?
  {
    Exchange(suite, prim.dh(s.x25519, ciphertext[..32]), prim.decaps(s.dk, ciphertext[32..]).value, frame, context,
             ciphertext[..32], ciphertext[32..], s.public)
  }

  /** Two decapsulations reach one key only over one suite, frame, context, ciphertext and recipient, unless they
      exhibit a collision of the hash. */
  lemma DecapsulatedKeysBind(
    prim: Primitives, suite: Bytes, frame: Bytes, context: seq<Bytes>, s: Secret, c: Bytes,
    suite': Bytes, frame': Bytes, context': seq<Bytes>, s': Secret, c': Bytes)
    requires Decapsulate(prim, suite, frame, context, s, c).Ok?
    requires Decapsulate(prim, suite', frame', context', s', c').Ok?
    requires Decapsulate(prim, suite, frame, context, s, c).value.0 ==
             Decapsulate(prim, suite', frame', context', s', c').value.0
    requires ExchangeFits(ExchangeOf(prim, suite, frame, context, s, c))
    requires ExchangeFits(ExchangeOf(prim, suite', frame', context', s', c'))
    ensures var x := ExchangeOf(prim, suite, frame, context, s, c);
            var y := ExchangeOf(prim, suite', frame', context', s', c');
            || (suite == suite' && frame == frame' && context == context' && c == c' && s.public == s'.public)
            || XofCollision(prim, x.suite, Framed([x.sharedX, x.sharedK, TranscriptOf(x)]),
                            y.suite, Framed([y.sharedX, y.sharedK, TranscriptOf(y)]))
  {
    KekBinds(prim, ExchangeOf(prim, suite, frame, context, s, c), ExchangeOf(prim, suite', frame', context', s', c'));
    assert c == c[..32] + c[32..] && c' == c'[..32] + c'[32..];
  }

  /** The holder of the secret reaches the sender's key and transcript. */
  lemma DecapsulationAgrees(
    prim: Primitives, suite: Bytes, frame: Bytes, context: seq<Bytes>, s: Secret, ephemeralSecret: Bytes, coins: Bytes)
    requires Laws(prim) && SecretFromParts(prim, s.x25519, s.seed) == Ok(s)
    ensures var e := Encapsulation(prim, suite, frame, context, s.public, ephemeralSecret, coins);
            e.Ok? ==> |e.value.ciphertext| == CIPHERTEXT_LEN &&
                      Decapsulate(prim, suite, frame, context, s, e.value.ciphertext) ==
                        Ok((e.value.kek, e.value.transcript))
  {
    var e := Encapsulation(prim, suite, frame, context, s.public, ephemeralSecret, coins);
    if e.Ok? {
      var ephemeral := prim.xPublic(ephemeralSecret);
      var ct := prim.encaps(s.public.kem, coins).value.0;
      assert prim.keygen(s.seed).value.1 == s.public.kem;
      assert e.value.ciphertext[..32] == ephemeral && e.value.ciphertext[32..] == ct;
      assert prim.dh(s.x25519, ephemeral) == prim.dh(ephemeralSecret, s.public.x25519);
    }
  }
}

/** Transit capsules (native/crypto_transit.rs). */
module Transit {
  import opened Common
  import opened Framing
  import opened HybridKem

  const NONCE_BYTES: nat := 24
  const COMMITMENT_BYTES: nat := 32
  const TAG_BYTES: nat := 16
  const OVERHEAD_BYTES: nat := CIPHERTEXT_LEN + NONCE_BYTES + COMMITMENT_BYTES + TAG_BYTES
  const MAX_PLAINTEXT: nat := 262144
  const MAX_LAYER_PLAINTEXT: nat := MAX_PLAINTEXT + 4 * OVERHEAD_BYTES
  const MAX_CONTEXT: nat := 73728
  const MAX_EPOCH: nat := 4096
  const MAX_BINDING: nat := 65536

  const RECIPIENT_DOMAIN := Ascii("Mini/independent-recipient-transit/v2")
  const FRAME := Ascii("DREGG/HYBRID-TRANSIT/v2")
  const SUITE := Ascii("DREGG.TRANSIT.KEK/x25519+ml-kem-768/v2")
  const AEAD_LABEL := Ascii("DREGG.TRANSIT.AEAD-KEY/v2")
  const COMMIT_LABEL := Ascii("DREGG.TRANSIT.COMMIT-KEY/v2")

  datatype Sealed = Sealed(hybrid: Bytes, nonce: Bytes, commitment: Bytes, ciphertext: Bytes)

  /** A sender's randomness. */
  datatype Coins = Coins(ephemeral: Bytes, kem: Bytes, nonce: Bytes)

  // ------------------------------------------------------------------ the recipient context

  predicate InBounds(epoch: Bytes, binding: Bytes) {
    0 < |epoch| <= MAX_EPOCH && 0 < |binding| <= MAX_BINDING
  }

  function ContextOf(epoch: Bytes, binding: Bytes): Bytes {
    RECIPIENT_DOMAIN + (LittlePrefix(epoch) + epoch + (LittlePrefix(binding) + binding))
  }

  function RecipientContext(epoch: Bytes, binding: Bytes): Result<Bytes, Refusal> {
    if !InBounds(epoch, binding) then Err(EpochOrBindingBound) else Ok(ContextOf(epoch, binding))
  }

  method BuildContext(epoch: Bytes, binding: Bytes) returns (r: Result<Bytes, Refusal>)
    ensures r == RecipientContext(epoch, binding)
  {
    if epoch == [] || |epoch| > MAX_EPOCH || binding == [] || |binding| > MAX_BINDING {
      return Err(EpochOrBindingBound);
    }
    var aad := RECIPIENT_DOMAIN;
    var parts := [epoch, binding];
    for i := 0 to 2
      invariant aad == RECIPIENT_DOMAIN + (if i == 0 then [] else LittlePrefix(epoch) + epoch)
                       + (if i < 2 then [] else LittlePrefix(binding) + binding)
    {
      aad := aad + LittlePrefix(parts[i]);
      aad := aad + parts[i];
    }
    assert aad == ContextOf(epoch, binding);
    r := Ok(aad);
  }

  /** The context determines the epoch and the binding. */
  lemma ContextBinds(epoch: Bytes, binding: Bytes, epoch': Bytes, binding': Bytes)
    requires InBounds(epoch, binding) && InBounds(epoch', binding') &&
             ContextOf(epoch, binding) == ContextOf(epoch', binding')
    ensures epoch == epoch' && binding == binding'
  {
    var x, y := LittlePrefix(binding) + binding, LittlePrefix(binding') + binding';
    var a, b := ContextOf(epoch, binding), ContextOf(epoch', binding');
    assert a[|RECIPIENT_DOMAIN|..] == LittlePrefix(epoch) + epoch + x;
    assert b[|RECIPIENT_DOMAIN|..] == LittlePrefix(epoch') + epoch' + y;
    LittlePrefixSplits(epoch, x, epoch', y);
    assert x + [] == x && y + [] == y;
    LittlePrefixSplits(binding, [], binding', []);
  }

  /** A recipient context is never refused by the inner bound: it is not empty and has at most 69685 bytes. */
  lemma ContextIsInBound(epoch: Bytes, binding: Bytes)
    requires InBounds(epoch, binding)
    ensures 0 < |ContextOf(epoch, binding)| <= 69685 < MAX_CONTEXT
  {
    assert |RECIPIENT_DOMAIN| == 37;
    assert |ContextOf(epoch, binding)| == 37 + (8 + |epoch| + (8 + |binding|));
  }

  // ------------------------------------------------------------------ under one key

  function AeadKey(prim: Primitives, kek: Bytes): Bytes {
    CShake(prim, AEAD_LABEL, [kek])
  }

  function CommitKey(prim: Primitives, kek: Bytes): Bytes {
    CShake(prim, COMMIT_LABEL, [kek])
  }

  /** The two subkeys differ, unless they exhibit a collision of the hash. */
  lemma SubkeysDiffer(prim: Primitives, kek: Bytes)
    ensures AeadKey(prim, kek) != CommitKey(prim, kek) ||
            XofCollision(prim, AEAD_LABEL, Framed([kek]), COMMIT_LABEL, Framed([kek]))
  {
    assert |AEAD_LABEL| == 25 && |COMMIT_LABEL| == 27;
  }

  function CommitmentOf(prim: Primitives, commitKey: Bytes, transcript: Bytes, cipher: Bytes): Bytes {
    prim.hmac(commitKey, transcript + prim.sha256(cipher))
  }

  /** What a key and its transcript make of a plaintext. */
  function SealUnder(prim: Primitives, kek: Bytes, transcript: Bytes, nonce: Bytes, plain: Bytes)
    : Result<(Bytes, Bytes), Refusal>
  {
    match prim.encrypt(AeadKey(prim, kek), nonce, transcript, plain)
    case None => Err(SealFailed)
    case Some(cipher) => Ok((CommitmentOf(prim, CommitKey(prim, kek), transcript, cipher), cipher))
  }

  function OpenUnder(prim: Primitives, kek: Bytes, transcript: Bytes, nonce: Bytes, commitment: Bytes, cipher: Bytes)
    : Result<Bytes, Refusal>
  {
    if CommitmentOf(prim, CommitKey(prim, kek), transcript, cipher) != commitment then Err(CommitmentRefused)
    else
      match prim.decrypt(AeadKey(prim, kek), nonce, transcript, cipher)
      case None => Err(AuthenticationRefused)
      case Some(plain) => Ok(plain)
  }

  /** Under one key and transcript, opening yields a plaintext exactly from what sealing makes of it. */
  lemma OpenUnderInvertsExactly(
    prim: Primitives, kek: Bytes, transcript: Bytes, nonce: Bytes, commitment: Bytes, cipher: Bytes, plain: Bytes)
    requires AeadLaw(prim)
    ensures OpenUnder(prim, kek, transcript, nonce, commitment, cipher) == Ok(plain) <==>
            SealUnder(prim, kek, transcript, nonce, plain) == Ok((commitment, cipher))
    ensures SealUnder(prim, kek, transcript, nonce, plain) == Ok((commitment, cipher)) ==>
            |cipher| == |plain| + TAG_BYTES
  {
    assert prim.decrypt(AeadKey(prim, kek), nonce, transcript, cipher) == Some(plain) <==>
           prim.encrypt(AeadKey(prim, kek), nonce, transcript, plain) == Some(cipher);
  }

  lemma SealedUnderSizes(prim: Primitives, kek: Bytes, transcript: Bytes, nonce: Bytes, plain: Bytes)
    requires SizeLaws(prim) && AeadLaw(prim)
    ensures var r := SealUnder(prim, kek, transcript, nonce, plain);
            r.Ok? ==> |r.value.0| == COMMITMENT_BYTES && |r.value.1| == |plain| + TAG_BYTES
  {
    var r := SealUnder(prim, kek, transcript, nonce, plain);
    if r.Ok? { OpenUnderInvertsExactly(prim, kek, transcript, nonce, r.value.0, r.value.1, plain); }
  }

  // ------------------------------------------------------------------ raw capsules

  function SealRaw(prim: Primitives, public: Bytes, aad: Bytes, plain: Bytes, coins: Coins): Result<Sealed, Refusal> {
    if |aad| == 0 || |aad| > MAX_CONTEXT || |plain| > MAX_LAYER_PLAINTEXT then Err(PlaintextOrContextBound)
    else
      match PublicFromBytes(prim, public)
      case Err(e) => Err(e)
      case Ok(recipient) =>
        match Encapsulation(prim, SUITE, FRAME, [aad], recipient, coins.ephemeral, coins.kem)
        case Err(e) => Err(e)
        case Ok(e) =>
          match SealUnder(prim, e.kek, e.transcript, coins.nonce, plain)
          case Err(f) => Err(f)
          case Ok((commitment, cipher)) => Ok(Sealed(e.ciphertext, coins.nonce, commitment, cipher))
  }

  predicate PartInBounds(aad: Bytes, part: Sealed) {
    && 0 < |aad| <= MAX_CONTEXT
    && |part.hybrid| == CIPHERTEXT_LEN && |part.nonce| == NONCE_BYTES && |part.commitment| == COMMITMENT_BYTES
    && TAG_BYTES <= |part.ciphertext| <= MAX_LAYER_PLAINTEXT + TAG_BYTES
  }

  function OpenRaw(prim: Primitives, s: Secret, aad: Bytes, part: Sealed): Result<Bytes, Refusal> {
    if |part.hybrid| == KEM_CT_LEN then Err(V1Capsule)
    else if !PartInBounds(aad, part) then Err(CiphertextOrContextBound)
    else
      match Decapsulate(prim, SUITE, FRAME, [aad], s, part.hybrid)
      case Err(e) => Err(e)
      case Ok((kek, transcript)) => OpenUnder(prim, kek, transcript, part.nonce, part.commitment, part.ciphertext)
  }

  /** Every size check of opening is met by what sealing made, and the overhead is the declared one. */
  lemma SealedIsInBounds(prim: Primitives, public: Bytes, aad: Bytes, plain: Bytes, coins: Coins)
    requires SizeLaws(prim) && AeadLaw(prim) && |coins.nonce| == NONCE_BYTES
    ensures var s := SealRaw(prim, public, aad, plain, coins);
            s.Ok? ==> && PartInBounds(aad, s.value)
                      && |s.value.hybrid| + |s.value.nonce| + |s.value.commitment| + |s.value.ciphertext| ==
                         |plain| + OVERHEAD_BYTES
  {
    var s := SealRaw(prim, public, aad, plain, coins);
    if s.Ok? {
      var recipient := PublicFromBytes(prim, public).value;
      var e := Encapsulation(prim, SUITE, FRAME, [aad], recipient, coins.ephemeral, coins.kem).value;
      EncapsulatedSize(prim, SUITE, FRAME, [aad], recipient, coins.ephemeral, coins.kem);
      SealedUnderSizes(prim, e.kek, e.transcript, coins.nonce, plain);
    }
  }

  /** `matches` after both keys were read. */
  function ValidateKeypair(prim: Primitives, secret: Bytes, public: Bytes): Result<Secret, Refusal> {
    match SecretFromBytes(prim, secret)
    case Err(e) => Err(e)
    case Ok(s) =>
      match PublicFromBytes(prim, public)
      case Err(e) => Err(e)
      case Ok(p) => if s.public == p then Ok(s) else Err(PairingRefused)
  }

  /** A retained pair is valid exactly when the secret regenerates that public key. */
  lemma PairIsValidExactly(prim: Primitives, secret: Bytes, public: Bytes, s: Secret)
    requires Laws(prim)
    ensures ValidateKeypair(prim, secret, public) == Ok(s) <==>
            SecretFromBytes(prim, secret) == Ok(s) && public == PublicToBytes(s.public)
  {
    if SecretFromBytes(prim, secret) == Ok(s) {
      SecretRoundTrip(prim, s, secret);
      PublicRoundTrip(prim, s.public, public);
      assert prim.keygen(s.seed).value.1 == s.public.kem;
    }
  }

  /** A sealed layer opens to its plaintext for the holder of the matching secret. */
  lemma OpenRawInvertsSealRaw(
    prim: Primitives, secret: Bytes, public: Bytes, s: Secret, aad: Bytes, plain: Bytes, coins: Coins)
    requires Laws(prim) && ValidateKeypair(prim, secret, public) == Ok(s) && |coins.nonce| == NONCE_BYTES
    ensures var part := SealRaw(prim, public, aad, plain, coins);
            part.Ok? ==> OpenRaw(prim, s, aad, part.value) == Ok(plain)
  {
    var part := SealRaw(prim, public, aad, plain, coins);
    if part.Ok? {
      SealedIsInBounds(prim, public, aad, plain, coins);
      SecretRoundTrip(prim, s, secret);
      DecapsulationAgrees(prim, SUITE, FRAME, [aad], s, coins.ephemeral, coins.kem);
      var e := Encapsulation(prim, SUITE, FRAME, [aad], s.public, coins.ephemeral, coins.kem).value;
      OpenUnderInvertsExactly(prim, e.kek, e.transcript, coins.nonce, part.value.commitment, part.value.ciphertext,
                              plain);
    }
  }

  /** Whatever opens is what the key it was opened under makes of the plaintext, has the sizes of a sealed layer. */
  lemma OpenedWasSealed(prim: Primitives, s: Secret, aad: Bytes, part: Sealed, plain: Bytes)
    requires AeadLaw(prim) && OpenRaw(prim, s, aad, part) == Ok(plain)
    ensures |part.nonce| == NONCE_BYTES && |part.commitment| == COMMITMENT_BYTES
    ensures |part.hybrid| + |part.nonce| + |part.commitment| + |part.ciphertext| == |plain| + OVERHEAD_BYTES
    ensures var d := Decapsulate(prim, SUITE, FRAME, [aad], s, part.hybrid);
            d.Ok? && SealUnder(prim, d.value.0, d.value.1, part.nonce, plain) == Ok((part.commitment, part.ciphertext))
  {
    var (kek, transcript) := Decapsulate(prim, SUITE, FRAME, [aad], s, part.hybrid).value;
    OpenUnderInvertsExactly(prim, kek, transcript, part.nonce, part.commitment, part.ciphertext, plain);
  }

  /** Nor would the bounds of sealing refuse it. */
  lemma OpenedCouldBeSealed(prim: Primitives, s: Secret, part: Sealed, public: Bytes, aad: Bytes, plain: Bytes,
                            coins: Coins)
    requires AeadLaw(prim) && OpenRaw(prim, s, aad, part) == Ok(plain)
    ensures SealRaw(prim, public, aad, plain, coins) != Err(PlaintextOrContextBound)
  {
    OpenedWasSealed(prim, s, aad, part, plain);
    SealRawWithinBounds(prim, public, aad, plain, coins);
  }

  lemma SealRawWithinBounds(prim: Primitives, public: Bytes, aad: Bytes, plain: Bytes, coins: Coins)
    requires 0 < |aad| <= MAX_CONTEXT && |plain| <= MAX_LAYER_PLAINTEXT
    ensures SealRaw(prim, public, aad, plain, coins) != Err(PlaintextOrContextBound)
  {
    var recipient := PublicFromBytes(prim, public);
    if recipient.Ok? {
      EncapsulationHasNoBound(prim, SUITE, FRAME, [aad], recipient.value, coins.ephemeral, coins.kem);
    }
  }

  lemma EncapsulationHasNoBound(prim: Primitives, suite: Bytes, frame: Bytes, context: seq<Bytes>, p: Public,
                                ephemeral: Bytes, coins: Bytes)
    ensures Encapsulation(prim, suite, frame, context, p, ephemeral, coins) != Err(PlaintextOrContextBound)
  {
  }

  // ------------------------------------------------------------------ recipient capsules

  function Seal(prim: Primitives, public: Bytes, epoch: Bytes, binding: Bytes, plain: Bytes, coins: Coins)
    : Result<Sealed, Refusal>
  {
    if |plain| > MAX_PLAINTEXT then Err(PlaintextBound)
    else
      match RecipientContext(epoch, binding)
      case Err(e) => Err(e)
      case Ok(aad) => SealRaw(prim, public, aad, plain, coins)
  }

  function Open(prim: Primitives, secret: Bytes, epoch: Bytes, binding: Bytes, part: Sealed): Result<Bytes, Refusal> {
    if |part.ciphertext| > MAX_PLAINTEXT + TAG_BYTES then Err(CiphertextBound)
    else
      match RecipientContext(epoch, binding)
      case Err(e) => Err(e)
      case Ok(aad) =>
        match SecretFromBytes(prim, secret)
        case Err(e) => Err(e)
        case Ok(s) => OpenRaw(prim, s, aad, part)
  }

  /** `open` inverts `seal` for every plaintext, epoch, binding and key pair. */
  lemma OpenInvertsSeal(
    prim: Primitives, secret: Bytes, public: Bytes, epoch: Bytes, binding: Bytes, plain: Bytes, coins: Coins)
    requires Laws(prim) && ValidateKeypair(prim, secret, public).Ok? && |coins.nonce| == NONCE_BYTES
    ensures var part := Seal(prim, public, epoch, binding, plain, coins);
            part.Ok? ==> Open(prim, secret, epoch, binding, part.value) == Ok(plain)
  {
    var part := Seal(prim, public, epoch, binding, plain, coins);
    if part.Ok? {
      var aad := ContextOf(epoch, binding);
      SealedIsInBounds(prim, public, aad, plain, coins);
      OpenRawInvertsSealRaw(prim, secret, public, ValidateKeypair(prim, secret, public).value, aad, plain, coins);
    }
  }

  /** The refusals of `open` before any key is used, in order; past them a capsule with a low-order ephemeral key
      is refused as such. */
  lemma OpenRefusesInOrder(prim: Primitives, secret: Bytes, epoch: Bytes, binding: Bytes, part: Sealed)
    requires SizeLaws(prim)
    ensures var r, s := Open(prim, secret, epoch, binding, part), SecretFromBytes(prim, secret);
            if |part.ciphertext| > MAX_PLAINTEXT + TAG_BYTES then r == Err(CiphertextBound)
            else if !InBounds(epoch, binding) then r == Err(EpochOrBindingBound)
            else if s.Err? then r == Err(s.error)
            else if |part.hybrid| == KEM_CT_LEN then r == Err(V1Capsule)
            else if !PartInBounds(ContextOf(epoch, binding), part) then r == Err(CiphertextOrContextBound)
            else prim.dh(s.value.x25519, part.hybrid[..32]) == Zeros(32) ==> r == Err(LowOrderEphemeral)
  {
    var s := SecretFromBytes(prim, secret);
    if s.Ok? { DecapsulationRefusesExactly(prim, SUITE, FRAME, [ContextOf(epoch, binding)], s.value, part.hybrid); }
  }

  /** For a valid pair the only refusals of `seal` are its own bounds, a low-order exchange and a failing
      primitive; the inner context bound is not among them. */
  lemma SealRefusesExactly(
    prim: Primitives, secret: Bytes, public: Bytes, epoch: Bytes, binding: Bytes, plain: Bytes, coins: Coins)
    requires Laws(prim) && ValidateKeypair(prim, secret, public).Ok?
    ensures var p := ValidateKeypair(prim, secret, public).value.public;
            var e := Encapsulation(prim, SUITE, FRAME, [ContextOf(epoch, binding)], p, coins.ephemeral, coins.kem);
            Seal(prim, public, epoch, binding, plain, coins).Ok? <==>
              && |plain| <= MAX_PLAINTEXT && InBounds(epoch, binding)
              && Contributory(prim.dh(coins.ephemeral, p.x25519))
              && prim.encaps(p.kem, coins.kem).Some? && |prim.encaps(p.kem, coins.kem).value.0| == KEM_CT_LEN
              && e.Ok? && prim.encrypt(AeadKey(prim, e.value.kek), coins.nonce, e.value.transcript, plain).Some?
    ensures Seal(prim, public, epoch, binding, plain, coins) != Err(PlaintextOrContextBound)
  {
    if InBounds(epoch, binding) { ContextIsInBound(epoch, binding); }
    PairIsValidExactly(prim, secret, public, ValidateKeypair(prim, secret, public).value);
  }

  /** Nor do the laws contradict a successful exchange: there are primitives under which every in-bound
      plaintext is sealed, and opens again. */
  lemma ExchangeCanSucceed(secret: Bytes, epoch: Bytes, binding: Bytes, plain: Bytes, coins: Coins)
    requires |secret| == SECRET_LEN && InBounds(epoch, binding) && |plain| <= MAX_PLAINTEXT &&
             |coins.nonce| == NONCE_BYTES
    ensures Laws(Trivial()) && SecretFromBytes(Trivial(), secret).Ok?
    ensures var public := PublicToBytes(SecretFromBytes(Trivial(), secret).value.public);
            var part := Seal(Trivial(), public, epoch, binding, plain, coins);
            && ValidateKeypair(Trivial(), secret, public).Ok?
            && part.Ok? && Open(Trivial(), secret, epoch, binding, part.value) == Ok(plain)
  {
    LawsAreConsistent();
    var s := SecretFromBytes(Trivial(), secret).value;
    var public := PublicToBytes(s.public);
    PairIsValidExactly(Trivial(), secret, public, s);
    SealRefusesExactly(Trivial(), secret, public, epoch, binding, plain, coins);
    assert Contributory(Ones(32)) by { assert Ones(32)[0] != 0; }
    OpenInvertsSeal(Trivial(), secret, public, epoch, binding, plain, coins);
  }

  predicate HmacCollision(prim: Primitives, k: Bytes, m: Bytes, k': Bytes, m': Bytes) {
    (k, m) != (k', m') && prim.hmac(k, m) == prim.hmac(k', m')
  }

  /** What the commitment of an opened part is computed over. */
  function Committed(prim: Primitives, s: Secret, aad: Bytes, part: Sealed): (Bytes, Bytes) {
    var d := Decapsulate(prim, SUITE, FRAME, [aad], s, part.hybrid);
    if d.Ok? then (CommitKey(prim, d.value.0), d.value.1 + prim.sha256(part.ciphertext)) else ([], [])
  }

  lemma OpenedTranscript(prim: Primitives, s: Secret, aad: Bytes, part: Sealed)
    requires OpenRaw(prim, s, aad, part).Ok?
    ensures |part.hybrid| == CIPHERTEXT_LEN
    ensures Committed(prim, s, aad, part).1 ==
            Transcript(FRAME, [aad], part.hybrid[..32], part.hybrid[32..], s.public) + prim.sha256(part.ciphertext)
    ensures prim.hmac(Committed(prim, s, aad, part).0, Committed(prim, s, aad, part).1) == part.commitment
  {
  }

  /** One part that opens under two secrets or two contexts has the same recipient keys and the same
      context in both, unless it exhibits a collision of the HMAC. */
  lemma OpenRawBinds(prim: Primitives, s: Secret, aad: Bytes, s': Secret, aad': Bytes, part: Sealed)
    requires OpenRaw(prim, s, aad, part).Ok? && OpenRaw(prim, s', aad', part).Ok? && WellSized(s.public) &&
             WellSized(s'.public)
    ensures || (aad == aad' && s.public == s'.public)
            || var (c, c') := (Committed(prim, s, aad, part), Committed(prim, s', aad', part));
               HmacCollision(prim, c.0, c.1, c'.0, c'.1)
  {
    OpenedTranscript(prim, s, aad, part);
    OpenedTranscript(prim, s', aad', part);
    if Committed(prim, s, aad, part) == Committed(prim, s', aad', part) {
      var e, k, d := part.hybrid[..32], part.hybrid[32..], prim.sha256(part.ciphertext);
      var t, t' := Transcript(FRAME, [aad], e, k, s.public), Transcript(FRAME, [aad'], e, k, s'.public);
      assert t == (t + d)[..|t + d| - |d|] && t' == (t' + d)[..|t' + d| - |d|];
      TranscriptBinds(FRAME, [aad], e, k, s.public, FRAME, [aad'], e, k, s'.public);
      assert [aad][0] == [aad'][0];
    }
  }

  /** A capsule opens for one epoch, one binding and one pair of recipient keys, unless it exhibits a
      collision of the HMAC. */
  lemma OpenBinds(
    prim: Primitives, secret: Bytes, epoch: Bytes, binding: Bytes, secret': Bytes, epoch': Bytes, binding': Bytes,
    part: Sealed)
    requires Laws(prim) && Open(prim, secret, epoch, binding, part).Ok? &&
             Open(prim, secret', epoch', binding', part).Ok?
    ensures var (s, s') := (SecretFromBytes(prim, secret), SecretFromBytes(prim, secret'));
            && s.Ok? && s'.Ok?
            && (|| (epoch == epoch' && binding == binding' && s.value.public == s'.value.public)
                || var (c, c') := (Committed(prim, s.value, ContextOf(epoch, binding), part),
                                   Committed(prim, s'.value, ContextOf(epoch', binding'), part));
                   HmacCollision(prim, c.0, c.1, c'.0, c'.1))
  {
    var s, s' := SecretFromBytes(prim, secret).value, SecretFromBytes(prim, secret').value;
    SecretRoundTrip(prim, s, secret);
    SecretRoundTrip(prim, s', secret');
    assert prim.keygen(s.seed).value.1 == s.public.kem && prim.keygen(s'.seed).value.1 == s'.public.kem;
    OpenRawBinds(prim, s, ContextOf(epoch, binding), s', ContextOf(epoch', binding'), part);
    if ContextOf(epoch, binding) == ContextOf(epoch', binding') {
      ContextBinds(epoch, binding, epoch', binding');
    }
  }
}
