/**
  The framing that src/crypto.rs puts around its primitives. BLAKE3, the ChaCha20-Poly1305
  core and X25519 themselves are uninterpreted: `Primitives` carries them as total functions,
  and what is taken for granted about them is spelled out in the predicates below and required
  by exactly the lemmas that need it.
 */
module Crypto {
  import opened Basics

  datatype Primitives = Primitives(
    hash: Bytes -> Bytes32,
    derive: (string, Bytes) -> Bytes32,
    utf8: string -> Bytes,
    aeadSeal: (Bytes32, Bytes12, Bytes, Bytes) -> Bytes,
    aeadOpen: (Bytes32, Bytes12, Bytes, Bytes) -> Option<Bytes>,
    publicKey: Bytes32 -> Bytes32,
    agree: (Bytes32, Bytes32) -> Bytes32
  )

  /** The cipher core opens what it sealed and adds a 16-byte tag. */
  ghost predicate SealsCorrectly(P: Primitives) {
    forall k: Bytes32, n: Bytes12, aad: Bytes, m: Bytes ::
      && |P.aeadSeal(k, n, aad, m)| == |m| + 16
      && P.aeadOpen(k, n, aad, P.aeadSeal(k, n, aad, m)) == Some(m)
  }

  /** Diffie-Hellman: both orders of agreement give the same secret. */
  ghost predicate AgreementCommutes(P: Primitives) {
    forall a: Bytes32, b: Bytes32 :: P.agree(a, P.publicKey(b)) == P.agree(b, P.publicKey(a))
  }

  /** What is sealed with `aad` opens with `aad'` only if they are the same. */
  ghost predicate TellsApart(P: Primitives, key: Bytes32, aad: Bytes, aad': Bytes) {
    aad != aad' ==>
      forall n: Bytes12, m: Bytes :: P.aeadOpen(key, n, aad', P.aeadSeal(key, n, aad, m)) == None
  }

  /** Different strings have different encodings. */
  ghost predicate EncodesApart(P: Primitives) {
    forall m: string, n: string | P.utf8(m) == P.utf8(n) :: m == n
  }

  // ── AEAD framing: 12-byte nonce, then ciphertext and tag ────────────────

  function Encrypt(P: Primitives, key: Bytes32, nonce: Bytes12, plain: Bytes, aad: Bytes): Bytes {
    nonce + P.aeadSeal(key, nonce, aad, plain)
  }

  function Decrypt(P: Primitives, key: Bytes32, data: Bytes, aad: Bytes): Result<Bytes> {
    if |data| < 12 + 16 then Err(TooShort) else
    match P.aeadOpen(key, data[..12], aad, data[12..])
    case Some(plain) => Ok(plain)
    case None => Err(Forged)
  }

  lemma DecryptEncrypt(P: Primitives, key: Bytes32, nonce: Bytes12, plain: Bytes, aad: Bytes)
    requires SealsCorrectly(P)
    ensures |Encrypt(P, key, nonce, plain, aad)| == 28 + |plain|
    ensures Encrypt(P, key, nonce, plain, aad)[..12] == nonce
    ensures Decrypt(P, key, Encrypt(P, key, nonce, plain, aad), aad) == Ok(plain)
  {
    var data := Encrypt(P, key, nonce, plain, aad);
    assert data[..12] == nonce && data[12..] == P.aeadSeal(key, nonce, aad, plain);
  }

  /** If the cipher tells two associated data apart, so does the framing. */
  lemma DecryptChecksAad(P: Primitives, key: Bytes32, nonce: Bytes12, plain: Bytes, aad: Bytes, aad': Bytes)
    requires SealsCorrectly(P) && TellsApart(P, key, aad, aad')
    ensures Decrypt(P, key, Encrypt(P, key, nonce, plain, aad), aad')
         == if aad == aad' then Ok(plain) else Err(Forged)
  {
    DecryptEncrypt(P, key, nonce, plain, aad);
    var data := Encrypt(P, key, nonce, plain, aad);
    assert data[..12] == nonce && data[12..] == P.aeadSeal(key, nonce, aad, plain);
  }

  // ── Associated data ─────────────────────────────────────────────────────

  // "vitv02-chunk\0\0\0\0" and "vitv02-vault\0\0\0\0"
  const CHUNK_TAG: Bytes16 :=
    [0x76, 0x69, 0x74, 0x76, 0x30, 0x32, 0x2d, 0x63, 0x68, 0x75, 0x6e, 0x6b, 0x0, 0x0, 0x0, 0x0]
  const VAULT_TAG: Bytes16 :=
    [0x76, 0x69, 0x74, 0x76, 0x30, 0x32, 0x2d, 0x76, 0x61, 0x75, 0x6c, 0x74, 0x0, 0x0, 0x0, 0x0]

  /** Binds a chunk on the wire to its file id and position (src/crypto.rs:246-253). */
  function ChunkAad(fileId: Bytes16, index: u32): (aad: Bytes)
    ensures |aad| == 36
  {
    CHUNK_TAG + fileId + Le(index, 4)
  }

  /** Binds a chunk at rest to its container and position (src/storage.rs:248-254). */
  function VaultAad(uuid: Bytes16, index: u32): (aad: Bytes)
    ensures |aad| == 36
  {
    VAULT_TAG + uuid + Le(index, 4)
  }

  lemma AadFields(aad: Bytes, tag: Bytes16, id: Bytes16, index: u32)
    requires aad == tag + id + Le(index, 4)
    ensures aad[..16] == tag && aad[16..32] == id && FromLe(aad[32..]) == index
  {
    assert aad[32..] == Le(index, 4);
    LeExact(index);
  }

  /** Both tags determine the file and the position, and neither can be taken for the other. */
  lemma AadsAreInjective(id: Bytes16, i: u32, id': Bytes16, i': u32)
    ensures VaultAad(id, i) == VaultAad(id', i') ==> id == id' && i == i'
    ensures ChunkAad(id, i) == ChunkAad(id', i') ==> id == id' && i == i'
    ensures VaultAad(id, i) != ChunkAad(id', i')
  {
    assert VAULT_TAG[7] != CHUNK_TAG[7];
    AadFields(VaultAad(id, i), VAULT_TAG, id, i);
    AadFields(VaultAad(id', i'), VAULT_TAG, id', i');
    AadFields(ChunkAad(id, i), CHUNK_TAG, id, i);
    AadFields(ChunkAad(id', i'), CHUNK_TAG, id', i');
  }

  // ── Blinding ────────────────────────────────────────────────────────────

  const ID_CONTEXT := "vitruvius v0.2 file-id"

  /** What is hashed when a name is blinded. */
  function NameInput(P: Primitives, key: Bytes32, name: string): Bytes {
    key + [0] + P.utf8(name)
  }

  function BlindName(P: Primitives, key: Bytes32, name: string): Bytes16 {
    P.derive(ID_CONTEXT, NameInput(P, key, name))[..16]
  }

  /** Cut to 16 bytes, the derivation of ids does not take these two inputs to one output. */
  ghost predicate ApartAsIds(P: Primitives, x: Bytes, y: Bytes) {
    P.derive(ID_CONTEXT, x)[..16] == P.derive(ID_CONTEXT, y)[..16] ==> x == y
  }

  /** Then ids under whatever keys coincide only for the same key and name. */
  lemma IdsTellNamesApart(P: Primitives, k: Bytes32, n: string, k': Bytes32, n': string)
    requires EncodesApart(P) && ApartAsIds(P, k + [0] + P.utf8(n), k' + [0] + P.utf8(n'))
    ensures BlindName(P, k, n) == BlindName(P, k', n') <==> k == k' && n == n'
  {
    var x, y := NameInput(P, k, n), NameInput(P, k', n');
    assert x[..32] == k && y[..32] == k' && x[33..] == P.utf8(n) && y[33..] == P.utf8(n');
  }

  /** What is hashed when a chunk hash is blinded. */
  function BlindInput(key: Bytes32, h: Bytes32): Bytes {
    key + [0] + h
  }

  const HASH_CONTEXT := "vitruvius v0.2 chunk-hash"

  function BlindHash(P: Primitives, key: Bytes32, h: Bytes32): Bytes32 {
    P.derive(HASH_CONTEXT, BlindInput(key, h))
  }

  const KEY_CONTEXT := "vitruvius 2024 tofu key derivation v1"

  /** X25519 followed by the BLAKE3 key derivation (src/tofu.rs:143-155). */
  function SharedKey(P: Primitives, secret: Bytes32, theirPublic: Bytes32): Bytes32 {
    P.derive(KEY_CONTEXT, P.agree(secret, theirPublic))
  }

  /** The derivation of keys does not take these two secrets to one key. */
  ghost predicate ApartAsKeys(P: Primitives, x: Bytes32, y: Bytes32) {
    P.derive(KEY_CONTEXT, x) == P.derive(KEY_CONTEXT, y) ==> x == y
  }

  /** Then keys coincide only for exchanges that agreed on the same secret. */
  lemma KeysTellSecretsApart(P: Primitives, s: Bytes32, x: Bytes32, s': Bytes32, x': Bytes32)
    requires ApartAsKeys(P, P.agree(s, x), P.agree(s', x'))
    ensures SharedKey(P, s, x) == SharedKey(P, s', x') <==> P.agree(s, x) == P.agree(s', x')
  {
  }

  /** Names, hashes and agreed secrets are never derived under one context. */
  lemma ContextsDiffer()
    ensures ID_CONTEXT != HASH_CONTEXT && HASH_CONTEXT != KEY_CONTEXT && KEY_CONTEXT != ID_CONTEXT
  {
    assert ID_CONTEXT[15] != HASH_CONTEXT[15];
    assert KEY_CONTEXT[10] != ID_CONTEXT[10] && KEY_CONTEXT[10] != HASH_CONTEXT[10];
  }

  /**
    The input spells out key and hash unambiguously. So if two blinded hashes coincide although
    key or hash differ, `derive` maps these two different inputs to one output.
   */
  lemma BlindingAddsNoCollisions(P: Primitives, k: Bytes32, h: Bytes32, k': Bytes32, h': Bytes32)
    ensures BlindInput(k, h) == BlindInput(k', h') <==> k == k' && h == h'
    ensures BlindHash(P, k, h) == BlindHash(P, k', h') && (k != k' || h != h') ==>
              && BlindInput(k, h) != BlindInput(k', h')
              && P.derive(HASH_CONTEXT, BlindInput(k, h)) == P.derive(HASH_CONTEXT, BlindInput(k', h'))
  {
    var x, y := BlindInput(k, h), BlindInput(k', h');
    assert x[..32] == k && y[..32] == k' && x[33..] == h && y[33..] == h';
  }
}
