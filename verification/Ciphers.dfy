/** Bytes, the foreign cryptographic functions as parameters, and the one-shot forms of
    attachment encryption and decryption. */
module Ciphers {
  import opened Options
  import opened SizeBucket

  type byte = bv8
  type bytes = seq<byte>

  const IV_LENGTH := 16
  const KEY_LENGTH := 32
  const MAC_LENGTH := 32

  /** The foreign functions. `encrypt` and `decrypt` take a key, an iv and a whole message; the
      incremental forms say what a cipher object has given out after absorbing a prefix. */
  datatype Suite = Suite(
    encrypt: (bytes, bytes, bytes) -> bytes,
    encrypting: (bytes, bytes, bytes) -> bytes,
    decrypt: (bytes, bytes, bytes) -> Option<bytes>,
    decrypting: (bytes, bytes, bytes) -> bytes,
    hmac: (bytes, bytes) -> bytes,
    sha256: bytes -> bytes)

  /** Decryption undoes encryption, a padded message is never encrypted to nothing, incremental
      output only ever grows towards the one-shot output, and digests have their length. */
  ghost predicate Lawful(s: Suite) {
    && (forall k, iv, p :: s.decrypt(k, iv, s.encrypt(k, iv, p)) == Some(p) && s.encrypt(k, iv, p) != [])
    && (forall k, iv, p :: s.encrypting(k, iv, p) <= s.encrypt(k, iv, p))
    && (forall k, iv, p, q :: s.encrypting(k, iv, p) <= s.encrypting(k, iv, p + q))
    && (forall k, iv, p :: s.decrypt(k, iv, p).Some? ==> s.decrypting(k, iv, p) <= s.decrypt(k, iv, p).value)
    && (forall k, iv, p, q :: s.decrypting(k, iv, p) <= s.decrypting(k, iv, p + q))
    && (forall k, iv :: s.encrypting(k, iv, []) == [] && s.decrypting(k, iv, []) == [])
    && (forall k, p :: |s.hmac(k, p)| == MAC_LENGTH)
    && (forall p :: |s.sha256(p)| == 32)
  }

  function Zeroes(n: nat): (r: bytes)
    ensures |r| == n && forall i :: 0 <= i < n ==> r[i] == 0
  {
    seq(n, _ => 0)
  }

  function Marked(key: bytes, iv: bytes, p: bytes): bytes { [0] + p }
  function Unmarked(key: bytes, iv: bytes, c: bytes): Option<bytes> { if c == [] then None else Some(c[1..]) }
  function Nothing(key: bytes, iv: bytes, p: bytes): bytes { [] }
  function ConstantMac(key: bytes, p: bytes): bytes { Zeroes(MAC_LENGTH) }
  function ConstantHash(p: bytes): bytes { Zeroes(32) }

  lemma MarkedUnmarked(key: bytes, iv: bytes, p: bytes)
    ensures Marked(key, iv, p) != [] && Unmarked(key, iv, Marked(key, iv, p)) == Some(p)
  {
    assert ([0] + p)[1..] == p;
  }

  /** The laws can be met. */
  lemma SomeSuiteIsLawful()
    ensures Lawful(Suite(Marked, Nothing, Unmarked, Nothing, ConstantMac, ConstantHash))
  {
    hide Marked, Unmarked;
    forall k: bytes, iv: bytes, p: bytes
      ensures Marked(k, iv, p) != [] && Unmarked(k, iv, Marked(k, iv, p)) == Some(p)
    {
      MarkedUnmarked(k, iv, p);
    }
  }

  datatype Encrypted = Encrypted(ciphertext: bytes, digest: bytes)

  /** One-shot encryption: iv, ciphertext, then the mac over both. */
  function EncryptAttachment(s: Suite, plaintext: bytes, keys: bytes, iv: bytes): Option<Encrypted> {
    if |keys| != 64 then None else
    var body := iv + s.encrypt(keys[..32], iv, plaintext);
    var all := body + s.hmac(keys[32..64], body);
    Some(Encrypted(all, s.sha256(all)))
  }

  function PadAndEncrypt(s: Suite, plaintext: bytes, keys: bytes, iv: bytes): Option<Encrypted> {
    BucketFits(|plaintext|);
    EncryptAttachment(s, plaintext + Zeroes(Bucket(|plaintext|) - |plaintext|), keys, iv)
  }

  /** The byte at `i`; an index past the end reads as 0 under xor. */
  function ByteAt(b: bytes, i: nat): byte {
    if i < |b| then b[i] else 0
  }

  /** The digest comparison looks only at as many bytes as the other side sent: a shorter digest
      need only be a prefix, and a longer one may continue with zeroes. */
  predicate DigestAccepted(ours: bytes, theirs: bytes) {
    forall i :: 0 <= i < |theirs| ==> ByteAt(ours, i) == theirs[i]
  }

  lemma OrXorZero(r: byte, a: byte, b: byte)
    ensures r | (a ^ b) == 0 <==> r == 0 && a == b
  {
    if r | (a ^ b) == 0 {
      assert r == 0 && a ^ b == 0;
      assert a == b;
    }
  }

  /** The comparison loop of `verifyDigest`. */
  method VerifyDigest(s: Suite, data: bytes, theirDigest: bytes) returns (ok: bool)
    ensures ok <==> DigestAccepted(s.sha256(data), theirDigest)
  {
    var ourDigest := s.sha256(data);
    var result: byte := 0;
    for i := 0 to |theirDigest|
      invariant result == 0 <==> forall j :: 0 <= j < i ==> ByteAt(ourDigest, j) == theirDigest[j]
    {
      OrXorZero(result, ByteAt(ourDigest, i), theirDigest[i]);
      result := result | (ByteAt(ourDigest, i) ^ theirDigest[i]);
    }
    ok := result == 0;
  }

  /** The comparison loop of `verifyHmacSha256`: ours may be longer than `length`, theirs not. */
  method VerifyHmacSha256(s: Suite, plaintext: bytes, key: bytes, theirMac: bytes, length: nat) returns (ok: bool)
    ensures ok <==> |theirMac| == length && theirMac <= s.hmac(key, plaintext)
  {
    var ourMac := s.hmac(key, plaintext);
    if |theirMac| != length || |ourMac| < length {
      return false;
    }
    var result: byte := 0;
    for i := 0 to |theirMac|
      invariant result == 0 <==> forall j :: 0 <= j < i ==> ourMac[j] == theirMac[j]
    {
      OrXorZero(result, ourMac[i], theirMac[i]);
      result := result | (ourMac[i] ^ theirMac[i]);
    }
    ok := result == 0;
  }

  /** A digest of the right length is accepted only if it is equal. */
  lemma FullDigestAccepted(ours: bytes, theirs: bytes)
    requires |ours| == |theirs|
    ensures DigestAccepted(ours, theirs) <==> ours == theirs
  {
    assert DigestAccepted(ours, theirs) ==> forall i :: 0 <= i < |theirs| ==> ByteAt(ours, i) == ours[i] == theirs[i];
  }

  /** One-shot decryption; without a digest the digest is not checked. */
  function DecryptAttachmentV1(s: Suite, bin: bytes, keys: bytes, theirDigest: Option<bytes>): Option<bytes> {
    if |keys| != 64 || |bin| < IV_LENGTH + MAC_LENGTH then None else
    var macAt := |bin| - MAC_LENGTH;
    if !(bin[macAt..] <= s.hmac(keys[32..64], bin[..macAt])) then None
    else if theirDigest.Some? && !DigestAccepted(s.sha256(bin), theirDigest.value) then None
    else s.decrypt(keys[..32], bin[..IV_LENGTH], bin[IV_LENGTH..macAt])
  }

  /** The one-shot decryption as the source runs it, through the two comparison loops. */
  method DecryptV1(s: Suite, bin: bytes, keys: bytes, theirDigest: Option<bytes>) returns (r: Option<bytes>)
    ensures r == DecryptAttachmentV1(s, bin, keys, theirDigest)
  {
    if |keys| != 64 || |bin| < IV_LENGTH + MAC_LENGTH {
      return None;
    }
    var iv, ivAndCiphertext, mac := bin[..16], bin[..|bin| - 32], bin[|bin| - 32..];
    var macOk := VerifyHmacSha256(s, ivAndCiphertext, keys[32..64], mac, 32);
    if !macOk {
      return None;
    }
    if theirDigest.Some? {
      var digestOk := VerifyDigest(s, bin, theirDigest.value);
      if !digestOk {
        return None;
      }
    }
    r := s.decrypt(keys[..32], iv, bin[16..|bin| - 32]);
  }
}
