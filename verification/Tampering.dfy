/** Exactly which files decrypt, in one shot and as a stream, and what becomes of a file that somebody
    changed. */
module Tampering {
  import opened Options
  import opened SizeBucket
  import opened Ciphers
  import opened Transforms
  import opened DecryptPipeline
  import opened EncryptPipeline

  // ----- which files open -----

  /** The last 32 bytes are the mac of all before them. */
  predicate MacFits(s: Suite, bin: bytes, keys: bytes)
    requires |keys| == 64
  {
    |bin| >= 32 && bin[|bin| - 32..] == s.hmac(keys[32..64], bin[..|bin| - 32])
  }

  /** A digest agrees as far as it goes, and past the end of ours it is zero. */
  predicate DigestFits(ours: bytes, theirs: bytes) {
    forall i :: 0 <= i < |theirs| ==> theirs[i] == if i < |ours| then ours[i] else 0
  }

  /** One-shot decryption opens a file exactly when there are 64 bytes of keys, the file has room for iv
      and mac, the mac fits, the digest fits if there is one, and the cipher accepts the middle; it then
      yields what the cipher does. */
  lemma OpensIff(s: Suite, bin: bytes, keys: bytes, theirDigest: Option<bytes>)
    requires Lawful(s)
    ensures var r := DecryptAttachmentV1(s, bin, keys, theirDigest);
            && (r.Some? <==>
                  && |keys| == 64 && |bin| >= 48 && MacFits(s, bin, keys)
                  && (theirDigest.Some? ==> DigestFits(s.sha256(bin), theirDigest.value))
                  && s.decrypt(keys[..32], bin[..16], bin[16..|bin| - 32]).Some?)
            && (r.Some? ==> r == s.decrypt(keys[..32], bin[..16], bin[16..|bin| - 32]))
  {
    if |keys| == 64 && |bin| >= 48 {
      var mac := s.hmac(keys[32..64], bin[..|bin| - 32]);
      assert |mac| == 32;
      assert bin[|bin| - 32..] <= mac <==> bin[|bin| - 32..] == mac;
    }
  }

  /** The first chunk that is not empty ends within the iv. */
  ghost predicate IvIsSplit(chunks: seq<bytes>) {
    exists i :: 0 <= i < |chunks| && 0 < |chunks[i]| < 16 && forall j :: 0 <= j < i ==> chunks[j] == []
  }

  predicate AllEmpty(chunks: seq<bytes>) {
    forall j :: 0 <= j < |chunks| ==> chunks[j] == []
  }

  lemma {:induction false} NothingKept(chunks: seq<bytes>)
    requires AllEmpty(chunks)
    ensures NonEmpty(chunks) == []
  {
    if chunks != [] {
      NothingKept(chunks[..|chunks| - 1]);
    }
  }

  lemma {:induction false} FirstKept(chunks: seq<bytes>, i: nat)
    requires i < |chunks| && chunks[i] != [] && AllEmpty(chunks[..i])
    ensures NonEmpty(chunks) != [] && NonEmpty(chunks)[0] == chunks[i]
    decreases |chunks|
  {
    var n := |chunks| - 1;
    if i == n {
      NothingKept(chunks[..n]);
    } else {
      assert chunks[..n][..i] == chunks[..i];
      FirstKept(chunks[..n], i);
    }
  }

  lemma FindFirst(chunks: seq<bytes>) returns (i: nat)
    ensures i <= |chunks| && AllEmpty(chunks[..i]) && (i < |chunks| ==> chunks[i] != [])
  {
    i := 0;
    while i < |chunks| && chunks[i] == []
      invariant i <= |chunks| && AllEmpty(chunks[..i])
    {
      i := i + 1;
    }
  }

  lemma FirstChunkIs(chunks: seq<bytes>)
    ensures FirstChunkShort(chunks) <==> IvIsSplit(chunks)
  {
    hide NonEmpty;
    var i := FindFirst(chunks);
    if i == |chunks| {
      assert chunks[..i] == chunks;
      NothingKept(chunks);
    } else {
      FirstKept(chunks, i);
      assert forall j :: 0 <= j < i ==> chunks[..i][j] == chunks[j];
    }
  }

  /** Streaming decryption opens a file exactly when moreover the first chunk that is not empty holds the
      iv and the digest is the hash of the file; it then yields the same, cut to the size. */
  lemma StreamOpensIff(s: Suite, chunks: seq<bytes>, keys: bytes, size: nat, theirDigest: bytes)
    requires Lawful(s)
    ensures var bin := Flat(chunks);
            var r := StreamResult(s, chunks, keys, size, theirDigest);
            && (r.Some? <==>
                  && !IvIsSplit(chunks) && theirDigest == s.sha256(bin)
                  && |keys| == 64 && |bin| >= 48 && MacFits(s, bin, keys)
                  && s.decrypt(keys[..32], bin[..16], bin[16..|bin| - 32]).Some?)
            && (r.Some? ==>
                  var p := s.decrypt(keys[..32], bin[..16], bin[16..|bin| - 32]).value;
                  r == Some(Decrypted(p[..if size < |p| then size else |p|],
                                      s.sha256(p[..if size < |p| then size else |p|]))))
  {
    FirstChunkIs(chunks);
    hide Flat, FirstChunkShort, IvIsSplit;
    OpensIff(s, Flat(chunks), keys, Some(theirDigest));
    FullDigest(s, Flat(chunks), theirDigest);
    if |theirDigest| == 32 {
      SameFit(s.sha256(Flat(chunks)), theirDigest);
    }
    hide Lawful;
  }

  lemma SameFit(ours: bytes, theirs: bytes)
    ensures DigestFits(ours, theirs) <==> DigestAccepted(ours, theirs)
  {
  }

  // ----- changed files -----

  /** A sealed file with any other mac at its end is rejected by both forms, with any digest or none, and
      in any chunks. */
  lemma ChangedMacIsRejected(s: Suite, p: bytes, keys: bytes, iv: bytes, mac: bytes, theirDigest: Option<bytes>,
                             chunks: seq<bytes>, size: nat, streamDigest: bytes)
    requires Lawful(s) && |keys| == 64 && |mac| == 32
    requires var sealed := EncryptAttachment(s, p, keys, iv).value.ciphertext;
             |sealed| >= 32 && sealed[|sealed| - 32..] != mac && Flat(chunks) == sealed[..|sealed| - 32] + mac
    ensures DecryptAttachmentV1(s, Flat(chunks), keys, theirDigest) == None
    ensures StreamResult(s, chunks, keys, size, streamDigest) == None
  {
    hide Flat, FirstChunkShort;
    var bin, sealed := Flat(chunks), EncryptAttachment(s, p, keys, iv).value.ciphertext;
    SealedMac(s, p, keys, iv);
    assert bin[|bin| - 32..] == mac && bin[..|bin| - 32] == sealed[..|sealed| - 32];
    OpensIff(s, bin, keys, theirDigest);
    StreamOpensIff(s, chunks, keys, size, streamDigest);
    hide Lawful;
  }

  /** What sealing writes has the mac of the rest at its end, so it starts with the iv and the mac fits. */
  lemma SealedMac(s: Suite, p: bytes, keys: bytes, iv: bytes)
    requires Lawful(s) && |keys| == 64
    ensures var sealed := EncryptAttachment(s, p, keys, iv).value.ciphertext;
            MacFits(s, sealed, keys) && iv <= sealed && |sealed| > |iv| + 32
  {
    var body := iv + s.encrypt(keys[..32], iv, p);
    var sealed := body + s.hmac(keys[32..64], body);
    assert sealed[..|sealed| - 32] == body && sealed[|sealed| - 32..] == s.hmac(keys[32..64], body);
    assert s.encrypt(keys[..32], iv, p) != [];
  }

  /** If a changed file still opens, then a mac was found for other bytes under the same key; and if it
      opens with the digest that was sent along, it also has the same hash. */
  lemma ChangedFileNeedsForgery(s: Suite, p: bytes, keys: bytes, iv: bytes, bin: bytes, theirDigest: Option<bytes>)
    requires Lawful(s) && |keys| == 64
    requires bin != EncryptAttachment(s, p, keys, iv).value.ciphertext
    requires DecryptAttachmentV1(s, bin, keys, theirDigest).Some?
    ensures var sealed := EncryptAttachment(s, p, keys, iv).value;
            && |bin| >= 48 && |sealed.ciphertext| >= 32
            && bin[..|bin| - 32] != sealed.ciphertext[..|sealed.ciphertext| - 32]
            && bin[|bin| - 32..] == s.hmac(keys[32..64], bin[..|bin| - 32])
            && (theirDigest == Some(sealed.digest) ==> s.sha256(bin) == s.sha256(sealed.ciphertext))
  {
    var sealed := EncryptAttachment(s, p, keys, iv).value;
    SealedMac(s, p, keys, iv);
    OpensIff(s, bin, keys, theirDigest);
    SameFit(s.sha256(bin), sealed.digest);
    FullDigestAccepted(s.sha256(bin), sealed.digest);
    SameEnds(bin, sealed.ciphertext);
  }

  lemma SameEnds(a: bytes, b: bytes)
    requires |a| >= 32 && |b| >= 32
    ensures a == b <==> a[..|a| - 32] == b[..|b| - 32] && a[|a| - 32..] == b[|b| - 32..]
  {
    assert a == a[..|a| - 32] + a[|a| - 32..] && b == b[..|b| - 32] + b[|b| - 32..];
  }
}
