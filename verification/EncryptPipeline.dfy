/** Streaming encryption of an attachment, against the one-shot `PadAndEncrypt`, and the round
    trip through streaming decryption. The stages run one after the other, as in
    `DecryptPipeline`. */
module EncryptPipeline {
  import opened Options
  import opened SizeBucket
  import opened Ciphers
  import opened Transforms
  import opened DecryptPipeline

  datatype StreamEncrypted = StreamEncrypted(ciphertext: bytes, digest: bytes, plaintextHash: bytes)

  /** The padded plaintext of a file read as `chunks`: its first `size` bytes and one padding for
      each chunk that arrived when they were complete; an error if a chunk straddles `size`. */
  function PaddedStream(size: nat, chunks: seq<bytes>): Option<bytes> {
    BucketFits(size);
    if Straddles(size, chunks) then None
    else Some(Cut(Flat(chunks), size) + Zeroes(Rounds(size, chunks) * (Bucket(size) - size)))
  }

  function StreamSealed(s: Suite, chunks: seq<bytes>, keys: bytes, iv: bytes, size: nat): Option<StreamEncrypted> {
    if |iv| != IV_LENGTH then None else
    match PaddedStream(size, chunks)
    case None => None
    case Some(padded) =>
      match EncryptAttachment(s, padded, keys, iv)
      case None => None
      case Some(e) => Some(StreamEncrypted(e.ciphertext, e.digest, s.sha256(Flat(chunks))))
  }

  /** Feeds the padding stage; `room(k)` is how many pushes the reader accepts at the `k`th time
      padding is pushed, so every way the reader may stall is covered. */
  method RunPadding(stage: AddPaddingTransform, chunks: seq<bytes>, room: nat -> nat) returns (ok: bool)
    requires stage.Valid() && stage.paddingChunksToWrite == []
    requires stage.consumed == [] && stage.readable == stage.emitted
    requires AllFull(chunks)
    modifies stage
    ensures ok <==> PaddedStream(stage.size, chunks).Some?
    ensures ok ==> AllFull(stage.readable) && Flat(stage.readable) == PaddedStream(stage.size, chunks).value
    ensures ok && |Flat(chunks)| <= stage.size ==> stage.callbacksFired <= 1
  {
    hide Flat, Rounds;
    var calls := 0;
    for i := 0 to |chunks|
      invariant stage.Valid() && stage.paddingChunksToWrite == []
      invariant stage.consumed == chunks[..i] && stage.readable == stage.emitted
      invariant !Straddles(stage.size, chunks[..i])
    {
      StraddlesSnoc(stage.size, chunks, i);
      ghost var pushed;
      ok, pushed := stage.Transform(chunks[i], room(calls));
      calls := calls + 1;
      if !ok {
        StraddlesPrefix(stage.size, chunks, i + 1);
        return false;
      }
      assert chunks[..i + 1] == chunks[..i] + [chunks[i]];
      while stage.paddingChunksToWrite != []
        invariant stage.Valid() && stage.readable == stage.emitted && stage.consumed == chunks[..i + 1]
        decreases |stage.paddingChunksToWrite|
      {
        pushed := stage.Read(room(calls));
        calls := calls + 1;
      }
    }
    ok := true;
    assert chunks[..|chunks|] == chunks;
    PaddingOut(stage, chunks);
  }

  lemma PaddingOut(stage: AddPaddingTransform, chunks: seq<bytes>)
    requires stage.Valid() && stage.paddingChunksToWrite == [] && stage.consumed == chunks
    requires !Straddles(stage.size, chunks)
    ensures PaddedStream(stage.size, chunks) == Some(Flat(stage.emitted))
    ensures |Flat(chunks)| <= stage.size && AllFull(chunks) ==> stage.callbacksFired <= 1
  {
    hide Flat, Rounds;
    assert Flat(stage.emitted) + Zeroes(0) == Flat(stage.emitted) by { assert Zeroes(0) == []; }
    if |Flat(chunks)| <= stage.size && AllFull(chunks) {
      OneRound(stage.size, chunks);
    }
  }

  lemma StraddlesSnoc(size: nat, chunks: seq<bytes>, i: nat)
    requires i < |chunks|
    ensures Straddles(size, chunks[..i + 1]) <==>
              Straddles(size, chunks[..i]) || |Flat(chunks[..i])| < size < |Flat(chunks[..i])| + |chunks[i]|
  {
    assert chunks[..i + 1] == chunks[..i] + [chunks[i]];
    FlatSnoc(chunks[..i], chunks[i]);
    assert chunks[..i + 1][..i] == chunks[..i];
  }

  lemma {:induction false} StraddlesPrefix(size: nat, chunks: seq<bytes>, i: nat)
    requires i <= |chunks| && Straddles(size, chunks[..i])
    ensures Straddles(size, chunks)
    decreases |chunks| - i
  {
    if i < |chunks| {
      StraddlesSnoc(size, chunks, i);
      StraddlesPrefix(size, chunks, i + 1);
    } else {
      assert chunks[..i] == chunks;
    }
  }

  /** A file of at most `size` bytes is padded at most once, and exactly once if it is complete
      and not empty. */
  lemma {:induction false} OneRound(size: nat, chunks: seq<bytes>)
    requires |Flat(chunks)| <= size && AllFull(chunks)
    ensures Rounds(size, chunks) == if |Flat(chunks)| == size && size > 0 then 1 else 0
    ensures !Straddles(size, chunks)
  {
    if chunks != [] {
      var n := |chunks| - 1;
      assert |Flat(chunks)| == |Flat(chunks[..n])| + |chunks[n]|;
      NoRounds(size, chunks[..n]);
    }
  }

  method RunCipher(stage: CipherTransform, chunks: seq<bytes>)
    requires stage.Valid() && !stage.flushed && Lawful(stage.suite)
    requires stage.consumed == [] && stage.readable == stage.emitted && AllFull(chunks)
    modifies stage
    ensures AllFull(stage.readable) && Flat(stage.readable) == stage.suite.encrypt(stage.aesKey, stage.iv, Flat(chunks))
  {
    hide Flat, Rounds;
    for i := 0 to |chunks|
      invariant stage.Valid() && !stage.flushed
      invariant stage.consumed == chunks[..i] && stage.readable == stage.emitted
    {
      ghost var pushed := stage.Transform(chunks[i]);
      assert chunks[..i + 1] == chunks[..i] + [chunks[i]];
    }
    assert chunks[..|chunks|] == chunks;
    ghost var last := stage.Flush();
  }

  method RunAddIv(stage: AddIvTransform, chunks: seq<bytes>)
    requires stage.Valid() && stage.consumed == [] && stage.readable == stage.emitted
    requires AllFull(chunks) && chunks != []
    modifies stage
    ensures AllFull(stage.readable) && Flat(stage.readable) == stage.iv + Flat(chunks)
  {
    hide Flat, Rounds;
    for i := 0 to |chunks|
      invariant stage.Valid() && stage.consumed == chunks[..i] && stage.readable == stage.emitted
    {
      ghost var pushed := stage.Transform(chunks[i]);
      assert chunks[..i + 1] == chunks[..i] + [chunks[i]];
    }
    assert chunks[..|chunks|] == chunks;
  }

  method RunAddMac(stage: AddMacTransform, chunks: seq<bytes>)
    requires stage.Valid() && stage.ourMac == None && stage.consumed == [] && stage.readable == stage.emitted
    requires AllFull(chunks)
    modifies stage
    ensures AllFull(stage.readable)
    ensures Flat(stage.readable) == Flat(chunks) + stage.suite.hmac(stage.macKey, Flat(chunks))
  {
    hide Flat, Rounds;
    for i := 0 to |chunks|
      invariant stage.Valid() && stage.ourMac == None
      invariant stage.consumed == chunks[..i] && stage.readable == stage.emitted
    {
      stage.Transform(chunks[i]);
      assert chunks[..i + 1] == chunks[..i] + [chunks[i]];
    }
    assert chunks[..|chunks|] == chunks;
    ghost var last := stage.Flush();
  }

  /** The last four stages: cipher, iv, mac and digest. */
  method Seal(suite: Suite, chunks: seq<bytes>, keys: bytes, iv: bytes) returns (ciphertext: bytes, digest: bytes)
    requires Lawful(suite) && |keys| == 64 && |iv| == IV_LENGTH && AllFull(chunks)
    ensures Some(Encrypted(ciphertext, digest)) == EncryptAttachment(suite, Flat(chunks), keys, iv)
  {
    hide Flat, Rounds;
    var cipher := new CipherTransform(suite, iv, keys[..32]);
    RunCipher(cipher, chunks);
    assert cipher.readable != [] by { FlatNil(); }
    var addIv := new AddIvTransform(iv);
    RunAddIv(addIv, cipher.readable);
    var addMac := new AddMacTransform(suite, keys[32..64]);
    RunAddMac(addMac, addIv.readable);
    var digestStage := new DigestTransform(suite);
    RunDigest(digestStage, addMac.readable);
    NonEmptyFull(addMac.readable);
    ciphertext, digest := Flat(digestStage.readable), digestStage.digest.value;
  }

  /** For every way of reading the file in chunks and every way the reader may stall. */
  method EncryptAttachmentV2(suite: Suite, chunks: seq<bytes>, keys: bytes, iv: bytes, size: nat, room: nat -> nat)
    returns (r: Option<StreamEncrypted>)
    requires Lawful(suite)
    ensures r == StreamSealed(suite, chunks, keys, iv, size)
  {
    hide Flat, Rounds;
    if |keys| != 64 || |iv| != IV_LENGTH {
      return None;
    }
    var plaintextHash := new DigestTransform(suite);
    RunDigest(plaintextHash, chunks);
    FlatNonEmpty(chunks);
    DropEmpty(size, chunks);
    var padding := new AddPaddingTransform(size);
    var ok := RunPadding(padding, plaintextHash.readable, room);
    if !ok {
      return None;
    }
    var ciphertext, digest := Seal(suite, padding.readable, keys, iv);
    r := Some(StreamEncrypted(ciphertext, digest, plaintextHash.digest.value));
  }

  /** Empty chunks change nothing. */
  lemma {:induction false} DropEmpty(size: nat, chunks: seq<bytes>)
    ensures Rounds(size, NonEmpty(chunks)) == Rounds(size, chunks)
    ensures Straddles(size, NonEmpty(chunks)) <==> Straddles(size, chunks)
    ensures PaddedStream(size, NonEmpty(chunks)) == PaddedStream(size, chunks)
  {
    FlatNonEmpty(chunks);
    if chunks != [] {
      var n := |chunks| - 1;
      DropEmpty(size, chunks[..n]);
      FlatNonEmpty(chunks[..n]);
      var full := NonEmpty(chunks[..n]);
      if chunks[n] == [] {
        assert full + Chunk(chunks[n]) == full;
      } else {
        assert (full + [chunks[n]])[..|full|] == full;
      }
    }
  }

  // ----- what the stream form promises -----

  /** The padded stream of a file of at most `size` bytes. */
  lemma PaddedFile(size: nat, chunks: seq<bytes>)
    requires |Flat(chunks)| <= size
    ensures var p := Flat(chunks);
            PaddedStream(size, chunks) ==
              Some(if |p| == size > 0 then (BucketFits(size); p + Zeroes(Bucket(size) - size)) else p)
  {
    FlatNonEmpty(chunks);
    OneRound(size, NonEmpty(chunks));
    DropEmpty(size, chunks);
    var p := Flat(chunks);
    BucketFits(size);
    assert p[..|p|] == p && p + Zeroes(0) == p by { assert Zeroes(0) == []; }
    var pad := Bucket(size) - size;
    assert 1 * pad == pad && 0 * pad == 0;
  }

  /** The stream pads like the one-shot form exactly when the file is complete and not empty, or
      falls short of `size` but needs no padding anyway. */
  lemma SamePaddingIff(size: nat, chunks: seq<bytes>)
    requires |Flat(chunks)| <= size
    ensures var p := Flat(chunks);
            && Bucket(|p|) >= |p|
            && PaddedStream(size, chunks).Some?
            && (PaddedStream(size, chunks).value == p + Zeroes(Bucket(|p|) - |p|)
                <==> (|p| == size > 0 || (|p| < size && Bucket(|p|) == |p|)))
  {
    hide Flat, Straddles, Rounds, PaddedStream;
    var p := Flat(chunks);
    PaddedFile(size, chunks);
    BucketFits(|p|);
    hide Bucket;
    var streamed := PaddedStream(size, chunks).value;
    assert |streamed| == if |p| == size > 0 then Bucket(size) else |p|;
    if Bucket(|p|) == |p| {
      assert Zeroes(0) == [] && p + [] == p;
    }
  }

  /** Streaming encryption of a file of at most `size` bytes produces the bytes of the one-shot
      form exactly when the file is complete and not empty, or falls short of `size` but needs no
      padding anyway. */
  lemma StreamEqualsOneShotIff(s: Suite, chunks: seq<bytes>, keys: bytes, iv: bytes, size: nat)
    requires Lawful(s) && |keys| == 64 && |iv| == IV_LENGTH && |Flat(chunks)| <= size
    ensures var p := Flat(chunks);
            var r := StreamSealed(s, chunks, keys, iv, size);
            && r.Some? && r.value.plaintextHash == s.sha256(p)
            && (Some(Encrypted(r.value.ciphertext, r.value.digest)) == PadAndEncrypt(s, p, keys, iv)
                <==> (|p| == size > 0 || (|p| < size && Bucket(|p|) == |p|)))
  {
    hide Flat, Straddles, Rounds, PaddedStream;
    var p := Flat(chunks);
    SamePaddingIff(size, chunks);
    SealedInjective(s, PaddedStream(size, chunks).value, p + Zeroes(Bucket(|p|) - |p|), keys, iv);
  }

  lemma {:induction false} StraddlesIff(size: nat, chunks: seq<bytes>)
    ensures Straddles(size, chunks) <==>
              exists i :: 0 <= i < |chunks| && |Flat(chunks[..i])| < size < |Flat(chunks[..i + 1])|
  {
    if chunks != [] {
      var n := |chunks| - 1;
      StraddlesIff(size, chunks[..n]);
      assert chunks[..n + 1] == chunks;
      hide Flat;
      forall i | 0 <= i <= n ensures chunks[..n][..i] == chunks[..i] {
      }
      if Straddles(size, chunks[..n]) {
        var i :| 0 <= i < n && |Flat(chunks[..n][..i])| < size < |Flat(chunks[..n][..i + 1])|;
        assert |Flat(chunks[..i])| < size < |Flat(chunks[..i + 1])|;
      }
      if i :| 0 <= i < n && |Flat(chunks[..i])| < size < |Flat(chunks[..i + 1])| {
        assert |Flat(chunks[..n][..i])| < size < |Flat(chunks[..n][..i + 1])|;
      }
    }
  }

  /** Streaming encryption fails exactly for keys or an iv of the wrong length, or when a chunk begins
      before the size and ends after it. Otherwise it writes the iv, the enciphered padded content and the
      mac of both, and returns the hash of all that and of the file. */
  lemma SealsIff(s: Suite, chunks: seq<bytes>, keys: bytes, iv: bytes, size: nat)
    ensures var r := StreamSealed(s, chunks, keys, iv, size);
            && (r.Some? <==>
                  && |keys| == 64 && |iv| == 16
                  && !exists i :: 0 <= i < |chunks| && |Flat(chunks[..i])| < size < |Flat(chunks[..i + 1])|)
            && (r.Some? ==>
                  PaddedStream(size, chunks).Some? &&
                  var body := iv + s.encrypt(keys[..32], iv, PaddedStream(size, chunks).value);
                  && r.value.ciphertext == body + s.hmac(keys[32..64], body)
                  && r.value.digest == s.sha256(r.value.ciphertext) && r.value.plaintextHash == s.sha256(Flat(chunks)))
  {
    StraddlesIff(size, chunks);
    hide Flat, Straddles, Rounds;
  }

  /** Different plaintexts seal to different bytes. */
  lemma SealedInjective(s: Suite, a: bytes, b: bytes, keys: bytes, iv: bytes)
    requires Lawful(s) && |keys| == 64
    ensures EncryptAttachment(s, a, keys, iv) == EncryptAttachment(s, b, keys, iv) <==> a == b
  {
    var ea, eb := s.encrypt(keys[..32], iv, a), s.encrypt(keys[..32], iv, b);
    if EncryptAttachment(s, a, keys, iv) == EncryptAttachment(s, b, keys, iv) {
      var ma, mb := s.hmac(keys[32..64], iv + ea), s.hmac(keys[32..64], iv + eb);
      assert |ma| == |mb|;
      var all := iv + ea + ma;
      assert all == iv + eb + mb;
      assert ea == all[|iv|..|all| - |ma|] == eb;
      assert s.decrypt(keys[..32], iv, ea) == Some(a) && s.decrypt(keys[..32], iv, eb) == Some(b);
    }
  }

  /** One-shot decryption undoes the sealing, whatever the plaintext. */
  lemma OneShotRoundTrip(s: Suite, p: bytes, keys: bytes, iv: bytes)
    requires Lawful(s) && |keys| == 64 && |iv| == IV_LENGTH
    ensures var e := EncryptAttachment(s, p, keys, iv).value;
            DecryptAttachmentV1(s, e.ciphertext, keys, Some(e.digest)) == Some(p)
  {
    var ct := s.encrypt(keys[..32], iv, p);
    var mac := s.hmac(keys[32..64], iv + ct);
    var bin := iv + ct + mac;
    assert bin[..|bin| - MAC_LENGTH] == iv + ct && bin[|bin| - MAC_LENGTH..] == mac;
    assert bin[..IV_LENGTH] == iv && bin[IV_LENGTH..|bin| - MAC_LENGTH] == ct;
    FullDigestAccepted(s.sha256(bin), s.sha256(bin));
  }

  /** The round trip: what streaming encryption wrote for a file of at most `size` bytes,
      streaming decryption reads back as that file, however the two files are cut into chunks,
      exactly when the first chunk of the ciphertext holds the whole iv. */
  lemma StreamRoundTrip(s: Suite, chunks: seq<bytes>, keys: bytes, iv: bytes, size: nat,
                        sealed: StreamEncrypted, sealedChunks: seq<bytes>)
    requires Lawful(s) && |keys| == 64 && |iv| == IV_LENGTH && |Flat(chunks)| <= size
    requires StreamSealed(s, chunks, keys, iv, size) == Some(sealed) && Flat(sealedChunks) == sealed.ciphertext
    ensures var p := Flat(chunks);
            StreamResult(s, sealedChunks, keys, |p|, sealed.digest) ==
              if FirstChunkShort(sealedChunks) then None else Some(Decrypted(p, sealed.plaintextHash))
  {
    var p := Flat(chunks);
    PaddedFile(size, chunks);
    OneShotRoundTrip(s, PaddedStream(size, chunks).value, keys, iv);
    assert Cut(PaddedStream(size, chunks).value, |p|) == p;
  }
}
