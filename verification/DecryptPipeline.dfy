/** Streaming decryption of an attachment, against the one-shot `DecryptAttachmentV1`.

    The stages run one after the other here, each over the chunks the one before it pushed.
    Every stage is a function of the chunks it is given, in order, so how a runtime interleaves
    them makes no difference to what comes out. */
module DecryptPipeline {
  import opened Options
  import opened SizeBucket
  import opened Ciphers
  import opened Transforms

  datatype Decrypted = Decrypted(plaintext: bytes, plaintextHash: bytes)

  function NonEmpty(cs: seq<bytes>): seq<bytes> {
    if cs == [] then [] else NonEmpty(cs[..|cs| - 1]) + Chunk(cs[|cs| - 1])
  }

  lemma {:induction false} FlatNonEmpty(cs: seq<bytes>)
    ensures Flat(NonEmpty(cs)) == Flat(cs) && AllFull(NonEmpty(cs))
  {
    if cs != [] {
      var n := |cs| - 1;
      FlatNonEmpty(cs[..n]);
      FlatChunk(NonEmpty(cs[..n]), cs[n]);
    }
  }

  lemma {:induction false} NonEmptyFull(cs: seq<bytes>)
    requires AllFull(cs)
    ensures NonEmpty(cs) == cs
  {
    if cs != [] {
      NonEmptyFull(cs[..|cs| - 1]);
      assert cs == cs[..|cs| - 1] + [cs[|cs| - 1]];
    }
  }

  /** The first chunk that holds anything is too short to hold the whole iv. */
  predicate FirstChunkShort(chunks: seq<bytes>) {
    NonEmpty(chunks) != [] && |NonEmpty(chunks)[0]| < IV_LENGTH
  }

  /** What streaming decryption of a file read as `chunks` returns: what the one-shot form
      returns, cut to `size`, except that the digest must have its full length and the first
      chunk must hold the whole iv. */
  function StreamResult(s: Suite, chunks: seq<bytes>, keys: bytes, size: nat, theirDigest: bytes): Option<Decrypted> {
    if FirstChunkShort(chunks) || |theirDigest| != 32 then None else
    match DecryptAttachmentV1(s, Flat(chunks), keys, Some(theirDigest))
    case None => None
    case Some(p) => Some(Decrypted(Cut(p, size), s.sha256(Cut(p, size))))
  }

  method RunDigest(stage: DigestTransform, chunks: seq<bytes>)
    requires stage.Valid() && stage.digest == None && stage.consumed == [] && stage.readable == []
    modifies stage
    ensures stage.Valid() && stage.consumed == stage.readable == NonEmpty(chunks)
    ensures stage.digest == Some(stage.suite.sha256(Flat(chunks)))
  {
    hide Flat;
    for i := 0 to |chunks|
      invariant stage.Valid() && stage.digest == None
      invariant stage.consumed == stage.readable == NonEmpty(chunks[..i])
    {
      stage.Transform(chunks[i]);
      assert chunks[..i + 1][..i] == chunks[..i];
    }
    assert chunks[..|chunks|] == chunks;
    FlatNonEmpty(chunks);
    stage.Flush();
  }

  method RunMac(stage: MacTransform, chunks: seq<bytes>)
    requires stage.Valid() && stage.ourMac == None && stage.consumed == [] && stage.readable == []
    modifies stage
    ensures stage.Valid() && stage.consumed == stage.readable == NonEmpty(chunks)
    ensures stage.ourMac == Some(stage.suite.hmac(stage.macKey, stage.macBuilder))
  {
    hide Flat;
    for i := 0 to |chunks|
      invariant stage.Valid() && stage.ourMac == None
      invariant stage.consumed == stage.readable == NonEmpty(chunks[..i])
    {
      stage.Transform(chunks[i]);
      assert chunks[..i + 1][..i] == chunks[..i];
    }
    assert chunks[..|chunks|] == chunks;
    stage.Flush();
  }

  /** The core stage also hands the iv to the decipher stage. */
  method RunCore(stage: CoreDecryptionTransform, chunks: seq<bytes>) returns (ok: bool)
    requires stage.Valid() && stage.theirMac == None && stage.consumed == [] && stage.readable == stage.emitted
    requires stage.decipher.Valid() && stage.decipher.iv == stage.iv && Lawful(stage.decipher.suite)
    requires AllFull(chunks)
    modifies stage, stage.decipher`iv
    ensures ok <==> chunks != [] && |chunks[0]| >= IV_LENGTH && |Flat(chunks)| >= IV_LENGTH + MAC_LENGTH
    ensures ok ==> stage.Valid() && stage.consumed == chunks && stage.readable == stage.emitted
    ensures ok ==> stage.theirMac == Some(stage.lastBytes) && |stage.lastBytes| == MAC_LENGTH
    ensures ok ==> stage.decipher.Valid() && stage.decipher.iv == stage.iv && stage.iv.Some?
  {
    hide Flat;
    for i := 0 to |chunks|
      invariant stage.Valid() && stage.theirMac == None && stage.consumed == chunks[..i]
      invariant stage.readable == stage.emitted
      invariant stage.decipher.Valid() && stage.decipher.iv == stage.iv
    {
      var taken;
      ghost var pushed;
      taken, pushed := stage.Transform(chunks[i]);
      if !taken {
        return false;
      }
      assert chunks[..i + 1] == chunks[..i] + [chunks[i]];
    }
    assert chunks[..|chunks|] == chunks;
    FlatNil();
    ok := stage.Flush();
  }

  method RunDecipher(stage: DecipherTransform, chunks: seq<bytes>) returns (ok: bool)
    requires stage.Valid() && !stage.flushed && stage.iv.Some? && Lawful(stage.suite)
    requires stage.consumed == [] && stage.readable == stage.emitted
    requires AllFull(chunks)
    modifies stage
    ensures ok <==> stage.suite.decrypt(stage.aesKey, old(stage.iv).value, Flat(chunks)).Some?
    ensures ok ==> AllFull(stage.readable)
    ensures ok ==> stage.suite.decrypt(stage.aesKey, old(stage.iv).value, Flat(chunks)).value == Flat(stage.readable)
  {
    hide Flat;
    for i := 0 to |chunks|
      invariant stage.Valid() && !stage.flushed && stage.iv == old(stage.iv)
      invariant stage.consumed == chunks[..i] && stage.readable == stage.emitted
    {
      var taken;
      ghost var pushed;
      taken, pushed := stage.Transform(chunks[i]);
      assert chunks[..i + 1] == chunks[..i] + [chunks[i]];
    }
    assert chunks[..|chunks|] == chunks;
    ghost var last;
    ok, last := stage.Flush();
  }

  method RunLimit(stage: LimitLengthTransform, chunks: seq<bytes>)
    requires stage.Valid() && !stage.flushed && stage.consumed == [] && stage.readable == stage.emitted
    requires AllFull(chunks)
    modifies stage
    ensures AllFull(stage.readable)
    ensures Flat(stage.readable) == Cut(Flat(chunks), stage.size)
  {
    hide Flat;
    for i := 0 to |chunks|
      invariant stage.Valid() && !stage.flushed
      invariant stage.consumed == chunks[..i] && stage.readable == stage.emitted
    {
      ghost var pushed := stage.Transform(chunks[i]);
      assert chunks[..i + 1] == chunks[..i] + [chunks[i]];
    }
    assert chunks[..|chunks|] == chunks;
    stage.Flush();
  }

  /** The pieces that the stages kept are the pieces that the one-shot form cuts out. */
  lemma SamePieces(bin: bytes, macBuilder: bytes, lastBytes: bytes, iv: bytes, passed: bytes, held: bytes)
    requires bin == macBuilder + lastBytes && |lastBytes| == MAC_LENGTH
    requires Split(bin, iv, passed, held) && |iv| == IV_LENGTH && |held| == MAC_LENGTH
    ensures macBuilder == bin[..|bin| - MAC_LENGTH]
    ensures iv == bin[..IV_LENGTH] && passed == bin[IV_LENGTH..|bin| - MAC_LENGTH]
    ensures held == bin[|bin| - MAC_LENGTH..]
  {
    assert (iv + passed + held)[..IV_LENGTH] == iv;
    assert (iv + passed + held)[IV_LENGTH..|bin| - MAC_LENGTH] == passed;
  }

  datatype Streamed = Streamed(ourMac: bytes, theirMac: bytes, digest: bytes, plaintext: bytes, plaintextHash: bytes)

  function Cut(p: bytes, size: nat): bytes {
    p[..Min(size, |p|)]
  }

  /** What the stages hold at the end of a file `bin` whose first chunk has the iv. */
  function Pieces(suite: Suite, bin: bytes, aesKey: bytes, macKey: bytes, size: nat): Option<Streamed> {
    if |bin| < IV_LENGTH + MAC_LENGTH then None else
    var macAt := |bin| - MAC_LENGTH;
    match suite.decrypt(aesKey, bin[..IV_LENGTH], bin[IV_LENGTH..macAt])
    case None => None
    case Some(p) => Some(Streamed(suite.hmac(macKey, bin[..macAt]), bin[macAt..], suite.sha256(bin),
                                  Cut(p, size), suite.sha256(Cut(p, size))))
  }

  /** The first two stages: the digest of the file, the mac of all but its end, and the chunks
      that hold anything. */
  method Scan(suite: Suite, chunks: seq<bytes>, macKey: bytes)
    returns (digest: bytes, ourMac: bytes, read: seq<bytes>, ghost macBuilder: bytes, ghost lastBytes: bytes)
    ensures digest == suite.sha256(Flat(chunks)) && ourMac == suite.hmac(macKey, macBuilder)
    ensures macBuilder + lastBytes == Flat(chunks) && |lastBytes| == Min(MAC_LENGTH, |Flat(chunks)|)
    ensures read == NonEmpty(chunks) && AllFull(read) && Flat(read) == Flat(chunks)
  {
    hide Flat;
    var digestStage := new DigestTransform(suite);
    RunDigest(digestStage, chunks);
    digest := digestStage.digest.value;
    FlatNonEmpty(chunks);
    var macStage := new MacTransform(suite, macKey);
    RunMac(macStage, digestStage.readable);
    NonEmptyFull(digestStage.readable);
    ourMac, read := macStage.ourMac.value, macStage.readable;
    macBuilder, lastBytes := macStage.macBuilder, macStage.lastBytes;
  }

  /** The first three stages: digest and mac of the file, and the file taken apart. */
  method TakeApart(suite: Suite, chunks: seq<bytes>, aesKey: bytes, macKey: bytes)
    returns (ok: bool, digest: bytes, ourMac: bytes, theirMac: bytes, passed: seq<bytes>, decipher: DecipherTransform)
    requires Lawful(suite)
    ensures var bin := Flat(chunks);
            var macAt := |bin| - MAC_LENGTH;
            && ok == (!FirstChunkShort(chunks) && |bin| >= IV_LENGTH + MAC_LENGTH)
            && (ok ==>
                  && digest == suite.sha256(bin)
                  && ourMac == suite.hmac(macKey, bin[..macAt]) && theirMac == bin[macAt..]
                  && AllFull(passed) && Flat(passed) == bin[IV_LENGTH..macAt]
                  && decipher.iv == Some(bin[..IV_LENGTH]))
    ensures ok ==> fresh(decipher) && decipher.Valid() && decipher.suite == suite && decipher.aesKey == aesKey
    ensures ok ==> !decipher.flushed && decipher.consumed == [] && decipher.readable == decipher.emitted
  {
    hide Flat;
    theirMac, passed := [], [];
    var read;
    ghost var macBuilder, lastBytes;
    digest, ourMac, read, macBuilder, lastBytes := Scan(suite, chunks, macKey);
    decipher := new DecipherTransform(suite, aesKey);
    var core := new CoreDecryptionTransform(decipher);
    ok := RunCore(core, read);
    FlatNil();
    if ok {
      SamePieces(Flat(chunks), macBuilder, lastBytes, core.iv.value, Flat(core.emitted), core.lastBytes);
      theirMac, passed := core.theirMac.value, core.readable;
    }
  }

  /** The stages, one after the other; what the checks afterwards compare. */
  method RunStages(suite: Suite, chunks: seq<bytes>, aesKey: bytes, macKey: bytes, size: nat)
    returns (r: Option<Streamed>)
    requires Lawful(suite)
    ensures r == if FirstChunkShort(chunks) then None else Pieces(suite, Flat(chunks), aesKey, macKey, size)
  {
    hide Flat;
    var ok, digest, ourMac, theirMac, passed, decipher := TakeApart(suite, chunks, aesKey, macKey);
    if !ok {
      return None;
    }
    var decipherOk := RunDecipher(decipher, passed);
    if !decipherOk {
      return None;
    }
    var limit := new LimitLengthTransform(size);
    RunLimit(limit, decipher.readable);
    var plainHash := new DigestTransform(suite);
    RunDigest(plainHash, limit.readable);
    NonEmptyFull(limit.readable);
    r := Some(Streamed(ourMac, theirMac, digest, Flat(plainHash.readable), plainHash.digest.value));
  }

  /** For every way of reading the file in chunks, streaming decryption agrees with the one-shot
      form: it succeeds exactly when that does, the given digest has full length and the first
      chunk holds the iv, and then it yields the same plaintext cut to `size`. */
  method DecryptAttachmentV2(suite: Suite, chunks: seq<bytes>, keys: bytes, size: nat, theirDigest: bytes)
    returns (r: Option<Decrypted>)
    requires Lawful(suite)
    ensures r == StreamResult(suite, chunks, keys, size, theirDigest)
    ensures var bin := Flat(chunks);
            r.Some? ==>
              && |keys| == 64 && |bin| >= 48 && theirDigest == suite.sha256(bin)
              && bin[|bin| - 32..] == suite.hmac(keys[32..64], bin[..|bin| - 32])
  {
    hide Flat;
    if |keys| != 64 {
      return None;
    }
    var out := RunStages(suite, chunks, keys[..32], keys[32..64], size);
    if out.None? {
      return None;
    }
    var o := out.value;
    FullDigest(suite, Flat(chunks), theirDigest);
    assert o.theirMac <= o.ourMac <==> o.theirMac == o.ourMac by {
      assert |o.theirMac| == |o.ourMac| == MAC_LENGTH;
    }
    if o.ourMac != o.theirMac || o.digest != theirDigest {
      return None;
    }
    r := Some(Decrypted(o.plaintext, o.plaintextHash));
  }

  lemma FullDigest(s: Suite, bin: bytes, theirDigest: bytes)
    requires Lawful(s)
    ensures |theirDigest| == 32 ==> (DigestAccepted(s.sha256(bin), theirDigest) <==> s.sha256(bin) == theirDigest)
    ensures |s.sha256(bin)| == 32
  {
    if |theirDigest| == 32 {
      FullDigestAccepted(s.sha256(bin), theirDigest);
    }
  }
}
