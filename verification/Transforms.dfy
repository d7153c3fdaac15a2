/** The stream transforms of attachment encryption and decryption. Each keeps `readable`, the
    chunks it has pushed and its reader has not yet taken, and two ghost histories: every chunk
    it was given and every chunk it pushed. `Valid` ties the fields to the histories. */
module Transforms {
  import opened Options
  import opened SizeBucket
  import opened Ciphers

  // ----- chunk lists -----

  function Flat(cs: seq<bytes>): bytes {
    if cs == [] then [] else Flat(cs[..|cs| - 1]) + cs[|cs| - 1]
  }

  predicate AllFull(cs: seq<bytes>) {
    forall i :: 0 <= i < |cs| ==> cs[i] != []
  }

  /** Pushing an empty buffer pushes nothing. */
  function Chunk(b: bytes): (cs: seq<bytes>)
    ensures AllFull(cs)
  {
    if b == [] then [] else [b]
  }

  lemma {:induction false} FlatAppend(a: seq<bytes>, b: seq<bytes>)
    ensures Flat(a + b) == Flat(a) + Flat(b)
  {
    if b == [] {
      assert a + b == a;
    } else {
      var n := |b| - 1;
      assert (a + b)[..|a + b| - 1] == a + b[..n];
      FlatAppend(a, b[..n]);
    }
  }

  lemma FlatNil()
    ensures Flat([]) == []
  {
  }

  lemma FlatSnoc(a: seq<bytes>, b: bytes)
    ensures Flat(a + [b]) == Flat(a) + b
  {
    assert (a + [b])[..|a|] == a;
  }

  lemma FlatChunk(a: seq<bytes>, b: bytes)
    ensures Flat(a + Chunk(b)) == Flat(a) + b
  {
    if b == [] {
      assert a + Chunk(b) == a;
    } else {
      FlatSnoc(a, b);
    }
  }

  function Min(a: int, b: int): int {
    if a < b then a else b
  }

  // ----- transforms used on both sides -----

  /** Passes everything through and hashes it. */
  class DigestTransform {
    const suite: Suite
    var digestBuilder: bytes
    var digest: Option<bytes>
    var readable: seq<bytes>
    ghost var consumed: seq<bytes>
    ghost var emitted: seq<bytes>

    ghost predicate Valid()
      reads this
    {
      && digestBuilder == Flat(consumed)
      && emitted == consumed && AllFull(emitted)
      && (digest.Some? ==> digest.value == suite.sha256(Flat(consumed)))
    }

    constructor (suite: Suite)
      ensures Valid() && this.suite == suite && digest == None && readable == [] && consumed == []
    {
      this.suite := suite;
      digestBuilder, digest, readable, consumed, emitted := [], None, [], [], [];
    }

    method Transform(chunk: bytes)
      requires Valid() && digest == None
      modifies this
      ensures Valid() && digest == None
      ensures consumed == old(consumed) + Chunk(chunk)
      ensures readable == old(readable) + Chunk(chunk)
    {
      hide Flat;
      if chunk == [] {
        return;
      }
      digestBuilder := digestBuilder + chunk;
      readable := readable + [chunk];
      FlatSnoc(consumed, chunk);
      consumed, emitted := consumed + [chunk], emitted + [chunk];
    }

    method Flush()
      requires Valid()
      modifies this
      ensures Valid() && digest == Some(suite.sha256(Flat(consumed)))
      ensures consumed == old(consumed) && readable == old(readable) && emitted == old(emitted)
    {
      hide Flat;
      digest := Some(suite.sha256(digestBuilder));
    }
  }

  // ----- decryption -----

  /** Passes everything through and computes the mac of all but the last 32 bytes. */
  class MacTransform {
    const suite: Suite
    const macKey: bytes
    var ourMac: Option<bytes>
    var macBuilder: bytes
    var lastBytes: bytes
    var readable: seq<bytes>
    ghost var consumed: seq<bytes>
    ghost var emitted: seq<bytes>

    /** The mac covers everything read except the held-back last bytes. */
    ghost predicate Valid()
      reads this
    {
      && macBuilder + lastBytes == Flat(consumed)
      && |lastBytes| == Min(MAC_LENGTH, |Flat(consumed)|)
      && emitted == consumed && AllFull(emitted)
      && (ourMac.Some? ==> ourMac.value == suite.hmac(macKey, macBuilder))
    }

    constructor (suite: Suite, macKey: bytes)
      ensures Valid() && this.suite == suite && this.macKey == macKey
      ensures ourMac == None && readable == [] && consumed == []
    {
      this.suite, this.macKey := suite, macKey;
      ourMac, macBuilder, lastBytes, readable, consumed, emitted := None, [], [], [], [], [];
    }

    method Transform(chunk: bytes)
      requires Valid() && ourMac == None
      modifies this
      ensures Valid() && ourMac == None
      ensures consumed == old(consumed) + Chunk(chunk)
      ensures readable == old(readable) + Chunk(chunk)
    {
      hide Flat;
      if chunk == [] {
        return;
      }
      var data := lastBytes + chunk;
      var lastBytesIndex := Max(0, |data| - MAC_LENGTH);
      lastBytes := data[lastBytesIndex..];
      if lastBytesIndex > 0 {
        macBuilder := macBuilder + data[..lastBytesIndex];
      }
      readable := readable + [chunk];
      FlatSnoc(consumed, chunk);
      consumed, emitted := consumed + [chunk], emitted + [chunk];
    }

    method Flush()
      requires Valid()
      modifies this
      ensures Valid() && ourMac == Some(suite.hmac(macKey, macBuilder))
      ensures consumed == old(consumed) && readable == old(readable) && emitted == old(emitted)
      ensures macBuilder == old(macBuilder)
    {
      hide Flat;
      ourMac := Some(suite.hmac(macKey, macBuilder));
    }
  }

  /** Deciphers; it cannot start before it is given the iv. */
  class DecipherTransform {
    const suite: Suite
    const aesKey: bytes
    var iv: Option<bytes>
    var absorbed: bytes
    var flushed: bool
    var readable: seq<bytes>
    ghost var consumed: seq<bytes>
    ghost var emitted: seq<bytes>

    ghost predicate Valid()
      reads this
    {
      && AllFull(emitted) && absorbed == Flat(consumed)
      && (iv.None? ==> consumed == [] && emitted == [] && !flushed)
      && (iv.Some? && !flushed ==> Flat(emitted) == suite.decrypting(aesKey, iv.value, absorbed))
      && (iv.Some? && flushed ==> suite.decrypt(aesKey, iv.value, absorbed) == Some(Flat(emitted)))
    }

    constructor (suite: Suite, aesKey: bytes)
      ensures Valid() && this.suite == suite && this.aesKey == aesKey
      ensures iv == None && !flushed && readable == [] && consumed == [] && emitted == []
    {
      this.suite, this.aesKey := suite, aesKey;
      iv, absorbed, flushed, readable, consumed, emitted := None, [], false, [], [], [];
    }

    method InitializeDecipher(iv: bytes)
      requires Valid() && this.iv == None && Lawful(suite)
      modifies this`iv
      ensures Valid() && this.iv == Some(iv)
    {
      this.iv := Some(iv);
      assert Flat([]) == [];
    }

    method Transform(chunk: bytes) returns (ok: bool, ghost pushed: seq<bytes>)
      requires Valid() && !flushed && Lawful(suite)
      modifies this
      ensures ok == old(iv).Some?
      ensures ok ==> Valid() && !flushed && iv == old(iv) && consumed == old(consumed) + Chunk(chunk)
      ensures ok ==> readable == old(readable) + pushed && emitted == old(emitted) + pushed
    {
      hide Flat;
      pushed := [];
      if iv.None? {
        return false, pushed;
      }
      ok := true;
      if chunk == [] {
        return;
      }
      var before := suite.decrypting(aesKey, iv.value, absorbed);
      var after := suite.decrypting(aesKey, iv.value, absorbed + chunk);
      var update := after[|before|..];
      assert after == before + update;
      pushed := Chunk(update);
      readable := readable + Chunk(update);
      assert Flat(emitted + pushed) == after by { FlatChunk(emitted, update); }
      assert Flat(consumed + [chunk]) == absorbed + chunk by { FlatSnoc(consumed, chunk); }
      absorbed := absorbed + chunk;
      consumed, emitted := consumed + [chunk], emitted + pushed;
    }

    method Flush() returns (ok: bool, ghost pushed: seq<bytes>)
      requires Valid() && !flushed && Lawful(suite)
      modifies this
      ensures ok <==> old(iv).Some? && suite.decrypt(aesKey, old(iv).value, Flat(old(consumed))).Some?
      ensures ok ==> Valid() && flushed && iv == old(iv) && consumed == old(consumed)
      ensures ok ==> readable == old(readable) + pushed && emitted == old(emitted) + pushed
    {
      hide Flat;
      pushed := [];
      if iv.None? {
        return false, pushed;
      }
      var all := suite.decrypt(aesKey, iv.value, absorbed);
      if all.None? {
        return false, pushed;
      }
      var before := suite.decrypting(aesKey, iv.value, absorbed);
      var final := all.value[|before|..];
      assert all.value == before + final;
      pushed := Chunk(final);
      readable := readable + Chunk(final);
      FlatChunk(emitted, final);
      flushed, emitted := true, emitted + pushed;
      ok := true;
    }
  }

  /** What was read is the iv, what was passed on and what is held back; as much as possible is
      held back, up to the length of the mac. */
  predicate Split(read: bytes, iv: bytes, passed: bytes, held: bytes) {
    && read == iv + passed + held
    && |held| <= MAC_LENGTH && (|held| < MAC_LENGTH ==> passed == [])
  }

  lemma SplitMore(iv: bytes, passed: bytes, held: bytes, more: bytes)
    requires |held| <= MAC_LENGTH && (|held| < MAC_LENGTH ==> passed == [])
    ensures var data := held + more;
            var k := Max(0, |data| - MAC_LENGTH);
            Split(iv + passed + held + more, iv, passed + data[..k], data[k..])
  {
    var data := held + more;
    var k := Max(0, |data| - MAC_LENGTH);
    assert data == data[..k] + data[k..];
  }

  /** Splits off the iv at the front and the mac at the end. */
  class CoreDecryptionTransform {
    const decipher: DecipherTransform
    var iv: Option<bytes>
    var lastBytes: bytes
    var theirMac: Option<bytes>
    var readable: seq<bytes>
    ghost var consumed: seq<bytes>
    ghost var emitted: seq<bytes>

    /** The iv, what was passed on and what is held back make up all that was read. */
    ghost predicate Valid()
      reads this
    {
      && AllFull(emitted)
      && (iv.None? ==> consumed == [] && emitted == [] && lastBytes == [] && theirMac == None)
      && (iv.Some? ==>
            && consumed != [] && |consumed[0]| >= IV_LENGTH && |iv.value| == IV_LENGTH
            && Split(Flat(consumed), iv.value, Flat(emitted), lastBytes))
      && (theirMac.Some? ==> theirMac.value == lastBytes && |lastBytes| == MAC_LENGTH)
    }

    constructor (decipher: DecipherTransform)
      ensures Valid() && this.decipher == decipher
      ensures iv == None && theirMac == None && readable == [] && consumed == [] && emitted == []
    {
      this.decipher := decipher;
      iv, lastBytes, theirMac, readable, consumed, emitted := None, [], None, [], [], [];
    }

    method Transform(chunk: bytes) returns (ok: bool, ghost pushed: seq<bytes>)
      requires Valid() && theirMac == None
      requires decipher.Valid() && decipher.iv == iv && Lawful(decipher.suite)
      modifies this, decipher`iv
      ensures ok <==> chunk == [] || old(iv).Some? || |chunk| >= IV_LENGTH
      ensures !ok ==> old(consumed) == []
      ensures ok ==> Valid() && theirMac == None && consumed == old(consumed) + Chunk(chunk)
      ensures ok ==> readable == old(readable) + pushed && emitted == old(emitted) + pushed
      ensures ok ==> decipher.Valid() && decipher.iv == iv && (iv.Some? <==> old(iv).Some? || chunk != [])
    {
      hide Flat;
      var data := chunk;
      pushed := [];
      if chunk == [] {
        return true, pushed;
      }
      FlatNil();
      if iv.None? {
        iv := Some(chunk[..Min(IV_LENGTH, |chunk|)]);
        data := chunk[Min(IV_LENGTH, |chunk|)..];
        if |iv.value| != IV_LENGTH {
          return false, pushed;
        }
        decipher.InitializeDecipher(iv.value);
        assert chunk == iv.value + data;
      }
      pushed := PassOn(chunk, data);
      ok := true;
    }

    /** The second half of the transform: pass on all but the last 32 bytes not yet passed on. */
    method PassOn(chunk: bytes, data0: bytes) returns (ghost pushed: seq<bytes>)
      requires iv.Some? && |iv.value| == IV_LENGTH && AllFull(emitted) && theirMac == None
      requires |(if consumed == [] then chunk else consumed[0])| >= IV_LENGTH
      requires Flat(consumed) + chunk == iv.value + Flat(emitted) + lastBytes + data0
      requires |lastBytes| <= MAC_LENGTH && (|lastBytes| < MAC_LENGTH ==> Flat(emitted) == [])
      modifies this`lastBytes, this`readable, this`consumed, this`emitted
      ensures Valid() && consumed == old(consumed) + [chunk]
      ensures readable == old(readable) + pushed && emitted == old(emitted) + pushed
    {
      hide Flat;
      ghost var passed := Flat(emitted);
      var data := lastBytes + data0;
      var macIndex := Max(0, |data| - MAC_LENGTH);
      assert Split(Flat(consumed) + chunk, iv.value, passed + data[..macIndex], data[macIndex..]) by {
        SplitMore(iv.value, passed, lastBytes, data0);
      }
      lastBytes := data[macIndex..];
      if macIndex > 0 {
        readable := readable + [data[..macIndex]];
      }
      pushed := Chunk(data[..macIndex]);
      assert Flat(consumed + [chunk]) == Flat(consumed) + chunk by { FlatSnoc(consumed, chunk); }
      assert Flat(emitted + pushed) == passed + data[..macIndex] by { FlatChunk(emitted, data[..macIndex]); }
      consumed, emitted := consumed + [chunk], emitted + pushed;
    }

    method Flush() returns (ok: bool)
      requires Valid() && theirMac == None
      modifies this`theirMac
      ensures ok <==> |lastBytes| == MAC_LENGTH
      ensures ok ==> Valid() && theirMac == Some(lastBytes)
    {
      hide Flat;
      if |lastBytes| != MAC_LENGTH {
        return false;
      }
      theirMac := Some(lastBytes);
      ok := true;
    }
  }

  /** Passes on the first `size` bytes and drops the rest. */
  class LimitLengthTransform {
    const size: nat
    var bytesWritten: nat
    var flushed: bool
    var readable: seq<bytes>
    ghost var consumed: seq<bytes>
    ghost var emitted: seq<bytes>

    ghost predicate Valid()
      reads this
    {
      && AllFull(emitted)
      && bytesWritten == Min(size, |Flat(consumed)|)
      && Flat(emitted) == Flat(consumed)[..bytesWritten]
    }

    constructor (size: nat)
      ensures Valid() && this.size == size
      ensures !flushed && readable == [] && consumed == [] && emitted == []
    {
      this.size := size;
      bytesWritten, flushed, readable, consumed, emitted := 0, false, [], [], [];
    }

    method Transform(chunk: bytes) returns (ghost pushed: seq<bytes>)
      requires Valid() && !flushed
      modifies this
      ensures Valid() && !flushed && consumed == old(consumed) + Chunk(chunk)
      ensures readable == old(readable) + pushed && emitted == old(emitted) + pushed
    {
      hide Flat;
      pushed := [];
      if chunk == [] {
        return;
      }
      var sizeLeft := size - bytesWritten;
      FlatSnoc(consumed, chunk);
      ghost var all := Flat(consumed) + chunk;
      if sizeLeft >= |chunk| {
        bytesWritten := bytesWritten + |chunk|;
        pushed := [chunk];
        readable := readable + [chunk];
        assert all[..bytesWritten] == Flat(emitted) + chunk;
      } else if sizeLeft > 0 {
        bytesWritten := bytesWritten + sizeLeft;
        pushed := [chunk[..sizeLeft]];
        readable := readable + [chunk[..sizeLeft]];
        assert all[..bytesWritten] == Flat(emitted) + chunk[..sizeLeft];
      } else {
        assert all[..bytesWritten] == Flat(emitted);
      }
      if pushed != [] {
        FlatSnoc(emitted, pushed[0]);
      } else {
        assert emitted + pushed == emitted;
      }
      consumed, emitted := consumed + [chunk], emitted + pushed;
    }

    /** This transform has no flush of its own; its end only passes through. */
    method Flush()
      requires Valid()
      modifies this`flushed
      ensures Valid() && flushed
    {
      hide Flat;
      flushed := true;
    }
  }

  // ----- encryption -----

  const PADDING_CHUNK_SIZE := 65536

  function Sum(ns: seq<nat>): nat {
    if ns == [] then 0 else ns[0] + Sum(ns[1..])
  }

  lemma {:induction false} SumSnoc(ns: seq<nat>, n: nat)
    ensures Sum(ns + [n]) == Sum(ns) + n
  {
    if ns != [] {
      SumSnoc(ns[1..], n);
      assert (ns + [n])[1..] == ns[1..] + [n];
    }
  }

  lemma ZeroesAdd(a: nat, b: nat)
    ensures Zeroes(a) + Zeroes(b) == Zeroes(a + b)
  {
  }

  /** How many chunks arrive when all `size` bytes have been written, counting the one that
      completes them: padding is scheduled once for each. */
  function Rounds(size: nat, cs: seq<bytes>): nat {
    if cs == [] then 0 else
    Rounds(size, cs[..|cs| - 1]) + (if cs[|cs| - 1] != [] && |Flat(cs)| >= size then 1 else 0)
  }

  lemma RoundsSnoc(size: nat, cs: seq<bytes>, c: bytes)
    requires c != []
    ensures Rounds(size, cs + [c]) == Rounds(size, cs) + if |Flat(cs)| + |c| < size then 0 else 1
  {
    FlatSnoc(cs, c);
    assert (cs + [c])[..|cs|] == cs;
  }

  /** Does some chunk begin before the `size`th byte and end after it? */
  predicate Straddles(size: nat, cs: seq<bytes>) {
    cs != [] &&
    (Straddles(size, cs[..|cs| - 1]) || |Flat(cs[..|cs| - 1])| < size < |Flat(cs)|)
  }

  /** Passes on `size` bytes and then as many zeroes as the size bucket asks for. */
  class AddPaddingTransform {
    const size: nat
    const targetLength: nat
    var bytesWritten: nat
    var paddingChunksToWrite: seq<nat>
    var paddingCallback: bool
    var readable: seq<bytes>
    ghost var callbacksFired: nat
    ghost var consumed: seq<bytes>
    ghost var emitted: seq<bytes>

    /** What was pushed and the zeroes still to push make up the first `size` bytes and one
        padding for each round. With no more than `size` bytes given, the callback kept for a
        full reader has fired at most once, and only when the padding was out. */
    ghost predicate Valid()
      reads this
    {
      && targetLength == Bucket(size) >= size
      && AllFull(emitted) && (forall i :: 0 <= i < |paddingChunksToWrite| ==> paddingChunksToWrite[i] > 0)
      && bytesWritten == Min(size, |Flat(consumed)|)
      && Flat(emitted) + Zeroes(Sum(paddingChunksToWrite)) == Expected(consumed)
      && (paddingChunksToWrite != [] ==> paddingCallback)
      && (Rounds(size, consumed) == 0 ==> !paddingCallback && callbacksFired == 0)
      && (Rounds(size, consumed) == 1 ==>
            callbacksFired == if paddingCallback && paddingChunksToWrite == [] then 1 else 0)
    }

    ghost function Expected(cs: seq<bytes>): bytes
      requires targetLength >= size
    {
      Flat(cs)[..Min(size, |Flat(cs)|)] + Zeroes(Rounds(size, cs) * (targetLength - size))
    }

    constructor (size: nat)
      ensures Valid() && this.size == size && paddingChunksToWrite == []
      ensures readable == [] && consumed == [] && emitted == []
    {
      BucketFits(size);
      this.size, targetLength := size, Bucket(size);
      bytesWritten, paddingChunksToWrite, paddingCallback := 0, [], false;
      readable, callbacksFired, consumed, emitted := [], 0, [], [];
    }

    /** Pushes padding until it is out or the reader is full: the first `room` pushes are
        accepted and the next one is taken but answered with a stop. */
    method PushPaddingChunks(room: nat) returns (done: bool, ghost pushed: seq<bytes>)
      requires AllFull(emitted) && forall i :: 0 <= i < |paddingChunksToWrite| ==> paddingChunksToWrite[i] > 0
      modifies `paddingChunksToWrite, `readable, `emitted, `callbacksFired
      ensures AllFull(emitted) && forall i :: 0 <= i < |paddingChunksToWrite| ==> paddingChunksToWrite[i] > 0
      ensures Flat(emitted) + Zeroes(Sum(paddingChunksToWrite))
           == old(Flat(emitted) + Zeroes(Sum(paddingChunksToWrite)))
      ensures readable == old(readable) + pushed && emitted == old(emitted) + pushed
      ensures done <==> paddingChunksToWrite == []
      ensures old(paddingChunksToWrite) != [] ==> |paddingChunksToWrite| < |old(paddingChunksToWrite)|
      ensures callbacksFired == old(callbacksFired) + if done && paddingCallback then 1 else 0
    {
      hide Flat;
      pushed := [];
      var accepted := 0;
      while paddingChunksToWrite != []
        invariant AllFull(emitted) && forall i :: 0 <= i < |paddingChunksToWrite| ==> paddingChunksToWrite[i] > 0
        invariant Flat(emitted) + Zeroes(Sum(paddingChunksToWrite))
               == old(Flat(emitted) + Zeroes(Sum(paddingChunksToWrite)))
        invariant readable == old(readable) + pushed && emitted == old(emitted) + pushed
        invariant |paddingChunksToWrite| <= |old(paddingChunksToWrite)|
        invariant old(paddingChunksToWrite) != [] && accepted > 0 ==>
                    |paddingChunksToWrite| < |old(paddingChunksToWrite)|
        invariant accepted == 0 ==> paddingChunksToWrite == old(paddingChunksToWrite)
        invariant callbacksFired == old(callbacksFired)
        decreases |paddingChunksToWrite|
      {
        var first := paddingChunksToWrite[0];
        ZeroesAdd(first, Sum(paddingChunksToWrite[1..]));
        FlatSnoc(emitted, Zeroes(first));
        paddingChunksToWrite := paddingChunksToWrite[1..];
        readable := readable + [Zeroes(first)];
        pushed, emitted := pushed + [Zeroes(first)], emitted + [Zeroes(first)];
        if accepted >= room {
          break;
        }
        accepted := accepted + 1;
      }
      if paddingChunksToWrite != [] {
        return false, pushed;
      }
      if paddingCallback {
        callbacksFired := callbacksFired + 1;
      }
      done := true;
    }

    /** `_read`, when padding is waiting for the reader. */
    method Read(room: nat) returns (ghost pushed: seq<bytes>)
      requires Valid() && paddingChunksToWrite != []
      modifies this
      ensures Valid() && consumed == old(consumed)
      ensures readable == old(readable) + pushed && emitted == old(emitted) + pushed
      ensures |paddingChunksToWrite| < |old(paddingChunksToWrite)|
    {
      var done;
      done, pushed := PushPaddingChunks(room);
    }

    /** `_transform`: it is called again only once the padding of the last call is out. */
    method Transform(chunk: bytes, room: nat) returns (ok: bool, ghost pushed: seq<bytes>)
      requires Valid() && paddingChunksToWrite == []
      modifies this
      ensures ok <==> !(|Flat(old(consumed))| < size < |Flat(old(consumed))| + |chunk|)
      ensures ok ==> Valid() && consumed == old(consumed) + Chunk(chunk)
      ensures ok ==> readable == old(readable) + pushed && emitted == old(emitted) + pushed
    {
      hide Flat, Rounds;
      pushed := [];
      ok := true;
      if chunk == [] {
        return;
      }
      var contentsStillNeeded := size - bytesWritten;
      if contentsStillNeeded >= |chunk| {
        readable := readable + [chunk];
        pushed := [chunk];
        bytesWritten := bytesWritten + |chunk|;
      } else if contentsStillNeeded > 0 {
        return false, pushed;
      }
      TakeChunk(chunk, pushed);
      emitted, consumed := emitted + pushed, consumed + [chunk];
      if bytesWritten == size {
        ghost var morePushed := Pad(room);
        pushed := pushed + morePushed;
      }
    }

    /** The padding part of a step, once all content is written. */
    method Pad(room: nat) returns (ghost pushed: seq<bytes>)
      requires targetLength == Bucket(size) >= size && AllFull(emitted) && paddingChunksToWrite == []
      requires bytesWritten == size == Min(size, |Flat(consumed)|)
      requires Flat(emitted) + Zeroes(targetLength - size) == Expected(consumed)
      requires Rounds(size, consumed) > 0
      requires Rounds(size, consumed) == 1 ==> !paddingCallback && callbacksFired == 0
      modifies `paddingChunksToWrite, `paddingCallback, `readable, `emitted, `callbacksFired
      ensures Valid()
      ensures readable == old(readable) + pushed && emitted == old(emitted) + pushed
    {
      hide Flat, Rounds;
      SchedulePadding(targetLength - size);
      var done;
      done, pushed := PushPaddingChunks(room);
      if !done {
        paddingCallback := true;
      }
    }

    /** The content part of a step: it lacks exactly the padding of the round it opens, if any. */
    lemma TakeChunk(chunk: bytes, pushed: seq<bytes>)
      requires targetLength >= size && paddingChunksToWrite == [] && chunk != []
      requires Flat(emitted) + Zeroes(0) == Expected(consumed)
      requires !(|Flat(consumed)| < size < |Flat(consumed)| + |chunk|)
      requires pushed == if |Flat(consumed)| < size then [chunk] else []
      ensures |Flat(consumed + [chunk])| == |Flat(consumed)| + |chunk|
      ensures Flat(emitted + pushed) + Zeroes(if |Flat(consumed)| + |chunk| < size then 0 else targetLength - size)
              == Expected(consumed + [chunk])
      ensures Rounds(size, consumed + [chunk]) ==
                Rounds(size, consumed) + if |Flat(consumed)| + |chunk| < size then 0 else 1
      ensures |Flat(consumed)| < size ==> Rounds(size, consumed) == 0
    {
      FlatSnoc(consumed, chunk);
      RoundsSnoc(size, consumed, chunk);
      if |Flat(consumed)| < size {
        NoRounds(size, consumed);
        FlatSnoc(emitted, chunk);
        StillContent(Flat(emitted), Flat(consumed), chunk, targetLength - size);
      } else {
        assert emitted + pushed == emitted;
        MorePadding(Flat(emitted), Flat(consumed), chunk, Rounds(size, consumed), targetLength - size);
      }
    }

    lemma StillContent(sent: bytes, read: bytes, chunk: bytes, pad: nat)
      requires sent + Zeroes(0) == read[..Min(size, |read|)] + Zeroes(0 * pad)
      requires |read| < size && |read| + |chunk| <= size
      ensures var all := read + chunk;
              var n := if |all| < size then 0 else 1;
              sent + chunk + Zeroes(n * pad) == all[..Min(size, |all|)] + Zeroes(n * pad)
    {
      assert sent == read by {
        assert Zeroes(0) == [] && 0 * pad == 0 && read[..|read|] == read;
        assert sent + [] == sent && read + [] == read;
      }
      var all := read + chunk;
      assert all[..|all|] == all;
    }

    lemma MorePadding(sent: bytes, read: bytes, chunk: bytes, rounds: nat, pad: nat)
      requires sent + Zeroes(0) == read[..Min(size, |read|)] + Zeroes(rounds * pad)
      requires |read| >= size
      ensures var all := read + chunk;
              sent + Zeroes(pad) == all[..Min(size, |all|)] + Zeroes((rounds + 1) * pad)
    {
      var all := read + chunk;
      assert all[..size] == read[..size];
      assert sent == read[..size] + Zeroes(rounds * pad) by { assert Zeroes(0) == []; }
      ZeroesAdd(rounds * pad, pad);
      assert rounds * pad + pad == (rounds + 1) * pad;
    }

    method SchedulePadding(paddingNeeded: nat)
      requires paddingChunksToWrite == []
      modifies `paddingChunksToWrite
      ensures Sum(paddingChunksToWrite) == paddingNeeded
      ensures forall i :: 0 <= i < |paddingChunksToWrite| ==> paddingChunksToWrite[i] > 0
    {
      var chunks := paddingNeeded / PADDING_CHUNK_SIZE;
      var remainder := paddingNeeded % PADDING_CHUNK_SIZE;
      for i := 0 to chunks
        invariant Sum(paddingChunksToWrite) == i * PADDING_CHUNK_SIZE
        invariant forall j :: 0 <= j < |paddingChunksToWrite| ==> paddingChunksToWrite[j] > 0
      {
        SumSnoc(paddingChunksToWrite, PADDING_CHUNK_SIZE);
        paddingChunksToWrite := paddingChunksToWrite + [PADDING_CHUNK_SIZE];
      }
      if remainder > 0 {
        SumSnoc(paddingChunksToWrite, remainder);
        paddingChunksToWrite := paddingChunksToWrite + [remainder];
      }
    }
  }

  lemma {:induction false} NoRounds(size: nat, cs: seq<bytes>)
    requires |Flat(cs)| < size
    ensures Rounds(size, cs) == 0 && !Straddles(size, cs)
  {
    if cs != [] {
      NoRounds(size, cs[..|cs| - 1]);
    }
  }

  /** Enciphers; it has its iv from the start. */
  class CipherTransform {
    const suite: Suite
    const aesKey: bytes
    const iv: bytes
    var absorbed: bytes
    var flushed: bool
    var readable: seq<bytes>
    ghost var consumed: seq<bytes>
    ghost var emitted: seq<bytes>

    ghost predicate Valid()
      reads this
    {
      && AllFull(emitted) && absorbed == Flat(consumed)
      && Flat(emitted) ==
           if flushed then suite.encrypt(aesKey, iv, absorbed) else suite.encrypting(aesKey, iv, absorbed)
    }

    constructor (suite: Suite, iv: bytes, aesKey: bytes)
      requires Lawful(suite)
      ensures Valid() && this.suite == suite && this.aesKey == aesKey && this.iv == iv
      ensures !flushed && readable == [] && consumed == [] && emitted == []
    {
      this.suite, this.aesKey, this.iv := suite, aesKey, iv;
      absorbed, flushed, readable, consumed, emitted := [], false, [], [], [];
      new;
      assert Flat([]) == [];
    }

    method Transform(chunk: bytes) returns (ghost pushed: seq<bytes>)
      requires Valid() && !flushed && Lawful(suite)
      modifies this
      ensures Valid() && !flushed && consumed == old(consumed) + Chunk(chunk)
      ensures readable == old(readable) + pushed && emitted == old(emitted) + pushed
    {
      hide Flat;
      pushed := [];
      if chunk == [] {
        return;
      }
      var before, after := suite.encrypting(aesKey, iv, absorbed), suite.encrypting(aesKey, iv, absorbed + chunk);
      var update := after[|before|..];
      assert after == before + update;
      pushed := Chunk(update);
      readable := readable + Chunk(update);
      assert Flat(emitted + pushed) == after by { FlatChunk(emitted, update); }
      assert Flat(consumed + [chunk]) == absorbed + chunk by { FlatSnoc(consumed, chunk); }
      absorbed := absorbed + chunk;
      consumed, emitted := consumed + [chunk], emitted + pushed;
    }

    method Flush() returns (ghost pushed: seq<bytes>)
      requires Valid() && !flushed && Lawful(suite)
      modifies this
      ensures Valid() && flushed && consumed == old(consumed)
      ensures readable == old(readable) + pushed && emitted == old(emitted) + pushed
    {
      hide Flat;
      var before, all := suite.encrypting(aesKey, iv, absorbed), suite.encrypt(aesKey, iv, absorbed);
      var final := all[|before|..];
      assert all == before + final;
      pushed := Chunk(final);
      readable := readable + Chunk(final);
      FlatChunk(emitted, final);
      flushed, emitted := true, emitted + pushed;
    }
  }

  /** Puts the iv before the first chunk. */
  class AddIvTransform {
    const iv: bytes
    var haveAddedIv: bool
    var readable: seq<bytes>
    ghost var consumed: seq<bytes>
    ghost var emitted: seq<bytes>

    ghost predicate Valid()
      reads this
    {
      && |iv| == IV_LENGTH && AllFull(emitted)
      && (haveAddedIv <==> consumed != [])
      && Flat(emitted) == if consumed == [] then [] else iv + Flat(consumed)
    }

    constructor (iv: bytes)
      requires |iv| == IV_LENGTH
      ensures Valid() && this.iv == iv && readable == [] && consumed == [] && emitted == []
    {
      this.iv := iv;
      haveAddedIv, readable, consumed, emitted := false, [], [], [];
    }

    method Transform(chunk: bytes) returns (ghost pushed: seq<bytes>)
      requires Valid()
      modifies this
      ensures Valid() && consumed == old(consumed) + Chunk(chunk)
      ensures readable == old(readable) + pushed && emitted == old(emitted) + pushed
    {
      hide Flat;
      pushed := [];
      if chunk == [] {
        return;
      }
      ghost var read, sent := Flat(consumed), Flat(emitted);
      assert Flat(consumed + [chunk]) == read + chunk by { FlatSnoc(consumed, chunk); }
      if !haveAddedIv {
        FlatNil();
        assert Flat(emitted + [iv]) == iv by { FlatSnoc(emitted, iv); }
        pushed := [iv];
        readable, emitted := readable + [iv], emitted + [iv];
        haveAddedIv := true;
      }
      assert Flat(emitted + [chunk]) == iv + (read + chunk) by { FlatSnoc(emitted, chunk); }
      pushed := pushed + [chunk];
      readable, emitted := readable + [chunk], emitted + [chunk];
      consumed := consumed + [chunk];
    }
  }

  /** Passes everything through and ends with its mac. */
  class AddMacTransform {
    const suite: Suite
    const macKey: bytes
    var ourMac: Option<bytes>
    var macBuilder: bytes
    var readable: seq<bytes>
    ghost var consumed: seq<bytes>
    ghost var emitted: seq<bytes>

    ghost predicate Valid()
      reads this
    {
      && AllFull(emitted) && macBuilder == Flat(consumed)
      && (ourMac.Some? ==> ourMac.value == suite.hmac(macKey, Flat(consumed)))
      && Flat(emitted) == Flat(consumed) + if ourMac.Some? then ourMac.value else []
    }

    constructor (suite: Suite, macKey: bytes)
      ensures Valid() && this.suite == suite && this.macKey == macKey
      ensures ourMac == None && readable == [] && consumed == [] && emitted == []
    {
      this.suite, this.macKey := suite, macKey;
      ourMac, macBuilder, readable, consumed, emitted := None, [], [], [], [];
    }

    method Transform(chunk: bytes)
      requires Valid() && ourMac == None
      modifies this
      ensures Valid() && ourMac == None && consumed == old(consumed) + Chunk(chunk)
      ensures readable == old(readable) + Chunk(chunk) && emitted == old(emitted) + Chunk(chunk)
    {
      hide Flat;
      if chunk == [] {
        return;
      }
      macBuilder := macBuilder + chunk;
      FlatSnoc(consumed, chunk);
      FlatSnoc(emitted, chunk);
      readable, emitted, consumed := readable + [chunk], emitted + [chunk], consumed + [chunk];
    }

    method Flush() returns (ghost pushed: seq<bytes>)
      requires Valid() && ourMac == None
      modifies this
      ensures Valid() && ourMac.Some? && consumed == old(consumed)
      ensures readable == old(readable) + pushed && emitted == old(emitted) + pushed
    {
      hide Flat;
      ourMac := Some(suite.hmac(macKey, macBuilder));
      pushed := Chunk(ourMac.value);
      assert Flat(emitted + pushed) == Flat(consumed) + ourMac.value by { FlatChunk(emitted, ourMac.value); }
      readable, emitted := readable + Chunk(ourMac.value), emitted + pushed;
    }
  }
}
