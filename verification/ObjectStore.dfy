/** The content-addressed object store of one kind of object: uploads, presence, quarantine and removal.  What a digest
    is, and how a place in quarantine is named, are parameters. */
module ObjectStores {
  import opened Basics

  datatype Error =
    | InvalidDigest
    | StreamFailed
    | ObjectTooLarge
    | LengthMismatch
    | HashMismatch

  datatype Put = Created | AlreadyPresent

  datatype Descriptor<Digest> = Descriptor(sha256: Digest, byteLength: nat)

  /** The bytes of a stream, or nothing if a chunk failed. */
  function Received(chunks: seq<Option<string>>): Option<string> {
    if chunks == [] then Some([])
    else
      var before, last := Received(chunks[..|chunks| - 1]), chunks[|chunks| - 1];
      if before.Some? && last.Some? then Some(before.value + last.value) else None
  }

  lemma {:induction false} ReceivedGrows(chunks: seq<Option<string>>, i: nat)
    requires i <= |chunks|
    ensures Received(chunks).Some?
            ==> Received(chunks[..i]).Some? && |Received(chunks[..i]).value| <= |Received(chunks).value|
  {
    if i == |chunks| {
      assert chunks[..i] == chunks;
    } else {
      assert chunks[..|chunks| - 1][..i] == chunks[..i];
      ReceivedGrows(chunks[..|chunks| - 1], i);
    }
  }

  /** What an upload has to bring: every chunk, as many bytes as announced, and the announced digest. */
  predicate Delivers<Digest(==)>(chunks: seq<Option<string>>, d: Descriptor<Digest>, hash: string -> Digest) {
    Received(chunks).Some? && |Received(chunks).value| == d.byteLength && hash(Received(chunks).value) == d.sha256
  }

  class ObjectStore<Digest(==), Place(==)> {
    const isDigest: Digest -> bool
    const hash: string -> Digest
    const maxObjectBytes: nat
    var files: map<Digest, string>
    var quarantined: map<Place, string>
    var fileSyncCount: nat
    var fileSyncBytes: nat

    constructor (isDigest: Digest -> bool, hash: string -> Digest, maxObjectBytes: nat)
      ensures this.isDigest == isDigest && this.hash == hash && this.maxObjectBytes == maxObjectBytes
      ensures files == map[] && quarantined == map[] && ContentAddressed()
    {
      this.isDigest, this.hash, this.maxObjectBytes := isDigest, hash, maxObjectBytes;
      files, quarantined, fileSyncCount, fileSyncBytes := map[], map[], 0, 0;
    }

    /** Every file is named by the digest of what it holds. */
    ghost predicate ContentAddressed()
      reads this
    {
      forall d :: d in files ==> hash(files[d]) == d && |files[d]| <= maxObjectBytes
    }

    /** `write_verified_temp`: the bytes of the stream, checked while they arrive and once more at the end. */
    method WriteVerifiedTemp(d: Descriptor<Digest>, chunks: seq<Option<string>>) returns (temp: Result<string, Error>)
      requires d.byteLength <= maxObjectBytes
      modifies this`fileSyncCount, this`fileSyncBytes
      ensures temp.Ok? <==> Delivers(chunks, d, hash)
      ensures temp.Ok? ==> temp.value == Received(chunks).value
      ensures fileSyncCount == old(fileSyncCount) + if temp.Ok? then 1 else 0
      ensures fileSyncBytes == old(fileSyncBytes) + if temp.Ok? then d.byteLength else 0
    {
      var written, length := "", 0;
      var i := 0;
      while i < |chunks|
        invariant 0 <= i <= |chunks|
        invariant Received(chunks[..i]) == Some(written) && length == |written| <= d.byteLength
        invariant fileSyncCount == old(fileSyncCount) && fileSyncBytes == old(fileSyncBytes)
      {
        assert chunks[..i + 1][..i] == chunks[..i];
        ReceivedGrows(chunks, i + 1);
        if chunks[i].None? {
          return Err(StreamFailed);
        }
        length := length + |chunks[i].value|;
        if length > maxObjectBytes {
          return Err(ObjectTooLarge);
        }
        if length > d.byteLength {
          return Err(LengthMismatch);
        }
        written := written + chunks[i].value;
        i := i + 1;
      }
      assert chunks[..i] == chunks;
      if length != d.byteLength {
        return Err(LengthMismatch);
      }
      if hash(written) != d.sha256 {
        return Err(HashMismatch);
      }
      fileSyncCount, fileSyncBytes := fileSyncCount + 1, fileSyncBytes + d.byteLength;
      return Ok(written);
    }

    /** `put_stream`: an upload either leaves the store as it is or adds one file that holds exactly what was
        announced. */
    method PutStream(d: Descriptor<Digest>, chunks: seq<Option<string>>) returns (reply: Result<Put, Error>)
      requires ContentAddressed()
      modifies this`files, this`fileSyncCount, this`fileSyncBytes
      ensures ContentAddressed()
      ensures reply.Ok? <==>
        && isDigest(d.sha256) && d.byteLength <= maxObjectBytes && Delivers(chunks, d, hash)
        && (d.sha256 in old(files) ==> |old(files)[d.sha256]| == d.byteLength)
      ensures reply == Ok(Created) ==>
        d.sha256 !in old(files) && files == old(files)[d.sha256 := Received(chunks).value]
      ensures reply != Ok(Created) ==> files == old(files)
      ensures reply == Ok(AlreadyPresent) ==> d.sha256 in files
    {
      if !isDigest(d.sha256) {
        return Err(InvalidDigest);
      }
      if d.byteLength > maxObjectBytes {
        return Err(ObjectTooLarge);
      }
      var temp := WriteVerifiedTemp(d, chunks);
      if temp.Err? {
        return Err(temp.error);
      }
      if d.sha256 in files {
        if |files[d.sha256]| != d.byteLength {
          return Err(LengthMismatch);
        }
        return Ok(AlreadyPresent);
      }
      files := files[d.sha256 := temp.value];
      return Ok(Created);
    }

    /** A presence question that `missing` can answer. */
    predicate Answerable(d: Descriptor<Digest>)
      reads this
    {
      && isDigest(d.sha256) && d.byteLength <= maxObjectBytes
      && (d.sha256 in files ==> |files[d.sha256]| == d.byteLength)
    }

    /** `missing`: exactly the digests that are not there, in the order asked. */
    method Missing(objects: seq<Descriptor<Digest>>) returns (missing: Result<seq<Digest>, Error>)
      ensures missing.Ok? <==> forall d :: d in objects ==> Answerable(d)
      ensures missing.Ok? ==> missing.value == Absent(objects, files)
    {
      var absent: seq<Digest> := [];
      var i := 0;
      while i < |objects|
        invariant 0 <= i <= |objects|
        invariant forall j :: 0 <= j < i ==> Answerable(objects[j])
        invariant absent == Absent(objects[..i], files)
      {
        assert objects[..i + 1][..i] == objects[..i];
        var d := objects[i];
        assert d in objects;
        if !isDigest(d.sha256) {
          return Err(InvalidDigest);
        }
        if d.byteLength > maxObjectBytes {
          return Err(ObjectTooLarge);
        }
        if d.sha256 in files {
          if |files[d.sha256]| != d.byteLength {
            return Err(LengthMismatch);
          }
        } else {
          absent := absent + [d.sha256];
        }
        i := i + 1;
      }
      assert objects[..i] == objects;
      return Ok(absent);
    }

    ghost function View(): Places<Digest, Place>
      reads this
    {
      Places(files, quarantined)
    }

    /** `quarantine`: moves a file to its place in quarantine; a file that is already there counts as moved. */
    method Quarantine(digest: Digest, destination: Place) returns (moved: Result<bool, Error>)
      requires ContentAddressed()
      modifies this`files, this`quarantined
      ensures ContentAddressed()
      ensures isDigest(digest) ==>
        moved == Ok(Quarantined(old(View()), digest, destination).1)
        && View() == Quarantined(old(View()), digest, destination).0
      ensures isDigest(digest) ==>
        moved == Ok(digest in old(files) || destination in old(quarantined)) && files == old(files) - {digest}
      ensures isDigest(digest) && digest in old(files) ==>
        quarantined == old(quarantined)[destination := old(files)[digest]]
      ensures digest !in old(files) ==> quarantined == old(quarantined)
      ensures !isDigest(digest) ==> moved == Err(InvalidDigest) && View() == old(View())
    {
      if !isDigest(digest) {
        return Err(InvalidDigest);
      }
      if digest !in files {
        return Ok(destination in quarantined);
      }
      quarantined := quarantined[destination := files[digest]];
      files := files - {digest};
      return Ok(true);
    }

    /** `purge_quarantined`: removes a quarantined file of the expected length; one that is gone is no failure. */
    method PurgeQuarantined(path: Place, expectedLength: nat) returns (removed: Result<bool, Error>)
      modifies this`quarantined
      ensures removed == Removed(old(View()), path, expectedLength).1
      ensures View() == Removed(old(View()), path, expectedLength).0
      ensures path !in old(quarantined) ==> removed == Ok(false) && View() == old(View())
      ensures path in old(quarantined) && |old(quarantined)[path]| != expectedLength ==>
        removed == Err(LengthMismatch) && View() == old(View())
      ensures path in old(quarantined) && |old(quarantined)[path]| == expectedLength ==>
        removed == Ok(true) && files == old(files) && quarantined == old(quarantined) - {path}
    {
      if path !in quarantined {
        return Ok(false);
      }
      if |quarantined[path]| != expectedLength {
        return Err(LengthMismatch);
      }
      quarantined := quarantined - {path};
      return Ok(true);
    }
  }

  function Absent<Digest(==)>(objects: seq<Descriptor<Digest>>, files: map<Digest, string>): seq<Digest> {
    if objects == [] then []
    else
      var last := objects[|objects| - 1];
      Absent(objects[..|objects| - 1], files) + if last.sha256 in files then [] else [last.sha256]
  }

  /** A digest is reported exactly if it was asked for and is not there, as often and in the order it was asked for. */
  lemma {:induction false} AbsentExactly<Digest>(a: seq<Descriptor<Digest>>, b: seq<Descriptor<Digest>>,
                                                 files: map<Digest, string>)
    ensures Absent(a + b, files) == Absent(a, files) + Absent(b, files)
    ensures |a| == 1 ==> Absent(a, files) == if a[0].sha256 in files then [] else [a[0].sha256]
  {
    assert |a| == 1 ==> a[..0] == [];
    if b == [] {
      assert a + b == a;
    } else {
      assert (a + b)[..|a + b| - 1] == a + b[..|b| - 1];
      AbsentExactly(a, b[..|b| - 1], files);
    }
  }

  // ---------- the sub-steps of a collection are restartable ----------

  datatype Places<Digest(==), Place(==)> = Places(files: map<Digest, string>, quarantined: map<Place, string>)

  function Quarantined<Digest, Place>(p: Places<Digest, Place>, digest: Digest, destination: Place)
    : (Places<Digest, Place>, bool)
  {
    if digest in p.files then
      (Places(p.files - {digest}, p.quarantined[destination := p.files[digest]]), true)
    else (p, destination in p.quarantined)
  }

  function Removed<Digest, Place>(p: Places<Digest, Place>, path: Place, expectedLength: nat)
    : (Places<Digest, Place>, Result<bool, Error>)
  {
    if path !in p.quarantined then (p, Ok(false))
    else if |p.quarantined[path]| != expectedLength then (p, Err(LengthMismatch))
    else (p.(quarantined := p.quarantined - {path}), Ok(true))
  }

  /** A collection that stopped after moving a file can be started over: moving it again finds it moved, moves nothing,
      and the bytes in quarantine are those that were in the store. */
  lemma QuarantineRestarts<Digest, Place>(p: Places<Digest, Place>, digest: Digest, destination: Place)
    requires digest in p.files
    ensures var once := Quarantined(p, digest, destination).0;
      && Quarantined(once, digest, destination) == (once, true)
      && digest !in once.files && destination in once.quarantined
      && once.quarantined[destination] == p.files[digest]
      && (forall d :: d in p.files && d != digest ==> d in once.files && once.files[d] == p.files[d])
  {
  }

  /** Moving and removing, each done at least once and however often repeated, come to the same: the file is gone from
      both places and no other file is touched. */
  lemma CollectionRestarts<Digest, Place>(p: Places<Digest, Place>, digest: Digest, destination: Place, length: nat)
    requires digest in p.files && |p.files[digest]| == length && destination !in p.quarantined
    ensures var moved := Quarantined(p, digest, destination).0;
      var removed := Removed(moved, destination, length).0;
      && removed == Places(p.files - {digest}, p.quarantined)
      && Removed(removed, destination, length) == (removed, Ok(false))
      && Quarantined(removed, digest, destination) == (removed, false)
  {
    var moved := Quarantined(p, digest, destination).0;
    assert moved.quarantined - {destination} == p.quarantined;
  }

  /** With a digest that never repeats, a file that was there already holds the uploaded bytes, so a successful upload
      always leaves exactly them. */
  lemma PresentMeansSameBytes<Digest>(hash: string -> Digest, files: map<Digest, string>, d: Descriptor<Digest>,
                                      chunks: seq<Option<string>>)
    requires forall x, y :: hash(x) == hash(y) ==> x == y
    requires forall k :: k in files ==> hash(files[k]) == k
    requires d.sha256 in files && Delivers(chunks, d, hash)
    ensures files[d.sha256] == Received(chunks).value
    ensures |files[d.sha256]| == d.byteLength
  {
    assert hash(files[d.sha256]) == hash(Received(chunks).value);
  }
}
