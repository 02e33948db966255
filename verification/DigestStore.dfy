/** The on-disk digest cache: its byte format, and the reader and writer of amiweak/digest_store.py. */
module DigestStore {
  import opened Wrappers

  type byte = x: int | 0 <= x < 256

  type Bytes = seq<byte>

  const MAGIC: Bytes := [0x41, 0x4D, 0x57, 0x4B]
  const FORMAT_VERSION: byte := 1
  const FINGERPRINT_SIZE := 32
  const DIGEST_SIZE := 20
  const HEADER_SIZE := 41

  // ----- struct.pack("<I") and ("<Q") -----

  function Pow256(k: nat): nat { if k == 0 then 1 else 256 * Pow256(k - 1) }

  function LittleEndian(n: nat, width: nat): (bs: Bytes)
    ensures |bs| == width
    decreases width
  {
    if width == 0 then [] else [n % 256] + LittleEndian(n / 256, width - 1)
  }

  function FromLittleEndian(bs: Bytes): nat {
    if bs == [] then 0 else bs[0] + 256 * FromLittleEndian(bs[1..])
  }

  lemma {:induction false} UnpackPacks(n: nat, width: nat)
    requires n < Pow256(width)
    ensures FromLittleEndian(LittleEndian(n, width)) == n
    decreases width
  {
    if width > 0 {
      UnpackPacks(n / 256, width - 1);
      assert LittleEndian(n, width)[1..] == LittleEndian(n / 256, width - 1);
    }
  }

  lemma {:induction false} PackUnpacks(bs: Bytes)
    ensures FromLittleEndian(bs) < Pow256(|bs|)
    ensures LittleEndian(FromLittleEndian(bs), |bs|) == bs
  {
    if bs != [] {
      PackUnpacks(bs[1..]);
      LowByte(bs[0], FromLittleEndian(bs[1..]));
    }
  }

  lemma LowByte(b: byte, rest: nat)
    ensures (b + 256 * rest) % 256 == b && (b + 256 * rest) / 256 == rest
  {
  }

  // ----- The format -----

  datatype CacheFile = CacheFile(fingerprint: Bytes, digests: seq<Bytes>) {
    /** What `write_cache` is given: 32 fingerprint bytes, 20-byte digests, a count that fits its field. */
    ghost predicate WellSized() {
      && |fingerprint| == FINGERPRINT_SIZE && |digests| < Pow256(4)
      && forall k :: 0 <= k < |digests| ==> |digests[k]| == DIGEST_SIZE
    }
  }

  function Concat(chunks: seq<Bytes>): Bytes {
    if chunks == [] then [] else chunks[0] + Concat(chunks[1..])
  }

  function Header(fingerprint: Bytes, count: nat): Bytes {
    MAGIC + [FORMAT_VERSION] + fingerprint + LittleEndian(count, 4)
  }

  function Encoded(f: CacheFile): Bytes {
    Header(f.fingerprint, |f.digests|) + Concat(f.digests)
  }

  /** `body[i : i + 20]` for every i. */
  function Chunks(body: Bytes): seq<Bytes> {
    if |body| < DIGEST_SIZE then (if body == [] then [] else [body])
    else [body[..DIGEST_SIZE]] + Chunks(body[DIGEST_SIZE..])
  }

  /** read_cache on the bytes of a readable file. */
  function Decoded(blob: Bytes): Option<CacheFile> {
    if |blob| < HEADER_SIZE then None
    else
      var magic, version, fingerprint, count := blob[..4], blob[4], blob[5..37], FromLittleEndian(blob[37..41]);
      if magic != MAGIC || version != FORMAT_VERSION then None
      else
        var body := blob[HEADER_SIZE..];
        if |body| != count * DIGEST_SIZE then None else Some(CacheFile(fingerprint, Chunks(body)))
  }

  lemma {:induction false} ChunksOfConcat(digests: seq<Bytes>)
    requires forall k :: 0 <= k < |digests| ==> |digests[k]| == DIGEST_SIZE
    ensures |Concat(digests)| == |digests| * DIGEST_SIZE && Chunks(Concat(digests)) == digests
  {
    if digests != [] {
      ChunksOfConcat(digests[1..]);
      var all := Concat(digests);
      assert all[..DIGEST_SIZE] == digests[0] && all[DIGEST_SIZE..] == Concat(digests[1..]);
    }
  }

  lemma {:induction false} ConcatOfChunks(body: Bytes, count: nat)
    requires |body| == count * DIGEST_SIZE
    ensures Concat(Chunks(body)) == body && |Chunks(body)| == count
    ensures forall k :: 0 <= k < |Chunks(body)| ==> |Chunks(body)[k]| == DIGEST_SIZE
    decreases count
  {
    if count > 0 {
      ConcatOfChunks(body[DIGEST_SIZE..], count - 1);
      assert Chunks(body)[1..] == Chunks(body[DIGEST_SIZE..]);
    }
  }

  lemma HeaderParts(fingerprint: Bytes, count: nat, body: Bytes)
    requires |fingerprint| == FINGERPRINT_SIZE
    ensures var blob := Header(fingerprint, count) + body;
            && |Header(fingerprint, count)| == HEADER_SIZE
            && blob[..4] == MAGIC && blob[4] == FORMAT_VERSION && blob[5..37] == fingerprint
            && blob[37..41] == LittleEndian(count, 4) && blob[HEADER_SIZE..] == body
  {
  }

  /** Where everything is in a written file: "AMWK", version 1, the fingerprint, the count with its low byte first,
      then the digests one after another. */
  lemma Layout(f: CacheFile, k: nat)
    requires f.WellSized() && k < |f.digests|
    ensures var blob, n := Encoded(f), |f.digests|;
            && |blob| == 41 + 20 * n
            && blob[..5] == [0x41, 0x4D, 0x57, 0x4B, 1] && blob[5..37] == f.fingerprint
            && blob[37] as int + 256 * blob[38] as int + 65536 * blob[39] as int + 16777216 * blob[40] as int == n
            && blob[41 + 20 * k..61 + 20 * k] == f.digests[k]
  {
    HeaderParts(f.fingerprint, |f.digests|, Concat(f.digests));
    hide Header, LittleEndian, FromLittleEndian, Concat;
    ChunksOfConcat(f.digests);
    DigestAt(f.digests, k);
    FourBytes(Encoded(f)[37..41]);
    UnpackPacks(|f.digests|, 4);
    var blob, body := Encoded(f), Concat(f.digests);
    assert blob[..5] == blob[..4] + [blob[4]];
    assert blob[41 + 20 * k..61 + 20 * k] == blob[41..][20 * k..20 * k + 20];
  }

  lemma {:induction false} DigestAt(digests: seq<Bytes>, k: nat)
    requires k < |digests| && forall i :: 0 <= i < |digests| ==> |digests[i]| == DIGEST_SIZE
    ensures 20 * k + 20 <= |Concat(digests)| && Concat(digests)[20 * k..20 * k + 20] == digests[k]
  {
    if k > 0 {
      DigestAt(digests[1..], k - 1);
      var rest, at := Concat(digests[1..]), 20 * (k - 1);
      assert Concat(digests)[20..] == rest;
      assert Concat(digests)[20 * k..20 * k + 20] == Concat(digests)[20..][at..at + 20];
    }
  }

  lemma FourBytes(bs: Bytes)
    requires |bs| == 4
    ensures FromLittleEndian(bs) == bs[0] as int + 256 * bs[1] as int + 65536 * bs[2] as int + 16777216 * bs[3] as int
  {
    assert FromLittleEndian(bs[3..]) == bs[3];
    assert bs[2..][1..] == bs[3..] && FromLittleEndian(bs[2..]) == bs[2] as int + 256 * bs[3] as int;
    assert bs[1..][1..] == bs[2..];
  }

  /** Reading undoes writing. */
  lemma ReadUndoesWrite(f: CacheFile)
    requires f.WellSized()
    ensures Decoded(Encoded(f)) == Some(f)
  {
    HeaderParts(f.fingerprint, |f.digests|, Concat(f.digests));
    ChunksOfConcat(f.digests);
    hide Header;
    UnpackPacks(|f.digests|, 4);
  }

  /** Every accepted file is, byte for byte, the writing of what was read from it. */
  lemma AcceptedIsWritten(blob: Bytes)
    requires Decoded(blob).Some?
    ensures Decoded(blob).value.WellSized() && Encoded(Decoded(blob).value) == blob
  {
    var count := FromLittleEndian(blob[37..41]);
    PackUnpacks(blob[37..41]);
    ConcatOfChunks(blob[HEADER_SIZE..], count);
    hide Pow256, LittleEndian, FromLittleEndian, Chunks;
    assert blob == MAGIC + [FORMAT_VERSION] + blob[5..37] + blob[37..41] + blob[HEADER_SIZE..];
  }

  lemma CountFixesLength(blob: Bytes)
    requires Decoded(blob).Some?
    ensures |blob| == HEADER_SIZE + FromLittleEndian(blob[37..41]) * DIGEST_SIZE
  {
  }

  /** Of two accepted files neither is a proper prefix of the other. */
  lemma AcceptedArePrefixFree(a: Bytes, b: Bytes)
    requires Decoded(a).Some? && Decoded(b).Some? && a <= b
    ensures a == b
  {
    CountFixesLength(a);
    CountFixesLength(b);
    assert a[37..41] == b[37..41];
  }

  /** A truncated file and a file with anything after its end are both rejected. */
  lemma PartialAndExtendedRejected(f: CacheFile, blob: Bytes)
    requires f.WellSized() && blob != Encoded(f)
    requires blob <= Encoded(f) || Encoded(f) <= blob
    ensures Decoded(blob).None?
  {
    ReadUndoesWrite(f);
    if Decoded(blob).Some? {
      if blob <= Encoded(f) {
        AcceptedArePrefixFree(blob, Encoded(f));
      } else {
        AcceptedArePrefixFree(Encoded(f), blob);
      }
    }
  }

  lemma ReadsItsWriting(blob: Bytes)
    ensures forall g :: Decoded(blob) == Some(g) <==> g.WellSized() && blob == Encoded(g)
  {
    if Decoded(blob).Some? {
      AcceptedIsWritten(blob);
    }
    forall g: CacheFile | g.WellSized() && blob == Encoded(g)
      ensures Decoded(blob) == Some(g)
    {
      ReadUndoesWrite(g);
    }
    hide Encoded, Decoded;
  }

  // ----- Reading and writing files -----

  datatype WriteError = BadFingerprint | CountOverflow | DiskFailure

  class Disk {
    var files: map<string, Bytes>

    constructor ()
      ensures files == map[]
    {
      files := map[];
    }

    /** What is read is what was written, and nothing else reads as anything: the file holds `g` if and only if it is,
        byte for byte, the writing of `g`. */
    method ReadCache(path: string) returns (f: Option<CacheFile>)
      ensures forall g :: f == Some(g) <==> path in files && g.WellSized() && files[path] == Encoded(g)
    {
      if path !in files {
        return None;
      }
      f := Decoded(files[path]);
      hide Encoded, Decoded, CacheFile.WellSized;
      ReadsItsWriting(files[path]);
    }

    /** Reading after a write: the new contents if it succeeded, and what was readable before if it failed. */
    method WriteThenRead(path: string, tmp: string, fingerprint: Bytes, digests: seq<Bytes>, failAfter: nat)
      returns (before: Option<CacheFile>, r: Result<(), WriteError>, after: Option<CacheFile>)
      requires tmp != path && forall k :: 0 <= k < |digests| ==> |digests[k]| == DIGEST_SIZE
      modifies this
      ensures after == if r.Ok? then Some(CacheFile(fingerprint, digests)) else before
    {
      before := ReadCache(path);
      ghost var was := files;
      r := WriteCache(path, tmp, fingerprint, digests, failAfter);
      after := ReadCache(path);
      ghost var g := CacheFile(fingerprint, digests);
      if r.Ok? {
        assert g.WellSized() && files[path] == Encoded(g);
      } else {
        assert path in files <==> path in was by {
          assert path in files - {tmp} <==> path in was - {tmp};
        }
        assert path in was ==> files[path] == (files - {tmp})[path] == (was - {tmp})[path] == was[path];
        hide Encoded, CacheFile.WellSized;
        assert before.Some? ==> after == before;
        assert after.Some? ==> before == after;
      }
    }

    /** The whole file goes to a temporary sibling first and replaces `path` in one step.  The disk fails at the
        write (or, last, the fsync) numbered `failAfter`, if it gets that far, and then `path` is as it was. */
    method WriteCache(path: string, tmp: string, fingerprint: Bytes, digests: seq<Bytes>, failAfter: nat)
      returns (r: Result<(), WriteError>)
      requires tmp != path
      modifies this
      ensures r.Ok? <==> |fingerprint| == FINGERPRINT_SIZE && |digests| < Pow256(4) && |digests| < failAfter
      ensures r.Ok? ==> files == (old(files) - {tmp})[path := Encoded(CacheFile(fingerprint, digests))]
      ensures r.Err? ==> files - {tmp} == old(files) - {tmp}
    {
      assert Pow256(4) == 0x1_0000_0000;
      hide Pow256, Header, Concat;
      if |fingerprint| != FINGERPRINT_SIZE {
        return Err(BadFingerprint);
      }
      files := files[tmp := []];
      if |digests| >= 0x1_0000_0000 {
        return Err(CountOverflow);
      }
      files := files[tmp := Header(fingerprint, |digests|)];
      var written := WriteDigests(tmp, digests, failAfter);
      if !written || failAfter == |digests| {
        return Err(DiskFailure);
      }
      files := (files - {tmp})[path := files[tmp]];
      r := Ok(());
    }

    method WriteDigests(tmp: string, digests: seq<Bytes>, failAfter: nat) returns (written: bool)
      requires tmp in files
      modifies this
      ensures tmp in files && files == old(files)[tmp := files[tmp]]
      ensures written == (|digests| <= failAfter)
      ensures written ==> files[tmp] == old(files[tmp]) + Concat(digests)
    {
      for i := 0 to |digests|
        invariant tmp in files && files == old(files)[tmp := files[tmp]] && i <= failAfter
        invariant files[tmp] == old(files[tmp]) + Concat(digests[..i])
      {
        if i == failAfter {
          return false;
        }
        ConcatAppend(digests[..i], digests[i]);
        assert digests[..i + 1] == digests[..i] + [digests[i]];
        files := files[tmp := files[tmp] + digests[i]];
      }
      assert digests[..|digests|] == digests;
      written := true;
    }
  }

  lemma {:induction false} ConcatAppend(chunks: seq<Bytes>, c: Bytes)
    ensures Concat(chunks + [c]) == Concat(chunks) + c
  {
    if chunks != [] {
      assert (chunks + [c])[1..] == chunks[1..] + [c];
      ConcatAppend(chunks[1..], c);
    } else {
      assert ([] + [c])[1..] == [];
    }
  }

  // ----- The fingerprint's input -----

  /** `feed`: an eight-byte length, then the blob. */
  function Fed(blob: Bytes): Bytes { LittleEndian(|blob|, 8) + blob }

  function Framed(blobs: seq<Bytes>): Bytes {
    if blobs == [] then [] else Fed(blobs[0]) + Framed(blobs[1..])
  }

  /** What `_fingerprint` hashes: generator version, library version, then each file's bytes. */
  function FingerprintInput(version: nat, library: Bytes, files: seq<Bytes>): Bytes {
    Framed([LittleEndian(version, 4), library] + files)
  }

  predicate Measurable(blobs: seq<Bytes>) {
    forall b :: b in blobs ==> |b| < Pow256(8)
  }

  lemma FrameParts(blobs: seq<Bytes>)
    requires blobs != [] && |blobs[0]| < Pow256(8)
    ensures |Framed(blobs)| >= 8 + |blobs[0]|
    ensures FromLittleEndian(Framed(blobs)[..8]) == |blobs[0]|
    ensures Framed(blobs)[8..8 + |blobs[0]|] == blobs[0]
    ensures Framed(blobs)[8 + |blobs[0]|..] == Framed(blobs[1..])
  {
    UnpackPacks(|blobs[0]|, 8);
    assert Framed(blobs)[..8] == LittleEndian(|blobs[0]|, 8);
  }

  /** The hasher sees the same bytes only for the same list of blobs. */
  lemma {:induction false} FramingIsUnique(a: seq<Bytes>, b: seq<Bytes>)
    requires Measurable(a) && Measurable(b) && Framed(a) == Framed(b)
    ensures a == b
    decreases |a|
  {
    hide LittleEndian, FromLittleEndian, Pow256;
    if a == [] || b == [] {
      if a != [] { FrameParts(a); }
      if b != [] { FrameParts(b); }
    } else {
      assert a[0] in a && b[0] in b;
      FrameParts(a);
      FrameParts(b);
      assert a[0] == b[0];
      assert forall z :: z in a[1..] ==> z in a;
      assert forall z :: z in b[1..] ==> z in b;
      FramingIsUnique(a[1..], b[1..]);
      assert a == [a[0]] + a[1..] && b == [b[0]] + b[1..];
    }
  }

  lemma {:induction false} Pow256Grows(k: nat)
    ensures Pow256(k + 1) >= 256
  {
    if k > 0 {
      Pow256Grows(k - 1);
    }
  }

  /** What the hasher sees: the length of the version field and the version, the length of the library's version and the
      library's version, and then the files. */
  lemma FingerprintLayout(version: nat, library: Bytes, files: seq<Bytes>)
    requires version < Pow256(4) && |library| < Pow256(8)
    ensures var fed, n := FingerprintInput(version, library, files), |library|;
            && |fed| >= 20 + n
            && FromLittleEndian(fed[..8]) == 4 && FromLittleEndian(fed[8..12]) == version
            && FromLittleEndian(fed[12..20]) == n && fed[20..20 + n] == library && fed[20 + n..] == Framed(files)
  {
    Pow256Grows(7);
    UnpackPacks(version, 4);
    hide Pow256, LittleEndian, FromLittleEndian, Framed;
    TwoFrames(LittleEndian(version, 4), library, files);
  }

  lemma TwoFrames(a: Bytes, b: Bytes, rest: seq<Bytes>)
    requires |a| < Pow256(8) && |b| < Pow256(8)
    ensures var fed, m, n := Framed([a, b] + rest), 8 + |a|, 16 + |a| + |b|;
            && |fed| >= n
            && FromLittleEndian(fed[..8]) == |a| && fed[8..m] == a
            && FromLittleEndian(fed[m..m + 8]) == |b| && fed[m + 8..n] == b && fed[n..] == Framed(rest)
  {
    hide Pow256, Framed, FromLittleEndian;
    var blobs := [a, b] + rest;
    var fed, m := Framed(blobs), 8 + |a|;
    FrameParts(blobs);
    FrameParts(blobs[1..]);
    assert blobs[1..] == [b] + rest && blobs[1..][1..] == rest;
    SliceOfTail(fed, m, 0, 8);
    SliceOfTail(fed, m, 8, 8 + |b|);
    SliceOfTail(fed, m, 8 + |b|, |fed| - m);
  }

  lemma SliceOfTail(all: Bytes, k: nat, i: nat, j: nat)
    requires k <= |all| && i <= j <= |all[k..]|
    ensures all[k..][i..j] == all[k + i..k + j]
  {
  }

  /** Fingerprint inputs agree only when version, library and every file agree. */
  lemma FingerprintInputIsUnique(version: nat, library: Bytes, files: seq<Bytes>,
                                 version': nat, library': Bytes, files': seq<Bytes>)
    requires version < Pow256(4) && version' < Pow256(4)
    requires Measurable([library] + files) && Measurable([library'] + files')
    requires FingerprintInput(version, library, files) == FingerprintInput(version', library', files')
    ensures version == version' && library == library' && files == files'
  {
    var a, b := [LittleEndian(version, 4), library] + files, [LittleEndian(version', 4), library'] + files';
    Pow256Grows(7);
    hide Pow256, Framed, LittleEndian;
    assert Measurable(a) by {
      assert forall x :: x in a ==> x == a[0] || x in [library] + files;
    }
    assert Measurable(b) by {
      assert forall x :: x in b ==> x == b[0] || x in [library'] + files';
    }
    FramingIsUnique(a, b);
    assert a[0] == b[0] && a[1] == b[1] && a[2..] == files && b[2..] == files';
    UnpackPacks(version, 4);
    UnpackPacks(version', 4);
  }
}
