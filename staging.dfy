/** The staging store of mitmproxy/src/tmp_saver.rs: every entry is written at once
    as a loose file `unpacked/<index>.bin` of a temporary directory and summed into
    a running batch; a batch whose bodies have reached `TMP_PACK_SIZE` is handed
    to the packer, which writes it to `<k>.bin.xz` and then removes its loose files.

    The file system is a map from paths to nodes, shared by the saver and the
    packer. A device fault is a fixed set of paths on which every operation fails.
    The packer's channel is the sequence of batches sent to it; its loop runs when
    `finish` drains that channel. CBOR and xz are opaque functions. */
module Staging {
  import opened Basics
  import opened HttpRecorder

  /** `TMP_PACK_SIZE`: 256 MiB. */
  const TmpPackSize: nat := 256 * 0x10_0000

  /** A batch: the running summary, with the entries themselves as its payload. */
  type TmpEntries = Entries<seq<Entry>>

  // ---------------------------------------------------------------------------
  // File system

  /** One path component. The staging directory's own names are kept structured, so
      that two names are equal exactly when their numbers are. */
  datatype Seg = Named(name: string) | UnpackedDir | LooseFile(index: u32) | PackFile(k: nat)

  /** The text of a component, as `format!` writes it. */
  function SegText(s: Seg): (t: string)
    ensures s.UnpackedDir? ==> t == "unpacked"
  {
    match s
    case Named(n) => n
    case UnpackedDir => "unpacked"
    case LooseFile(i) => Decimal(i) + ".bin"
    case PackFile(k) => Decimal(k) + ".bin.xz"
  }

  type Path = seq<Seg>

  datatype Node = Dir | File(bytes: seq<byte>)

  type Files = map<Path, Node>

  datatype IoError = IoError(path: Path)

  function Parent(p: Path): Path
    requires p != []
  {
    p[..|p| - 1]
  }

  /** A node can be made at `p`: its parent is a directory and the device works there. */
  predicate CanCreate(files: Files, faulty: set<Path>, p: Path) {
    p != [] && p !in faulty && Parent(p) in files && files[Parent(p)] == Dir
  }

  /** `fs::write` and `File::create` succeed: they create or truncate a file, never a directory. */
  predicate CanWrite(files: Files, faulty: set<Path>, p: Path) {
    CanCreate(files, faulty, p) && !(p in files && files[p] == Dir)
  }

  /** `fs::create_dir` succeeds only for a new name. */
  predicate CanCreateDir(files: Files, faulty: set<Path>, p: Path) {
    CanCreate(files, faulty, p) && p !in files
  }

  /** `fs::remove_file` succeeds only on an existing file. */
  predicate CanRemove(files: Files, faulty: set<Path>, p: Path) {
    p !in faulty && p in files && files[p].File?
  }

  /** What is left of `files` once everything at or below `dir` is gone. */
  function Pruned(files: Files, dir: Path): (r: Files)
    ensures forall p :: p in r <==> p in files && !(dir <= p)
    ensures forall p :: p in r ==> r[p] == files[p]
  {
    map p | p in files && !(dir <= p) :: files[p]
  }

  /** The file system of the machine. */
  class FileSystem {
    var files: Files
    const faulty: set<Path>

    constructor (files: Files, faulty: set<Path>)
      ensures this.files == files && this.faulty == faulty
    {
      this.files := files;
      this.faulty := faulty;
    }

    method Write(p: Path, bytes: seq<byte>) returns (r: Result<(), IoError>)
      modifies this
      ensures r.Ok? <==> CanWrite(old(files), faulty, p)
      ensures r.Ok? ==> r == Ok(()) && files == old(files)[p := File(bytes)]
      ensures r.Err? ==> r.error == IoError(p) && files == old(files)
    {
      if CanWrite(files, faulty, p) {
        files := files[p := File(bytes)];
        r := Ok(());
      } else {
        r := Err(IoError(p));
      }
    }

    method CreateDir(p: Path) returns (r: Result<(), IoError>)
      modifies this
      ensures r.Ok? <==> CanCreateDir(old(files), faulty, p)
      ensures r.Ok? ==> r == Ok(()) && files == old(files)[p := Dir]
      ensures r.Err? ==> r.error == IoError(p) && files == old(files)
    {
      if CanCreateDir(files, faulty, p) {
        files := files[p := Dir];
        r := Ok(());
      } else {
        r := Err(IoError(p));
      }
    }

    method Remove(p: Path) returns (r: Result<(), IoError>)
      modifies this
      ensures r.Ok? <==> CanRemove(old(files), faulty, p)
      ensures r.Ok? ==> r == Ok(()) && files == old(files) - {p}
      ensures r.Err? ==> r.error == IoError(p) && files == old(files)
    {
      if CanRemove(files, faulty, p) {
        files := files - {p};
        r := Ok(());
      } else {
        r := Err(IoError(p));
      }
    }

    /** Dropping a `TempDir` guard removes its directory tree (errors are ignored). */
    method RemoveTree(dir: Path)
      modifies this
      ensures files == Pruned(old(files), dir)
    {
      files := Pruned(files, dir);
    }
  }

  // ---------------------------------------------------------------------------
  // Names inside the staging directory

  function UnpackedPath(tmp: Path): Path {
    tmp + [UnpackedDir]
  }

  /** `<tmp>/unpacked/<index>.bin`. */
  function LoosePath(tmp: Path, index: u32): Path {
    tmp + [UnpackedDir, LooseFile(index)]
  }

  /** `<tmp>/<k>.bin.xz`. */
  function PackPath(tmp: Path, k: nat): Path {
    tmp + [PackFile(k)]
  }

  lemma LoosePathInjective(tmp: Path, i: u32, j: u32)
    ensures LoosePath(tmp, i) == LoosePath(tmp, j) <==> i == j
  {
    if LoosePath(tmp, i) == LoosePath(tmp, j) {
      assert LoosePath(tmp, i)[|tmp| + 1] == LooseFile(i);
    }
  }

  /** The CBOR encoding of one entry, and the xz-compressed CBOR of a batch. */
  datatype Codecs = Codecs(cbor: Entry -> seq<byte>, pack: TmpEntries -> seq<byte>)

  // ---------------------------------------------------------------------------
  // Batches

  /** A batch summarizes exactly its own entries, from its first index and time. */
  predicate IsBatch(b: TmpEntries) {
    && |b.data| <= MaxU32 && TotalSize(b.data) <= MaxU64
    && b.Strip() == UpdateAll(NewEntries(b.begin_index, b.begin_time, ()), b.data)
  }

  /** `Entries::new` for a batch opened by `e`. */
  function FreshBatch(e: Entry): (b: TmpEntries)
    ensures IsBatch(b) && b.data == [] && b.count == 0 && b.ContentSize() == 0
    ensures b.begin_index == e.index && b.begin_time == e.timings
  {
    NewEntries(e.index, e.timings, [])
  }

  /** `update` followed by `data.push`: the entry is counted and kept. */
  function Pushed(b: TmpEntries, e: Entry): (r: TmpEntries)
    requires IsBatch(b) && b.CanUpdate(e)
    ensures IsBatch(r) && r.data == b.data + [e] && r.count == |r.data|
    ensures r.Strip() == b.Strip().Update(e)
    ensures r.ContentSize() == TotalSize(r.data)
  {
    var acc := NewEntries(b.begin_index, b.begin_time, ());
    TotalSizeSnoc(b.data, e);
    assert CanUpdateAll(acc, b.data + [e]);
    UpdateAllSnoc(acc, b.data, e);
    StripUpdate(b, e);
    b.Update(e).(data := b.data + [e])
  }

  /** The entries of a sequence of batches, in order. */
  function Contents(bs: seq<TmpEntries>): seq<Entry>
    decreases |bs|
  {
    if bs == [] then [] else Contents(bs[..|bs| - 1]) + bs[|bs| - 1].data
  }

  lemma ContentsSnoc(bs: seq<TmpEntries>, b: TmpEntries)
    ensures Contents(bs + [b]) == Contents(bs) + b.data
  {
    assert (bs + [b])[..|bs|] == bs;
  }

  /** Every entry of batch `k` is among the contents. */
  lemma {:induction false} ContentsHas(bs: seq<TmpEntries>, k: nat, e: Entry)
    requires k < |bs| && e in bs[k].data
    ensures e in Contents(bs)
    decreases |bs|
  {
    var n := |bs| - 1;
    if k < n {
      ContentsHas(bs[..n], k, e);
    }
  }

  /** The loose files written for `es`, in order: a later entry with the same index
      overwrites the file of an earlier one. */
  function LooseImage(codecs: Codecs, tmp: Path, es: seq<Entry>): Files
    decreases |es|
  {
    if es == [] then map[]
    else
      var e := es[|es| - 1];
      LooseImage(codecs, tmp, es[..|es| - 1])[LoosePath(tmp, e.index) := File(codecs.cbor(e))]
  }

  /** The last entry of `es` with index `i`: the one whose loose file stands. */
  function LastWith(es: seq<Entry>, i: u32): (r: Option<Entry>)
    ensures r.Some? ==> r.value in es && r.value.index == i
    ensures r.None? ==> forall e :: e in es ==> e.index != i
    decreases |es|
  {
    if es == [] then None
    else if es[|es| - 1].index == i then Some(es[|es| - 1])
    else
      assert forall e :: e in es ==> e in es[..|es| - 1] || e == es[|es| - 1];
      LastWith(es[..|es| - 1], i)
  }

  /** Last writer wins: the loose file of index `i` exists exactly when some entry
      of `es` has index `i`, and then holds the last such entry. */
  lemma {:induction false} LooseImageLast(codecs: Codecs, tmp: Path, es: seq<Entry>, i: u32)
    ensures LoosePath(tmp, i) in LooseImage(codecs, tmp, es) <==> LastWith(es, i).Some?
    ensures LastWith(es, i).Some? ==>
              LooseImage(codecs, tmp, es)[LoosePath(tmp, i)] == File(codecs.cbor(LastWith(es, i).value))
    decreases |es|
  {
    if es != [] {
      var n := |es| - 1;
      LooseImageLast(codecs, tmp, es[..n], i);
      LoosePathInjective(tmp, i, es[n].index);
    }
  }

  /** Every file of `image` is in `files`, with the same content. */
  predicate Contains(files: Files, image: Files) {
    forall p :: p in image ==> p in files && files[p] == image[p]
  }

  // ---------------------------------------------------------------------------
  // The packer

  /** The file system after the packer, and the error it stopped on. */
  datatype Packing = Packing(files: Files, error: Option<IoError>)

  /** The removal loop of `Packer::run`: each entry's loose file is removed; a
      failed removal is only logged. */
  function Unlinked(faulty: set<Path>, tmp: Path, files: Files, es: seq<Entry>): Files
    decreases |es|
  {
    if es == [] then files
    else
      var f := Unlinked(faulty, tmp, files, es[..|es| - 1]);
      var p := LoosePath(tmp, es[|es| - 1].index);
      if CanRemove(f, faulty, p) then f - {p} else f
  }

  /** The loose paths of `es`. */
  function LoosePaths(tmp: Path, es: seq<Entry>): set<Path> {
    set e | e in es :: LoosePath(tmp, e.index)
  }

  /** The removal loop removes exactly the loose files of the batch that the device
      lets it remove, whatever the order or repetitions, and touches nothing else. */
  lemma {:induction false} UnlinkedExactly(faulty: set<Path>, tmp: Path, files: Files, es: seq<Entry>)
    ensures forall p :: p in Unlinked(faulty, tmp, files, es) <==>
                          p in files && !(p in LoosePaths(tmp, es) && CanRemove(files, faulty, p))
    ensures forall p :: p in Unlinked(faulty, tmp, files, es) ==> Unlinked(faulty, tmp, files, es)[p] == files[p]
    decreases |es|
  {
    if es != [] {
      var n := |es| - 1;
      var init := es[..n];
      UnlinkedExactly(faulty, tmp, files, init);
      assert LoosePaths(tmp, es) == LoosePaths(tmp, init) + {LoosePath(tmp, es[n].index)} by {
        assert es == init + [es[n]];
      }
    }
  }

  /** One round of `Packer::run`: write batch `b` to `<k>.bin.xz`; only then remove its loose files. */
  function PackStep(codecs: Codecs, faulty: set<Path>, tmp: Path, k: nat, b: TmpEntries, files: Files): Packing {
    var p := PackPath(tmp, k);
    if CanWrite(files, faulty, p) then Packing(Unlinked(faulty, tmp, files[p := File(codecs.pack(b))], b.data), None)
    else Packing(files, Some(IoError(p)))
  }

  /** `Packer::run` over the batches received, in order, numbered from 0; the first failed pack ends it. */
  function Packed(codecs: Codecs, faulty: set<Path>, tmp: Path, bs: seq<TmpEntries>, files: Files): Packing
    decreases |bs|
  {
    if bs == [] then Packing(files, None)
    else
      var s := Packed(codecs, faulty, tmp, bs[..|bs| - 1], files);
      if s.error.Some? then s else PackStep(codecs, faulty, tmp, |bs| - 1, bs[|bs| - 1], s.files)
  }

  lemma PackedSnoc(codecs: Codecs, faulty: set<Path>, tmp: Path, bs: seq<TmpEntries>, b: TmpEntries, files: Files)
    ensures var s := Packed(codecs, faulty, tmp, bs, files);
            Packed(codecs, faulty, tmp, bs + [b], files) ==
              if s.error.Some? then s else PackStep(codecs, faulty, tmp, |bs|, b, s.files)
  {
    assert (bs + [b])[..|bs|] == bs;
  }

  /** A failed pack write stops the packer for good: no loose file of that batch is
      removed, and no later batch is written or unlinked. */
  lemma {:induction false} PackedStops(codecs: Codecs, faulty: set<Path>, tmp: Path, bs: seq<TmpEntries>, files: Files, n: nat)
    requires n < |bs|
    requires Packed(codecs, faulty, tmp, bs[..n], files).error.None?
    requires !CanWrite(Packed(codecs, faulty, tmp, bs[..n], files).files, faulty, PackPath(tmp, n))
    ensures Packed(codecs, faulty, tmp, bs, files) ==
              Packing(Packed(codecs, faulty, tmp, bs[..n], files).files, Some(IoError(PackPath(tmp, n))))
    decreases |bs|
  {
    var m := |bs| - 1;
    if n < m {
      assert bs[..m][..n] == bs[..n];
      PackedStops(codecs, faulty, tmp, bs[..m], files, n);
    } else {
      assert bs[..m] == bs[..n];
    }
  }

  /** After a run without error, batch `k` is in `<k>.bin.xz`, for every `k`. */
  lemma {:induction false} PackedFiles(codecs: Codecs, faulty: set<Path>, tmp: Path, bs: seq<TmpEntries>, files: Files)
    requires Packed(codecs, faulty, tmp, bs, files).error.None?
    ensures forall k :: 0 <= k < |bs| ==>
              PackPath(tmp, k) in Packed(codecs, faulty, tmp, bs, files).files &&
              Packed(codecs, faulty, tmp, bs, files).files[PackPath(tmp, k)] == File(codecs.pack(bs[k]))
    decreases |bs|
  {
    if bs != [] {
      var m := |bs| - 1;
      var s := Packed(codecs, faulty, tmp, bs[..m], files);
      PackedFiles(codecs, faulty, tmp, bs[..m], files);
      var p := PackPath(tmp, m);
      var f := s.files[p := File(codecs.pack(bs[m]))];
      UnlinkedExactly(faulty, tmp, f, bs[m].data);
      forall k | 0 <= k < |bs|
        ensures PackPath(tmp, k) in Packed(codecs, faulty, tmp, bs, files).files
        ensures Packed(codecs, faulty, tmp, bs, files).files[PackPath(tmp, k)] == File(codecs.pack(bs[k]))
      {
        forall e | e in bs[m].data
          ensures LoosePath(tmp, e.index) != PackPath(tmp, k)
        {
          assert |LoosePath(tmp, e.index)| == |tmp| + 2;
        }
        if k < m {
          assert bs[..m][k] == bs[k];
          assert PackPath(tmp, k) != p by {
            assert PackPath(tmp, k)[|tmp|] == PackFile(k);
          }
        }
      }
    }
  }

  /** After a run without error, no loose file of a packed entry is left, except where
      the device refused the removal or a directory stands in its place. */
  lemma {:induction false} PackedUnlinks(codecs: Codecs, faulty: set<Path>, tmp: Path, bs: seq<TmpEntries>, files: Files)
    requires Packed(codecs, faulty, tmp, bs, files).error.None?
    ensures forall e :: e in Contents(bs) && LoosePath(tmp, e.index) in Packed(codecs, faulty, tmp, bs, files).files ==>
              LoosePath(tmp, e.index) in faulty || (LoosePath(tmp, e.index) in files && files[LoosePath(tmp, e.index)] == Dir)
    decreases |bs|
  {
    if bs != [] {
      var m := |bs| - 1;
      var s := Packed(codecs, faulty, tmp, bs[..m], files);
      PackedUnlinks(codecs, faulty, tmp, bs[..m], files);
      PackedKeeps(codecs, faulty, tmp, bs[..m], files);
      var p := PackPath(tmp, m);
      var f := s.files[p := File(codecs.pack(bs[m]))];
      UnlinkedExactly(faulty, tmp, f, bs[m].data);
      assert Contents(bs) == Contents(bs[..m]) + bs[m].data;
      forall e | e in Contents(bs) && LoosePath(tmp, e.index) in Packed(codecs, faulty, tmp, bs, files).files
        ensures LoosePath(tmp, e.index) in faulty || (LoosePath(tmp, e.index) in files && files[LoosePath(tmp, e.index)] == Dir)
      {
        var q := LoosePath(tmp, e.index);
        assert q != p by {
          assert |q| != |p|;
        }
        if e in bs[m].data {
          assert q in LoosePaths(tmp, bs[m].data);
        }
      }
    }
  }

  /** The packer never creates a directory, and keeps every directory it finds. */
  lemma {:induction false} PackedKeeps(codecs: Codecs, faulty: set<Path>, tmp: Path, bs: seq<TmpEntries>, files: Files)
    ensures forall q :: q in Packed(codecs, faulty, tmp, bs, files).files && Packed(codecs, faulty, tmp, bs, files).files[q] == Dir
                    <==> q in files && files[q] == Dir
    decreases |bs|
  {
    if bs != [] {
      var m := |bs| - 1;
      var s := Packed(codecs, faulty, tmp, bs[..m], files);
      PackedKeeps(codecs, faulty, tmp, bs[..m], files);
      var p := PackPath(tmp, m);
      UnlinkedExactly(faulty, tmp, s.files[p := File(codecs.pack(bs[m]))], bs[m].data);
    }
  }

  /** `Packer`: the worker that turns batches into pack files. */
  class Packer {
    const codecs: Codecs
    const fs: FileSystem
    var path: Path
    var unpacked_path: Path

    constructor (codecs: Codecs, fs: FileSystem, path: Path, unpacked_path: Path)
      ensures this.codecs == codecs && this.fs == fs
      ensures this.path == path && this.unpacked_path == unpacked_path
    {
      this.codecs := codecs;
      this.fs := fs;
      this.path := path;
      this.unpacked_path := unpacked_path;
    }

    /** `Packer::run` over the batches the channel delivers, in order. */
    method Run(batches: seq<TmpEntries>) returns (r: Result<(), IoError>)
      requires unpacked_path == UnpackedPath(path)
      modifies this, fs
      ensures var p := Packed(codecs, fs.faulty, old(path), batches, old(fs.files));
              && fs.files == p.files
              && (r.Ok? <==> p.error.None?)
              && (r.Err? ==> p.error == Some(r.error))
    {
      ghost var tmp, f0 := path, fs.files;
      var idx := 0;
      while idx < |batches|
        invariant 0 <= idx <= |batches|
        invariant path == tmp && unpacked_path == UnpackedPath(tmp)
        invariant Packed(codecs, fs.faulty, tmp, batches[..idx], f0) == Packing(fs.files, None)
      {
        var entries := batches[idx];
        PackedSnoc(codecs, fs.faulty, tmp, batches[..idx], entries, f0);
        assert batches[..idx + 1] == batches[..idx] + [entries];
        path := path + [PackFile(idx)];
        var written := fs.Write(path, codecs.pack(entries));
        if written.Err? {
          PackedStops(codecs, fs.faulty, tmp, batches, f0, idx);
          return Err(written.error);
        }
        path := path[..|path| - 1];
        RemoveLoose(entries.data);
        idx := idx + 1;
      }
      assert batches[..idx] == batches;
      r := Ok(());
    }

    /** The inner loop of `run`: remove `unpacked/<index>.bin` for each entry; a failed removal is only logged. */
    method RemoveLoose(data: seq<Entry>)
      requires unpacked_path == UnpackedPath(path)
      modifies this`unpacked_path, fs
      ensures unpacked_path == old(unpacked_path)
      ensures fs.files == Unlinked(fs.faulty, path, old(fs.files), data)
    {
      ghost var f0 := fs.files;
      var i := 0;
      while i < |data|
        invariant 0 <= i <= |data|
        invariant unpacked_path == old(unpacked_path)
        invariant fs.files == Unlinked(fs.faulty, path, f0, data[..i])
      {
        assert data[..i + 1][..i] == data[..i];
        unpacked_path := unpacked_path + [LooseFile(data[i].index)];
        assert unpacked_path == LoosePath(path, data[i].index);
        var removed := fs.Remove(unpacked_path);
        unpacked_path := unpacked_path[..|unpacked_path| - 1];
        i := i + 1;
      }
      assert data[..i] == data;
    }
  }

  // ---------------------------------------------------------------------------
  // The saver

  /** `AddEntryError`: the loose file could not be written, or the packer is gone
      (`AddEntryError::Packer`). */
  datatype AddEntryError = Io(error: IoError) | PackerGone

  /** The saver as a value: the running batch, the batches sent to the packer, the
      file system, and every entry it has accepted so far. */
  datatype Staged = Staged(entries: TmpEntries, channel: seq<TmpEntries>, files: Files, accepted: seq<Entry>)

  /** What the saver keeps true: the running batch sums exactly its entries, the
      loose file of every accepted entry is on disk (for a repeated index, the
      latest one), and nothing in a batch was not accepted. */
  ghost predicate StagingInv(codecs: Codecs, tmp: Path, s: Staged) {
    && IsBatch(s.entries)
    && Contains(s.files, LooseImage(codecs, tmp, s.accepted))
    && (forall e :: e in s.entries.data ==> e in s.accepted)
    && (forall e :: e in Contents(s.channel) ==> e in s.accepted)
  }

  /** `save_entry`: write `unpacked/<index>.bin`, and only then count the entry and keep
      it. A failed write leaves the saver as it was, so the outcome of a save depends
      on the entry's own file alone. */
  function SaveStep(codecs: Codecs, faulty: set<Path>, tmp: Path, s: Staged, e: Entry): (r: (Result<(), IoError>, Staged))
    requires IsBatch(s.entries) && s.entries.CanUpdate(e)
    ensures r.0.Ok? <==> CanWrite(s.files, faulty, LoosePath(tmp, e.index))
    ensures r.0.Ok? ==> && r.1.entries.data == s.entries.data + [e]
                        && r.1.entries.count == s.entries.count + 1 == |r.1.entries.data|
                        && r.1.files == s.files[LoosePath(tmp, e.index) := File(codecs.cbor(e))]
                        && r.1.accepted == s.accepted + [e]
                        && r.1.channel == s.channel
    ensures r.0.Err? ==> r.0.error == IoError(LoosePath(tmp, e.index)) && r.1 == s
  {
    var p := LoosePath(tmp, e.index);
    if CanWrite(s.files, faulty, p) then
      (Ok(()), s.(entries := Pushed(s.entries, e), files := s.files[p := File(codecs.cbor(e))], accepted := s.accepted + [e]))
    else
      (Err(IoError(p)), s)
  }

  /** The rotation test of `add_entry`: the running batch has reached `TMP_PACK_SIZE`
      (a non-strict comparison, unlike the archive's). */
  predicate Rotates(b: TmpEntries) {
    b.ContentSize() >= TmpPackSize
  }

  /** `e` can be counted in the batch it will land in without overflow. */
  predicate Fits(b: TmpEntries, e: Entry) {
    if Rotates(b) then FreshBatch(e).CanUpdate(e) else b.CanUpdate(e)
  }

  function AsAddResult(r: Result<(), IoError>): Result<(), AddEntryError> {
    match r
    case Ok(_) => Ok(())
    case Err(e) => Err(Io(e))
  }

  /** `add_entry`: when the running batch has reached `TMP_PACK_SIZE`, swap in a fresh
      batch begun at `e` and send the full one to the packer; then save `e`. When
      the packer is gone the send fails after the swap, and `e` is not saved. */
  function AddStep(codecs: Codecs, faulty: set<Path>, tmp: Path, s: Staged, e: Entry, packerGone: bool)
    : (r: (Result<(), AddEntryError>, Staged))
    requires IsBatch(s.entries) && Fits(s.entries, e)
  {
    if Rotates(s.entries) then
      if packerGone then (Err(PackerGone), s.(entries := FreshBatch(e)))
      else
        var (saved, s') := SaveStep(codecs, faulty, tmp, s.(entries := FreshBatch(e), channel := s.channel + [s.entries]), e);
        (AsAddResult(saved), s')
    else
      var (saved, s') := SaveStep(codecs, faulty, tmp, s, e);
      (AsAddResult(saved), s')
  }

  /** Rotation: the batch is handed over intact exactly when it has reached
      `TMP_PACK_SIZE` and the packer is there; after a rotation the running batch
      begins at `e`, and holds `e` alone when the save succeeded. */
  lemma AddStepRotation(codecs: Codecs, faulty: set<Path>, tmp: Path, s: Staged, e: Entry, packerGone: bool)
    requires IsBatch(s.entries) && Fits(s.entries, e)
    ensures var (r, s') := AddStep(codecs, faulty, tmp, s, e, packerGone);
            && s'.channel == (if Rotates(s.entries) && !packerGone then s.channel + [s.entries] else s.channel)
            && (Rotates(s.entries) ==> s'.entries.begin_index == e.index && s'.entries.begin_time == e.timings)
            && (Rotates(s.entries) && r.Ok? ==> s'.entries.data == [e] && s'.entries.count == 1)
            && (!Rotates(s.entries) ==> s'.entries.begin_index == s.entries.begin_index)
  {
  }

  /** Saving: `e` is written, counted and kept exactly when its loose file can be
      written; an I/O failure changes nothing but the swap; a gone packer means `e`
      is neither written nor kept. */
  lemma AddStepSaving(codecs: Codecs, faulty: set<Path>, tmp: Path, s: Staged, e: Entry, packerGone: bool)
    requires IsBatch(s.entries) && Fits(s.entries, e)
    ensures var (r, s') := AddStep(codecs, faulty, tmp, s, e, packerGone);
            var b := if Rotates(s.entries) then FreshBatch(e) else s.entries;
            && (Rotates(s.entries) && packerGone ==>
                  r == Err(PackerGone) && s'.entries == b && s'.files == s.files && s'.accepted == s.accepted)
            && (!(Rotates(s.entries) && packerGone) ==>
                  && (r.Ok? <==> CanWrite(s.files, faulty, LoosePath(tmp, e.index)))
                  && (r.Ok? ==> s'.entries.data == b.data + [e] && s'.entries.count == b.count + 1
                                && s'.files[LoosePath(tmp, e.index)] == File(codecs.cbor(e))
                                && s'.accepted == s.accepted + [e])
                  && (r.Err? ==> r == Err(Io(IoError(LoosePath(tmp, e.index))))
                                 && s'.entries == b && s'.files == s.files && s'.accepted == s.accepted))
  {
  }

  /** A successful save keeps the saver's invariant. */
  lemma SaveStepKeepsInv(codecs: Codecs, faulty: set<Path>, tmp: Path, s: Staged, e: Entry)
    requires StagingInv(codecs, tmp, s) && s.entries.CanUpdate(e)
    ensures StagingInv(codecs, tmp, SaveStep(codecs, faulty, tmp, s, e).1)
  {
    var p := LoosePath(tmp, e.index);
    if CanWrite(s.files, faulty, p) {
      assert (s.accepted + [e])[..|s.accepted|] == s.accepted;
      assert LooseImage(codecs, tmp, s.accepted + [e]) == LooseImage(codecs, tmp, s.accepted)[p := File(codecs.cbor(e))];
    }
  }

  /** `add_entry` keeps the saver's invariant, whatever the outcome. */
  lemma AddStepKeepsInv(codecs: Codecs, faulty: set<Path>, tmp: Path, s: Staged, e: Entry, packerGone: bool)
    requires StagingInv(codecs, tmp, s) && Fits(s.entries, e)
    ensures StagingInv(codecs, tmp, AddStep(codecs, faulty, tmp, s, e, packerGone).1)
  {
    if Rotates(s.entries) {
      if !packerGone {
        var s1 := s.(entries := FreshBatch(e), channel := s.channel + [s.entries]);
        ContentsSnoc(s.channel, s.entries);
        assert StagingInv(codecs, tmp, s1);
        SaveStepKeepsInv(codecs, faulty, tmp, s1, e);
      }
    } else {
      SaveStepKeepsInv(codecs, faulty, tmp, s, e);
    }
  }

  // ---------------------------------------------------------------------------
  // What the staging directory keeps

  /** `e` can be read back from its loose file. */
  ghost predicate LooseHolds(codecs: Codecs, tmp: Path, files: Files, e: Entry) {
    LoosePath(tmp, e.index) in files && files[LoosePath(tmp, e.index)] == File(codecs.cbor(e))
  }

  /** `e` can be read back from the pack file of a batch that holds it. */
  ghost predicate PackHolds(codecs: Codecs, tmp: Path, files: Files, bs: seq<TmpEntries>, e: Entry) {
    exists k :: 0 <= k < |bs| && e in bs[k].data && PackPath(tmp, k) in files && files[PackPath(tmp, k)] == File(codecs.pack(bs[k]))
  }

  /** No other entry of the batches shares `e`'s index, so the packer's removal of
      that index's loose file can only follow the packing of `e` itself. */
  predicate Unrivalled(bs: seq<TmpEntries>, e: Entry) {
    forall e' :: e' in Contents(bs) && e'.index == e.index ==> e' == e
  }

  lemma {:induction false} ContentsIn(bs: seq<TmpEntries>, e: Entry)
    requires e in Contents(bs)
    ensures exists k :: 0 <= k < |bs| && e in bs[k].data
    decreases |bs|
  {
    var n := |bs| - 1;
    if e !in bs[n].data {
      ContentsIn(bs[..n], e);
      var k :| 0 <= k < n && e in bs[..n][k].data;
      assert bs[k] == bs[..n][k];
    }
  }

  /** The removal loop keeps every pack file. */
  lemma UnlinkedKeepsPack(faulty: set<Path>, tmp: Path, f: Files, data: seq<Entry>, k: nat)
    requires PackPath(tmp, k) in f
    ensures PackPath(tmp, k) in Unlinked(faulty, tmp, f, data)
    ensures Unlinked(faulty, tmp, f, data)[PackPath(tmp, k)] == f[PackPath(tmp, k)]
  {
    UnlinkedExactly(faulty, tmp, f, data);
    assert PackPath(tmp, k) !in LoosePaths(tmp, data) by {
      forall e | e in data
        ensures LoosePath(tmp, e.index) != PackPath(tmp, k)
      {
        assert |LoosePath(tmp, e.index)| == |tmp| + 2;
      }
    }
  }

  /** The removal loop keeps the loose file of an entry that no entry of the batch
      shares an index with. */
  lemma UnlinkedKeepsLoose(codecs: Codecs, faulty: set<Path>, tmp: Path, f: Files, data: seq<Entry>, e: Entry)
    requires LooseHolds(codecs, tmp, f, e)
    requires forall e' :: e' in data ==> e'.index != e.index
    ensures LooseHolds(codecs, tmp, Unlinked(faulty, tmp, f, data), e)
  {
    UnlinkedExactly(faulty, tmp, f, data);
    var q := LoosePath(tmp, e.index);
    if q in LoosePaths(tmp, data) {
      var e' :| e' in data && LoosePath(tmp, e'.index) == q;
      LoosePathInjective(tmp, e.index, e'.index);
    }
  }

  /** The packer loses no unrivalled entry: one whose loose file holds it is, after
      the run, still in that file or in the pack file of its batch, whether or not
      the run stopped on an error. */
  lemma {:induction false} PackedLosesNothing(codecs: Codecs, faulty: set<Path>, tmp: Path, files: Files,
                                              bs: seq<TmpEntries>, e: Entry)
    requires LooseHolds(codecs, tmp, files, e) && Unrivalled(bs, e)
    ensures var f := Packed(codecs, faulty, tmp, bs, files).files;
            LooseHolds(codecs, tmp, f, e) || PackHolds(codecs, tmp, f, bs, e)
    decreases |bs|
  {
    if bs != [] {
      var m := |bs| - 1;
      var init := bs[..m];
      assert Contents(bs) == Contents(init) + bs[m].data;
      PackedLosesNothing(codecs, faulty, tmp, files, init, e);
      var s := Packed(codecs, faulty, tmp, init, files);
      var p := PackPath(tmp, m);
      if s.error.None? && CanWrite(s.files, faulty, p) {
        var f := s.files[p := File(codecs.pack(bs[m]))];
        var out := Packed(codecs, faulty, tmp, bs, files).files;
        assert out == Unlinked(faulty, tmp, f, bs[m].data);
        if e in bs[m].data {
          UnlinkedKeepsPack(faulty, tmp, f, bs[m].data, m);
          assert PackHolds(codecs, tmp, out, bs, e);
        } else if LooseHolds(codecs, tmp, s.files, e) {
          assert LoosePath(tmp, e.index) != p by {
            assert |LoosePath(tmp, e.index)| != |p|;
          }
          UnlinkedKeepsLoose(codecs, faulty, tmp, f, bs[m].data, e);
        } else {
          var k :| 0 <= k < m && e in init[k].data && PackPath(tmp, k) in s.files
                   && s.files[PackPath(tmp, k)] == File(codecs.pack(init[k]));
          assert init[k] == bs[k];
          assert PackPath(tmp, k) != p by {
            assert PackPath(tmp, k)[|tmp|] == PackFile(k);
          }
          UnlinkedKeepsPack(faulty, tmp, f, bs[m].data, k);
        }
      } else if !LooseHolds(codecs, tmp, s.files, e) {
        var k :| 0 <= k < m && e in init[k].data && PackPath(tmp, k) in s.files
                 && s.files[PackPath(tmp, k)] == File(codecs.pack(init[k]));
        assert init[k] == bs[k];
      }
    }
  }

  /** After a run without error, every entry of every batch is in its pack file,
      whatever became of its loose file. */
  lemma PackedKeepsPacks(codecs: Codecs, faulty: set<Path>, tmp: Path, bs: seq<TmpEntries>, files: Files)
    requires Packed(codecs, faulty, tmp, bs, files).error.None?
    ensures forall e :: e in Contents(bs) ==> PackHolds(codecs, tmp, Packed(codecs, faulty, tmp, bs, files).files, bs, e)
  {
    PackedFiles(codecs, faulty, tmp, bs, files);
    forall e | e in Contents(bs)
      ensures PackHolds(codecs, tmp, Packed(codecs, faulty, tmp, bs, files).files, bs, e)
    {
      ContentsIn(bs, e);
    }
  }

  /** After `finish`, an accepted entry can be read back when it is the last one
      accepted with its index and no other entry with that index was sent: from its
      loose file, or from its batch's pack file. After a run without error, every
      entry sent is in its pack file. An entry of the running batch, which `finish`
      never sends, stays loose. */
  lemma Recoverable(codecs: Codecs, faulty: set<Path>, tmp: Path, s: Staged)
    requires StagingInv(codecs, tmp, s)
    ensures var p := Packed(codecs, faulty, tmp, s.channel, s.files);
            && (forall e :: e in s.accepted && LastWith(s.accepted, e.index) == Some(e) && Unrivalled(s.channel, e) ==>
                  LooseHolds(codecs, tmp, p.files, e) || PackHolds(codecs, tmp, p.files, s.channel, e))
            && (p.error.None? ==> forall e :: e in Contents(s.channel) ==> PackHolds(codecs, tmp, p.files, s.channel, e))
  {
    forall e | e in s.accepted && LastWith(s.accepted, e.index) == Some(e) && Unrivalled(s.channel, e)
      ensures var f := Packed(codecs, faulty, tmp, s.channel, s.files).files;
              LooseHolds(codecs, tmp, f, e) || PackHolds(codecs, tmp, f, s.channel, e)
    {
      LooseImageLast(codecs, tmp, s.accepted, e.index);
      PackedLosesNothing(codecs, faulty, tmp, s.files, s.channel, e);
    }
    if Packed(codecs, faulty, tmp, s.channel, s.files).error.None? {
      PackedKeepsPacks(codecs, faulty, tmp, s.channel, s.files);
    }
  }

  /** No two different accepted entries share an index. */
  predicate IndexNamesOne(es: seq<Entry>) {
    forall i, j :: 0 <= i < |es| && 0 <= j < |es| && es[i].index == es[j].index ==> es[i] == es[j]
  }

  /** When an index names one entry, nothing the saver accepted is lost by `finish`. */
  lemma RecoverableAll(codecs: Codecs, faulty: set<Path>, tmp: Path, s: Staged)
    requires StagingInv(codecs, tmp, s) && IndexNamesOne(s.accepted)
    ensures forall e :: e in s.accepted ==>
              var f := Packed(codecs, faulty, tmp, s.channel, s.files).files;
              LooseHolds(codecs, tmp, f, e) || PackHolds(codecs, tmp, f, s.channel, e)
  {
    Recoverable(codecs, faulty, tmp, s);
    forall e | e in s.accepted
      ensures LastWith(s.accepted, e.index) == Some(e) && Unrivalled(s.channel, e)
    {
      var i :| 0 <= i < |s.accepted| && s.accepted[i] == e;
      var last := LastWith(s.accepted, e.index).value;
      var j :| 0 <= j < |s.accepted| && s.accepted[j] == last;
      forall e' | e' in Contents(s.channel) && e'.index == e.index
        ensures e' == e
      {
        var k :| 0 <= k < |s.accepted| && s.accepted[k] == e';
      }
    }
  }

  /** The numbering a session evidently intends: the entry that starts it, which
      `new` stages twice, has index 0, and the n-th entry added after it has index n. */
  predicate NumberedFromOne(es: seq<Entry>) {
    && |es| >= 2 && es[0] == es[1] && es[0].index == 0
    && forall k :: 2 <= k < |es| ==> es[k].index == k - 1
  }

  /** With that numbering every accepted entry survives `finish`. */
  lemma NumberedSessionRecoverable(codecs: Codecs, faulty: set<Path>, tmp: Path, s: Staged)
    requires StagingInv(codecs, tmp, s) && NumberedFromOne(s.accepted)
    ensures forall e :: e in s.accepted ==>
              var f := Packed(codecs, faulty, tmp, s.channel, s.files).files;
              LooseHolds(codecs, tmp, f, e) || PackHolds(codecs, tmp, f, s.channel, e)
  {
    var es := s.accepted;
    forall i, j | 0 <= i < |es| && 0 <= j < |es| && es[i].index == es[j].index
      ensures es[i] == es[j]
    {
      if i >= 2 && j >= 2 {
        assert i == j;
      } else if i < 2 && j < 2 {
        assert es[i] == es[0] && es[j] == es[0];
      }
    }
    RecoverableAll(codecs, faulty, tmp, s);
  }

  /** As the recorder numbers a session, the first entry added after the one that
      started it also has index 0. Its save overwrites `unpacked/0.bin`, and with no
      batch sent the first entry then survives `finish` nowhere. */
  lemma IndexReuseOverwrites(codecs: Codecs, faulty: set<Path>, tmp: Path, s: Staged, a: Entry, b: Entry)
    requires StagingInv(codecs, tmp, s) && s.channel == [] && a in s.accepted
    requires b.index == a.index && codecs.cbor(b) != codecs.cbor(a)
    requires s.entries.CanUpdate(b) && CanWrite(s.files, faulty, LoosePath(tmp, b.index))
    ensures var (r, s1) := SaveStep(codecs, faulty, tmp, s, b);
            var f := Packed(codecs, faulty, tmp, s1.channel, s1.files).files;
            && r.Ok? && StagingInv(codecs, tmp, s1) && a in s1.accepted
            && !LooseHolds(codecs, tmp, f, a) && !PackHolds(codecs, tmp, f, s1.channel, a)
  {
    SaveStepKeepsInv(codecs, faulty, tmp, s, b);
  }

  /** As the recorder numbers a session, a sent batch holding the first entry
      (index 0) makes the packer remove `unpacked/0.bin`, which by then holds the
      first entry added after it, also index 0 and never sent: that entry survives
      `finish` nowhere. */
  lemma IndexReuseUnlinks(codecs: Codecs, faulty: set<Path>, tmp: Path, s: Staged, a: Entry, e: Entry)
    requires StagingInv(codecs, tmp, s) && |s.channel| == 1
    requires e in s.accepted && LastWith(s.accepted, e.index) == Some(e) && e !in s.channel[0].data
    requires a in s.channel[0].data && a.index == e.index
    requires CanWrite(s.files, faulty, PackPath(tmp, 0)) && LoosePath(tmp, e.index) !in faulty
    ensures var f := Packed(codecs, faulty, tmp, s.channel, s.files).files;
            !LooseHolds(codecs, tmp, f, e) && !PackHolds(codecs, tmp, f, s.channel, e)
  {
    var b := s.channel[0];
    var p, q := PackPath(tmp, 0), LoosePath(tmp, e.index);
    LooseImageLast(codecs, tmp, s.accepted, e.index);
    assert q != p by {
      assert |q| != |p|;
    }
    assert s.channel[..0] == [];
    var f := s.files[p := File(codecs.pack(b))];
    assert Packed(codecs, faulty, tmp, s.channel, s.files).files == Unlinked(faulty, tmp, f, b.data);
    UnlinkedExactly(faulty, tmp, f, b.data);
    assert q in LoosePaths(tmp, b.data);
  }

  // ---------------------------------------------------------------------------
  // `save_entry` as written

  /** `save_entry` as the source writes it, on the saver's `unpacked_path` `up`: the
      `?` after `fs::write` returns before the `pop`, so a failed write leaves the
      entry's file name on `up`. */
  function SaveAsWritten(codecs: Codecs, faulty: set<Path>, up: Path, b: TmpEntries, e: Entry, files: Files)
    : (r: (Result<(), IoError>, Path, TmpEntries, Files))
    requires IsBatch(b) && b.CanUpdate(e)
    ensures r.0.Err? ==> r.1 == up + [LooseFile(e.index)] && r.2 == b && r.3 == files
  {
    var p := up + [LooseFile(e.index)];
    if CanWrite(files, faulty, p) then (Ok(()), up, Pushed(b, e), files[p := File(codecs.cbor(e))])
    else (Err(IoError(p)), p, b, files)
  }

  /** One failed write poisons the saver as written: `unpacked_path` becomes
      `unpacked/<a>.bin`, so the next save of `e` targets `unpacked/<a>.bin/<e>.bin`
      and fails although `unpacked/<e>.bin` is writable; the corrected `SaveStep`
      saves `e`. */
  lemma AsWrittenFailurePoisons(codecs: Codecs, faulty: set<Path>, tmp: Path, st: Staged, a: Entry, e: Entry)
    requires IsBatch(st.entries) && st.entries.CanUpdate(a) && st.entries.CanUpdate(e)
    requires !CanWrite(st.files, faulty, LoosePath(tmp, a.index))
    requires !(LoosePath(tmp, a.index) in st.files && st.files[LoosePath(tmp, a.index)] == Dir)
    requires CanWrite(st.files, faulty, LoosePath(tmp, e.index))
    ensures var (r1, up1, b1, f1) := SaveAsWritten(codecs, faulty, UnpackedPath(tmp), st.entries, a, st.files);
            && r1.Err? && up1 == LoosePath(tmp, a.index)
            && SaveAsWritten(codecs, faulty, up1, b1, e, f1).0.Err?
    ensures var (r1, st1) := SaveStep(codecs, faulty, tmp, st, a);
            r1.Err? && SaveStep(codecs, faulty, tmp, st1, e).0.Ok?
  {
    var up1 := UnpackedPath(tmp) + [LooseFile(a.index)];
    assert up1 == LoosePath(tmp, a.index);
    assert Parent(up1 + [LooseFile(e.index)]) == up1;
  }

  /** `TmpSaver`. The packer's channel is `channel`; `accepted` is every entry
      whose loose file was written, in order. */
  class TmpSaver {
    const codecs: Codecs
    const fs: FileSystem
    const tmp_dir: Path
    var unpacked_path: Path
    var entries: TmpEntries
    const packer: Packer
    var channel: seq<TmpEntries>
    ghost var accepted: seq<Entry>

    ghost function State(): Staged
      reads this, fs
    {
      Staged(entries, channel, fs.files, accepted)
    }

    ghost predicate Valid()
      reads this, fs, packer
    {
      && unpacked_path == UnpackedPath(tmp_dir)
      && packer.codecs == codecs && packer.fs == fs
      && packer.path == tmp_dir && packer.unpacked_path == unpacked_path
      && StagingInv(codecs, tmp_dir, State())
    }

    /** The struct literal of `TmpSaver::new`: the batch begins at `entry`, the packer is started. */
    constructor (codecs: Codecs, fs: FileSystem, tmp: Path, entry: Entry)
      ensures Valid() && fresh(packer)
      ensures this.codecs == codecs && this.fs == fs && tmp_dir == tmp
      ensures entries == FreshBatch(entry) && channel == [] && accepted == []
    {
      this.codecs := codecs;
      this.fs := fs;
      tmp_dir := tmp;
      unpacked_path := UnpackedPath(tmp);
      entries := FreshBatch(entry);
      packer := new Packer(codecs, fs, tmp, UnpackedPath(tmp));
      channel := [];
      accepted := [];
    }

    /** The file-system half of `TmpSaver::new`: make the temporary directory
        (`tmp` is the fresh name `tempfile` picks) and its `unpacked` directory and
        write the first entry there. A failure after the directory exists drops the
        `TempDir` guard, which removes the tree again. */
    static method Prepare(codecs: Codecs, fs: FileSystem, tmp: Path, entry: Entry) returns (r: Result<(), IoError>)
      modifies fs
      ensures var f1 := old(fs.files)[tmp := Dir];
              var f2 := f1[UnpackedPath(tmp) := Dir];
              && (r.Ok? <==> && CanCreateDir(old(fs.files), fs.faulty, tmp)
                             && CanCreateDir(f1, fs.faulty, UnpackedPath(tmp))
                             && CanWrite(f2, fs.faulty, LoosePath(tmp, entry.index)))
              && (r.Ok? ==> fs.files == f2[LoosePath(tmp, entry.index) := File(codecs.cbor(entry))])
      ensures r.Err? ==> forall p :: p in fs.files ==> p in old(fs.files) && fs.files[p] == old(fs.files)[p]
    {
      r := fs.CreateDir(tmp);
      if r.Err? {
        return;
      }
      var unpacked_path := UnpackedPath(tmp);
      r := fs.CreateDir(unpacked_path);
      if r.Err? {
        fs.RemoveTree(tmp);
        return;
      }
      r := WriteEntry(codecs, fs, tmp, unpacked_path, entry);
      if r.Err? {
        fs.RemoveTree(tmp);
      }
    }

    /** `TmpSaver::new`: prepare the directory, start the packer and save the first
        entry. Since the first write left `<index>.bin` in place, the save repeats a
        write that already succeeded, and the saver comes up holding just `entry`. */
    static method New(codecs: Codecs, fs: FileSystem, tmp: Path, entry: Entry) returns (r: Result<TmpSaver, IoError>)
      requires FreshBatch(entry).CanUpdate(entry)
      modifies fs
      ensures var f1 := old(fs.files)[tmp := Dir];
              var f2 := f1[UnpackedPath(tmp) := Dir];
              && (r.Ok? <==> && CanCreateDir(old(fs.files), fs.faulty, tmp)
                             && CanCreateDir(f1, fs.faulty, UnpackedPath(tmp))
                             && CanWrite(f2, fs.faulty, LoosePath(tmp, entry.index)))
              && (r.Ok? ==> fs.files == f2[LoosePath(tmp, entry.index) := File(codecs.cbor(entry))])
      ensures r.Ok? ==> && fresh(r.value) && fresh(r.value.packer) && r.value.Valid()
                        && r.value.codecs == codecs && r.value.fs == fs && r.value.tmp_dir == tmp
                        && r.value.entries.data == [entry] && r.value.entries.count == 1
                        && r.value.entries.begin_index == entry.index
                        && r.value.channel == [] && r.value.accepted == [entry]
      ensures r.Err? ==> forall p :: p in fs.files ==> p in old(fs.files) && fs.files[p] == old(fs.files)[p]
    {
      var prepared := Prepare(codecs, fs, tmp, entry);
      if prepared.Err? {
        return Err(prepared.error);
      }
      ghost var f3 := fs.files;
      var ret := new TmpSaver(codecs, fs, tmp, entry);
      var saved := ret.SaveEntry(entry);
      assert fs.files == f3;
      r := match saved
           case Ok(_) => Ok(ret)
           case Err(e) => Err(e);
    }

    /** `write_entry`: write the entry's CBOR to `<index>.bin` under `up`, the
        `unpacked` directory of `tmp`. The path is a value here, so it is the same
        afterwards whether or not the write succeeds. */
    static method WriteEntry(codecs: Codecs, fs: FileSystem, tmp: Path, up: Path, entry: Entry) returns (r: Result<(), IoError>)
      requires up == UnpackedPath(tmp)
      modifies fs
      ensures r.Ok? <==> CanWrite(old(fs.files), fs.faulty, LoosePath(tmp, entry.index))
      ensures r.Ok? ==> r == Ok(()) && fs.files == old(fs.files)[LoosePath(tmp, entry.index) := File(codecs.cbor(entry))]
      ensures r.Err? ==> r.error == IoError(LoosePath(tmp, entry.index)) && fs.files == old(fs.files)
    {
      var path := up + [LooseFile(entry.index)];
      assert path == LoosePath(tmp, entry.index);
      r := fs.Write(path, codecs.cbor(entry));
    }

    /** `save_entry`, with the file name popped whether or not the write succeeds:
        the saver's `unpacked_path` is left as it was. */
    method SaveEntry(entry: Entry) returns (r: Result<(), IoError>)
      requires Valid() && entries.CanUpdate(entry)
      modifies this`entries, this`accepted, fs
      ensures Valid() && unpacked_path == old(unpacked_path)
      ensures (r, State()) == SaveStep(codecs, fs.faulty, tmp_dir, old(State()), entry)
    {
      ghost var s0 := State();
      ghost var step := SaveStep(codecs, fs.faulty, tmp_dir, s0, entry);
      SaveStepKeepsInv(codecs, fs.faulty, tmp_dir, s0, entry);
      r := WriteEntry(codecs, fs, tmp_dir, unpacked_path, entry);
      if r.Ok? {
        entries := Pushed(entries, entry);
        accepted := accepted + [entry];
        assert r == step.0;
        assert State() == step.1;
      } else {
        assert r == step.0;
        assert State() == s0 == step.1;
      }
    }

    /** `add_entry`; `packerGone` says whether the packer thread has already exited,
        which makes the send fail. */
    method AddEntry(entry: Entry, packerGone: bool) returns (r: Result<(), AddEntryError>)
      requires Valid() && Fits(entries, entry)
      modifies this`entries, this`channel, this`accepted, fs
      ensures Valid()
      ensures (r, State()) == AddStep(codecs, fs.faulty, tmp_dir, old(State()), entry, packerGone)
    {
      ghost var s0 := State();
      AddStepKeepsInv(codecs, fs.faulty, tmp_dir, s0, entry, packerGone);
      if Rotates(entries) {
        var batch := FreshBatch(entry);
        batch, entries := entries, batch;
        if packerGone {
          return Err(PackerGone);
        }
        channel := channel + [batch];
        ContentsSnoc(s0.channel, batch);
      }
      var saved := SaveEntry(entry);
      r := AsAddResult(saved);
    }

    /** `finish`: close the channel and wait for the packer; hand back the directory. */
    method Finish() returns (r: Result<Path, IoError>)
      requires Valid()
      modifies packer, fs
      ensures var p := Packed(codecs, fs.faulty, tmp_dir, channel, old(fs.files));
              && fs.files == p.files
              && (p.error.None? ==> r == Ok(tmp_dir))
              && (p.error.Some? ==> r == Err(p.error.value))
    {
      var done := packer.Run(channel);
      r := match done
           case Ok(_) => Ok(tmp_dir)
           case Err(e) => Err(e);
    }
  }
}
