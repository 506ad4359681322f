/** The archive builder of mitmproxy/src/tar_saver.rs. A tar stream is modelled
    as the sequence of member records appended to it (path, kind, mode, size);
    compression and header bytes are left out. `TarFile` lays out each entry
    under a per-host directory trie; `DestSaver` rotates to a new numbered tar
    once the open one holds more than `MaxPack` bytes of bodies, and keeps the
    host manifest whose `data` lists one summary per tar. */
module TarSaver {
  import opened Basics
  import opened ContentModel
  import opened HttpRecorder

  const DirMode: nat := 493   // 0o755
  const FileMode: nat := 292  // 0o444

  /** 512 MiB. */
  const MaxPack: nat := 512 * 0x10_0000

  /** One component of a member path. The fixed names the layout uses are kept as
      tags; `NameText` gives the text each stands for. */
  datatype Name =
    | Named(text: string)                        // a host or a url path segment
    | EntryDir(index: nat)                       // `#<index>`
    | RequestBody                                // `request-body`
    | FieldFile(idx: nat, ext: Option<string>)   // `<idx>.<ext>`, or `<idx>`
    | ResponseBody(ext: Option<string>)          // `response-body.<ext>`, or `response-body`
    | EntryBin                                   // `entry.bin`
    | EntryJson                                  // `entry.json`

  /** The text of a path component. */
  function NameText(n: Name): (s: string)
    ensures n.Named? ==> s == n.text
    ensures n.EntryDir? ==> |s| >= 2 && s[0] == '#'
    ensures n.FieldFile? ==> |s| >= 1 && '0' <= s[0] <= '9'
  {
    match n
    case Named(t) => t
    case EntryDir(i) => "#" + Decimal(i)
    case RequestBody => "request-body"
    case FieldFile(i, ext) =>
      (match ext
       case Some(x) => Decimal(i) + "." + x
       case None => Decimal(i))
    case ResponseBody(ext) =>
      (match ext
       case Some(x) => "response-body." + x
       case None => "response-body")
    case EntryBin => "entry.bin"
    case EntryJson => "entry.json"
  }

  type Path = seq<Name>

  datatype Kind = Directory | Regular

  /** One tar member: its path as components, its type, permission bits and payload length. */
  datatype Record = Record(path: Path, kind: Kind, mode: nat, size: nat)

  function DirRecord(path: Path): Record {
    Record(path, Directory, DirMode, 0)
  }

  function FileRecord(path: Path, payload: seq<byte>): Record {
    Record(path, Regular, FileMode, |payload|)
  }

  /** Directories carry mode 0755 and no payload; files carry mode 0444. */
  predicate WellFormed(r: Record) {
    (r.kind == Directory ==> r.mode == DirMode && r.size == 0) &&
    (r.kind == Regular ==> r.mode == FileMode)
  }

  // ---------------------------------------------------------------------------
  // The directory trie

  /** `DirTree`: the directories already written to this tar, as a trie of names. */
  datatype DirTree = DirTree(child: map<Name, DirTree>)

  const EmptyTree: DirTree := DirTree(map[])

  predicate IsPrefix<T(==)>(q: seq<T>, p: seq<T>) {
    |q| <= |p| && p[..|q|] == q
  }

  /** The node at path `p` exists (the root always does). */
  predicate Has(t: DirTree, p: Path)
    decreases |p|
  {
    p == [] || (p[0] in t.child && Has(t.child[p[0]], p[1..]))
  }

  /** Adds every missing node along `p`, as the `entry(..).or_insert` walk does. */
  function Insert(t: DirTree, p: Path): DirTree
    decreases |p|
  {
    if p == [] then t
    else
      var sub := if p[0] in t.child then t.child[p[0]] else EmptyTree;
      DirTree(t.child[p[0] := Insert(sub, p[1..])])
  }

  lemma {:induction false} HasEmpty(p: Path)
    ensures Has(EmptyTree, p) <==> p == []
  {
  }

  /** After inserting `p`, the nodes are the old ones plus the prefixes of `p`. */
  lemma {:induction false} HasInsert(t: DirTree, p: Path, q: Path)
    ensures Has(Insert(t, p), q) <==> Has(t, q) || IsPrefix(q, p)
    decreases |p|
  {
    if p != [] && q != [] {
      var sub := if p[0] in t.child then t.child[p[0]] else EmptyTree;
      if q[0] == p[0] {
        HasInsert(sub, p[1..], q[1..]);
        if p[0] !in t.child {
          HasEmpty(q[1..]);
        }
        assert IsPrefix(q, p) <==> IsPrefix(q[1..], p[1..]) by {
          if IsPrefix(q[1..], p[1..]) {
            assert p[..|q|] == [p[0]] + p[1..][..|q| - 1];
            assert q == [q[0]] + q[1..];
          }
          if IsPrefix(q, p) {
            assert p[1..][..|q| - 1] == p[..|q|][1..];
          }
        }
      } else {
        assert !IsPrefix(q, p) by {
          if |q| <= |p| { assert p[..|q|][0] == p[0]; }
        }
      }
    }
  }

  /** Inserting a path that is already present changes nothing. */
  lemma {:induction false} InsertPresent(t: DirTree, p: Path)
    requires Has(t, p)
    ensures Insert(t, p) == t
    decreases |p|
  {
    if p != [] {
      InsertPresent(t.child[p[0]], p[1..]);
      assert t.child[p[0] := t.child[p[0]]] == t.child;
    }
  }

  /** Inserting `p` and then one more level is inserting the longer path. */
  lemma {:induction false} InsertExtend(t: DirTree, p: Path, s: Name)
    ensures Insert(Insert(t, p), p + [s]) == Insert(t, p + [s])
    decreases |p|
  {
    if p != [] {
      var sub := if p[0] in t.child then t.child[p[0]] else EmptyTree;
      assert (p + [s])[0] == p[0] && (p + [s])[1..] == p[1..] + [s];
      InsertExtend(sub, p[1..], s);
    }
  }

  // ---------------------------------------------------------------------------
  // Layout of one entry

  /** Name of the top-level directory: the url's domain, else its address, else "unknown". */
  function HostName(url: Url): (name: string)
    ensures url.host.None? ==> name == "unknown"
    ensures url.host.Some? && url.host.value.Domain? ==> name == url.host.value.domain
    ensures url.host.Some? && url.host.value.Addr? ==> name == url.host.value.addr
  {
    match url.host
    case Some(Domain(d)) => d
    case Some(Addr(a)) => a
    case None => "unknown"
  }

  /** The leading non-empty segments: the walk stops at the first empty one. */
  function TakeNonEmpty(s: seq<string>): (r: seq<string>)
    ensures IsPrefix(r, s)
    ensures forall i :: 0 <= i < |r| ==> |r[i]| > 0
    ensures |r| == |s| || |s[|r|]| == 0
  {
    if s == [] || |s[0]| == 0 then [] else [s[0]] + TakeNonEmpty(s[1..])
  }

  lemma {:induction false} TakeNonEmptyAt(s: seq<string>, i: nat)
    requires i <= |s| && (i == |s| || |s[i]| == 0)
    requires forall j :: 0 <= j < i ==> |s[j]| > 0
    ensures TakeNonEmpty(s) == s[..i]
  {
    if i > 0 {
      TakeNonEmptyAt(s[1..], i - 1);
      assert s[..i] == [s[0]] + s[1..][..i - 1];
    }
  }

  /** Segments as path components. */
  function NamedAll(ss: seq<string>): (r: Path)
    ensures |r| == |ss| && forall i :: 0 <= i < |ss| ==> r[i] == Named(ss[i])
  {
    if ss == [] then [] else NamedAll(ss[..|ss| - 1]) + [Named(ss[|ss| - 1])]
  }

  lemma NamedAllStep(start: Path, ss: seq<string>, i: nat)
    requires i < |ss|
    ensures start + NamedAll(ss[..i + 1]) == (start + NamedAll(ss[..i])) + [Named(ss[i])]
  {
    assert ss[..i + 1][..i] == ss[..i];
  }

  /** Directories an entry is filed under: host, then the url path segments descended into. */
  function Dirs(e: Entry): Path {
    [Named(HostName(e.request.url))] +
    (match e.request.url.segments
     case None => []
     case Some(ps) => NamedAll(TakeNonEmpty(ps)))
  }

  /** Directory of one entry: `<host>/<segments..>/#<index>`. */
  function EntryPath(e: Entry): Path {
    Dirs(e) + [EntryDir(e.index)]
  }

  /** Directory records for the prefixes of `dirs` (from length one) that `t`
      lacks, shortest first. */
  function NewDirRecords(t: DirTree, dirs: Path): seq<Record>
    decreases |dirs|
  {
    if dirs == [] then []
    else NewDirRecords(t, dirs[..|dirs| - 1]) + (if Has(t, dirs) then [] else [DirRecord(dirs)])
  }

  /** A directory record is written for exactly the nodes the walk adds to the trie. */
  lemma {:induction false} NewDirRecordsExact(t: DirTree, dirs: Path, r: Record)
    ensures r in NewDirRecords(t, dirs) <==>
              r == DirRecord(r.path) && r.path != [] && Has(Insert(t, dirs), r.path) && !Has(t, r.path)
    decreases |dirs|
  {
    HasInsert(t, dirs, r.path);
    if dirs != [] {
      var init := dirs[..|dirs| - 1];
      NewDirRecordsExact(t, init, r);
      HasInsert(t, init, r.path);
      if r.path != [] && IsPrefix(r.path, dirs) && r.path != dirs {
        assert IsPrefix(r.path, init) by { assert init[..|r.path|] == dirs[..|r.path|]; }
      }
      if IsPrefix(r.path, init) {
        assert IsPrefix(r.path, dirs) by { assert dirs[..|r.path|] == init[..|r.path|]; }
      }
      if IsPrefix(r.path, dirs) && |r.path| == |dirs| {
        assert r.path == dirs;
      }
    }
  }

  /** What `add_entry_parent` appends: the missing trie directories, then the entry directory. */
  function ParentRecords(t: DirTree, e: Entry): seq<Record> {
    NewDirRecords(t, Dirs(e)) + [DirRecord(EntryPath(e))]
  }

  /** The file written for field number `idx` of a multipart form, if it has data. */
  function FieldRecord(dir: Path, idx: nat, f: FormField): seq<Record> {
    match f.content.data
    case Some(d) => [FileRecord(dir + [FieldFile(idx, f.content.extension)], d)]
    case None => []
  }

  function FieldRecords(dir: Path, fields: seq<FormField>): seq<Record>
    decreases |fields|
  {
    if fields == [] then []
    else FieldRecords(dir, fields[..|fields| - 1]) + FieldRecord(dir, |fields| - 1, fields[|fields| - 1])
  }

  /** One file per field that has data, named after the field's position among all fields. */
  lemma {:induction false} FieldRecordsExact(dir: Path, fields: seq<FormField>, r: Record)
    ensures r in FieldRecords(dir, fields) <==>
              exists i :: 0 <= i < |fields| && fields[i].content.data.Some? &&
                r == FileRecord(dir + [FieldFile(i, fields[i].content.extension)], fields[i].content.data.value)
    decreases |fields|
  {
    if fields != [] {
      var n := |fields| - 1;
      var init := fields[..n];
      FieldRecordsExact(dir, init, r);
      assert forall i :: 0 <= i < n ==> init[i] == fields[i];
    }
  }

  function RequestBodyRecords(p: Path, body: Option<Body>): seq<Record> {
    match body
    case Some(ContentBody(c)) =>
      if c.data.Some? then [FileRecord(p + [RequestBody], c.data.value)] else []
    case Some(MultipartForm(v)) =>
      if |v| > 0 then [DirRecord(p + [RequestBody])] + FieldRecords(p + [RequestBody], v) else []
    case _ => []
  }

  function ResponseRecords(p: Path, content: Option<Content>): seq<Record> {
    match content
    case Some(c) =>
      if c.data.Some? then [FileRecord(p + [ResponseBody(c.extension)], c.data.value)] else []
    case None => []
  }

  /** The encoders of the full entry record (CBOR and JSON), as opaque functions. */
  datatype Encoders = Encoders(cbor: Entry -> seq<byte>, json: Entry -> seq<byte>)

  /** Everything `TarFile::add_entry` appends for `e` when the trie holds `t`. */
  function EntryRecords(enc: Encoders, t: DirTree, e: Entry): seq<Record> {
    var p := EntryPath(e);
    ParentRecords(t, e) + RequestBodyRecords(p, e.request.body) + ResponseRecords(p, e.response.content) +
    [FileRecord(p + [EntryBin], enc.cbor(e)), FileRecord(p + [EntryJson], enc.json(e))]
  }

  lemma {:induction false} FieldRecordsWellFormed(dir: Path, fields: seq<FormField>)
    ensures forall r :: r in FieldRecords(dir, fields) ==> WellFormed(r) && r.kind == Regular
    decreases |fields|
  {
    if fields != [] {
      FieldRecordsWellFormed(dir, fields[..|fields| - 1]);
    }
  }

  lemma {:induction false} NewDirRecordsWellFormed(t: DirTree, dirs: Path)
    ensures forall r :: r in NewDirRecords(t, dirs) ==> WellFormed(r) && r.kind == Directory
    decreases |dirs|
  {
    if dirs != [] {
      NewDirRecordsWellFormed(t, dirs[..|dirs| - 1]);
    }
  }

  /** Shape of one entry's records: every record well formed, the entry directory
      always present, `entry.bin` then `entry.json` always last. */
  lemma EntryRecordsShape(enc: Encoders, t: DirTree, e: Entry)
    ensures var rs := EntryRecords(enc, t, e);
            && |rs| >= 3
            && DirRecord(EntryPath(e)) in rs
            && rs[|rs| - 2] == FileRecord(EntryPath(e) + [EntryBin], enc.cbor(e))
            && rs[|rs| - 1] == FileRecord(EntryPath(e) + [EntryJson], enc.json(e))
            && forall r :: r in rs ==> WellFormed(r)
  {
    NewDirRecordsWellFormed(t, Dirs(e));
    match e.request.body {
      case Some(MultipartForm(v)) => FieldRecordsWellFormed(EntryPath(e) + [RequestBody], v);
      case _ =>
    }
  }

  /** The trie and the records of a tar that was given `es` in order, starting from trie `t`. */
  function Layout(enc: Encoders, t: DirTree, es: seq<Entry>): (DirTree, seq<Record>)
    decreases |es|
  {
    if es == [] then (t, [])
    else
      var (t1, rs) := Layout(enc, t, es[..|es| - 1]);
      var e := es[|es| - 1];
      (Insert(t1, Dirs(e)), rs + EntryRecords(enc, t1, e))
  }

  lemma LayoutSnoc(enc: Encoders, t: DirTree, es: seq<Entry>, e: Entry)
    ensures var (t1, rs) := Layout(enc, t, es);
            Layout(enc, t, es + [e]) == (Insert(t1, Dirs(e)), rs + EntryRecords(enc, t1, e))
  {
    assert (es + [e])[..|es|] == es;
  }

  lemma AppendAssoc<T>(a: seq<T>, b: seq<T>, c: seq<T>, d: seq<T>, f: seq<T>)
    ensures a + b + c + d + f == a + (b + c + d + f)
  {
  }

  /** `EntryRecords` written out as the parts `add_entry` appends one after the other. */
  lemma EntryRecordsAppend(enc: Encoders, t: DirTree, e: Entry, r0: seq<Record>)
    ensures var p := EntryPath(e);
            r0 + ParentRecords(t, e) + RequestBodyRecords(p, e.request.body) + ResponseRecords(p, e.response.content)
            + [FileRecord(p + [EntryBin], enc.cbor(e)), FileRecord(p + [EntryJson], enc.json(e))]
            == r0 + EntryRecords(enc, t, e)
  {
    var p := EntryPath(e);
    AppendAssoc(r0, ParentRecords(t, e), RequestBodyRecords(p, e.request.body), ResponseRecords(p, e.response.content),
                [FileRecord(p + [EntryBin], enc.cbor(e)), FileRecord(p + [EntryJson], enc.json(e))]);
  }

  /** What an open tar holds after entries `es`: their summary, and their layout. */
  ghost predicate TarInv(enc: Encoders, first: Entry, es: seq<Entry>, info: Entries<()>, t: DirTree, rs: seq<Record>) {
    && |es| <= MaxU32 && TotalSize(es) <= MaxU64
    && info == Summarize(first, es)
    && (t, rs) == Layout(enc, EmptyTree, es)
  }

  /** One more entry in a tar: its summary is one more `update`, its layout one more entry. */
  lemma TarStep(enc: Encoders, first: Entry, es: seq<Entry>, e: Entry, info: Entries<()>, t: DirTree, rs: seq<Record>)
    requires TarInv(enc, first, es, info, t, rs) && info.CanUpdate(e)
    ensures TarInv(enc, first, es + [e], info.Update(e), Insert(t, Dirs(e)), rs + EntryRecords(enc, t, e))
  {
    TotalSizeSnoc(es, e);
    UpdateAllSnoc(NewEntries(first.index, first.timings, ()), es, e);
    LayoutSnoc(enc, EmptyTree, es, e);
  }

  // ---------------------------------------------------------------------------
  // One tar file

  /** A finished `<number>.tar.xz`. */
  datatype Archive = Archive(number: nat, records: seq<Record>)

  /** `TarFile`: one open tar with its summary and its trie. */
  class TarFile {
    const number: nat
    const enc: Encoders
    ghost const first: Entry
    var entry_info: Entries<()>
    var dir_tree: DirTree
    var records: seq<Record>
    ghost var contents: seq<Entry>

    ghost predicate Valid()
      reads this
    {
      TarInv(enc, first, contents, entry_info, dir_tree, records)
    }

    /** `TarFile::new`: an empty tar whose summary begins at `entry`. */
    constructor (number: nat, enc: Encoders, entry: Entry)
      ensures Valid()
      ensures this.number == number && this.enc == enc && first == entry
      ensures contents == [] && records == [] && entry_info == NewEntries(entry.index, entry.timings, ())
    {
      this.number := number;
      this.enc := enc;
      this.first := entry;
      entry_info := NewEntries(entry.index, entry.timings, ());
      dir_tree := EmptyTree;
      records := [];
      contents := [];
    }

    /** One step of the walk: descend into `name` below `path`, creating the node and
        writing its directory record when it is vacant. */
    method Descend(ghost t0: DirTree, ghost r0: seq<Record>, path: Path, name: Name)
      returns (next: Path)
      requires dir_tree == Insert(t0, path) && records == r0 + NewDirRecords(t0, path)
      modifies this`dir_tree, this`records
      ensures next == path + [name]
      ensures dir_tree == Insert(t0, next) && records == r0 + NewDirRecords(t0, next)
    {
      next := path + [name];
      assert next[..|next| - 1] == path;
      HasInsert(t0, path, next);
      InsertExtend(t0, path, name);
      if !Has(dir_tree, next) {
        // vacant: write the directory and add the node
        records := records + [DirRecord(next)];
        dir_tree := Insert(dir_tree, next);
      } else {
        // occupied: only descend
        InsertPresent(dir_tree, next);
      }
    }

    /** The segment part of the walk: descend through `ps` until the first empty segment. */
    method DescendSegments(ghost t0: DirTree, ghost r0: seq<Record>, start: Path, ps: seq<string>)
      returns (path: Path)
      requires dir_tree == Insert(t0, start) && records == r0 + NewDirRecords(t0, start)
      modifies this`dir_tree, this`records
      ensures path == start + NamedAll(TakeNonEmpty(ps))
      ensures dir_tree == Insert(t0, path) && records == r0 + NewDirRecords(t0, path)
    {
      ghost var segs := TakeNonEmpty(ps);
      assert forall k :: 0 <= k < |segs| ==> segs[k] == ps[k];
      path := start;
      var i := 0;
      while i < |ps|
        invariant 0 <= i <= |segs|
        invariant path == start + NamedAll(segs[..i])
        invariant dir_tree == Insert(t0, path) && records == r0 + NewDirRecords(t0, path)
      {
        if |ps[i]| == 0 {
          break;
        }
        assert i < |segs| && segs[i] == ps[i];
        path := Descend(t0, r0, path, Named(ps[i]));
        NamedAllStep(start, segs, i);
        i := i + 1;
      }
      assert i == |segs|;
      assert segs[..i] == segs;
    }

    /** `add_entry_parent`: walks host and path segments through the trie, writing a
        directory for each node it creates, then the entry directory; returns that path. */
    method AddEntryParent(e: Entry) returns (path: Path)
      modifies this`dir_tree, this`records
      ensures path == EntryPath(e)
      ensures records == old(records) + ParentRecords(old(dir_tree), e)
      ensures dir_tree == Insert(old(dir_tree), Dirs(e))
    {
      ghost var t0, r0 := dir_tree, records;
      path := Descend(t0, r0, [], Named(HostName(e.request.url)));
      if e.request.url.segments.Some? {
        path := DescendSegments(t0, r0, path, e.request.url.segments.value);
      }
      assert path == Dirs(e);
      path := path + [EntryDir(e.index)];
      records := records + [DirRecord(path)];
    }

    /** The multipart part of `add_entry`: one file per field that has data, numbered by position. */
    method AddFields(dir: Path, v: seq<FormField>)
      modifies this`records
      ensures records == old(records) + FieldRecords(dir, v)
    {
      ghost var r0 := records;
      var idx := 0;
      while idx < |v|
        invariant 0 <= idx <= |v|
        invariant records == r0 + FieldRecords(dir, v[..idx])
      {
        var f := v[idx];
        assert v[..idx + 1][..idx] == v[..idx];
        if f.content.data.Some? {
          records := records + [FileRecord(dir + [FieldFile(idx, f.content.extension)], f.content.data.value)];
        }
        idx := idx + 1;
      }
      assert v[..idx] == v;
    }

    /** The request-body part of `add_entry`. */
    method AddRequestBody(path: Path, body: Option<Body>)
      modifies this`records
      ensures records == old(records) + RequestBodyRecords(path, body)
    {
      match body {
        case Some(ContentBody(c)) =>
          if c.data.Some? {
            records := records + [FileRecord(path + [RequestBody], c.data.value)];
          }
        case Some(MultipartForm(v)) =>
          if |v| > 0 {
            var dir := path + [RequestBody];
            records := records + [DirRecord(dir)];
            AddFields(dir, v);
          }
        case _ =>
      }
    }

    /** `TarFile::add_entry`: the entry's directories, its body files, `entry.bin`, `entry.json`. */
    method AddEntry(e: Entry)
      requires Valid() && entry_info.CanUpdate(e)
      modifies this
      ensures Valid()
      ensures contents == old(contents) + [e]
      ensures records == old(records) + EntryRecords(enc, old(dir_tree), e)
      ensures dir_tree == Insert(old(dir_tree), Dirs(e))
      ensures entry_info == old(entry_info).Update(e)
    {
      ghost var t0, r0, c0 := dir_tree, records, contents;
      TarStep(enc, first, c0, e, entry_info, t0, r0);
      var path := AddEntryParent(e);
      AddEntryFiles(path, e);
      EntryRecordsAppend(enc, t0, e, r0);
      entry_info := entry_info.Update(e);
      contents := contents + [e];
    }

    /** The files of `add_entry` below the entry directory `path`: bodies, then `entry.bin` and `entry.json`. */
    method AddEntryFiles(path: Path, e: Entry)
      modifies this`records
      ensures records == old(records) + RequestBodyRecords(path, e.request.body) + ResponseRecords(path, e.response.content)
                         + [FileRecord(path + [EntryBin], enc.cbor(e)), FileRecord(path + [EntryJson], enc.json(e))]
    {
      AddRequestBody(path, e.request.body);
      AddResponseBody(path, e.response.content);
      records := records + [FileRecord(path + [EntryBin], enc.cbor(e)), FileRecord(path + [EntryJson], enc.json(e))];
    }

    /** The response-body part of `add_entry`. */
    method AddResponseBody(path: Path, content: Option<Content>)
      modifies this`records
      ensures records == old(records) + ResponseRecords(path, content)
    {
      match content {
        case Some(c) =>
          if c.data.Some? {
            records := records + [FileRecord(path + [ResponseBody(c.extension)], c.data.value)];
          }
        case None =>
      }
    }

    /** `TarFile::finish`: closes the stream and hands back the tar's summary. */
    method Finish() returns (info: Entries<()>, archive: Archive)
      requires Valid()
      ensures info == Summarize(first, contents)
      ensures archive == Archive(number, Layout(enc, EmptyTree, contents).1)
    {
      info := entry_info;
      archive := Archive(number, records);
    }
  }

  // ---------------------------------------------------------------------------
  // Rotation

  /** The tars a stream of entries is split into: the closed ones, and the one
      still open. The open tar is closed before an entry when its bodies exceed
      `MaxPack` (a strict comparison, checked before adding). */
  function Partition(es: seq<Entry>): (seq<seq<Entry>>, seq<Entry>)
    decreases |es|
  {
    if es == [] then ([], [])
    else
      var (gs, cur) := Partition(es[..|es| - 1]);
      var e := es[|es| - 1];
      if TotalSize(cur) > MaxPack then (gs + [cur], [e]) else (gs, cur + [e])
  }

  function Flatten(gs: seq<seq<Entry>>): seq<Entry>
    decreases |gs|
  {
    if gs == [] then [] else Flatten(gs[..|gs| - 1]) + gs[|gs| - 1]
  }

  function AllButLast(g: seq<Entry>): seq<Entry>
    requires g != []
  {
    g[..|g| - 1]
  }

  /** Nothing is lost or reordered, and only a non-empty stream leaves an open tar. */
  lemma {:induction false} PartitionCovers(es: seq<Entry>)
    ensures var (gs, cur) := Partition(es);
            && Flatten(gs) + cur == es
            && (es != [] <==> cur != [])
            && |gs| + |cur| <= |es|
    decreases |es|
  {
    if es != [] {
      var init := es[..|es| - 1];
      var e := es[|es| - 1];
      PartitionCovers(init);
      var (gs, cur) := Partition(init);
      if TotalSize(cur) > MaxPack {
        var gs' := gs + [cur];
        assert gs'[..|gs'| - 1] == gs;
        assert Flatten(gs') == Flatten(gs) + cur;
        assert init + [e] == es;
      } else {
        assert Flatten(gs) + (cur + [e]) == (Flatten(gs) + cur) + [e];
        assert init + [e] == es;
      }
    }
  }

  /** Each closed tar is over the threshold only because of its last entry; the open
      tar is at most the threshold except for its last entry. */
  lemma {:induction false} PartitionBounds(es: seq<Entry>)
    ensures var (gs, cur) := Partition(es);
            && (forall k :: 0 <= k < |gs| ==>
                  gs[k] != [] && TotalSize(gs[k]) > MaxPack && TotalSize(AllButLast(gs[k])) <= MaxPack)
            && (cur != [] ==> TotalSize(AllButLast(cur)) <= MaxPack)
    decreases |es|
  {
    if es != [] {
      var init := es[..|es| - 1];
      var e := es[|es| - 1];
      PartitionBounds(init);
      PartitionCovers(init);
      var (gs, cur) := Partition(init);
      if TotalSize(cur) > MaxPack {
        assert AllButLast([e]) == [];
        assert cur != [];
      } else {
        assert AllButLast(cur + [e]) == cur;
      }
    }
  }

  lemma PartitionProperties(es: seq<Entry>)
    ensures var (gs, cur) := Partition(es);
            && Flatten(gs) + cur == es
            && (es != [] <==> cur != [])
            && |gs| + |cur| <= |es|
            && (forall k :: 0 <= k < |gs| ==>
                  gs[k] != [] && TotalSize(gs[k]) > MaxPack && TotalSize(AllButLast(gs[k])) <= MaxPack)
            && (cur != [] ==> TotalSize(AllButLast(cur)) <= MaxPack)
  {
    PartitionCovers(es);
    PartitionBounds(es);
  }

  /** Summary of tar `k` of a host: the first tar begins at the entry the saver was
      started with, every later one at the entry that opened it. */
  function TarSummary(origin: Entry, k: nat, g: seq<Entry>): Entries<()>
    requires |g| <= MaxU32 && TotalSize(g) <= MaxU64
  {
    Summarize(if k == 0 || g == [] then origin else g[0], g)
  }

  /** All the tars a finished stream ends up in: the closed ones and the last. */
  function Tars(es: seq<Entry>): seq<seq<Entry>> {
    Partition(es).0 + [Partition(es).1]
  }

  /** Tar number `k` holds the layout of group `g`, and `sum` is that group's summary. */
  ghost predicate TarWritten(enc: Encoders, origin: Entry, k: nat, g: seq<Entry>, archive: Archive, sum: Entries<()>) {
    && |g| <= MaxU32 && TotalSize(g) <= MaxU64
    && archive == Archive(k, Layout(enc, EmptyTree, g).1)
    && sum == TarSummary(origin, k, g)
  }

  /** For every `k`, tar `k` was written from group `gs[k]`, and the manifest holds its summary at position `k`. */
  ghost predicate WrittenTars(enc: Encoders, origin: Entry, gs: seq<seq<Entry>>,
                              archives: seq<Archive>, sums: seq<Entries<()>>)
  {
    && |archives| == |gs| && |sums| == |gs|
    && forall k :: 0 <= k < |gs| ==> TarWritten(enc, origin, k, gs[k], archives[k], sums[k])
  }

  /** Closing one more group appends its tar and its summary. */
  lemma WrittenTarsSnoc(enc: Encoders, origin: Entry, gs: seq<seq<Entry>>,
                        archives: seq<Archive>, sums: seq<Entries<()>>, g: seq<Entry>)
    requires WrittenTars(enc, origin, gs, archives, sums)
    requires |g| <= MaxU32 && TotalSize(g) <= MaxU64
    ensures WrittenTars(enc, origin, gs + [g], archives + [Archive(|gs|, Layout(enc, EmptyTree, g).1)],
                        sums + [TarSummary(origin, |gs|, g)])
  {
    var gs', as', ss' := gs + [g], archives + [Archive(|gs|, Layout(enc, EmptyTree, g).1)],
                         sums + [TarSummary(origin, |gs|, g)];
    forall k | 0 <= k < |gs'|
      ensures TarWritten(enc, origin, k, gs'[k], as'[k], ss'[k])
    {
      if k < |gs| {
        assert gs'[k] == gs[k] && as'[k] == archives[k] && ss'[k] == sums[k];
      }
    }
  }

  /** One more entry either grows the open tar or closes it and opens a new one. */
  lemma PartitionSnoc(es: seq<Entry>, e: Entry)
    ensures var (gs, cur) := Partition(es);
            Partition(es + [e]) == if TotalSize(cur) > MaxPack then (gs + [cur], [e]) else (gs, cur + [e])
  {
    assert (es + [e])[..|es|] == es;
  }

  /** The saver's state as a value: the written tars `closed`, the open tar `cur`
      (begun at `first`, summarized by `tarInfo`), the archives written so far and
      the host manifest. */
  datatype SaverState = SaverState(
    closed: seq<seq<Entry>>,
    cur: seq<Entry>,
    first: Entry,
    archives: seq<Archive>,
    manifest: Entries<seq<Entries<()>>>,
    tarInfo: Entries<()>)

  /** `DestSaver::start`: nothing written, manifest and tar 0 both begin at `origin`. */
  function StartState(origin: Entry): (s: SaverState)
    ensures s.closed == [] && s.cur == [] && s.archives == [] && s.first == origin
    ensures Tallied(s) && s.manifest.count == 0 && s.manifest.ContentSize() == 0
  {
    SaverState([], [], origin, [], NewEntries(origin.index, origin.timings, []),
               NewEntries(origin.index, origin.timings, ()))
  }

  /** The counters agree: `tarInfo` counts and sums the open tar, and the manifest
      has counted every entry of the written tars and of the open one. */
  predicate Tallied(s: SaverState) {
    && s.tarInfo.count == |s.cur| && (s.cur == [] ==> s.tarInfo.ContentSize() == 0)
    && |s.closed| + |s.cur| <= s.manifest.count
    && s.tarInfo.ContentSize() <= s.manifest.ContentSize()
  }

  /** The manifest, and with it the open tar's summary, can absorb `e`. */
  predicate Fits(s: SaverState, e: Entry) {
    Tallied(s) && s.manifest.CanUpdate(e)
  }

  /** The open tar is finished: it becomes archive number `|closed|` and its summary
      is pushed onto the manifest. */
  function Closed(enc: Encoders, s: SaverState): (r: SaverState)
    ensures r.manifest.count == s.manifest.count && r.manifest.ContentSize() == s.manifest.ContentSize()
    ensures r.closed == s.closed + [s.cur] && |r.archives| == |s.archives| + 1
  {
    s.(closed := s.closed + [s.cur], cur := [],
       archives := s.archives + [Archive(|s.closed|, Layout(enc, EmptyTree, s.cur).1)],
       manifest := s.manifest.(data := s.manifest.data + [s.tarInfo]))
  }

  /** The rotation in `add_entry`: the open tar, holding more than `MaxPack`, is
      finished and an empty one begun at `e`. */
  function Rotated(enc: Encoders, s: SaverState, e: Entry): (r: SaverState)
    requires Fits(s, e) && s.tarInfo.ContentSize() > MaxPack
    ensures Fits(r, e) && r.cur == [] && r.first == e
    ensures r.manifest.count == s.manifest.count && r.manifest.ContentSize() == s.manifest.ContentSize()
  {
    Closed(enc, s).(first := e, tarInfo := NewEntries(e.index, e.timings, ()))
  }

  /** `e` goes into the open tar and into the manifest. */
  function Added(s: SaverState, e: Entry): (r: SaverState)
    requires Fits(s, e)
    ensures Tallied(r) && r.closed == s.closed && r.cur == s.cur + [e] && r.archives == s.archives
    ensures r.manifest.count == s.manifest.count + 1
    ensures r.manifest.ContentSize() == s.manifest.ContentSize() + EntrySize(e)
  {
    TotalSizeSnoc(s.cur, e);
    s.(cur := s.cur + [e], manifest := s.manifest.Update(e), tarInfo := s.tarInfo.Update(e))
  }

  /** `DestSaver::add_entry`: rotate when the open tar's bodies exceed `MaxPack`, then add. */
  function Step(enc: Encoders, s: SaverState, e: Entry): (r: SaverState)
    requires Fits(s, e)
    ensures Tallied(r) && r.manifest.count == s.manifest.count + 1
    ensures r.manifest.ContentSize() == s.manifest.ContentSize() + EntrySize(e)
  {
    if s.tarInfo.ContentSize() > MaxPack then Added(Rotated(enc, s, e), e) else Added(s, e)
  }

  /** The state after `add_entry` of each of `es`, in order. */
  function StepAll(enc: Encoders, s: SaverState, es: seq<Entry>): (r: SaverState)
    requires Tallied(s) && CanUpdateAll(s.manifest, es)
    ensures Tallied(r) && r.manifest.count == s.manifest.count + |es|
    ensures r.manifest.ContentSize() == s.manifest.ContentSize() + TotalSize(es)
    decreases |es|
  {
    if es == [] then s
    else
      var init, e := es[..|es| - 1], es[|es| - 1];
      TotalSizePrefix(es, |es| - 1);
      assert init + [e] == es;
      TotalSizeSnoc(init, e);
      Step(enc, StepAll(enc, s, init), e)
  }

  /** One more entry is one more step. */
  lemma StepAllSnoc(enc: Encoders, s: SaverState, es: seq<Entry>, i: nat)
    requires Tallied(s) && CanUpdateAll(s.manifest, es) && i < |es|
    ensures CanUpdateAll(s.manifest, es[..i]) && CanUpdateAll(s.manifest, es[..i + 1])
    ensures Fits(StepAll(enc, s, es[..i]), es[i])
    ensures StepAll(enc, s, es[..i + 1]) == Step(enc, StepAll(enc, s, es[..i]), es[i])
  {
    TotalSizePrefix(es, i + 1);
    assert es[..i + 1][..i] == es[..i];
    TotalSizeSnoc(es[..i], es[i]);
    assert es[..i] + [es[i]] == es[..i + 1];
  }

  /** The state of a saver started at `origin` after the entries `es`. */
  function Saved(enc: Encoders, origin: Entry, es: seq<Entry>): (r: SaverState)
    requires |es| <= MaxU32 && TotalSize(es) <= MaxU64
    ensures Tallied(r) && r.manifest.count == |es| && r.manifest.ContentSize() == TotalSize(es)
  {
    StepAll(enc, StartState(origin), es)
  }

  lemma SavedSnoc(enc: Encoders, origin: Entry, es: seq<Entry>, e: Entry)
    requires |es| < MaxU32 && TotalSize(es) + EntrySize(e) <= MaxU64
    ensures TotalSize(es + [e]) <= MaxU64 && Fits(Saved(enc, origin, es), e)
    ensures Saved(enc, origin, es + [e]) == Step(enc, Saved(enc, origin, es), e)
  {
    TotalSizeSnoc(es, e);
    assert (es + [e])[..|es|] == es;
  }

  /** What the state means: `received` is every entry given so far, split by
      `Partition` into the written tars `closed` and the open one `cur` (which
      began at `first`); the manifest sums all of `received` and lists one summary
      per written tar; `tarInfo` sums the open tar. */
  ghost predicate Accounts(enc: Encoders, origin: Entry, received: seq<Entry>, s: SaverState)
  {
    && |received| <= MaxU32 && TotalSize(received) <= MaxU64
    && s.manifest.Strip() == Summarize(origin, received)
    && Partition(received) == (s.closed, s.cur)
    && (|s.closed| > 0 ==> s.cur != [] && s.first == s.cur[0])
    && (|s.closed| == 0 ==> s.first == origin)
    && WrittenTars(enc, origin, s.closed, s.archives, s.manifest.data)
    && |s.cur| <= MaxU32 && TotalSize(s.cur) <= MaxU64 && s.tarInfo == Summarize(s.first, s.cur)
  }

  lemma AccountsStart(enc: Encoders, origin: Entry)
    ensures Accounts(enc, origin, [], StartState(origin))
  {
  }

  /** Adding to the open tar while it holds at most `MaxPack`. */
  lemma AccountsAdded(enc: Encoders, origin: Entry, received: seq<Entry>, s: SaverState, e: Entry)
    requires Accounts(enc, origin, received, s) && Fits(s, e) && s.tarInfo.ContentSize() <= MaxPack
    ensures Accounts(enc, origin, received + [e], Added(s, e))
  {
    PartitionSnoc(received, e);
    PartitionProperties(received);
    TotalSizeSnoc(received, e);
    UpdateAllSnoc(NewEntries(origin.index, origin.timings, ()), received, e);
    StripUpdate(s.manifest, e);
    TotalSizeConcat(Flatten(s.closed), s.cur);
    TotalSizeSnoc(s.cur, e);
    UpdateAllSnoc(NewEntries(s.first.index, s.first.timings, ()), s.cur, e);
  }

  /** Closing the open tar (it holds more than `MaxPack`) and opening the next one at `e`. */
  lemma AccountsRotated(enc: Encoders, origin: Entry, received: seq<Entry>, s: SaverState, e: Entry)
    requires Accounts(enc, origin, received, s) && Fits(s, e) && s.tarInfo.ContentSize() > MaxPack
    ensures Accounts(enc, origin, received + [e], Added(Rotated(enc, s, e), e))
  {
    var r := Added(Rotated(enc, s, e), e);
    var newTar := NewEntries(e.index, e.timings, ());
    assert r.closed == s.closed + [s.cur] && r.cur == [e] && r.first == e;
    assert r.archives == s.archives + [Archive(|s.closed|, Layout(enc, EmptyTree, s.cur).1)];
    assert r.manifest == s.manifest.(data := s.manifest.data + [s.tarInfo]).Update(e);
    assert r.tarInfo == newTar.Update(e);
    assert TotalSize(s.cur) > MaxPack;
    TotalSizeSnoc(received, e);
    assert r.manifest.Strip() == Summarize(origin, received + [e]) by {
      UpdateAllSnoc(NewEntries(origin.index, origin.timings, ()), received, e);
      StripUpdate(s.manifest.(data := s.manifest.data + [s.tarInfo]), e);
    }
    assert Partition(received + [e]) == (r.closed, r.cur) by {
      PartitionSnoc(received, e);
    }
    assert WrittenTars(enc, origin, r.closed, r.archives, r.manifest.data) by {
      assert TarSummary(origin, |s.closed|, s.cur) == s.tarInfo by {
        PartitionProperties(received);
      }
      WrittenTarsSnoc(enc, origin, s.closed, s.archives, s.manifest.data, s.cur);
    }
    assert r.tarInfo == Summarize(e, [e]) by {
      assert [] + [e] == [e];
      TotalSizeSnoc([], e);
      UpdateAllSnoc(newTar, [], e);
    }
  }

  /** Every reachable state is accounted for by the entries received. */
  lemma {:induction false} SavedAccounts(enc: Encoders, origin: Entry, es: seq<Entry>)
    requires |es| <= MaxU32 && TotalSize(es) <= MaxU64
    ensures Accounts(enc, origin, es, Saved(enc, origin, es))
    decreases |es|
  {
    if es == [] {
      AccountsStart(enc, origin);
    } else {
      var init, e := es[..|es| - 1], es[|es| - 1];
      assert init + [e] == es;
      TotalSizePrefix(es, |es| - 1);
      SavedSnoc(enc, origin, init, e);
      SavedAccounts(enc, origin, init);
      var s := Saved(enc, origin, init);
      if s.tarInfo.ContentSize() > MaxPack {
        AccountsRotated(enc, origin, init, s, e);
      } else {
        AccountsAdded(enc, origin, init, s, e);
      }
    }
  }

  /** After the last tar is closed, the written tars are exactly `Tars(es)`, each
      the layout of its group, and the manifest sums every entry. */
  lemma SavedFinished(enc: Encoders, origin: Entry, es: seq<Entry>)
    requires |es| <= MaxU32 && TotalSize(es) <= MaxU64
    ensures var c := Closed(enc, Saved(enc, origin, es));
            && c.closed == Tars(es)
            && WrittenTars(enc, origin, Tars(es), c.archives, c.manifest.data)
            && c.manifest.Strip() == Summarize(origin, es)
  {
    var s := Saved(enc, origin, es);
    SavedAccounts(enc, origin, es);
    PartitionProperties(es);
    assert TarSummary(origin, |s.closed|, s.cur) == s.tarInfo;
    WrittenTarsSnoc(enc, origin, s.closed, s.archives, s.manifest.data, s.cur);
  }

  // ---------------------------------------------------------------------------
  // The saver

  /** `DestSaver`: the open tar, the tars already written, and the host manifest. */
  class DestSaver {
    const enc: Encoders
    var count: u32
    var entries: Entries<seq<Entries<()>>>
    var tar_file: TarFile
    var archives: seq<Archive>
    var info: Option<Entries<seq<Entries<()>>>>
    ghost var closed: seq<seq<Entry>>
    ghost var Repr: set<object>

    /** The saver's fields, read as a `SaverState`. */
    ghost function State(): SaverState
      reads this, tar_file
    {
      SaverState(closed, tar_file.contents, tar_file.first, archives, entries, tar_file.entry_info)
    }

    /** The saver owns its open tar, numbered `count`, one past the written ones,
        and its counters agree. */
    ghost predicate Valid()
      reads this, Repr
    {
      && Repr == {this, tar_file}
      && tar_file.Valid() && tar_file.enc == enc && tar_file.number == count == |closed|
      && Tallied(State()) && info.None?
    }

    /** `DestSaver::start` without the thread and the dated directory: manifest and
        tar 0 both begin at `entry`, which is not yet added. */
    constructor (enc: Encoders, entry: Entry)
      ensures Valid() && fresh(Repr) && this.enc == enc
      ensures State() == StartState(entry)
    {
      this.enc := enc;
      count := 0;
      entries := NewEntries(entry.index, entry.timings, []);
      var t := new TarFile(0, enc, entry);
      tar_file := t;
      archives := [];
      info := None;
      closed := [];
      Repr := {this, t};
    }

    /** `DestSaver::add_entry`. */
    method AddEntry(e: Entry)
      requires Valid() && entries.CanUpdate(e)
      modifies Repr
      ensures Valid() && fresh(Repr - old(Repr))
      ensures Fits(old(State()), e) && State() == Step(enc, old(State()), e)
    {
      ghost var s0 := State();
      if tar_file.entry_info.ContentSize() > MaxPack {
        Rotate(e);
        Append(e);
        assert State() == Added(Rotated(enc, s0, e), e);
      } else {
        Append(e);
        assert State() == Added(s0, e);
      }
    }

    /** The rotation in `add_entry`: tar `count + 1` is created to begin at `e`, the
        open one is finished and its summary pushed onto the manifest. */
    method Rotate(e: Entry)
      requires Valid() && entries.CanUpdate(e) && tar_file.entry_info.ContentSize() > MaxPack
      modifies this
      ensures Valid() && fresh(tar_file)
      ensures State() == Rotated(enc, old(State()), e)
    {
      ghost var s0 := State();
      assert |closed| < |closed| + |tar_file.contents| <= entries.count;
      Seal();
      count := count + 1;
      var next := new TarFile(count, enc, e);
      tar_file := next;
      Repr := {this, next};
      assert State() == Rotated(enc, s0, e);
    }

    /** The open tar is finished and its summary pushed onto the manifest. */
    method Seal()
      requires Valid()
      modifies this`closed, this`entries, this`archives
      ensures closed == Closed(enc, old(State())).closed
      ensures entries == Closed(enc, old(State())).manifest
      ensures archives == Closed(enc, old(State())).archives
    {
      var summary, archive := tar_file.Finish();
      closed := closed + [tar_file.contents];
      entries := entries.(data := entries.data + [summary]);
      archives := archives + [archive];
    }

    /** The common tail of `add_entry`: `e` goes into the open tar and into the manifest. */
    method Append(e: Entry)
      requires Valid() && entries.CanUpdate(e)
      modifies tar_file, this`entries
      ensures Valid() && State() == Added(old(State()), e)
    {
      tar_file.AddEntry(e);
      entries := entries.Update(e);
    }

    /** `DestSaver::run`: drain the channel in order, then close the last tar and write
        `info.json`, whose content is `info`. */
    method Run(input: seq<Entry>)
      requires Valid() && CanUpdateAll(entries, input)
      modifies Repr
      ensures archives == Closed(enc, StepAll(enc, old(State()), input)).archives
      ensures info == Some(Closed(enc, StepAll(enc, old(State()), input)).manifest)
    {
      Drain(input);
      Close();
    }

    /** The loop of `run`: every entry of the channel, in order. */
    method Drain(input: seq<Entry>)
      requires Valid() && CanUpdateAll(entries, input)
      modifies Repr
      ensures Valid() && fresh(Repr - old(Repr))
      ensures State() == StepAll(enc, old(State()), input)
    {
      ghost var s0 := State();
      var i := 0;
      while i < |input|
        invariant 0 <= i <= |input|
        invariant Valid() && fresh(Repr - old(Repr))
        invariant CanUpdateAll(s0.manifest, input[..i])
        invariant State() == StepAll(enc, s0, input[..i])
      {
        StepAllSnoc(enc, s0, input, i);
        AddEntry(input[i]);
        i := i + 1;
      }
      assert input[..i] == input;
    }

    /** The end of `run`: the open tar is finished, its summary pushed, and the
        manifest becomes the content of `info.json`. */
    method Close()
      requires Valid()
      modifies this`entries, this`archives, this`info
      ensures archives == Closed(enc, old(State())).archives
      ensures info == Some(Closed(enc, old(State())).manifest)
    {
      var summary, archive := tar_file.Finish();
      entries := entries.(data := entries.data + [summary]);
      archives := archives + [archive];
      info := Some(entries);
    }
  }

  /** Sum of the entry counts of a manifest's per-tar summaries. */
  function SumCounts(sums: seq<Entries<()>>): nat
    decreases |sums|
  {
    if sums == [] then 0 else SumCounts(sums[..|sums| - 1]) + sums[|sums| - 1].count
  }

  lemma {:induction false} WrittenCounts(enc: Encoders, origin: Entry, gs: seq<seq<Entry>>,
                                        archives: seq<Archive>, sums: seq<Entries<()>>)
    requires WrittenTars(enc, origin, gs, archives, sums)
    ensures SumCounts(sums) == |Flatten(gs)|
    decreases |gs|
  {
    if gs != [] {
      var n := |gs| - 1;
      var gs', as', ss' := gs[..n], archives[..n], sums[..n];
      assert WrittenTars(enc, origin, gs', as', ss') by {
        forall k | 0 <= k < n
          ensures TarWritten(enc, origin, k, gs'[k], as'[k], ss'[k])
        {
          assert gs'[k] == gs[k] && as'[k] == archives[k] && ss'[k] == sums[k];
        }
      }
      WrittenCounts(enc, origin, gs', as', ss');
    }
  }

  /** In a finished host manifest the per-tar counts add up to the total count. */
  lemma ManifestCountsAddUp(enc: Encoders, origin: Entry, received: seq<Entry>,
                            archives: seq<Archive>, sums: seq<Entries<()>>)
    requires |received| <= MaxU32 && TotalSize(received) <= MaxU64
    requires WrittenTars(enc, origin, Tars(received), archives, sums)
    ensures SumCounts(sums) == |received| == Summarize(origin, received).count
    ensures |archives| == |Partition(received).0| + 1
  {
    var (gs, cur) := Partition(received);
    PartitionProperties(received);
    var all := gs + [cur];
    assert all[..|all| - 1] == gs;
    WrittenCounts(enc, origin, all, archives, sums);
  }
}
