# http-recorder archiving engine, modelled in Dafny

http-recorder records HTTP exchanges seen by a mitmproxy addon. Each exchange
becomes an `Entry` with a session index. A recorder fans every entry out to two
sinks:

- a **staging store** (`TmpSaver`). It writes each entry as a loose file
  `unpacked/<index>.bin` of a temporary directory and sums it into a running
  batch. A batch that has reached `TMP_PACK_SIZE` (256 MiB) goes to a packer.
  The packer writes the batch as `<k>.bin.xz` and then deletes its loose files.
- an **archive builder** (`DestSaver`). It lays each entry out in a numbered
  tar as directories `host/segment/.../#<index>` holding the request body, the
  response body, `entry.bin` and `entry.json`. It rotates to the next tar once
  the open one holds more than `MAX_PACK` (512 MiB) of bodies, and it keeps a
  host manifest with one summary per tar.

Every summary is an `Entries` aggregate: begin and end index and time, a count,
and request and response body sizes.

## Modules

The project has six modules, one per source file plus a module of shared basics:

- `Basics` (`basics.dfy`): `Option`, `Result`, the fixed-width integer bounds,
  and decimal text.
- `HttpRecorder` (`records.dfy`): `type/src/lib.rs`. This covers the version and
  method parsers, `StatusCode` equality, the entry shapes and the `Entries`
  aggregate. `Entries` is a value: `update` is a function returning the new
  aggregate, and its owners reassign their field.
- `ContentModel` (`content.dfy`): `type/src/content.rs`. This covers
  `Content::from_mime` and the `serde_data`/`serde_digest` helpers. MIME
  sniffing, SHA-256 and mime-to-extension are opaque functions supplied in a
  `Libraries` value. Serialized values are a small value tree.
- `TarSaver` (`tar_saver.dfy`): `mitmproxy/src/tar_saver.rs`.
  - A tar is the sequence of records `(path, kind, mode, size)` appended to it.
  - `DirTree` is a trie of names.
  - `TarFile` and `DestSaver` are classes, and `DestSaver.Run` drains a
    sequence of entries in place of the channel.
  - `DestSaver`'s state is specified by a value function `Saved`, and the
    lemma `SavedAccounts` says what that value means.
- `Staging` (`staging.dfy`): `mitmproxy/src/tmp_saver.rs`.
  - The file system is a class holding a map from paths to nodes, together with
    a fixed set of faulty paths on which every operation fails.
  - The packer's channel is the sequence of batches sent to it, and
    `Packer.Run` consumes it when `TmpSaver.Finish` runs.
  - `SaveStep` and `AddStep` state the saver's steps as values. The class
    methods are proved equal to them.
- `Recording` (`recording.dfy`): the `InnerRecorder` and `Recorder` façade of
  `mitmproxy/src/lib.rs`.
  - The two savers are seen through abstract sinks. A `Sinks` object logs every
    call (start, add, send, finish, remove the staging directory). An `Answer`
    oracle decides each reply from the log so far: done, failed with an error,
    or disconnected (the worker thread is gone).
  - Converting a flow into an entry is the parameter `into`.
  - `std::process::abort` is the outcome `Aborted`, and an `unwrap` on an error
    is the outcome `Panicked`.

Two behaviours of the code that a reader might not expect; the model follows the code:

- `Recorder::add_flow` starts a session with entry index 0, and `new` leaves
  `index` at 0. The first `add_flow` after it therefore also uses index 0.
  Indices are neither unique nor equal to the number of entries delivered
  (`Recording.FirstIndexReused`, `Recording.SessionIndexTrails`).
- `TmpSaver::finish` only closes the channel. It never sends the running batch,
  so the loose files of that batch stay in the staging directory
  (`Staging.Recoverable`).
- Loose files are named by index alone, so an index that names two entries
  loses one of them. The second save of index 0 overwrites `unpacked/0.bin`
  (`Staging.IndexReuseOverwrites`). Packing a sent batch that holds the first
  entry removes `unpacked/0.bin` even when the file now holds a later entry
  (`Staging.IndexReuseUnlinks`). The staging guarantees are therefore stated
  for the last entry written under each index. They are stated for every
  entry only when no index names two different entries, as the numbering
  under "## Findings" would ensure (`Staging.RecoverableAll`,
  `Staging.NumberedSessionRecoverable`). The façade in `Recording` keeps the
  numbering as written, so the staging store's model receives the reused index.

## Model

| member | source | states |
|---|---|---|
| HttpRecorder.ParseHttpVersion | type/src/lib.rs:26-35 | an unknown version string is returned as the error, unchanged |
| HttpRecorder.ParseHttpVersionExact | type/src/lib.rs:26-35 | parsing succeeds exactly for the five strings HTTP/0.9, 1.0, 1.1, 2.0 and 3.0, and then the variant's text is the input |
| HttpRecorder.ParseVersionText | type/src/lib.rs:26-35 | each variant parses back from its text, so the five variants are distinct |
| HttpRecorder.ParseMethod | type/src/lib.rs:53-66 | parsing never fails and the method's text is always the input; the result is `Extension` exactly when the input is none of the nine upper-case names |
| HttpRecorder.ParseMethodText | type/src/lib.rs:53-66 | every method, and every extension that is not one of the nine names, parses back from its text |
| HttpRecorder.StatusCode.EqU16 | type/src/lib.rs:71-75 | a status code equals a number exactly when it wraps that number |
| HttpRecorder.NewEntries | type/src/lib.rs:161-174 | a new aggregate begins and ends at the given index and time, with count 0, both body sizes 0 and the given payload |
| HttpRecorder.Entries.Update | type/src/lib.rs:175-188 | update moves the end index and time to the entry, adds 1 to the count, grows each body size by the entry's request or response size (never down), and keeps the begin fields and payload; content size grows by the entry's total size |
| HttpRecorder.UpdateAll | type/src/lib.rs:175-188 | updating by a run of entries adds its length to the count and its sizes to the body sizes, ends at its last entry, and leaves the aggregate unchanged for an empty run |
| HttpRecorder.StripUpdateAll | type/src/lib.rs:175-188 | the summary part of an aggregate does not depend on its payload |
| HttpRecorder.TotalSizeConcat | type/src/lib.rs:179-188 | the body size of two runs of entries is the sum of their body sizes |
| HttpRecorder.Summarize | type/src/lib.rs:161-188 | the summary of a run begins at its first entry, counts its entries and sums their body sizes |
| ContentModel.SniffHint | type/src/content.rs:109-121 | the sniffing hint is the declared content type, or `application/octet-stream` when none is declared |
| ContentModel.FromMime | type/src/content.rs:106-137 | from_mime always returns content whose size is the buffer length and whose data is the buffer; the type is the sniffed one, or octet-stream when sniffing finds nothing; the extension is mime2ext of that type; the digest is SHA-256 of the data |
| ContentModel.FromMimeDigestDependsOnlyOnData | type/src/content.rs:125-131 | the digest and size depend on the data alone, not on the URL or the declared type |
| ContentModel.SerializeData | type/src/content.rs:31-36 | human-readable output always omits the data; binary output omits it exactly when there is none |
| ContentModel.DeserializeData | type/src/content.rs:38-40 | an omitted value reads back as no data; a present byte string reads back as its bytes, a present string as its UTF-8 bytes, and a present sequence as its elements exactly when every element is an integer in 0..=255; anything else is an error |
| ContentModel.DeserializeDataSpellings | type/src/content.rs:38-40 | an ASCII string reads back like the byte string of its character codes, and a sequence of `u8` elements reads back as those bytes |
| ContentModel.DataRoundTrip | type/src/content.rs:31-40 | reading back the serialized data gives the data in binary mode and no data in human-readable mode |
| ContentModel.HexRoundTrip | type/src/content.rs:51-66 | hex decoding of the hex encoding of any bytes gives those bytes back |
| ContentModel.SerializeDigest | type/src/content.rs:47-56 | a digest is written as 64 hex characters in human-readable mode and as its raw bytes in binary mode |
| ContentModel.DeserializeDigest | type/src/content.rs:57-85 | binary decoding succeeds exactly for a byte string of `SHA256_OUTPUT_SIZE` (32) bytes and keeps those bytes; human-readable decoding accepts only 64-character strings |
| ContentModel.DigestRoundTrip | type/src/content.rs:47-85 | every digest reads back from its serialization in either mode |
| TarSaver.HostName | mitmproxy/src/tar_saver.rs:57-63 | the top directory is the URL's domain text, or its address text, or "unknown" |
| TarSaver.TakeNonEmpty | mitmproxy/src/tar_saver.rs:76-80 | the segments descended are the longest prefix of the path segments with no empty segment, stopping at the first empty one |
| TarSaver.HasInsert | mitmproxy/src/tar_saver.rs:64-91 | after inserting a path, the trie holds exactly the old nodes plus every prefix of that path |
| TarSaver.InsertPresent | mitmproxy/src/tar_saver.rs:64-68 | revisiting a path that is already in the trie changes nothing |
| TarSaver.NewDirRecordsExact | mitmproxy/src/tar_saver.rs:64-91 | a directory record is appended exactly for each node that the walk adds to the trie |
| TarSaver.FieldRecordsExact | mitmproxy/src/tar_saver.rs:118-142 | a multipart form yields one file per field that has data, named after the field's position among all fields, skipped fields included |
| TarSaver.EntryRecordsShape | mitmproxy/src/tar_saver.rs:94-180 | an entry's records are well formed (directories 0755, files 0444 and sized by their payload), include the `#<index>` directory, and end with `entry.bin` and then `entry.json` |
| TarSaver.TarFile.constructor | mitmproxy/src/tar_saver.rs:31-47 | a new tar starts empty, with an empty trie and a summary begun at its first entry |
| TarSaver.TarFile.AddEntryParent | mitmproxy/src/tar_saver.rs:48-97 | the returned path is `host/segments/#<index>`; the records appended are the new directories of that walk plus the entry directory; the trie gains that path |
| TarSaver.TarFile.AddEntry | mitmproxy/src/tar_saver.rs:98-183 | the tar gains exactly the entry's records, the trie its directories, and the summary is updated by the entry |
| TarSaver.TarFile.Finish | mitmproxy/src/tar_saver.rs:184-193 | finishing hands back the summary of every entry added, and the tar is the layout of those entries |
| TarSaver.PartitionProperties | mitmproxy/src/tar_saver.rs:240-257 | the stream is split into tars in order with nothing lost; each closed tar is over `MAX_PACK` only because of its last entry, and so is the open one |
| TarSaver.SavedAccounts | mitmproxy/src/tar_saver.rs:240-257 | after any run of entries, the manifest summarizes all of them, the written tars are the closed groups numbered 0, 1, ... in order, each with its layout and summary, and the open tar's summary begins at the entry that opened it |
| TarSaver.SavedFinished | mitmproxy/src/tar_saver.rs:258-267 | after the final tar is closed, the written tars are all the groups, each the layout of its entries, and the manifest summarizes every entry |
| TarSaver.DestSaver.constructor | mitmproxy/src/tar_saver.rs:219-226 | a new saver has tar 0 open at the first entry and an empty manifest begun there |
| TarSaver.DestSaver.AddEntry | mitmproxy/src/tar_saver.rs:240-257 | one step: rotate when the open tar holds more than `MAX_PACK`, then add the entry to the open tar and the manifest |
| TarSaver.DestSaver.Drain | mitmproxy/src/tar_saver.rs:259-262 | draining the input applies the step to each entry in order |
| TarSaver.DestSaver.Run | mitmproxy/src/tar_saver.rs:258-271 | run drains the input, closes the last tar and hands back the written tars and the manifest |
| TarSaver.ManifestCountsAddUp | mitmproxy/src/tar_saver.rs:255-267 | the manifest holds rotations + 1 summaries, whose counts add up to the number of entries, which is also the manifest's own count |
| Staging.FileSystem.Write | mitmproxy/src/tmp_saver.rs:118 | a write succeeds exactly when the parent is a directory and the path is neither faulty nor a directory; on failure nothing changes |
| Staging.LoosePathInjective | mitmproxy/src/tmp_saver.rs:114-120 | two entries share a loose file exactly when they share an index |
| Staging.Pushed | mitmproxy/src/tmp_saver.rs:149-150 | pushing an entry appends it to the batch, keeps `count == |data|` and updates the summary by it |
| Staging.Packer.Run | mitmproxy/src/tmp_saver.rs:59-100 | the packer's effect on the file system and its result are those of `Packed` over the batches, in order |
| Staging.PackedFiles | mitmproxy/src/tmp_saver.rs:60-85 | after a clean run, the k-th batch received is in `<k>.bin.xz` |
| Staging.PackedStops | mitmproxy/src/tmp_saver.rs:67-85 | the first pack that cannot be written ends the run with that error; none of its loose files are removed and no later batch is processed |
| Staging.PackedUnlinks | mitmproxy/src/tmp_saver.rs:87-97 | after a clean run, the loose file of a packed entry is gone unless its removal failed |
| Staging.UnlinkedExactly | mitmproxy/src/tmp_saver.rs:87-97 | removing a batch's loose files deletes exactly the removable ones and leaves the rest as they were |
| Staging.SaveStep | mitmproxy/src/tmp_saver.rs:141-152 | a save succeeds exactly when `unpacked/<index>.bin` can be written; then the file holds the entry, the count grows by 1 and the entry is appended; on failure the error names that file and nothing changes |
| Staging.AddStepRotation | mitmproxy/src/tmp_saver.rs:153-161 | the batch is sent intact exactly when it has reached `TMP_PACK_SIZE` (a non-strict test) and the packer is there; the fresh batch begins at the incoming entry, which it alone holds after a successful save |
| Staging.AddStepSaving | mitmproxy/src/tmp_saver.rs:153-163 | with the packer gone at a rotation the result is `Packer` and the entry is neither written nor kept, but the swap has happened; otherwise the result is the save's result as `Io` |
| Staging.AddStepKeepsInv | mitmproxy/src/tmp_saver.rs:141-163 | every step keeps the invariant: the batch sums its entries, every accepted entry's loose file holds it, and only accepted entries are in batches |
| Staging.LooseImageLast | mitmproxy/src/tmp_saver.rs:141-148 | the loose file of an index exists exactly when some saved entry has that index, and holds the last such entry |
| Staging.PackedLosesNothing | mitmproxy/src/tmp_saver.rs:59-100 | an entry whose loose file holds it, and whose index no other entry of the sent batches has, is afterwards still in that file or in its batch's pack file, whether or not the packer stopped on an error |
| Staging.PackedKeepsPacks | mitmproxy/src/tmp_saver.rs:60-97 | after a clean run, every entry of every sent batch is in that batch's pack file |
| Staging.Recoverable | mitmproxy/src/tmp_saver.rs:59-167 | after finish, an accepted entry that is the last accepted with its index, and whose index no other sent entry has, is in its loose file or its batch's pack file; after a clean run every sent entry is in its pack file |
| Staging.RecoverableAll | mitmproxy/src/tmp_saver.rs:59-167 | when no index names two different accepted entries, every accepted entry is in its loose file or its batch's pack file after finish |
| Staging.NumberedSessionRecoverable | mitmproxy/src/lib.rs:128-177 | when the session's first entry (staged twice) has index 0 and the n-th later entry has index n, every accepted entry survives finish |
| Staging.IndexReuseOverwrites | mitmproxy/src/tmp_saver.rs:141-152 | a successful save of a second entry with an existing index keeps the invariant but leaves the earlier entry, with no batch sent, neither in a loose file nor in a pack file |
| Staging.IndexReuseUnlinks | mitmproxy/src/tmp_saver.rs:87-97 | when a sent batch holds an entry with the index of a later, unsent entry, packing that batch removes the later entry's only copy |
| Staging.TmpSaver.WriteEntry | mitmproxy/src/tmp_saver.rs:114-121 | the entry's CBOR encoding lands at `unpacked/<index>.bin` exactly when that path can be written, and otherwise the error names that path and no file changes |
| Staging.TmpSaver.Prepare | mitmproxy/src/tmp_saver.rs:124-130 | the staging directory, its `unpacked` directory and the first loose file are created in that order; a failure leaves no new path behind, because dropping the `TempDir` guard removes the tree |
| Staging.TmpSaver.New | mitmproxy/src/tmp_saver.rs:123-140 | new succeeds exactly when the directories and the first loose file can be created, and the saver then holds just the first entry with nothing sent; with faults fixed per path, a failure can only come before the guard is disarmed and so leaves no new path behind |
| Staging.TmpSaver.SaveEntry | mitmproxy/src/tmp_saver.rs:141-152 | the method's result and new state are those of `SaveStep`, and the saver's invariant holds |
| Staging.TmpSaver.AddEntry | mitmproxy/src/tmp_saver.rs:153-163 | the method's result and new state are those of `AddStep` |
| Staging.TmpSaver.Finish | mitmproxy/src/tmp_saver.rs:164-167 | finish runs the packer over the batches sent and returns the staging directory, or the packer's error |
| Staging.AsWrittenFailurePoisons | mitmproxy/src/tmp_saver.rs:146-147 | as written, one failed write makes the next save fail although its own file is writable; the corrected step saves it |
| Recording.SaveEntryOrder | mitmproxy/src/lib.rs:156-169 | the staging store is asked first and the archive only if staging took the entry; an I/O error is `SaveError` with its context, and a gone packer or a failed send is `SaverFailed` |
| Recording.AddFlowIndex | mitmproxy/src/lib.rs:170-177 | the flow is converted with the current index, which advances exactly when both sinks took the entry; a conversion error is returned with no call made and nothing changed |
| Recording.InnerFinishOrder | mitmproxy/src/lib.rs:178-183 | the archive is finished before the staging store, the first failure stops, and finish succeeds exactly when both did |
| Recording.NewSaverFailed | mitmproxy/src/lib.rs:144-152 | when the first save finds a saver gone, the session is finished; a finish that succeeds panics in `unwrap_err`, one that fails aborts |
| Recording.IdleAddFlow | mitmproxy/src/lib.rs:128-215 | an idle recorder starts a session from the flow as entry 0: both sinks started, the entry given to both, `index` still 0; a conversion error changes nothing |
| Recording.ActiveAddFlow | mitmproxy/src/lib.rs:201-211 | in a session a conversion error is returned and changes nothing, a save error aborts, and a gone saver finishes the session |
| Recording.RecorderFinishFacts | mitmproxy/src/lib.rs:218-229 | with no session finish does nothing; otherwise the session is gone afterwards, the staging directory is removed exactly when both savers finished, and a failed finish aborts |
| Recording.FirstIndexReused | mitmproxy/src/lib.rs:129-172 | the entry that starts a session and the entry of the next `add_flow` both carry index 0 |
| Recording.AddFlowsCount | mitmproxy/src/lib.rs:170-177 | over any run of `add_flow` calls, `index` advances (wrapping at 2^32) once per entry the archive took |
| Recording.SessionIndexTrails | mitmproxy/src/lib.rs:128-177 | in a session, `index` is one less than the number of entries delivered (below the wrap) |
| Recording.InnerRecorder.New | mitmproxy/src/lib.rs:128-155 | the calls made and the outcome are those of `InnerNewSpec`; a session it returns is fresh with `index` 0 |
| Recording.InnerRecorder.SaveEntry | mitmproxy/src/lib.rs:156-169 | the calls made and the result are those of `SaveEntrySpec` |
| Recording.InnerRecorder.AddFlow | mitmproxy/src/lib.rs:170-177 | the calls made, the result and the new index are those of `AddFlowSpec` |
| Recording.InnerRecorder.Finish | mitmproxy/src/lib.rs:178-183 | the calls made and the outcome are those of `InnerFinishSpec` |
| Recording.Recorder.constructor | mitmproxy/src/lib.rs:195-200 | a new recorder is idle |
| Recording.Recorder.AddFlow | mitmproxy/src/lib.rs:201-217 | the outcome and the new state (session index, calls made) are those of `RecorderAddFlowSpec` |
| Recording.Recorder.Finish | mitmproxy/src/lib.rs:218-229 | the outcome and the new state are those of `RecorderFinishSpec`, and the recorder is idle afterwards |

## Left out

- Threads, `mpsc` channels, `JoinHandle::join` and `core_affinity` are left out. Each worker is a sequential loop over the sequence of items its channel would deliver, and pinning a worker to a core is only a hint.
- Tar and xz output is left out. Appending a record, creating a tar and finishing it always succeed. A failing archive worker is seen by the façade as a send or finish that fails.
- The JSON manifest write `info.json` (mitmproxy/src/tar_saver.rs:268-270) is not modelled. `DestSaver.Run` hands the manifest back instead.
- The dated destination directory (mitmproxy/src/tar_saver.rs:211-218) and `DestSaver::start` are not modelled. The tar number and the entry records are modelled, not the file names on disk.
- CBOR, JSON, xz, SHA-256, MIME sniffing and mime-to-extension are opaque functions.
- Hex decoding's rejection of characters that are not hex digits is modelled, but the exact error values of the `hex` crate are not.
- File-system faults are a fixed set of failing paths, so a fault cannot come and go between calls. `tempfile` picking a fresh name is the `tmp` parameter.
- Errors from removing the temporary directory when a `TempDir` guard is dropped are ignored, as in the source.
- `Flow::into_entry` and the pyo3 structs (mitmproxy/src/lib.rs:11-112) are the `into` parameter. `serde_date_time` is not part of this model.
- `HttpRecorder.Entries.Update`: its precondition `CanUpdate` excludes a count past 2^32 - 1 and a request-plus-response body size past 2^64 - 1, which also bounds each of the two sums. The `+=` at type/src/lib.rs:175-186, and the addition in `content_size`, would wrap on those in a release build and panic in a debug build. The model leaves out such overflowing sessions rather than choosing one of the two behaviours.
- `Recording.InnerRecorder.New`: a staging or archive start that reports a disconnected worker is excluded by the `Answer` type, because only threaded calls can find a worker gone.
- `Recording.SaveEntryOrder`: a failed send to the archive worker and a disconnected one are the same `SaverFailed`, as in the source. The error text of the send is dropped.
- `Recording.AddFlowIndex`: `index += 1` wraps at 2^32 as in a release build; a debug build would panic instead.
- `Staging.TmpSaver.AddEntry`: the packer being gone is an input `packerGone`, not the state of a thread.
- `Staging.FileSystem.Write`: a failed write changes nothing in the model. In the source, `fs::write` (mitmproxy/src/tmp_saver.rs:118) is `File::create` followed by `write_all`. The create truncates the file first, so a write that fails part-way, on a full disk for example, leaves a truncated file. With index 0 reused, such a failure on the first `add_flow`'s save truncates the first entry's only staging copy before the recorder aborts (mitmproxy/src/lib.rs:205-208). `Staging.Recoverable` still counts that entry as held in its loose file. A pack write that fails part-way (mitmproxy/src/tmp_saver.rs:67-85) likewise leaves a partial `<k>.bin.xz`, which the model does not create.
- `Staging.TmpSaver.Finish`: the packer runs over the batches once, at finish, rather than concurrently with later saves. When no later entry reuses the index of an entry in a sent batch, the effect on the files is the same. When one does, the source races the packer's removal (mitmproxy/src/tmp_saver.rs:87-89) against the later write of that file (mitmproxy/src/tmp_saver.rs:146). The model always removes the file after the later write.
- `Staging.TmpSaver.New`: the repeated save after `tmp_dir.into_path()` (mitmproxy/src/tmp_saver.rs:136-138) cannot fail in the model, because faults are fixed per path and the same write has just succeeded. In the source a fault at that point leaves the staging directory and its first loose file on disk, with the packer thread already started. That leak is not modelled.
- `Staging.TmpSaver.Prepare`: removing the tree when the `TempDir` guard is dropped always succeeds in the model. In the source that removal can fail silently and leave paths behind.
- `ContentModel.DeserializeData`: a unit value and integers of other widths inside a sequence are not modelled. The error texts are not those of `serde_bytes`.
- The `Recorder` is driven by the caller one call at a time. The `pyclass` wrapper, the Python GIL and logging are left out.

## Findings

| source | as written | input that shows it | evidently intended | confidence | as-written member | corrected member |
|---|---|---|---|---|---|---|
| mitmproxy/src/tmp_saver.rs:146-147 | `fs::write(...)?` returns before `unpacked_path.pop()`, so after a failed write the saver's `unpacked_path` ends in `<a>.bin` | a save of entry `a` whose file `unpacked/<a>.bin` cannot be written, followed by a save of entry `e` whose file `unpacked/<e>.bin` can be | pop the file name on both paths, so each save writes `unpacked/<index>.bin` | not executed | Staging.AsWrittenFailurePoisons | Staging.SaveStep |
| mitmproxy/src/lib.rs:138-175 | `new` leaves `index` at 0 after staging the first entry with index 0, so the first `add_flow` stamps index 0 again. Its save overwrites `unpacked/0.bin`, which held the first entry | a session started by entry `a`, then one `add_flow` whose entry `b` has different CBOR, with no batch sent before finish | number the entries added after the first from 1, so that an index names one entry | not executed | Staging.IndexReuseOverwrites | Staging.NumberedSessionRecoverable |
| mitmproxy/src/tmp_saver.rs:87-89 | the packer removes `unpacked/<index>.bin` for each entry of a packed batch, whichever entry the file holds by then | a sent batch holding the first entry (index 0), while the running batch holds the first added entry, also index 0 | with an index naming one entry, a removed loose file always belongs to a packed entry | not executed | Staging.IndexReuseUnlinks | Staging.NumberedSessionRecoverable |
