/** The recorder façade of mitmproxy/src/lib.rs: `InnerRecorder` feeds every entry
    first to the staging store and then to the archive worker, and `Recorder` is
    the two-state (idle/active) object the host calls.

    The two savers are seen through the calls the façade makes on them. Every call
    is appended to a shared log, and its reply is a fixed function of the calls
    made before it and of the call itself, so any behaviour of the savers, the
    workers and the file system is one choice of that function. */
module Recording {
  import opened Basics
  import opened HttpRecorder

  /** An `anyhow::Error`: a message, wrapped in the contexts added on the way out. */
  datatype Error = Message(text: string) | Context(text: string, source: Error)

  /** A flow object of the host, which `Flow::into_entry` converts. */
  datatype Flow = Flow(handle: nat)

  /** `Flow::into_entry`, given the index to stamp into the entry. */
  type Converter = (Flow, u32) -> Result<Entry, Error>

  /** The calls the façade makes on its savers and on the file system. */
  datatype Call =
    | TmpStart(entry: Entry)              // `TmpSaver::new`
    | DestStart(dest: string, entry: Entry) // `DestSaver::start`
    | TmpAdd(entry: Entry)                // `TmpSaver::add_entry`
    | DestSend(entry: Entry)              // `sender.send` to the archive worker
    | DestFinish                          // `DestSaverHandle::finish`
    | TmpFinish                           // `TmpSaver::finish`
    | RemoveStagingDir                    // `fs::remove_dir_all` on the staging directory
  {
    /** The calls served by a worker thread, which can be gone. */
    predicate Threaded() {
      TmpAdd? || DestSend? || DestFinish? || TmpFinish?
    }
  }

  /** A reply: success, an error, or the worker behind the call is gone (its
      channel is closed, or joining it finds that it panicked). */
  datatype Reply = Done | Failed(error: Error) | Disconnected

  /** The behaviour of everything behind the calls. */
  type Answer = f: (seq<Call>, Call) -> Reply | forall h, c :: f(h, c).Disconnected? ==> c.Threaded()
    witness (h: seq<Call>, c: Call) => Done

  /** The calls made so far, and their replies. */
  class Sinks {
    var log: seq<Call>
    const answer: Answer

    constructor (answer: Answer)
      ensures log == [] && this.answer == answer
    {
      log := [];
      this.answer := answer;
    }

    method Perform(c: Call) returns (reply: Reply)
      modifies this
      ensures log == old(log) + [c] && reply == answer(old(log), c)
    {
      reply := answer(log, c);
      log := log + [c];
    }
  }

  /** `AddFlowError`. */
  datatype AddFlowError = ParseError(error: Error) | SaveError(error: Error) | SaverFailed

  /** What a call on the façade comes to: a returned result, `std::process::abort`,
      or a panic (which reaches the host as an exception). */
  datatype Outcome<T> = Returned(result: Result<T, Error>) | Aborted | Panicked

  function Forget<T>(o: Outcome<T>): Outcome<()> {
    match o
    case Returned(Ok(_)) => Returned(Ok(()))
    case Returned(Err(e)) => Returned(Err(e))
    case Aborted => Aborted
    case Panicked => Panicked
  }

  const Succeeded: Outcome<()> := Returned(Ok(()))

  /** `index += 1` on a `u32`, wrapping to 0 past the largest value. */
  function Next(index: u32): u32 {
    if index == MaxU32 then 0 else index + 1
  }

  // ---------------------------------------------------------------------------
  // `InnerRecorder`, as functions of the log

  /** `InnerRecorder::save_entry`. */
  function SaveEntrySpec(answer: Answer, log: seq<Call>, e: Entry): (Result<(), AddFlowError>, seq<Call>) {
    var log1 := log + [TmpAdd(e)];
    match answer(log, TmpAdd(e))
    case Done => (if answer(log1, DestSend(e)).Done? then Ok(()) else Err(SaverFailed), log1 + [DestSend(e)])
    case Failed(err) => (Err(SaveError(Context("failed to save entry to tmpdir", err))), log1)
    case Disconnected => (Err(SaverFailed), log1)
  }

  /** `InnerRecorder::add_flow`. */
  function AddFlowSpec(answer: Answer, into: Converter, index: u32, log: seq<Call>, flow: Flow)
    : (Result<(), AddFlowError>, u32, seq<Call>)
  {
    match into(flow, index)
    case Err(p) => (Err(ParseError(p)), index, log)
    case Ok(e) =>
      var (r, log1) := SaveEntrySpec(answer, log, e);
      (r, if r.Ok? then Next(index) else index, log1)
  }

  /** `InnerRecorder::finish`; a worker that panicked makes `join().unwrap()` panic. */
  function InnerFinishSpec(answer: Answer, log: seq<Call>): (Outcome<()>, seq<Call>) {
    var log1 := log + [DestFinish];
    match answer(log, DestFinish)
    case Disconnected => (Panicked, log1)
    case Failed(err) => (Returned(Err(Context("failed to finish dest saver", err))), log1)
    case Done =>
      var log2 := log1 + [TmpFinish];
      match answer(log1, TmpFinish)
      case Disconnected => (Panicked, log2)
      case Failed(err) => (Returned(Err(err)), log2)
      case Done => (Succeeded, log2)
  }

  /** `InnerRecorder::new`: success is a session whose `index` is 0. When the first
      save finds a saver gone, the session is finished, and `unwrap_err` on a
      finish that succeeded panics. */
  function InnerNewSpec(answer: Answer, into: Converter, dest: string, log: seq<Call>, flow: Flow)
    : (Outcome<()>, seq<Call>)
  {
    match into(flow, 0)
    case Err(err) => (Returned(Err(err)), log)
    case Ok(e) =>
      var log1 := log + [TmpStart(e)];
      match answer(log, TmpStart(e))
      case Failed(err) => (Returned(Err(Context("failed to start tmp saver", err))), log1)
      case Disconnected => (Panicked, log1) // excluded by `Answer`
      case Done =>
        var log2 := log1 + [DestStart(dest, e)];
        match answer(log1, DestStart(dest, e))
        case Failed(err) => (Returned(Err(Context("failed to start tar saver", err))), log2)
        case Disconnected => (Panicked, log2) // excluded by `Answer`
        case Done =>
          var (saved, log3) := SaveEntrySpec(answer, log2, e);
          match saved
          case Ok(_) => (Succeeded, log3)
          case Err(ParseError(p)) => (Returned(Err(Context("failed to parse flow", p))), log3)
          case Err(SaveError(err)) => (Returned(Err(err)), log3)
          case Err(SaverFailed) =>
            var (finished, log4) := InnerFinishSpec(answer, log3);
            (if finished.Returned? && finished.result.Err? then Aborted else Panicked, log4)
  }

  // ---------------------------------------------------------------------------
  // `Recorder`, as functions of the log

  /** The recorder's state: the session's `index` when one is active, and the log. */
  datatype RecState = RecState(inner: Option<u32>, log: seq<Call>)

  /** `Recorder::finish`: take the session, finish it, and remove the staging
      directory; a finish that fails aborts. */
  function RecorderFinishSpec(answer: Answer, s: RecState): (Outcome<()>, RecState) {
    match s.inner
    case None => (Succeeded, s)
    case Some(_) =>
      var (finished, log1) := InnerFinishSpec(answer, s.log);
      match finished
      case Returned(Ok(_)) =>
        var removed := match answer(log1, RemoveStagingDir)
                       case Done => Ok(())
                       case Failed(err) => Err(Context("failed to remove tmp dir", err))
                       case Disconnected => Ok(()); // excluded by `Answer`
        (Returned(removed), RecState(None, log1 + [RemoveStagingDir]))
      case Returned(Err(_)) => (Aborted, RecState(None, log1))
      case Aborted => (Aborted, RecState(None, log1))
      case Panicked => (Panicked, RecState(None, log1))
  }

  /** `Recorder::add_flow`: an idle recorder starts a session from the flow; an
      active one adds the flow, aborts on a save error and finishes the session
      when a saver is gone. */
  function RecorderAddFlowSpec(answer: Answer, into: Converter, dest: string, s: RecState, flow: Flow)
    : (Outcome<()>, RecState)
  {
    match s.inner
    case None =>
      var (o, log1) := InnerNewSpec(answer, into, dest, s.log, flow);
      (o, RecState(if o == Succeeded then Some(0) else None, log1))
    case Some(index) =>
      var (r, index1, log1) := AddFlowSpec(answer, into, index, s.log, flow);
      match r
      case Ok(_) => (Succeeded, RecState(Some(index1), log1))
      case Err(ParseError(p)) => (Returned(Err(p)), RecState(Some(index1), log1))
      case Err(SaveError(_)) => (Aborted, RecState(Some(index1), log1))
      case Err(SaverFailed) => RecorderFinishSpec(answer, RecState(Some(index1), log1))
  }

  // ---------------------------------------------------------------------------
  // Properties

  /** The staging store comes first: the entry is sent to the archive worker only
      after the staging store took it, and `save_entry` succeeds exactly when both
      did. Each sink error maps to its own `AddFlowError`. */
  lemma SaveEntryOrder(answer: Answer, log: seq<Call>, e: Entry)
    ensures var (r, log1) := SaveEntrySpec(answer, log, e);
            var staged := answer(log, TmpAdd(e));
            && log1 == log + [TmpAdd(e)] + (if staged.Done? then [DestSend(e)] else [])
            && (r.Ok? <==> staged.Done? && answer(log + [TmpAdd(e)], DestSend(e)).Done?)
            && (r.Err? ==> !r.error.ParseError?)
            && (r.Err? && r.error.SaveError? <==> staged.Failed?)
            && (staged.Failed? ==> r == Err(SaveError(Context("failed to save entry to tmpdir", staged.error))))
            && (r == Err(SaverFailed) <==> staged.Disconnected? || (staged.Done? && !answer(log + [TmpAdd(e)], DestSend(e)).Done?))
  {
  }

  /** `add_flow` stamps the entry with the current `index` and advances `index`
      (wrapping) exactly when both sinks took the entry; a conversion error is
      returned with nothing called and nothing changed. */
  lemma AddFlowIndex(answer: Answer, into: Converter, index: u32, log: seq<Call>, flow: Flow)
    ensures var (r, index1, log1) := AddFlowSpec(answer, into, index, log, flow);
            && index1 == (if r.Ok? then Next(index) else index)
            && (r.Err? && r.error.ParseError? <==> into(flow, index).Err?)
            && (into(flow, index).Err? ==> r == Err(ParseError(into(flow, index).error)) && log1 == log)
            && (into(flow, index).Ok? ==> |log1| > |log| && log1[|log|] == TmpAdd(into(flow, index).value))
  {
  }

  /** `InnerRecorder::finish` finishes the archive before the staging store, stops at
      the first failure, and succeeds exactly when both finished. */
  lemma InnerFinishOrder(answer: Answer, log: seq<Call>)
    ensures var (o, log1) := InnerFinishSpec(answer, log);
            var dest := answer(log, DestFinish);
            && log1 == log + [DestFinish] + (if dest.Done? then [TmpFinish] else [])
            && (o == Succeeded <==> dest.Done? && answer(log + [DestFinish], TmpFinish).Done?)
            && (o.Panicked? <==> dest.Disconnected? || (dest.Done? && answer(log + [DestFinish], TmpFinish).Disconnected?))
            && !o.Aborted?
  {
  }

  /** `Recorder::finish` without a session does nothing. With one, the session is
      gone afterwards; the staging directory is removed only when both savers
      finished, and a failed finish aborts. */
  lemma RecorderFinishFacts(answer: Answer, s: RecState)
    ensures var (o, s1) := RecorderFinishSpec(answer, s);
            && (s.inner.None? ==> o == Succeeded && s1 == s)
            && (s.inner.Some? ==>
                  var (f, log1) := InnerFinishSpec(answer, s.log);
                  && s1.inner.None?
                  && (RemoveStagingDir in s1.log[|s.log|..] <==> f == Succeeded)
                  && (o.Aborted? <==> f.Returned? && f.result.Err?))
  {
    if s.inner.Some? {
      var (f, log1) := InnerFinishSpec(answer, s.log);
      InnerFinishOrder(answer, s.log);
      assert RemoveStagingDir !in log1[|s.log|..];
      if f == Succeeded {
        var s1 := RecorderFinishSpec(answer, s).1;
        assert s1.log[|s.log|..] == log1[|s.log|..] + [RemoveStagingDir];
        assert s1.log[|s1.log| - 1] == RemoveStagingDir;
      }
    }
  }

  /** In an active session: a conversion error is returned and changes nothing; a
      save error aborts; a saver that is gone ends the session through `finish`. */
  lemma ActiveAddFlow(answer: Answer, into: Converter, dest: string, s: RecState, flow: Flow)
    requires s.inner.Some?
    ensures var (o, s1) := RecorderAddFlowSpec(answer, into, dest, s, flow);
            var (r, index1, log1) := AddFlowSpec(answer, into, s.inner.value, s.log, flow);
            && (r.Ok? ==> o == Succeeded && s1 == RecState(Some(index1), log1))
            && (r.Err? && r.error.ParseError? ==> o == Returned(Err(r.error.error)) && s1 == s)
            && (r.Err? && r.error.SaveError? ==> o.Aborted?)
            && (r == Err(SaverFailed) ==> s1.inner.None? && |s1.log| > |log1| && s1.log[|log1|] == DestFinish)
  {
    AddFlowIndex(answer, into, s.inner.value, s.log, flow);
    var (r, index1, log1) := AddFlowSpec(answer, into, s.inner.value, s.log, flow);
    if r == Err(SaverFailed) {
      var (f, log2) := InnerFinishSpec(answer, log1);
      InnerFinishOrder(answer, log1);
      RecorderFinishFacts(answer, RecState(Some(index1), log1));
    }
  }

  /** An idle recorder starts a session from the flow converted as entry 0: the
      staging store and the archive worker are started, the entry is given to both,
      and the session begins with `index` still 0. */
  lemma IdleAddFlow(answer: Answer, into: Converter, dest: string, s: RecState, flow: Flow)
    requires s.inner.None?
    ensures var (o, s1) := RecorderAddFlowSpec(answer, into, dest, s, flow);
            && (o == Succeeded <==> s1.inner.Some?)
            && (o == Succeeded ==>
                  && into(flow, 0).Ok?
                  && var e := into(flow, 0).value;
                  && s1 == RecState(Some(0), s.log + [TmpStart(e), DestStart(dest, e), TmpAdd(e), DestSend(e)]))
            && (into(flow, 0).Err? ==> o == Returned(Err(into(flow, 0).error)) && s1 == s)
  {
  }

  /** When the first save of `new` finds a saver gone, the session is finished; a
      finish that succeeds makes `unwrap_err` panic, one that fails aborts. */
  lemma NewSaverFailed(answer: Answer, into: Converter, dest: string, log: seq<Call>, flow: Flow)
    requires into(flow, 0).Ok?
    requires var e := into(flow, 0).value;
             && answer(log, TmpStart(e)).Done?
             && answer(log + [TmpStart(e)], DestStart(dest, e)).Done?
             && SaveEntrySpec(answer, log + [TmpStart(e), DestStart(dest, e)], e).0 == Err(SaverFailed)
    ensures var e := into(flow, 0).value;
            var log3 := SaveEntrySpec(answer, log + [TmpStart(e), DestStart(dest, e)], e).1;
            var (f, _) := InnerFinishSpec(answer, log3);
            var (o, _) := InnerNewSpec(answer, into, dest, log, flow);
            && (f == Succeeded ==> o.Panicked?)
            && (f.Returned? && f.result.Err? ==> o.Aborted?)
  {
    var e := into(flow, 0).value;
    assert log + [TmpStart(e)] + [DestStart(dest, e)] == log + [TmpStart(e), DestStart(dest, e)];
  }

  /** Index 0 is used twice: when each conversion stamps the index it is given, the
      entry that starts a session and the entry of the first `add_flow` after it
      both carry index 0. */
  lemma FirstIndexReused(answer: Answer, into: Converter, dest: string, log: seq<Call>, flow1: Flow, flow2: Flow)
    requires forall f, i :: into(f, i).Ok? ==> into(f, i).value.index == i
    requires RecorderAddFlowSpec(answer, into, dest, RecState(None, log), flow1).0 == Succeeded
    requires into(flow2, 0).Ok?
    ensures var (_, s1) := RecorderAddFlowSpec(answer, into, dest, RecState(None, log), flow1);
            var (_, s2) := RecorderAddFlowSpec(answer, into, dest, s1, flow2);
            && s1.log[|log| + 2].TmpAdd? && s1.log[|log| + 2].entry.index == 0
            && |s2.log| > |s1.log| && s2.log[|s1.log|].TmpAdd? && s2.log[|s1.log|].entry.index == 0
  {
    IdleAddFlow(answer, into, dest, RecState(None, log), flow1);
    var (_, s1) := RecorderAddFlowSpec(answer, into, dest, RecState(None, log), flow1);
    AddFlowIndex(answer, into, 0, s1.log, flow2);
  }

  // ---------------------------------------------------------------------------
  // What `index` counts

  /** The number of entries the archive worker took: sends that were answered `Done`. */
  function Delivered(answer: Answer, log: seq<Call>): nat
    decreases |log|
  {
    if log == [] then 0
    else
      var n := |log| - 1;
      Delivered(answer, log[..n]) + (if log[n].DestSend? && answer(log[..n], log[n]).Done? then 1 else 0)
  }

  lemma DeliveredSnoc(answer: Answer, log: seq<Call>, c: Call)
    ensures Delivered(answer, log + [c]) == Delivered(answer, log) + (if c.DestSend? && answer(log, c).Done? then 1 else 0)
  {
    assert (log + [c])[..|log|] == log;
  }

  /** `k` successive `index += 1`. */
  function Advance(index: u32, k: nat): u32 {
    if k == 0 then index else Next(Advance(index, k - 1))
  }

  lemma {:induction false} AdvanceAdd(index: u32, a: nat, b: nat)
    ensures Advance(Advance(index, a), b) == Advance(index, a + b)
  {
    if b > 0 {
      AdvanceAdd(index, a, b - 1);
    }
  }

  /** Short of the wrap-around, `k` advances add `k`. */
  lemma {:induction false} AdvanceNoWrap(index: u32, k: nat)
    requires index + k <= MaxU32
    ensures Advance(index, k) == index + k
  {
    if k > 0 {
      AdvanceNoWrap(index, k - 1);
    }
  }

  /** One `add_flow` delivers at most one entry, and advances `index` exactly when
      it does. */
  lemma AddFlowDelivers(answer: Answer, into: Converter, index: u32, log: seq<Call>, flow: Flow)
    ensures var (r, index1, log1) := AddFlowSpec(answer, into, index, log, flow);
            && Delivered(answer, log) <= Delivered(answer, log1) <= Delivered(answer, log) + 1
            && (r.Ok? <==> Delivered(answer, log1) == Delivered(answer, log) + 1)
            && index1 == Advance(index, Delivered(answer, log1) - Delivered(answer, log))
  {
    match into(flow, index)
    case Err(_) =>
    case Ok(e) =>
      DeliveredSnoc(answer, log, TmpAdd(e));
      if answer(log, TmpAdd(e)).Done? {
        DeliveredSnoc(answer, log + [TmpAdd(e)], DestSend(e));
      }
  }

  /** `add_flow` applied to each flow in turn, whatever it returns. */
  function AddFlows(answer: Answer, into: Converter, index: u32, log: seq<Call>, flows: seq<Flow>): (u32, seq<Call>)
    decreases |flows|
  {
    if flows == [] then (index, log)
    else
      var (_, index1, log1) := AddFlowSpec(answer, into, index, log, flows[0]);
      AddFlows(answer, into, index1, log1, flows[1..])
  }

  /** Over any run of `add_flow` calls, `index` advances once per entry delivered. */
  lemma {:induction false} AddFlowsCount(answer: Answer, into: Converter, index: u32, log: seq<Call>, flows: seq<Flow>)
    ensures var (index1, log1) := AddFlows(answer, into, index, log, flows);
            && Delivered(answer, log) <= Delivered(answer, log1)
            && index1 == Advance(index, Delivered(answer, log1) - Delivered(answer, log))
    decreases |flows|
  {
    if flows != [] {
      var (_, index1, log1) := AddFlowSpec(answer, into, index, log, flows[0]);
      AddFlowDelivers(answer, into, index, log, flows[0]);
      AddFlowsCount(answer, into, index1, log1, flows[1..]);
      var (index2, log2) := AddFlows(answer, into, index1, log1, flows[1..]);
      AdvanceAdd(index, Delivered(answer, log1) - Delivered(answer, log), Delivered(answer, log2) - Delivered(answer, log1));
    }
  }

  /** Starting a session delivers its first entry. */
  lemma StartDelivers(answer: Answer, into: Converter, dest: string, log: seq<Call>, flow: Flow)
    requires RecorderAddFlowSpec(answer, into, dest, RecState(None, log), flow).0 == Succeeded
    ensures var s1 := RecorderAddFlowSpec(answer, into, dest, RecState(None, log), flow).1;
            s1.inner == Some(0) && Delivered(answer, s1.log) == Delivered(answer, log) + 1
  {
    IdleAddFlow(answer, into, dest, RecState(None, log), flow);
    var s1 := RecorderAddFlowSpec(answer, into, dest, RecState(None, log), flow).1;
    var e := into(flow, 0).value;
    var log1, log2, log3 := log + [TmpStart(e)], log + [TmpStart(e), DestStart(dest, e)], log + [TmpStart(e), DestStart(dest, e), TmpAdd(e)];
    assert log2 == log1 + [DestStart(dest, e)] && log3 == log2 + [TmpAdd(e)] && s1.log == log3 + [DestSend(e)];
    DeliveredSnoc(answer, log, TmpStart(e));
    DeliveredSnoc(answer, log1, DestStart(dest, e));
    DeliveredSnoc(answer, log2, TmpAdd(e));
    DeliveredSnoc(answer, log3, DestSend(e));
  }

  /** In a session, `index` trails the number of entries delivered by one, since the
      entry that started the session and the first one added after it share index
      0; short of the wrap-around, `index` is that number minus one. */
  lemma SessionIndexTrails(answer: Answer, into: Converter, dest: string, log: seq<Call>, flow: Flow, flows: seq<Flow>)
    requires RecorderAddFlowSpec(answer, into, dest, RecState(None, log), flow).0 == Succeeded
    ensures var s1 := RecorderAddFlowSpec(answer, into, dest, RecState(None, log), flow).1;
            var (index, log2) := AddFlows(answer, into, 0, s1.log, flows);
            var n := Delivered(answer, log2) - Delivered(answer, log);
            && n >= 1
            && index == Advance(0, n - 1)
            && (n - 1 <= MaxU32 ==> index == n - 1)
  {
    StartDelivers(answer, into, dest, log, flow);
    var s1 := RecorderAddFlowSpec(answer, into, dest, RecState(None, log), flow).1;
    AddFlowsCount(answer, into, 0, s1.log, flows);
    var (index, log2) := AddFlows(answer, into, 0, s1.log, flows);
    var n := Delivered(answer, log2) - Delivered(answer, log);
    if n - 1 <= MaxU32 {
      AdvanceNoWrap(0, n - 1);
    }
  }

  // ---------------------------------------------------------------------------
  // The objects

  /** `InnerRecorder`: the session's next index, over the shared sinks. */
  class InnerRecorder {
    var index: u32
    const sinks: Sinks
    const into: Converter

    constructor (sinks: Sinks, into: Converter)
      ensures index == 0 && this.sinks == sinks && this.into == into
    {
      index := 0;
      this.sinks := sinks;
      this.into := into;
    }

    /** `InnerRecorder::new`. */
    static method New(sinks: Sinks, into: Converter, dest: string, flow: Flow) returns (o: Outcome<InnerRecorder>)
      modifies sinks
      ensures (Forget(o), sinks.log) == InnerNewSpec(sinks.answer, into, dest, old(sinks.log), flow)
      ensures o.Returned? && o.result.Ok? ==>
                && fresh(o.result.value) && o.result.value.index == 0
                && o.result.value.sinks == sinks && o.result.value.into == into
    {
      var converted := into(flow, 0);
      if converted.Err? {
        return Returned(Err(converted.error));
      }
      var entry := converted.value;
      var started := sinks.Perform(TmpStart(entry));
      match started {
        case Failed(err) => return Returned(Err(Context("failed to start tmp saver", err)));
        case Disconnected => return Panicked;
        case Done =>
      }
      started := sinks.Perform(DestStart(dest, entry));
      match started {
        case Failed(err) => return Returned(Err(Context("failed to start tar saver", err)));
        case Disconnected => return Panicked;
        case Done =>
      }
      var ret := new InnerRecorder(sinks, into);
      var saved := ret.SaveEntry(entry);
      match saved {
        case Ok(_) => o := Returned(Ok(ret));
        case Err(ParseError(p)) => o := Returned(Err(Context("failed to parse flow", p)));
        case Err(SaveError(err)) => o := Returned(Err(err));
        case Err(SaverFailed) =>
          var finished := ret.Finish();
          if finished.Returned? && finished.result.Err? {
            o := Aborted;
          } else {
            o := Panicked;
          }
      }
    }

    /** `InnerRecorder::save_entry`. */
    method SaveEntry(e: Entry) returns (r: Result<(), AddFlowError>)
      modifies sinks
      ensures (r, sinks.log) == SaveEntrySpec(sinks.answer, old(sinks.log), e)
    {
      var staged := sinks.Perform(TmpAdd(e));
      match staged {
        case Failed(err) => return Err(SaveError(Context("failed to save entry to tmpdir", err)));
        case Disconnected => return Err(SaverFailed);
        case Done =>
      }
      var sent := sinks.Perform(DestSend(e));
      r := if sent.Done? then Ok(()) else Err(SaverFailed);
    }

    /** `InnerRecorder::add_flow`. */
    method AddFlow(flow: Flow) returns (r: Result<(), AddFlowError>)
      modifies this, sinks
      ensures (r, index, sinks.log) == AddFlowSpec(sinks.answer, into, old(index), old(sinks.log), flow)
    {
      var converted := into(flow, index);
      if converted.Err? {
        return Err(ParseError(converted.error));
      }
      r := SaveEntry(converted.value);
      if r.Err? {
        return;
      }
      index := Next(index);
    }

    /** `InnerRecorder::finish`. */
    method Finish() returns (o: Outcome<()>)
      modifies sinks
      ensures (o, sinks.log) == InnerFinishSpec(sinks.answer, old(sinks.log))
    {
      var finished := sinks.Perform(DestFinish);
      match finished {
        case Disconnected => return Panicked;
        case Failed(err) => return Returned(Err(Context("failed to finish dest saver", err)));
        case Done =>
      }
      finished := sinks.Perform(TmpFinish);
      o := match finished
           case Disconnected => Panicked
           case Failed(err) => Returned(Err(err))
           case Done => Succeeded;
    }
  }

  /** `Recorder`: idle while `inner` is `None`, active while it holds a session. */
  class Recorder {
    const dest: string
    var inner: Option<InnerRecorder>
    const sinks: Sinks
    const into: Converter

    ghost function State(): RecState
      reads this, sinks, if inner.Some? then {inner.value} else {}
    {
      RecState(if inner.Some? then Some(inner.value.index) else None, sinks.log)
    }

    ghost predicate Valid()
      reads this
    {
      inner.Some? ==> inner.value.sinks == sinks && inner.value.into == into
    }

    /** `Recorder::new`: idle. */
    constructor (sinks: Sinks, into: Converter, dest: string)
      ensures Valid() && inner.None?
      ensures this.sinks == sinks && this.into == into && this.dest == dest
    {
      this.dest := dest;
      inner := None;
      this.sinks := sinks;
      this.into := into;
    }

    /** `Recorder::add_flow`. */
    method AddFlow(flow: Flow) returns (o: Outcome<()>)
      requires Valid()
      modifies this, sinks, if inner.Some? then {inner.value} else {}
      ensures Valid()
      ensures (o, State()) == RecorderAddFlowSpec(sinks.answer, into, dest, old(State()), flow)
    {
      match inner {
        case Some(i) =>
          var r := i.AddFlow(flow);
          match r {
            case Ok(_) => o := Succeeded;
            case Err(ParseError(p)) => o := Returned(Err(p));
            case Err(SaveError(_)) => o := Aborted;
            case Err(SaverFailed) => o := Finish();
          }
        case None =>
          var created := InnerRecorder.New(sinks, into, dest, flow);
          match created {
            case Returned(Ok(i)) =>
              inner := Some(i);
              o := Succeeded;
            case Returned(Err(err)) => o := Returned(Err(err));
            case Aborted => o := Aborted;
            case Panicked => o := Panicked;
          }
      }
    }

    /** `Recorder::finish`. */
    method Finish() returns (o: Outcome<()>)
      requires Valid()
      modifies this, sinks
      ensures Valid() && inner.None?
      ensures (o, State()) == RecorderFinishSpec(sinks.answer, old(State()))
    {
      var taken := inner;
      inner := None;
      match taken {
        case None => o := Succeeded;
        case Some(i) =>
          var finished := i.Finish();
          match finished {
            case Returned(Ok(_)) =>
              var removed := sinks.Perform(RemoveStagingDir);
              o := match removed
                   case Done => Succeeded
                   case Failed(err) => Returned(Err(Context("failed to remove tmp dir", err)))
                   case Disconnected => Succeeded;
            case Returned(Err(_)) => o := Aborted;
            case Aborted => o := Aborted;
            case Panicked => o := Panicked;
          }
      }
    }
  }
}
