/** The record types of type/src/lib.rs: the two total string matchers, the
    status code, the recorded `Entry` (with the minimal request, response, url
    and body shapes the archiving engine reads) and the `Entries<T>` aggregate
    that every rotation decision and every manifest is computed from. */
module HttpRecorder {
  import opened Basics
  import opened ContentModel

  // ---------------------------------------------------------------------------
  // HTTP version

  datatype HttpVersion = Http09 | Http10 | Http11 | H2 | H3

  /** `HttpVersion::from_str`; the error carries the rejected text. */
  function ParseHttpVersion(s: string): (r: Result<HttpVersion, string>)
    ensures r.Err? ==> r.error == s
  {
    match s
    case "HTTP/0.9" => Ok(Http09)
    case "HTTP/1.0" => Ok(Http10)
    case "HTTP/1.1" => Ok(Http11)
    case "HTTP/2.0" => Ok(H2)
    case "HTTP/3.0" => Ok(H3)
    case v => Err(v)
  }

  /** The one text each version is written as on the wire (the reference table for the matcher). */
  function VersionText(v: HttpVersion): string {
    match v
    case Http09 => "HTTP/0.9"
    case Http10 => "HTTP/1.0"
    case Http11 => "HTTP/1.1"
    case H2 => "HTTP/2.0"
    case H3 => "HTTP/3.0"
  }

  /** The matcher accepts exactly the five version texts, and maps each to its own variant. */
  lemma ParseHttpVersionExact(s: string)
    ensures ParseHttpVersion(s).Ok? <==>
              s in {"HTTP/0.9", "HTTP/1.0", "HTTP/1.1", "HTTP/2.0", "HTTP/3.0"}
    ensures ParseHttpVersion(s).Ok? ==> VersionText(ParseHttpVersion(s).value) == s
  {
  }

  lemma ParseVersionText(v: HttpVersion)
    ensures ParseHttpVersion(VersionText(v)) == Ok(v)
  {
  }

  // ---------------------------------------------------------------------------
  // Method

  datatype Method =
    | Get | Post | Put | Delete | Head | Options | Connect | Patch | Trace
    | Extension(name: string)

  /** `Method::from_str`: never fails; unknown text, lower-case included, is kept as an extension. */
  function ParseMethod(s: string): (m: Method)
    ensures MethodText(m) == s
    ensures m.Extension? <==>
              s !in {"GET", "POST", "PUT", "DELETE", "HEAD", "OPTIONS", "CONNECT", "PATCH", "TRACE"}
  {
    match s
    case "GET" => Get
    case "POST" => Post
    case "PUT" => Put
    case "DELETE" => Delete
    case "HEAD" => Head
    case "OPTIONS" => Options
    case "CONNECT" => Connect
    case "PATCH" => Patch
    case "TRACE" => Trace
    case v => Extension(v)
  }

  /** The text a method stands for. */
  function MethodText(m: Method): string {
    match m
    case Get => "GET"
    case Post => "POST"
    case Put => "PUT"
    case Delete => "DELETE"
    case Head => "HEAD"
    case Options => "OPTIONS"
    case Connect => "CONNECT"
    case Patch => "PATCH"
    case Trace => "TRACE"
    case Extension(name) => name
  }

  /** Every method that is not an extension spelling a standard name is read back as itself. */
  lemma ParseMethodText(m: Method)
    requires m.Extension? ==>
               m.name !in {"GET", "POST", "PUT", "DELETE", "HEAD", "OPTIONS", "CONNECT", "PATCH", "TRACE"}
    ensures ParseMethod(MethodText(m)) == m
  {
  }

  // ---------------------------------------------------------------------------
  // Status code

  datatype StatusCode = StatusCode(code: u16) {
    /** `impl PartialEq<u16> for StatusCode`. */
    function EqU16(other: u16): (r: bool)
      ensures r <==> this == StatusCode(other)
    {
      code == other
    }
  }

  // ---------------------------------------------------------------------------
  // Entry

  /** Request start and response finish, as instants (their calendar form is left out). */
  datatype Timings = Timings(start_time: int, finish_time: int)

  datatype Version = Version(major: u16, minor: u16)

  const VERSION: Version := Version(0, 1)

  datatype Host = Domain(domain: string) | Addr(addr: string)

  /** A parsed url: its host, and its path segments when it has a path (`path_segments`). */
  datatype Url = Url(host: Option<Host>, segments: Option<seq<string>>)

  datatype FormField = FormField(name: string, content: Content)

  /** Request body. `ContentBody` is the source's `Body::Content`. */
  datatype Body =
    | ContentBody(content: Content)
    | MultipartForm(fields: seq<FormField>)
    | UrlEncodedForm(pairs: seq<(string, string)>)

  datatype Request = Request(http_method: Method, url: Url, version: HttpVersion, body: Option<Body>)

  datatype Response = Response(status: StatusCode, version: HttpVersion, content: Option<Content>)

  /** Addresses are kept in their textual form. */
  datatype Entry = Entry(
    version: Version,
    index: u32,
    client_addr: string,
    server_addr: Option<string>,
    timings: Timings,
    request: Request,
    response: Response)

  /** Sum of the declared sizes of the multipart fields. */
  function FieldsSize(fields: seq<FormField>): nat {
    if fields == [] then 0 else FieldsSize(fields[..|fields| - 1]) + fields[|fields| - 1].content.size
  }

  /** What one entry adds to `body_size.request`. */
  function RequestSize(e: Entry): nat {
    match e.request.body
    case None => 0
    case Some(ContentBody(c)) => c.size
    case Some(MultipartForm(f)) => FieldsSize(f)
    case Some(UrlEncodedForm(_)) => 0
  }

  /** What one entry adds to `body_size.response`. */
  function ResponseSize(e: Entry): nat {
    match e.response.content
    case None => 0
    case Some(c) => c.size
  }

  function EntrySize(e: Entry): nat {
    RequestSize(e) + ResponseSize(e)
  }

  function TotalRequestSize(es: seq<Entry>): nat {
    if es == [] then 0 else TotalRequestSize(es[..|es| - 1]) + RequestSize(es[|es| - 1])
  }

  function TotalResponseSize(es: seq<Entry>): nat {
    if es == [] then 0 else TotalResponseSize(es[..|es| - 1]) + ResponseSize(es[|es| - 1])
  }

  function TotalSize(es: seq<Entry>): nat {
    TotalRequestSize(es) + TotalResponseSize(es)
  }

  // ---------------------------------------------------------------------------
  // The aggregate

  datatype BodySize = BodySize(request: u64, response: u64)

  /** Summary of a contiguous run of entries, with a payload `data`. */
  datatype Entries<T> = Entries(
    begin_index: u32,
    begin_time: Timings,
    end_index: u32,
    end_time: Timings,
    count: u32,
    body_size: BodySize,
    data: T)
  {
    /** `content_size`: the single metric rotation is decided on. */
    function ContentSize(): nat {
      body_size.request + body_size.response
    }

    /** `update` neither overflows the u32 count nor either u64 sum. The sum
        `content_size` also stays a u64. */
    predicate CanUpdate(e: Entry) {
      count < MaxU32 && ContentSize() + EntrySize(e) <= MaxU64
    }

    /** `Entries::update`, applied in place by its owners. */
    function Update(e: Entry): (r: Entries<T>)
      requires CanUpdate(e)
      ensures r.begin_index == begin_index && r.begin_time == begin_time && r.data == data
      ensures r.end_index == e.index && r.end_time == e.timings
      ensures r.count == count + 1
      ensures r.body_size.request == body_size.request + RequestSize(e) >= body_size.request
      ensures r.body_size.response == body_size.response + ResponseSize(e) >= body_size.response
      ensures r.ContentSize() == ContentSize() + EntrySize(e) <= MaxU64
    {
      this.(end_index := e.index,
            end_time := e.timings,
            count := count + 1,
            body_size := BodySize(body_size.request + RequestSize(e),
                                  body_size.response + ResponseSize(e)))
    }

    /** The same summary without its payload. */
    function Strip(): (r: Entries<()>)
      ensures r.ContentSize() == ContentSize() && r.count == count
    {
      Entries(begin_index, begin_time, end_index, end_time, count, body_size, ())
    }
  }

  /** `Entries::new`: an empty run starting at the given entry index and time; `empty` is `T::default()`. */
  function NewEntries<T>(begin_index: u32, begin_time: Timings, empty: T): (r: Entries<T>)
    ensures r.begin_index == r.end_index == begin_index
    ensures r.begin_time == r.end_time == begin_time
    ensures r.count == 0 && r.ContentSize() == 0 && r.data == empty
  {
    Entries(begin_index, begin_time, begin_index, begin_time, 0, BodySize(0, 0), empty)
  }

  /** The aggregate can absorb all of `es` without overflow. */
  predicate CanUpdateAll<T>(acc: Entries<T>, es: seq<Entry>) {
    acc.count + |es| <= MaxU32 && acc.ContentSize() + TotalSize(es) <= MaxU64
  }

  lemma {:induction false} TotalSizePrefix(es: seq<Entry>, n: nat)
    requires n <= |es|
    ensures TotalSize(es[..n]) <= TotalSize(es)
    decreases |es|
  {
    if n < |es| {
      var init := es[..|es| - 1];
      assert es[..n] == init[..n];
      TotalSizePrefix(init, n);
      assert TotalRequestSize(es) >= TotalRequestSize(init);
      assert TotalResponseSize(es) >= TotalResponseSize(init);
    } else {
      assert es[..n] == es;
    }
  }

  lemma TotalSizeSnoc(es: seq<Entry>, e: Entry)
    ensures TotalSize(es + [e]) == TotalSize(es) + EntrySize(e)
  {
    assert (es + [e])[..|es|] == es;
  }

  /** Body sizes add up over concatenated runs. */
  lemma {:induction false} TotalSizeConcat(a: seq<Entry>, b: seq<Entry>)
    ensures TotalSize(a + b) == TotalSize(a) + TotalSize(b)
    decreases |b|
  {
    if b == [] {
      assert a + b == a;
    } else {
      var init := b[..|b| - 1];
      TotalSizeConcat(a, init);
      assert (a + b)[..|a + b| - 1] == a + init;
    }
  }

  /** `update` applied to each of `es` in order. */
  function UpdateAll<T>(acc: Entries<T>, es: seq<Entry>): (r: Entries<T>)
    requires CanUpdateAll(acc, es)
    ensures r.begin_index == acc.begin_index && r.begin_time == acc.begin_time && r.data == acc.data
    ensures r.count == acc.count + |es|
    ensures r.body_size.request == acc.body_size.request + TotalRequestSize(es)
    ensures r.body_size.response == acc.body_size.response + TotalResponseSize(es)
    ensures es == [] ==> r == acc
    ensures es != [] ==> r.end_index == es[|es| - 1].index && r.end_time == es[|es| - 1].timings
    decreases |es|
  {
    if es == [] then acc
    else
      var init := es[..|es| - 1];
      TotalSizePrefix(es, |es| - 1);
      UpdateAll(acc, init).Update(es[|es| - 1])
  }

  /** Dropping the payload commutes with updating. */
  lemma {:induction false} StripUpdateAll<T>(acc: Entries<T>, es: seq<Entry>)
    requires CanUpdateAll(acc, es)
    ensures CanUpdateAll(acc.Strip(), es)
    ensures UpdateAll(acc, es).Strip() == UpdateAll(acc.Strip(), es)
    decreases |es|
  {
    if es != [] {
      TotalSizePrefix(es, |es| - 1);
      StripUpdateAll(acc, es[..|es| - 1]);
    }
  }

  lemma StripUpdate<T>(acc: Entries<T>, e: Entry)
    requires acc.CanUpdate(e)
    ensures acc.Strip().CanUpdate(e) && acc.Update(e).Strip() == acc.Strip().Update(e)
  {
  }

  /** Appending one entry to a run is one more `update`. */
  lemma UpdateAllSnoc<T>(acc: Entries<T>, es: seq<Entry>, e: Entry)
    requires CanUpdateAll(acc, es + [e])
    ensures CanUpdateAll(acc, es)
    ensures UpdateAll(acc, es).CanUpdate(e)
    ensures UpdateAll(acc, es + [e]) == UpdateAll(acc, es).Update(e)
  {
    assert (es + [e])[..|es|] == es;
    TotalSizePrefix(es + [e], |es|);
  }

  /** Summary of a run that started at entry `first` and has absorbed `es`. */
  function Summarize(first: Entry, es: seq<Entry>): (r: Entries<()>)
    requires |es| <= MaxU32 && TotalSize(es) <= MaxU64
    ensures r.begin_index == first.index && r.count == |es| && r.ContentSize() == TotalSize(es)
  {
    UpdateAll(NewEntries(first.index, first.timings, ()), es)
  }
}
