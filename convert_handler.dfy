/** The conversion request handler of pages/api/convert.ts as a state machine:
    the response being built (status, headers, body), the temporary files that
    exist, and logs of the processes started, the progress events emitted and
    the unlink attempts. What the external tools do is an input (`Tools`). */
module ConvertHandler {
  import opened Wrappers
  import opened Convert
  import UriComponent

  type Path = string

  const InvalidLinkMessage := "Невалидная ссылка"
  const ServerErrorMessage := "Ошибка сервера"

  /** The inbound request: its method and the three body fields. */
  datatype Request = Request(httpMethod: string, url: BodyValue, format: Option<string>, quality: Option<string>)

  /** The behaviour of every collaborator during one request: the title probe,
      whether the Socket.IO server is attached, what yt-dlp writes to stdout
      and how it exits, the size `fs.stat` reports, whether ffmpeg ends or
      errors, whether reading the output succeeds, and whether each unlink
      succeeds. */
  datatype Tools = Tools(
    probe: ProbeResult,
    socketReady: bool,
    stdout: seq<string>,
    exitCode: Option<int>,
    fileSize: nat,
    transcodeEnds: bool,
    readOk: bool,
    unlinkDownloadedOk: bool,
    unlinkOutputOk: bool)

  /** An external process started by the handler. */
  datatype Process =
    | TitleProbe(url: string)
    | Fetch(selector: string, url: string, target: Path)
    | Transcode(codec: Codec, source: Path, target: Path)

  datatype Body = NoBody | Ended | Message(text: string) | FileContents(path: Path)

  /** The errors thrown inside the main `try`; all are logged and answered with
      the same 500 response. */
  datatype Failure =
    | NoSocket
    | DownloadRejected(result: DownloadResult)
    | UnsupportedFormat
    | TranscodeError
    | ReadError
    | InvalidHeader(name: string)

  /** Node's `setHeader` throws `ERR_INVALID_CHAR` unless every character is a
      tab, printable ASCII or in U+0080..U+00FF. */
  predicate HeaderValueOk(v: string) {
    forall i :: 0 <= i < |v| ==> v[i] == '\t' || (' ' <= v[i] <= '~') || ('\U{0080}' <= v[i] <= '\U{00FF}')
  }

  /** The Content-Type and X-Filename values can never make `setHeader` throw. */
  lemma FixedHeadersValid(format: string, title: string)
    ensures HeaderValueOk(ContentType(format))
    ensures HeaderValueOk(UriComponent.Encode(title))
  {
    UriComponent.EncodeChars(title);
  }

  /** What lines 31-111 produce. */
  datatype TryOutcome = TryOutcome(spawned: seq<Process>, emitted: seq<string>,
                                   headers: map<string, string>, failure: Option<Failure>)

  /** The main `try` block, stage by stage; a stage that throws ends it. */
  function MainTry(url: string, format: string, quality: string, title: string,
                   tools: Tools, dl: Path, out: Path): TryOutcome
  {
    if !tools.socketReady then TryOutcome([], [], map[], Some(NoSocket))
    else
      var fetch := [Fetch(FormatArg(format, quality), url, dl)];
      var emitted := Progresses(tools.stdout);
      var verdict := DownloadVerdict(tools.exitCode, tools.fileSize);
      if !verdict.Downloaded? then TryOutcome(fetch, emitted, map[], Some(DownloadRejected(verdict)))
      else
        var rest := AfterDownload(format, title, tools, dl, out);
        TryOutcome(fetch + rest.spawned, emitted, rest.headers, rest.failure)
  }

  /** Lines 87-111, once the download has resolved: transcode, read, set the
      headers. */
  function AfterDownload(format: string, title: string, tools: Tools, dl: Path, out: Path): TryOutcome {
    match CodecFor(format)
    case None => TryOutcome([], [], map[], Some(UnsupportedFormat))
    case Some(codec) =>
      var r := AfterTranscode(format, title, tools);
      TryOutcome([Transcode(codec, dl, out)], [], r.headers, r.failure)
  }

  /** Lines 102-111, once ffmpeg has been started. */
  function AfterTranscode(format: string, title: string, tools: Tools): TryOutcome {
    if !tools.transcodeEnds then TryOutcome([], [], map[], Some(TranscodeError))
    else if !tools.readOk then TryOutcome([], [], map[], Some(ReadError))
    else
      var typed := map["Content-Type" := ContentType(format)];
      var disposition := Disposition(title, format);
      if !HeaderValueOk(disposition) then
        TryOutcome([], [], typed, Some(InvalidHeader("Content-Disposition")))
      else
        TryOutcome([], [], typed["Content-Disposition" := disposition]["X-Filename" := UriComponent.Encode(title)], None)
  }

  /** Everything one call of the handler does. `temps` lists the temporary
      files it creates and `unlinked` the unlink attempts of the `finally`. */
  datatype Effects = Effects(status: int, headers: map<string, string>, body: Body,
                             spawned: seq<Process>, emitted: seq<string>,
                             temps: seq<Path>, unlinked: seq<Path>)

  /** The handler as a function of the request and the tools' behaviour; `dl`
      and `out` are the paths `tmpFile` hands out. */
  function Run(req: Request, tools: Tools, dl: Path, out: Path): Effects {
    match EarlyExit(req.httpMethod, req.url)
    case Some(MethodNotAllowed) => Effects(405, map[], Ended, [], [], [], [])
    case Some(InvalidUrl) => Effects(400, map[], Message(InvalidLinkMessage), [], [], [], [])
    case None => Pipeline(req.url.s, FormatOf(req.format), QualityOf(req.quality), tools, dl, out)
  }

  /** Lines 20-118, for a request that passed the early checks. */
  function Pipeline(url: string, format: string, quality: string, tools: Tools, dl: Path, out: Path): Effects {
    var r := TryCatch(url, format, quality, ProbedTitle(tools.probe), tools, dl, out);
    r.(spawned := [TitleProbe(url)] + r.spawned, temps := [dl, out], unlinked := [dl, out])
  }

  /** Lines 31-114: the main `try` and its `catch`, which turns every failure
      into the same 500 answer. */
  function TryCatch(url: string, format: string, quality: string, title: string,
                    tools: Tools, dl: Path, out: Path): Effects {
    var t := MainTry(url, format, quality, title, tools, dl, out);
    Effects(if t.failure.None? then 200 else 500, t.headers,
            if t.failure.None? then FileContents(out) else Message(ServerErrorMessage),
            t.spawned, t.emitted, [], [])
  }

  /** The temporary files whose unlink succeeds. */
  function Removed(tools: Tools, dl: Path, out: Path): set<Path> {
    (if tools.unlinkDownloadedOk then {dl} else {}) + (if tools.unlinkOutputOk then {out} else {})
  }

  // ---------------------------------------------------------------------------
  // Properties of the handler

  /** The checks come first: 405 exactly for a non-POST request, 400 exactly for
      a POST whose `url` is not a non-empty string; in both cases no temporary
      file is created, no process started, nothing emitted or unlinked and no
      header set. Every other request is answered 200 or 500. */
  lemma EarlyExitsTouchNothing(req: Request, tools: Tools, dl: Path, out: Path)
    ensures var e := Run(req, tools, dl, out);
            (e.status == 405 <==> req.httpMethod != "POST") &&
            (e.status == 400 <==> req.httpMethod == "POST" && !(req.url.Text? && req.url.s != "")) &&
            (e.temps == [] <==> e.status == 405 || e.status == 400) &&
            (e.temps != [] ==> e.status == 200 || e.status == 500) &&
            (e.temps == [] ==> e.spawned == [] && e.emitted == [] && e.unlinked == [] && e.headers == map[])
  {
  }

  /** Every request that passes the checks creates both temporary files and
      attempts to unlink both, the download first, whatever happened in
      between; the title probe is always the first process started. */
  lemma CleanupOnEveryPath(req: Request, tools: Tools, dl: Path, out: Path)
    requires EarlyExit(req.httpMethod, req.url).None?
    ensures var e := Run(req, tools, dl, out);
            e.temps == [dl, out] && e.unlinked == [dl, out] && e.spawned[0] == TitleProbe(req.url.s)
  {
  }

  /** Every stage succeeds: the socket server is attached, the download
      resolves, the format has a codec, ffmpeg ends, the output is read and
      the Content-Disposition value is a legal header value. */
  predicate StagesSucceed(format: string, title: string, tools: Tools) {
    tools.socketReady && DownloadVerdict(tools.exitCode, tools.fileSize).Downloaded? &&
    CodecFor(format).Some? && tools.transcodeEnds && tools.readOk &&
    HeaderValueOk(Disposition(title, format))
  }

  /** A checked request is answered 200 exactly when every stage succeeds. */
  lemma SuccessExactly(req: Request, tools: Tools, dl: Path, out: Path)
    requires EarlyExit(req.httpMethod, req.url).None?
    ensures Run(req, tools, dl, out).status == 200 <==>
            StagesSucceed(FormatOf(req.format), ProbedTitle(tools.probe), tools)
  {
    MainTrySucceeds(req.url.s, FormatOf(req.format), QualityOf(req.quality), ProbedTitle(tools.probe), tools, dl, out);
  }

  lemma MainTrySucceeds(url: string, format: string, quality: string, title: string,
                        tools: Tools, dl: Path, out: Path)
    ensures MainTry(url, format, quality, title, tools, dl, out).failure.None? <==> StagesSucceed(format, title, tools)
  {
  }

  /** The 200 answer: the three headers, the output file as body, exactly one
      download with the selector for the format and quality, exactly one
      transcode, and the progress of every stdout chunk. */
  lemma SuccessResponse(req: Request, tools: Tools, dl: Path, out: Path)
    requires Run(req, tools, dl, out).status == 200
    ensures var e := Run(req, tools, dl, out);
            var format := FormatOf(req.format);
            var title := ProbedTitle(tools.probe);
            format in {"mp3", "wav", "mp4"} &&
            e.headers == map["Content-Type" := ContentType(format),
                             "Content-Disposition" := Disposition(title, format),
                             "X-Filename" := UriComponent.Encode(title)] &&
            e.body == FileContents(out) &&
            e.spawned == [TitleProbe(req.url.s), Fetch(FormatArg(format, QualityOf(req.quality)), req.url.s, dl),
                          Transcode(CodecFor(format).value, dl, out)] &&
            e.emitted == Progresses(tools.stdout)
  {
  }

  /** The 500 answer is the same generic message whatever failed; the only
      header it can carry is the Content-Type set before Content-Disposition
      threw. */
  lemma FailureResponse(req: Request, tools: Tools, dl: Path, out: Path)
    requires Run(req, tools, dl, out).status == 500
    ensures var e := Run(req, tools, dl, out);
            e.body == Message(ServerErrorMessage) &&
            (e.headers == map[] || e.headers == map["Content-Type" := ContentType(FormatOf(req.format))])
  {
  }

  /** An unsupported format is not refused up front: yt-dlp still runs, with
      the audio-only selector, and only the codec table rejects it, so the
      answer is 500 and ffmpeg is never started. */
  lemma UnsupportedFormatReachesDownload(req: Request, tools: Tools, dl: Path, out: Path)
    requires EarlyExit(req.httpMethod, req.url).None?
    requires FormatOf(req.format) !in {"mp3", "wav", "mp4"}
    ensures var e := Run(req, tools, dl, out);
            e.status == 500 && (forall i :: 0 <= i < |e.spawned| ==> !e.spawned[i].Transcode?) &&
            (tools.socketReady ==>
               e.spawned == [TitleProbe(req.url.s), Fetch("bestaudio", req.url.s, dl)] &&
               e.emitted == Progresses(tools.stdout))
  {
  }

  /** There is no retry: yt-dlp is started at most once, exactly when the
      socket server is attached, with the selector computed from the format and
      quality alone; and ffmpeg only after a successful download of a
      supported format. */
  lemma SingleDownloadAttempt(req: Request, tools: Tools, dl: Path, out: Path)
    ensures var e := Run(req, tools, dl, out);
            (forall i, j :: 0 <= i < j < |e.spawned| ==> !(e.spawned[i].Fetch? && e.spawned[j].Fetch?)) &&
            ((exists i :: 0 <= i < |e.spawned| && e.spawned[i].Fetch?) <==>
               EarlyExit(req.httpMethod, req.url).None? && tools.socketReady) &&
            (forall i :: 0 <= i < |e.spawned| && e.spawned[i].Fetch? ==>
               e.spawned[i].selector == FormatArg(FormatOf(req.format), QualityOf(req.quality))) &&
            (forall i :: 0 <= i < |e.spawned| && e.spawned[i].Transcode? ==>
               DownloadVerdict(tools.exitCode, tools.fileSize).Downloaded? && CodecFor(FormatOf(req.format)).Some?)
  {
    var e := Run(req, tools, dl, out);
    if EarlyExit(req.httpMethod, req.url).None? && tools.socketReady {
      assert e.spawned[1].Fetch?;
    }
  }

  lemma HeaderValueOkParts(a: string, b: string)
    ensures HeaderValueOk(a + b) <==> HeaderValueOk(a) && HeaderValueOk(b)
  {
    if HeaderValueOk(a) && HeaderValueOk(b) {
      forall i | 0 <= i < |a + b|
        ensures (a + b)[i] == '\t' || (' ' <= (a + b)[i] <= '~') || ('\U{0080}' <= (a + b)[i] <= '\U{00FF}')
      {
        if i >= |a| { assert (a + b)[i] == b[i - |a|]; }
      }
    }
    if HeaderValueOk(a + b) {
      forall i | 0 <= i < |b|
        ensures b[i] == '\t' || (' ' <= b[i] <= '~') || ('\U{0080}' <= b[i] <= '\U{00FF}')
      {
        assert (a + b)[|a| + i] == b[i];
      }
      forall i | 0 <= i < |a|
        ensures a[i] == '\t' || (' ' <= a[i] <= '~') || ('\U{0080}' <= a[i] <= '\U{00FF}')
      {
        assert (a + b)[i] == a[i];
      }
    }
  }

  /** A title the sanitiser lets through but `setHeader` refuses (one holding
      a line break or a non-Latin-1 space, say) turns a finished conversion
      into the generic 500. */
  lemma UnsafeTitleFails(req: Request, tools: Tools, dl: Path, out: Path)
    requires EarlyExit(req.httpMethod, req.url).None?
    requires !HeaderValueOk(ProbedTitle(tools.probe))
    ensures Run(req, tools, dl, out).status == 500
  {
    UnsafeDisposition(ProbedTitle(tools.probe), FormatOf(req.format));
    SuccessExactly(req, tools, dl, out);
    EarlyExitsTouchNothing(req, tools, dl, out);
  }

  /** A title that is not a legal header value spoils the whole
      Content-Disposition value. */
  lemma UnsafeDisposition(title: string, format: string)
    requires !HeaderValueOk(title)
    ensures !HeaderValueOk(Disposition(title, format))
  {
    HeaderValueOkParts("attachment; filename=\"" + title, "." + format + "\"");
    HeaderValueOkParts("attachment; filename=\"", title);
    assert Disposition(title, format) == ("attachment; filename=\"" + title) + ("." + format + "\"");
  }

  /** A probe that prints two words on two lines keeps the line break: the
      output, a line-terminated title as `--get-title` prints it, loses only its
      final newline, and the title is not a legal header value. */
  lemma TwoLineTitle(a: string, b: string)
    requires a != [] && forall i :: 0 <= i < |a| ==> JsText.IsWordChar(a[i])
    requires b != [] && forall i :: 0 <= i < |b| ==> JsText.IsWordChar(b[i])
    ensures ProbedTitle(ProbePrinted(a + "\n" + b + "\n")) == a + "\n" + b
    ensures !HeaderValueOk(a + "\n" + b)
  {
    var s := a + "\n" + b;
    assert s[|a|] == '\n';
    assert AllTitleChars(s) by {
      forall i | 0 <= i < |s| ensures TitleChar(s[i]) {
        if i < |a| { assert s[i] == a[i]; }
        else if i > |a| { assert s[i] == b[i - |a| - 1]; }
      }
    }
    assert s[0] == a[0] && s[|s| - 1] == b[|b| - 1];
    assert JsText.Trimmed(s) by {
      JsText.WordCharNotSpace(a[0]);
      JsText.WordCharNotSpace(b[|b| - 1]);
    }
    CleanLineKept(s);
  }

  /** One request/response exchange. */
  class Exchange {
    var status: int
    var headers: map<string, string>
    var body: Body
    /** Temporary files that exist on disk. */
    var liveTemps: set<Path>
    var spawned: seq<Process>
    /** Payloads of `io.emit('download-progress', ...)`, as the matched text. */
    var emitted: seq<string>
    var unlinked: seq<Path>

    /** A fresh response (Node's default status is 200). */
    constructor (live: set<Path>)
      ensures status == 200 && headers == map[] && body == NoBody
      ensures liveTemps == live && spawned == [] && emitted == [] && unlinked == []
    {
      status, headers, body := 200, map[], NoBody;
      liveTemps, spawned, emitted, unlinked := live, [], [], [];
    }

    /** `res.setHeader`: `ok` is false where Node throws. */
    method SetHeader(name: string, value: string) returns (ok: bool)
      modifies this`headers
      ensures ok == HeaderValueOk(value)
      ensures headers == if ok then old(headers)[name := value] else old(headers)
    {
      ok := HeaderValueOk(value);
      if ok {
        headers := headers[name := value];
      }
    }

    /** `tmpFile`: creates an empty file at a fresh path. */
    method CreateTemp(p: Path)
      requires p !in liveTemps
      modifies this`liveTemps
      ensures liveTemps == old(liveTemps) + {p}
    {
      liveTemps := liveTemps + {p};
    }

    /** `fs.unlink(p).catch(() => {})`: always attempted, its failure swallowed. */
    method Unlink(p: Path, succeeds: bool)
      modifies this`liveTemps, this`unlinked
      ensures unlinked == old(unlinked) + [p]
      ensures liveTemps == if succeeds then old(liveTemps) - {p} else old(liveTemps)
    {
      unlinked := unlinked + [p];
      if succeeds {
        liveTemps := liveTemps - {p};
      }
    }

    /** The stdout `data` listener of lines 60-67. */
    method OnStdout(chunk: string)
      modifies this`emitted
      ensures emitted == old(emitted) + ChunkProgress(chunk)
    {
      var m := FindProgress(chunk);
      if m.Some? {
        emitted := emitted + [m.value];
      }
    }

    /** Lines 46-85: start yt-dlp, forward its progress lines, wait for it to
        close. */
    method Download(url: string, formatArg: string, tools: Tools, dl: Path) returns (verdict: DownloadResult)
      modifies this`spawned, this`emitted
      ensures spawned == old(spawned) + [Fetch(formatArg, url, dl)]
      ensures emitted == old(emitted) + Progresses(tools.stdout)
      ensures verdict == DownloadVerdict(tools.exitCode, tools.fileSize)
    {
      spawned := spawned + [Fetch(formatArg, url, dl)];
      var i := 0;
      while i < |tools.stdout|
        invariant 0 <= i <= |tools.stdout|
        invariant emitted == old(emitted) + Progresses(tools.stdout[..i])
        invariant spawned == old(spawned) + [Fetch(formatArg, url, dl)]
      {
        ProgressesStep(tools.stdout, i);
        OnStdout(tools.stdout[i]);
        i := i + 1;
      }
      assert tools.stdout[..i] == tools.stdout;
      verdict := DownloadVerdict(tools.exitCode, tools.fileSize);
    }

    /** Lines 87-111: choose the codec, transcode, read the output, set the
        headers and answer 200. */
    method Deliver(format: string, title: string, tools: Tools, dl: Path, out: Path)
      returns (failure: Option<Failure>)
      modifies this`headers, this`spawned, this`status, this`body
      ensures var t := AfterDownload(format, title, tools, dl, out);
              failure == t.failure && headers == old(headers) + t.headers && spawned == old(spawned) + t.spawned
      ensures failure.None? ==> status == 200 && body == FileContents(out)
      ensures failure.Some? ==> status == old(status) && body == old(body)
    {
      var codec := CodecFor(format);
      if codec.None? {
        return Some(UnsupportedFormat);
      }
      spawned := spawned + [Transcode(codec.value, dl, out)];
      failure := Respond(format, title, tools, out);
    }

    /** Lines 102-111: wait for ffmpeg, read the output, answer. */
    method Respond(format: string, title: string, tools: Tools, out: Path) returns (failure: Option<Failure>)
      modifies this`headers, this`status, this`body
      ensures var t := AfterTranscode(format, title, tools);
              failure == t.failure && headers == old(headers) + t.headers
      ensures failure.None? ==> status == 200 && body == FileContents(out)
      ensures failure.Some? ==> status == old(status) && body == old(body)
    {
      if !tools.transcodeEnds {
        return Some(TranscodeError);
      }
      if !tools.readOk {
        return Some(ReadError);
      }
      var ok := SetFileHeaders(format, title);
      if !ok {
        return Some(InvalidHeader("Content-Disposition"));
      }
      status, body := 200, FileContents(out);
      return None;
    }

    /** Lines 105-110: the three headers, in order; `ok` is false where the
        Content-Disposition `setHeader` throws, after Content-Type is set. */
    method SetFileHeaders(format: string, title: string) returns (ok: bool)
      modifies this`headers
      ensures ok == HeaderValueOk(Disposition(title, format))
      ensures var typed := old(headers)["Content-Type" := ContentType(format)];
              headers == if ok then typed["Content-Disposition" := Disposition(title, format)]
                                         ["X-Filename" := UriComponent.Encode(title)]
                         else typed
    {
      FixedHeadersValid(format, title);
      ok := SetHeader("Content-Type", ContentType(format));
      assert ok;
      ok := SetHeader("Content-Disposition", Disposition(title, format));
      if ok {
        var encoded := SetHeader("X-Filename", UriComponent.Encode(title));
        assert encoded;
      }
    }

    /** Lines 31-111: the main `try`, up to the 200 response. */
    method Attempt(url: string, format: string, quality: string, title: string,
                   tools: Tools, dl: Path, out: Path) returns (failure: Option<Failure>)
      modifies this`headers, this`spawned, this`emitted, this`status, this`body
      ensures var t := MainTry(url, format, quality, title, tools, dl, out);
              failure == t.failure && headers == old(headers) + t.headers &&
              spawned == old(spawned) + t.spawned && emitted == old(emitted) + t.emitted
      ensures failure.None? ==> status == 200 && body == FileContents(out)
      ensures failure.Some? ==> status == old(status) && body == old(body)
    {
      if !tools.socketReady {
        return Some(NoSocket);
      }
      var formatArg := FormatArg(format, quality);
      var verdict := Download(url, formatArg, tools, dl);
      if !verdict.Downloaded? {
        return Some(DownloadRejected(verdict));
      }
      failure := Deliver(format, title, tools, dl, out);
    }

    /** Lines 23-29: the title probe; its failure only leaves `audio`. */
    method ProbeTitle(url: string, probe: ProbeResult) returns (title: string)
      modifies this`spawned
      ensures spawned == old(spawned) + [TitleProbe(url)]
      ensures title == ProbedTitle(probe)
    {
      title := DefaultTitle;
      spawned := spawned + [TitleProbe(url)];
      if probe.ProbePrinted? {
        var outputTitle := JsText.Trim(probe.out);
        if outputTitle != [] {
          title := Sanitise(outputTitle);
        }
      }
    }

    /** Lines 20-118: allocate, probe, try, catch, finally. */
    method RunPipeline(url: string, format: string, quality: string, tools: Tools, dl: Path, out: Path)
      requires dl != out && dl !in liveTemps && out !in liveTemps
      modifies this
      ensures var e := Pipeline(url, format, quality, tools, dl, out);
              status == e.status && headers == old(headers) + e.headers && body == e.body &&
              spawned == old(spawned) + e.spawned && emitted == old(emitted) + e.emitted &&
              unlinked == old(unlinked) + e.unlinked
      ensures liveTemps == old(liveTemps) + {dl, out} - Removed(tools, dl, out)
    {
      CreateTemp(dl);
      CreateTemp(out);
      var title := ProbeTitle(url, tools.probe);
      TryAndCatch(url, format, quality, title, tools, dl, out);
      Unlink(dl, tools.unlinkDownloadedOk);
      Unlink(out, tools.unlinkOutputOk);
    }

    /** Lines 31-114. */
    method TryAndCatch(url: string, format: string, quality: string, title: string,
                       tools: Tools, dl: Path, out: Path)
      modifies this`headers, this`spawned, this`emitted, this`status, this`body
      ensures var r := TryCatch(url, format, quality, title, tools, dl, out);
              status == r.status && headers == old(headers) + r.headers && body == r.body &&
              spawned == old(spawned) + r.spawned && emitted == old(emitted) + r.emitted
    {
      var failure := Attempt(url, format, quality, title, tools, dl, out);
      if failure.Some? {
        status, body := 500, Message(ServerErrorMessage);
      }
    }

    /** The whole handler, lines 11-119. */
    method Handle(req: Request, tools: Tools, dl: Path, out: Path)
      requires dl != out && dl !in liveTemps && out !in liveTemps
      modifies this
      ensures var e := Run(req, tools, dl, out);
              status == e.status && headers == old(headers) + e.headers && body == e.body &&
              spawned == old(spawned) + e.spawned && emitted == old(emitted) + e.emitted &&
              unlinked == old(unlinked) + e.unlinked
      ensures liveTemps == if Run(req, tools, dl, out).temps == [] then old(liveTemps)
                           else old(liveTemps) + {dl, out} - Removed(tools, dl, out)
    {
      if req.httpMethod != "POST" {
        status, body := 405, Ended;
        return;
      }
      var videoUrl := req.url;
      if !videoUrl.Text? || videoUrl.s == "" {
        status, body := 400, Message(InvalidLinkMessage);
        return;
      }
      RunPipeline(videoUrl.s, FormatOf(req.format), QualityOf(req.quality), tools, dl, out);
    }
  }
}
