/** The submission and progress logic of the converter page (src/app/page.jsx),
    without its rendering. `handleSubmit` runs in two steps, because it awaits
    the request: `Submit` is the part before the `await`, `Finish` the rest,
    so a `Cancel` can happen in between. */
module Page {
  import opened Wrappers
  import UriComponent
  import Convert
  import ConvertHandler

  const EmptyUrlError := "Введите ссылку"
  const InvalidUrlError := "Введите корректную ссылку"
  const DoneText := "Готово!"
  const FailText := "Ошибка :("
  const DefaultFilename := "audio"

  /** The JSON body POSTed to /api/convert. */
  datatype RequestBody = RequestBody(url: string, format: string, quality: Option<string>)

  datatype Toast = SuccessToast(text: string) | ErrorToast(text: string)

  /** How reading the response body ended. */
  datatype BodyRead = BodyReceived | BodyAborted | BodyFailed

  /** How the request ended: aborted (an `AbortError`), failed in the network,
      or answered, with its `ok` flag, its `X-Filename` header and how the
      body read went. */
  datatype FetchOutcome = FetchAborted | FetchFailed | Answered(ok: bool, xFilename: Option<string>, read: BodyRead)

  /** What `handleSubmit` does once the request has ended: save a download
      under a name, stay silent (an `AbortError`), or show the error toast. */
  datatype Settlement = Saved(filename: string) | Silent | Failed

  /** The `isValid` IIFE; `protocol` is what the URL parser reports, `None`
      when the constructor throws. */
  function IsValidUrl(protocol: Option<string>): (valid: bool)
    ensures valid <==> protocol == Some("http:") || protocol == Some("https:")
  {
    match protocol
    case None => false
    case Some(p) => p == "http:" || p == "https:"
  }

  /** `{ url, format, ...(format === 'mp4' && { quality }) }`. */
  function BuildBody(url: string, format: string, quality: string): RequestBody {
    RequestBody(url, format, if format == "mp4" then Some(quality) else None)
  }

  /** The body carries `quality` exactly for mp4, and with it the server picks
      the yt-dlp selector of the chosen format and quality; for the audio
      formats the missing quality falls back to `best`, which the selector
      ignores. */
  lemma BodySelectsFormat(url: string, format: string, quality: string)
    ensures var b := BuildBody(url, format, quality);
            (b.quality.Some? <==> format == "mp4") && (b.quality.Some? ==> b.quality.value == quality)
    ensures var b := BuildBody(url, format, quality);
            Convert.FormatArg(Convert.FormatOf(Some(b.format)), Convert.QualityOf(b.quality)) ==
            Convert.FormatArg(format, quality)
  {
  }

  /** The updater of line 37. */
  function NextProgress(prev: real, percent: real, isActive: bool): (r: real)
    ensures r >= prev
    ensures !isActive ==> r == prev
    ensures isActive ==> r == (if percent > prev then percent else prev)
  {
    if isActive && percent > prev then percent else prev
  }

  /** Progress after a series of `download-progress` events. */
  function AfterEvents(prev: real, events: seq<real>, isActive: bool): real
    decreases |events|
  {
    if events == [] then prev else AfterEvents(NextProgress(prev, events[0], isActive), events[1..], isActive)
  }

  /** Through events, progress never decreases and is frozen while inactive;
      while active it ends at the largest of its start value and the events. */
  lemma {:induction false} EventsNeverLowerProgress(prev: real, events: seq<real>, isActive: bool)
    ensures AfterEvents(prev, events, isActive) >= prev
    ensures !isActive ==> AfterEvents(prev, events, isActive) == prev
    ensures isActive ==> forall i :: 0 <= i < |events| ==> AfterEvents(prev, events, isActive) >= events[i]
    ensures isActive ==> AfterEvents(prev, events, isActive) == prev ||
                         exists i :: 0 <= i < |events| && AfterEvents(prev, events, isActive) == events[i]
    decreases |events|
  {
    if events != [] {
      var next := NextProgress(prev, events[0], isActive);
      EventsNeverLowerProgress(next, events[1..], isActive);
      var r := AfterEvents(prev, events, isActive);
      assert r == AfterEvents(next, events[1..], isActive);
      if isActive {
        forall i | 0 <= i < |events| ensures r >= events[i] {
          if i > 0 { assert events[i] == events[1..][i - 1]; }
        }
        if r != prev && r != next {
          var i :| 0 <= i < |events[1..]| && r == events[1..][i];
          assert r == events[i + 1];
        }
      }
    }
  }

  /** Line 85 and 93: the decoded `X-Filename` header, `audio` when it is
      missing or empty, then `.` and the format; `None` where
      `decodeURIComponent` throws. */
  function DownloadName(xFilename: Option<string>, format: string): Option<string> {
    var raw := if xFilename.None? || xFilename.value == "" then DefaultFilename else xFilename.value;
    match UriComponent.Decode(raw)
    case Some(name) => Some(name + "." + format)
    case None => None
  }

  /** The name the page saves the server's answer under: the title the server
      chose, or `audio` when it sanitised to the empty string (the header is
      then empty, and an empty header counts as missing). */
  lemma DownloadNameOfTitle(title: string, format: string)
    ensures DownloadName(Some(UriComponent.Encode(title)), format) ==
            Some((if title == "" then DefaultFilename else title) + "." + format)
  {
    UriComponent.EncodeEmpty(title);
    UriComponent.DecodeEncode(title);
    UriComponent.DecodeEncode(DefaultFilename);
    assert UriComponent.Encode(DefaultFilename) == DefaultFilename by {
      UriComponent.EncodeUnreservedOnly(DefaultFilename);
    }
  }

  /** The rest of `handleSubmit` after the request ends: the name is decoded
      before `ok` is checked, and an `AbortError`, from the request or from
      reading the body, is silent. */
  function Settle(outcome: FetchOutcome, format: string): (s: Settlement)
    ensures s.Silent? <==> outcome.FetchAborted? ||
                           (outcome.Answered? && outcome.ok && outcome.read.BodyAborted? &&
                            DownloadName(outcome.xFilename, format).Some?)
    ensures s.Saved? <==> outcome.Answered? && outcome.ok && outcome.read.BodyReceived? &&
                          DownloadName(outcome.xFilename, format).Some?
    ensures s.Saved? ==> Some(s.filename) == DownloadName(outcome.xFilename, format)
  {
    match outcome
    case FetchAborted => Silent
    case FetchFailed => Failed
    case Answered(ok, xFilename, read) =>
      match DownloadName(xFilename, format)
      case None => Failed
      case Some(name) =>
        if !ok then Failed
        else match read
          case BodyAborted => Silent
          case BodyFailed => Failed
          case BodyReceived => Saved(name)
  }

  /** End to end: when the server answers 200, the page saves the file under
      the server's title (or `audio`) with the requested format as extension. */
  lemma SavedUnderServerTitle(req: ConvertHandler.Request, tools: ConvertHandler.Tools,
                              dl: string, out: string, format: string)
    requires ConvertHandler.Run(req, tools, dl, out).status == 200
    ensures var e := ConvertHandler.Run(req, tools, dl, out);
            var title := Convert.ProbedTitle(tools.probe);
            Settle(Answered(true, Some(e.headers["X-Filename"]), BodyReceived), format) ==
            Saved((if title == "" then DefaultFilename else title) + "." + format)
  {
    ConvertHandler.SuccessResponse(req, tools, dl, out);
    DownloadNameOfTitle(Convert.ProbedTitle(tools.probe), format);
  }

  /** The page's state: the form fields, the five fields the handlers change,
      and logs of what it did outside itself. */
  class PageState {
    var url: string
    var format: string
    var quality: string
    var loading: bool
    var isActive: bool
    /** The current AbortController, identified by number. */
    var controller: Option<nat>
    var progress: real
    var error: string
    var nextController: nat
    var aborted: seq<nat>
    var requests: seq<RequestBody>
    var toasts: seq<Toast>
    var downloads: seq<string>

    /** The initial `useState` values. */
    constructor ()
      ensures url == "" && format == "mp3" && quality == "480" && !loading && !isActive
      ensures controller == None && progress == 0.0 && error == ""
      ensures aborted == [] && requests == [] && toasts == [] && downloads == []
    {
      url, format, quality := "", "mp3", "480";
      loading, isActive, controller, progress, error := false, false, None, 0.0, "";
      nextController := 0;
      aborted, requests, toasts, downloads := [], [], [], [];
    }

    /** The input's `onChange`: store the text and clear any error. */
    method EditUrl(text: string)
      modifies this`url, this`error
      ensures url == text && error == ""
    {
      url := text;
      if error != "" {
        error := "";
      }
    }

    /** `handleSubmit` up to the `await fetch(...)`; `protocol` is what the URL
        parser reports for `url`. */
    method Submit(protocol: Option<string>) returns (sent: Option<RequestBody>)
      modifies this`error, this`loading, this`isActive, this`controller, this`nextController, this`requests
      ensures url == "" ==> error == EmptyUrlError && sent == None
      ensures url != "" && !IsValidUrl(protocol) ==> error == InvalidUrlError && sent == None
      ensures sent.None? ==> loading == old(loading) && isActive == old(isActive) &&
                             controller == old(controller) && requests == old(requests) &&
                             nextController == old(nextController)
      ensures url != "" && IsValidUrl(protocol) ==>
                error == "" && loading && isActive && controller == Some(old(nextController)) &&
                nextController == old(nextController) + 1 &&
                sent == Some(BuildBody(url, format, quality)) && requests == old(requests) + [sent.value]
    {
      if url == "" {
        error := EmptyUrlError;
        return None;
      }
      var valid := IsValidUrl(protocol);
      if !valid {
        error := InvalidUrlError;
        return None;
      }
      error := "";
      loading := true;
      isActive := true;
      controller := Some(nextController);
      nextController := nextController + 1;
      var body := BuildBody(url, format, quality);
      requests := requests + [body];
      sent := Some(body);
    }

    /** `handleSubmit` after the request ended, with `format` as it was when
        the request was sent, down to its `finally`. */
    method Finish(format: string, outcome: FetchOutcome)
      modifies this`loading, this`isActive, this`controller, this`progress, this`toasts, this`downloads
      ensures !loading && !isActive && controller == None
      ensures match Settle(outcome, format)
              case Saved(name) =>
                downloads == old(downloads) + [name] && toasts == old(toasts) + [SuccessToast(DoneText)] &&
                progress == 0.0
              case Silent => downloads == old(downloads) && toasts == old(toasts) && progress == old(progress)
              case Failed =>
                downloads == old(downloads) && toasts == old(toasts) + [ErrorToast(FailText)] &&
                progress == old(progress)
    {
      match Settle(outcome, format) {
        case Saved(name) =>
          downloads := downloads + [name];
          toasts := toasts + [SuccessToast(DoneText)];
          progress := 0.0;
        case Silent =>
        case Failed =>
          toasts := toasts + [ErrorToast(FailText)];
      }
      loading := false;
      controller := None;
      isActive := false;
    }

    /** `handleCancel`. */
    method Cancel()
      modifies this`controller, this`isActive, this`loading, this`progress, this`aborted
      ensures old(controller).None? ==>
                controller == None && isActive == old(isActive) && loading == old(loading) &&
                progress == old(progress) && aborted == old(aborted)
      ensures old(controller).Some? ==>
                aborted == old(aborted) + [old(controller).value] && controller == None &&
                !isActive && !loading && progress == 0.0
    {
      if controller.Some? {
        aborted := aborted + [controller.value];
        controller := None;
        isActive := false;
        loading := false;
        progress := 0.0;
      }
    }

    /** The button: cancel while there is a controller, submit otherwise. */
    method Click(protocol: Option<string>) returns (sent: Option<RequestBody>)
      modifies this`error, this`loading, this`isActive, this`controller, this`nextController,
               this`requests, this`progress, this`aborted
      ensures old(controller).Some? ==>
                sent == None && controller == None && !loading && !isActive && progress == 0.0 &&
                aborted == old(aborted) + [old(controller).value] && requests == old(requests) &&
                error == old(error) && nextController == old(nextController)
      ensures old(controller).None? ==>
                aborted == old(aborted) && progress == old(progress) &&
                (sent.Some? <==> url != "" && IsValidUrl(protocol))
      ensures old(controller).None? && url == "" ==> error == EmptyUrlError
      ensures old(controller).None? && url != "" && !IsValidUrl(protocol) ==> error == InvalidUrlError
      ensures old(controller).None? && sent.None? ==>
                loading == old(loading) && isActive == old(isActive) && controller == old(controller) &&
                requests == old(requests) && nextController == old(nextController)
      ensures old(controller).None? && url != "" && IsValidUrl(protocol) ==>
                error == "" && loading && isActive && controller == Some(old(nextController)) &&
                nextController == old(nextController) + 1 &&
                sent == Some(BuildBody(url, format, quality)) && requests == old(requests) + [sent.value]
    {
      if controller.Some? {
        Cancel();
        sent := None;
      } else {
        sent := Submit(protocol);
      }
    }

    /** The `download-progress` listener. */
    method OnProgress(percent: real)
      modifies this`progress
      ensures progress == NextProgress(old(progress), percent, isActive)
    {
      progress := NextProgress(progress, percent, isActive);
    }
  }
}
