# convector — a verified model of the conversion core

convector is a small Next.js web app. Paste a video link, pick MP3, WAV or MP4,
and the server downloads the video with `yt-dlp`, converts it with `ffmpeg`
and sends the file back. Download progress reaches the page over Socket.IO.
A service worker caches the app shell so it works offline.

This project models three pieces of that app in Dafny and proves properties of
each model:

- **The conversion handler** (`pages/api/convert.ts`).
  - Module `Convert` holds its pure stages:
    - the request checks;
    - the yt-dlp format selector;
    - the title sanitiser;
    - the progress-line regular expression;
    - the download success rule;
    - the per-format codec and Content-Type tables.
  - Module `ConvertHandler` strings the stages together in two forms:
    - a function, `Run`, which maps a request and the behaviour of the
      external tools to everything the handler does;
    - a class, `Exchange`, whose methods change the response, the set of
      live temporary files and the logs step by step, as the handler does.
      Each method is proved equal to its function.
  - Module `UriComponent` models `encodeURIComponent` and
    `decodeURIComponent` over UTF-8. The header the server sends and the file
    name the page decodes are linked by a round-trip proof.
  - Module `JsText` models the `\s`, `\w` and `\d` classes and
    `String.prototype.trim`.
- **The page's submission and progress logic** (`src/app/page.jsx`, module
  `Page`). Class `PageState` holds the five state fields the handlers set,
  plus logs of the requests sent, the toasts shown, the downloads saved and
  the controllers aborted. `handleSubmit` awaits its request, so it is split
  in two: `Submit` runs up to the `await` and `Finish` after it. A `Cancel`
  can therefore fall in between.
- **The service worker** (`public/sw.js`, module `ServiceWorker`). Class
  `Worker` holds:
  - the CacheStorage, as a map from cache name to a map from URL to response;
  - the order in which the caches were created, which decides what
    `caches.match` finds first.

  The network is an input to each event: the response a fetch would get, or
  nothing when the fetch fails.

External processes, files and the network are inputs.
- `Tools` records the title probe's output, whether the Socket.IO server is
  attached, yt-dlp's stdout chunks and exit code, the downloaded file's size,
  whether ffmpeg ends, whether the output can be read, and whether each
  unlink succeeds.
- The paths `tmpFile` hands out are parameters. `Exchange.Handle` requires
  them to be distinct and not yet live, which is what `tmpFile` guarantees.
- The result of parsing a URL is a parameter: its protocol, or nothing when
  the `URL` constructor throws.

The code does several things a reader might not expect. The model follows the
code:
- The download has no retry. `ConvertHandler.SingleDownloadAttempt` proves that
  yt-dlp is started at most once.
- An unsupported format is not refused up front. It reaches yt-dlp with the
  audio-only selector and is refused only at the codec table, with the generic
  500 (`ConvertHandler.UnsupportedFormatReachesDownload`).
- A title that sanitises to the empty string stays empty. The page then saves
  the file as `audio.<format>`, because an empty `X-Filename` header counts as
  missing (`Page.DownloadNameOfTitle`).
- Node's `setHeader` throws on a character it does not allow.
  - The sanitiser keeps every `\s` character, including line breaks.
  - A title that still holds one, such as the output of a probe that prints
    two words on two lines, therefore turns a finished conversion into the 500 answer
    (`ConvertHandler.UnsafeTitleFails`, `ConvertHandler.TwoLineTitle`).
- Both cache-first branches of the service worker fetch from the network even
  when they answer from the cache. They store a fetched response either way.
- The network-first branch stores whatever response the fetch resolves with,
  including a non-2xx one.

## Model

| member | source | states |
|---|---|---|
| ConvertHandler.EarlyExitsTouchNothing | pages/api/convert.ts:12-18 | 405 exactly for non-POST and 400 exactly for a POST whose `url` is not a non-empty string; then no temp file, process, emit, header or unlink. Every other request gets 200 or 500 |
| Convert.EarlyExit | pages/api/convert.ts:12-18 | The two checks, method first and then `url`. `ConvertHandler.EarlyExitsTouchNothing` states when each answers and that nothing happens before them |
| Convert.FormatOf | pages/api/convert.ts:14 | The `mp3` default, taken only when `format` is missing. `Page.BodySelectsFormat` shows the server reads the page's own format back |
| Convert.QualityOf | pages/api/convert.ts:14 | The `best` default, taken only when `quality` is missing. By `Page.BodySelectsFormat`, a body without quality selects as the page's choice would |
| Convert.FormatArg | pages/api/convert.ts:35-44 | `bestaudio` exactly when the format is not mp4; `bestvideo+bestaudio` exactly for mp4 with quality `best`; otherwise `best[height<=q]` with `q` read back from the selector |
| Convert.StripDisallowed | pages/api/convert.ts:26 | The result holds only word, `\s`, `-` and `.` characters and is no longer than the input |
| Convert.TitleChar | pages/api/convert.ts:26 | The characters the class `[^\w\s\-\.]` does not match: word, `\s`, `-` and `.`. `Convert.StripDisallowed` and `Convert.StripAllowed` use it |
| Convert.AllTitleChars | pages/api/convert.ts:26 | Only kept characters. `Convert.SanitiseShape` proves every title has this property |
| Convert.StripAllowed | pages/api/convert.ts:26 | A string made only of allowed characters is left unchanged |
| Convert.StripConcat | pages/api/convert.ts:26 | Removal distributes over concatenation, one character at a time |
| Convert.SanitiseShape | pages/api/convert.ts:26 | A sanitised title holds only allowed characters and neither starts nor ends with whitespace |
| Convert.Sanitise | pages/api/convert.ts:26 | Removal, then `trim`. Its properties are `Convert.SanitiseShape`, `Convert.SanitiseIdempotent` and `Convert.SanitiseToEmpty` |
| Convert.SanitiseIdempotent | pages/api/convert.ts:26 | Sanitising twice gives the same result as sanitising once |
| Convert.SanitiseToEmpty | pages/api/convert.ts:26 | A title with no word, `-` or `.` character sanitises to the empty string |
| Convert.OnlySpacesSurvive | pages/api/convert.ts:26 | Of such a title, only whitespace survives removal |
| Convert.ProbedTitle | pages/api/convert.ts:23-29 | `audio` when the probe throws or prints only whitespace; otherwise the sanitised output, which is clean and trimmed |
| Convert.CleanTitleKept | pages/api/convert.ts:23-29 | A probe output that is already a clean, trimmed, non-empty title becomes the title unchanged |
| JsText.TrimStart | pages/api/convert.ts:25 | A suffix of the input, reached by cutting only whitespace, that does not start with whitespace |
| JsText.TrimEnd | pages/api/convert.ts:25 | A prefix of the input, reached by cutting only whitespace, that does not end with whitespace |
| JsText.TrimSlice | pages/api/convert.ts:25-26 | `trim` returns a contiguous slice of its input with only whitespace cut on each side, and the slice is itself trimmed |
| JsText.TrimAt | pages/api/convert.ts:25-26 | Each character of the result is the input character at the same offset after the leading whitespace |
| JsText.TrimKeeps | pages/api/convert.ts:25-26 | Every character of the result occurs in the input |
| JsText.TrimOfTrimmed | pages/api/convert.ts:25-26 | Trimming a string that is already trimmed changes nothing |
| JsText.TrimIdempotent | pages/api/convert.ts:25-26 | Trimming is idempotent |
| JsText.Trim | pages/api/convert.ts:25-26 | `String.prototype.trim`: leading, then trailing whitespace cut. `JsText.TrimSlice`, `JsText.TrimAt` and `JsText.TrimIdempotent` state its result |
| JsText.IsSpace | pages/api/convert.ts:25-26 | The `\s` class and the set `trim` strips: the ECMAScript WhiteSpace and LineTerminator code points. `JsText.TrimSlice` and `Convert.SpaceEndRun` use it |
| JsText.IsWordChar | pages/api/convert.ts:26 | The `\w` class without the `u` flag: ASCII letters, digits and `_`. `Convert.SanitiseShape` uses it |
| JsText.IsDigit | pages/api/convert.ts:62 | The `\d` class without the `u` flag: ASCII digits. `Convert.CaptureIsNumber` uses it |
| JsText.Trimmed | pages/api/convert.ts:25-26 | Neither end is whitespace. `JsText.TrimSlice` proves every `trim` result is trimmed |
| JsText.AllSpace | pages/api/convert.ts:25-26 | Only whitespace. `JsText.TrimSlice` proves `trim` cuts only such runs |
| Convert.TrimKeepsTitleChars | pages/api/convert.ts:26 | Trimming keeps the allowed-characters property |
| Convert.SpaceEndRun | pages/api/convert.ts:62 | The greedy `\s+` run covers only whitespace and stops before the first character that is not whitespace |
| Convert.NumberEndRun | pages/api/convert.ts:62 | The greedy `[\d\.]+` run covers only digits and dots and stops before the first other character |
| Convert.SpaceEndAt | pages/api/convert.ts:62 | The whitespace run ends exactly at the first non-whitespace character |
| Convert.NumberEndAt | pages/api/convert.ts:62 | The digit/dot run ends exactly at the first other character |
| Convert.SpaceEnd | pages/api/convert.ts:62 | The end of the greedy `\s+` run, within the string. `Convert.SpaceEndRun` and `Convert.SpaceEndAt` state where it stops |
| Convert.NumberEnd | pages/api/convert.ts:62 | The end of the greedy `[\d\.]+` run, within the string. `Convert.NumberEndRun` and `Convert.NumberEndAt` state where it stops |
| Convert.NumberChar | pages/api/convert.ts:62 | The class `[\d\.]`. `Convert.CaptureIsNumber` proves the capture is made of it |
| Convert.RegexMatch | pages/api/convert.ts:62 | The regular expression's own meaning at a position: `[download]`, one or more `\s`, one or more digits or dots as the group, then `%`. `Convert.MatchAtSound`, `Convert.MatchAtComplete` and `Convert.FindProgressMatches` prove the matcher agrees with it |
| Convert.MatchAt | pages/api/convert.ts:62 | The match attempt at one position. `Convert.MatchAtSound` and `Convert.MatchAtComplete` prove it equal to the regular expression there, both ways |
| Convert.FirstMatch | pages/api/convert.ts:62 | The scan from a position onwards. `Convert.FirstMatchLeftmost` proves it returns the first successful attempt |
| Convert.MatchAtSound | pages/api/convert.ts:62 | A successful attempt at a position is a match of the regular expression there, and its group is what the attempt returns |
| Convert.MatchAtComplete | pages/api/convert.ts:62 | Every match of the regular expression at a position is found by the attempt there, with the same group |
| Convert.FirstMatchLeftmost | pages/api/convert.ts:62 | The scan returns the attempt at the first position that succeeds, and nothing when no position succeeds |
| Convert.FindProgressMatches | pages/api/convert.ts:62 | A chunk yields a value exactly when the regular expression matches somewhere in it. The value is the group of the leftmost match |
| Convert.FindProgress | pages/api/convert.ts:62 | `match` on one chunk. `Convert.FindProgressMatches` and `Convert.CaptureIsNumber` state its result |
| Convert.CaptureIsNumber | pages/api/convert.ts:62-64 | The captured value is a non-empty run of digits and dots |
| Convert.Progresses | pages/api/convert.ts:60-67 | The chunks emit at most one value each |
| Convert.ChunkProgress | pages/api/convert.ts:60-67 | The zero or one value one chunk emits. `Convert.ProgressesSnoc` and `ConvertHandler.Exchange.OnStdout` use it |
| Convert.ProgressesSnoc | pages/api/convert.ts:60-67 | One more chunk appends exactly that chunk's zero or one value to the emitted sequence |
| Convert.ProgressesStep | pages/api/convert.ts:60-67 | The same, for a prefix of the chunks grown by one |
| Convert.DownloadVerdict | pages/api/convert.ts:73-84 | Success exactly for exit 0 with a non-empty file. Exit 0 with an empty file is one rejection and any other exit is another |
| Convert.CodecFor | pages/api/convert.ts:90-98 | A codec exactly for mp3, wav and mp4: libmp3lame, pcm_s16le and libx264. The container is the format, and only mp4 is video |
| Convert.ContentTypeMatchesCodec | pages/api/convert.ts:105-108 | For a supported format, the Content-Type is video exactly when the codec is video. Its subtype follows the container |
| Convert.ContentType | pages/api/convert.ts:107 | The media type ternary. `Convert.ContentTypeMatchesCodec` ties it to the codec table, and `ConvertHandler.FixedHeadersValid` shows it is a legal header value |
| Convert.Disposition | pages/api/convert.ts:109 | The Content-Disposition value. `ConvertHandler.UnsafeDisposition` states when it is illegal, and `ConvertHandler.SuccessResponse` that it is sent on success |
| UriComponent.EscapeBytesChars | pages/api/convert.ts:110 | Percent-escaping bytes gives only `%` and uppercase hex digits |
| UriComponent.Unreserved | pages/api/convert.ts:110 | The characters `encodeURIComponent` leaves as they are. `UriComponent.EncodeUnreservedOnly` and `UriComponent.EncodeChars` use it |
| UriComponent.EncodeChar | pages/api/convert.ts:110 | One character: kept when unreserved, otherwise its UTF-8 bytes escaped. `UriComponent.DecodeEscapedChar` proves decoding reads it back |
| UriComponent.HexDigit | pages/api/convert.ts:110 | The upper-case hex digit of a value below 16. `UriComponent.HexRoundTrip` reads it back |
| UriComponent.EncodedChar | pages/api/convert.ts:110 | The characters the encoder can write. `UriComponent.EncodeChars` proves the output is made of them |
| UriComponent.Utf8 | pages/api/convert.ts:110 | One to four bytes per character. `UriComponent.Utf8ThreeBytes` and `UriComponent.Utf8FourBytes` state the bit layout |
| UriComponent.EscapeBytes | pages/api/convert.ts:110 | Three characters per byte. `UriComponent.EscapeBytesAt` states each escape |
| UriComponent.Encode | pages/api/convert.ts:110 | `encodeURIComponent`. Its properties are `UriComponent.EncodeChars`, `UriComponent.EncodeEmpty`, `UriComponent.EncodeUnreservedOnly` and `UriComponent.DecodeEncode` |
| UriComponent.EncodeChars | pages/api/convert.ts:110 | `encodeURIComponent` output holds only unreserved characters, `%` and hex digits |
| UriComponent.ConcatEncoded | pages/api/convert.ts:110 | Joining two encoded strings keeps that property |
| UriComponent.EncodeUnreservedOnly | pages/api/convert.ts:110 | A string of unreserved characters encodes to itself |
| UriComponent.EncodeEmpty | pages/api/convert.ts:110 | The encoding is empty exactly when the title is |
| UriComponent.HexRoundTrip | pages/api/convert.ts:110 | Reading back the hex digit of a value below 16 gives that value |
| UriComponent.EscapeBytesAt | pages/api/convert.ts:110 | Escape `k` is at offset `3k` and holds the two hex digits of byte `k` |
| UriComponent.EscapedByteAt | src/app/page.jsx:85 | Reading escape `k` of an escaped byte string gives byte `k` back |
| UriComponent.EscapeRead | src/app/page.jsx:85 | A `%` followed by the two hex digits of a byte reads back as that byte |
| UriComponent.DecodeEscapedChar | src/app/page.jsx:85 | Decoding the escapes of one character's UTF-8 bytes, and what follows them, gives that character and the rest |
| UriComponent.DecodeOneByte | src/app/page.jsx:85 | The same, for a one-byte character |
| UriComponent.DecodeTwoBytes | src/app/page.jsx:85 | The same, for a two-byte character |
| UriComponent.ReadTwo | src/app/page.jsx:85 | Two escapes that form a valid two-byte sequence decode to its code point |
| UriComponent.DecodeThreeBytes | src/app/page.jsx:85 | The same, for a three-byte character |
| UriComponent.Utf8ThreeBytes | src/app/page.jsx:85 | The three UTF-8 bytes of a character split its code point into 4, 6 and 6 bits |
| UriComponent.ReadThree | src/app/page.jsx:85 | Three escapes that form a valid three-byte sequence decode to its code point |
| UriComponent.ThreeByteSplit | src/app/page.jsx:85 | Arithmetic of the 4/6/6-bit split |
| UriComponent.DecodeFourBytes | src/app/page.jsx:85 | The same, for a four-byte character |
| UriComponent.Utf8FourBytes | src/app/page.jsx:85 | The four UTF-8 bytes of a character split its code point into 3, 6, 6 and 6 bits |
| UriComponent.ReadFour | src/app/page.jsx:85 | Four escapes that form a valid four-byte sequence decode to its code point |
| UriComponent.FourByteSplit | src/app/page.jsx:85 | Arithmetic of the 3/6/6/6-bit split |
| UriComponent.DecodeEncode | src/app/page.jsx:85 | `decodeURIComponent(encodeURIComponent(s)) == s` for every string |
| UriComponent.HexValue | src/app/page.jsx:85 | A hex digit of either case has a value below 16. `UriComponent.HexRoundTrip` reads back what the encoder writes |
| UriComponent.EscapedByte | src/app/page.jsx:85 | A `%XX` escape reads as a byte. `UriComponent.EscapeRead` and `UriComponent.EscapedByteAt` read back the encoder's escapes |
| UriComponent.Continuation | src/app/page.jsx:85 | A continuation byte gives six payload bits |
| UriComponent.SequenceLength | src/app/page.jsx:85 | The sequence length a UTF-8 lead byte announces, none for a byte that cannot start one. `UriComponent.DecodeEscape` dispatches on it |
| UriComponent.IsScalar | src/app/page.jsx:85 | Code points that are not surrogates and not above U+10FFFF; `decodeURIComponent` refuses the others. `UriComponent.DecodeEscape` checks it |
| UriComponent.DecodeEscape | src/app/page.jsx:85 | One escaped character takes at least three and at most all of the input. `UriComponent.DecodeEscapedChar` proves it reads each encoded character back |
| UriComponent.Decode | src/app/page.jsx:85 | `decodeURIComponent`, with the `URIError` cases as nothing. `UriComponent.DecodeEncode` proves it inverts `UriComponent.Encode` |
| ConvertHandler.FixedHeadersValid | pages/api/convert.ts:105-110 | The Content-Type and X-Filename values never make `setHeader` throw |
| ConvertHandler.HeaderValueOk | pages/api/convert.ts:105-110 | The characters Node's `setHeader` accepts. `ConvertHandler.HeaderValueOkParts`, `ConvertHandler.FixedHeadersValid` and `ConvertHandler.UnsafeDisposition` state which values pass |
| ConvertHandler.HeaderValueOkParts | pages/api/convert.ts:109 | A concatenation is a legal header value exactly when both parts are |
| ConvertHandler.UnsafeDisposition | pages/api/convert.ts:109 | A title that is not a legal header value spoils the Content-Disposition value |
| ConvertHandler.UnsafeTitleFails | pages/api/convert.ts:109 | A checked request whose title is not a legal header value is answered 500 |
| ConvertHandler.TwoLineTitle | pages/api/convert.ts:23-29 | A probe that prints two non-empty runs of word characters on two lines, ending in a line break as `--get-title` prints, gives those two lines as the title. The title keeps the inner line break, so it is not a legal header value |
| Convert.CleanLineKept | pages/api/convert.ts:23-29 | A clean, trimmed, non-empty title printed as one terminated line becomes exactly that title |
| JsText.TrimLineEnd | pages/api/convert.ts:25 | `trim` takes only the final line break from a line-terminated trimmed string |
| JsText.WordCharNotSpace | pages/api/convert.ts:26 | No `\w` character is a `\s` character. `ConvertHandler.TwoLineTitle` uses it |
| ConvertHandler.CleanupOnEveryPath | pages/api/convert.ts:115-118 | After the checks, both temp files are created and both unlinks are attempted in order, whatever happened. The title probe is the first process |
| ConvertHandler.Removed | pages/api/convert.ts:116-117 | The temp files whose unlink succeeds. `ConvertHandler.Exchange.RunPipeline` and `ConvertHandler.Exchange.Handle` state that exactly these leave the live set |
| ConvertHandler.MainTrySucceeds | pages/api/convert.ts:31-111 | The main `try` succeeds exactly when every stage succeeds |
| ConvertHandler.StagesSucceed | pages/api/convert.ts:31-111 | Every stage of the main `try` succeeds. `ConvertHandler.SuccessExactly` proves 200 exactly under it |
| ConvertHandler.SuccessExactly | pages/api/convert.ts:31-111 | A checked request is answered 200 exactly when the socket is attached, the download succeeds, the format has a codec, ffmpeg ends, the read succeeds and Content-Disposition is legal |
| ConvertHandler.SuccessResponse | pages/api/convert.ts:105-111 | A 200 answer carries exactly the three headers and the output file. It started exactly probe, one download with the format's selector and one transcode, and it emitted the progress of every chunk |
| ConvertHandler.FailureResponse | pages/api/convert.ts:112-114 | A 500 answer always carries `Ошибка сервера`. Its only possible header is the Content-Type set before Content-Disposition threw |
| ConvertHandler.UnsupportedFormatReachesDownload | pages/api/convert.ts:87-98 | An unsupported format gives 500 and never starts ffmpeg. When the socket is attached, yt-dlp still runs with `bestaudio` |
| ConvertHandler.SingleDownloadAttempt | pages/api/convert.ts:46-101 | yt-dlp runs at most once, exactly when the checks pass and the socket is attached, with the selector of the format and quality. ffmpeg runs only after a successful download of a supported format |
| ConvertHandler.Run | pages/api/convert.ts:11-119 | The whole handler. Its properties are `EarlyExitsTouchNothing`, `CleanupOnEveryPath`, `SuccessExactly`, `SuccessResponse`, `FailureResponse`, `UnsupportedFormatReachesDownload` and `SingleDownloadAttempt`. `ConvertHandler.Exchange.Handle` is proved equal to it |
| ConvertHandler.Pipeline | pages/api/convert.ts:20-118 | After the checks. `ConvertHandler.CleanupOnEveryPath` states it; `ConvertHandler.Exchange.RunPipeline` is proved equal to it |
| ConvertHandler.TryCatch | pages/api/convert.ts:31-114 | The `try` and `catch`. `ConvertHandler.FailureResponse` states the 500 answer; `ConvertHandler.Exchange.TryAndCatch` is proved equal to it |
| ConvertHandler.MainTry | pages/api/convert.ts:31-111 | The main `try`. `ConvertHandler.MainTrySucceeds` states when it succeeds; `ConvertHandler.Exchange.Attempt` is proved equal to it |
| ConvertHandler.AfterDownload | pages/api/convert.ts:87-111 | Codec choice onwards. `ConvertHandler.UnsupportedFormatReachesDownload` states the refusal; `ConvertHandler.Exchange.Deliver` is proved equal to it |
| ConvertHandler.AfterTranscode | pages/api/convert.ts:100-111 | After ffmpeg is started. `ConvertHandler.Exchange.Respond` is proved equal to it, and `ConvertHandler.SuccessResponse` gives its headers |
| ConvertHandler.Exchange.constructor | pages/api/convert.ts:11 | A fresh response: status 200, no headers, no body, empty logs |
| ConvertHandler.Exchange.SetHeader | pages/api/convert.ts:105-110 | The header is set exactly when the value is legal, and nothing changes otherwise |
| ConvertHandler.Exchange.SetFileHeaders | pages/api/convert.ts:105-110 | Content-Type is always set. Content-Disposition and X-Filename are set when the disposition is legal; otherwise the step fails |
| ConvertHandler.Exchange.CreateTemp | pages/api/convert.ts:20-21 | A new path joins the live temporary files |
| ConvertHandler.Exchange.Unlink | pages/api/convert.ts:116-117 | The attempt is logged. The file leaves the live set only if the unlink succeeds, and a failure is swallowed |
| ConvertHandler.Exchange.OnStdout | pages/api/convert.ts:60-67 | A chunk appends its zero or one progress value to the emitted values |
| ConvertHandler.Exchange.Download | pages/api/convert.ts:46-85 | Starts yt-dlp once, emits `Progresses` of all stdout chunks in order (loop invariant), and returns the close verdict |
| ConvertHandler.Exchange.Deliver | pages/api/convert.ts:87-111 | Equals `AfterDownload`. It refuses an unsupported format before any transcode, and answers 200 with the file only on success |
| ConvertHandler.Exchange.Respond | pages/api/convert.ts:100-111 | Equals `AfterTranscode`. It fails on transcode error, read error or a bad header, in that order |
| ConvertHandler.Exchange.Attempt | pages/api/convert.ts:31-111 | Equals `MainTry` in failure, headers, processes and emits. Status and body change only on success |
| ConvertHandler.Exchange.ProbeTitle | pages/api/convert.ts:23-29 | Starts the probe and returns `ProbedTitle` |
| ConvertHandler.Exchange.TryAndCatch | pages/api/convert.ts:31-114 | Equals `TryCatch`: every failure becomes 500 with the generic message |
| ConvertHandler.Exchange.RunPipeline | pages/api/convert.ts:20-118 | Equals `Pipeline`. Both temp files end live except those whose unlink succeeded |
| ConvertHandler.Exchange.Handle | pages/api/convert.ts:11-119 | Equals `Run` in every field. Live temp files are unchanged on an early exit, and otherwise lose exactly those removed |
| Page.IsValidUrl | src/app/page.jsx:57-64 | Valid exactly when the parser reports `http:` or `https:`; a throwing parser gives invalid |
| Page.BodySelectsFormat | src/app/page.jsx:80 | The body carries `quality` exactly for mp4, with the chosen value. The server therefore picks the same selector as for the page's own format and quality |
| Page.BuildBody | src/app/page.jsx:80 | The request body. `Page.BodySelectsFormat` states when it carries `quality` |
| Page.NextProgress | src/app/page.jsx:37 | Never lower than `prev`; frozen while inactive; the larger of the two while active |
| Page.EventsNeverLowerProgress | src/app/page.jsx:36-38 | Over any series of events, progress never decreases and is frozen while inactive. While active it ends at the largest of the start value and the events |
| Page.AfterEvents | src/app/page.jsx:36-38 | Progress after a series of events. `Page.EventsNeverLowerProgress` states its bounds |
| Page.DownloadNameOfTitle | src/app/page.jsx:85 | The server's `X-Filename` for a title decodes to that title, or to `audio` for the empty title, then `.` and the format |
| Page.DownloadName | src/app/page.jsx:85-93 | The decoded header or `audio`, then `.` and the format. `Page.DownloadNameOfTitle` states it for the server's header, and `Page.Settle` uses it |
| Page.Settle | src/app/page.jsx:85-108 | Silent exactly on an abort. Saved exactly when the name decodes, the answer is ok and the body arrives, under the decoded name. Every other outcome fails |
| Page.SavedUnderServerTitle | src/app/page.jsx:85-97 | When the handler answers 200, the page saves the file under the server's title (or `audio`) with the format as extension |
| Page.PageState.constructor | src/app/page.jsx:23-30 | The initial `useState` values |
| Page.PageState.EditUrl | src/app/page.jsx:136-139 | Stores the text and clears the error |
| Page.PageState.Submit | src/app/page.jsx:51-83 | An empty URL and an invalid URL set their error messages and send nothing. Otherwise it clears the error, sets `loading`, `isActive` and a new controller, and sends `BuildBody` |
| Page.PageState.Finish | src/app/page.jsx:84-108 | `loading`, `isActive` and `controller` are always reset. Per `Settle` it saves with a success toast and progress 0, stays silent, or shows the error toast |
| Page.PageState.Cancel | src/app/page.jsx:111-119 | Does nothing without a controller. Otherwise it aborts that controller and resets controller, `isActive`, `loading` and progress |
| Page.PageState.Click | src/app/page.jsx:166 | With a controller it cancels and leaves `error` and the request log alone. Without one it submits, with the whole effect of `Submit` |
| Page.PageState.OnProgress | src/app/page.jsx:36-38 | Progress becomes `NextProgress` of the old progress |
| ServiceWorker.InstallList | public/sw.js:1-19 | The cache names are `static-v1` and `runtime-v1`, which differ. The install list has seven URLs, `/` and `/offline` among them |
| ServiceWorker.Classify | public/sw.js:38-80 | Passthrough exactly for non-GET; network-first exactly for GET navigations; static cache-first exactly for other static GETs; runtime cache-first for the rest |
| ServiceWorker.StaticAsset | public/sw.js:61-63 | The static criteria. `ServiceWorker.Classify` states the strategy they give |
| ServiceWorker.StartsWith | public/sw.js:62 | `String.prototype.startsWith`. `ServiceWorker.Classify` uses it |
| ServiceWorker.Obsolete | public/sw.js:30 | Exactly the keys that are not current cache names, never more of them than there are keys |
| ServiceWorker.Current | public/sw.js:30 | The list `[STATIC_CACHE, RUNTIME_CACHE]` and its `includes`. `ServiceWorker.Obsolete` and `ServiceWorker.Worker.Activate` use it |
| ServiceWorker.Without | public/sw.js:31 | The keys minus the deleted names |
| ServiceWorker.WithoutNoDuplicates | public/sw.js:31 | Deleting keeps cache names unique |
| ServiceWorker.WithoutNothing | public/sw.js:31 | Deleting nothing keeps the order |
| ServiceWorker.WithoutSnoc | public/sw.js:31 | Deleting one more name is one more deletion |
| ServiceWorker.MatchIn | public/sw.js:52 | `caches.match` returns the entry of the first cache, in creation order, that holds the URL, and nothing when none does |
| ServiceWorker.Worker.Match | public/sw.js:52 | `caches.match` on the worker's state. `ServiceWorker.MatchIn` states what it finds |
| ServiceWorker.Stored | public/sw.js:48 | `put` creates the cache if needed, stores the response under the URL and keeps every other entry and cache |
| ServiceWorker.StaticShadowsRuntime | public/sw.js:48-53 | When the static cache was created first, a later runtime `put` never changes what a match finds for a URL the static cache holds |
| ServiceWorker.PutThenMatch | public/sw.js:48 | After a `put`, a match of that URL finds something |
| ServiceWorker.PrecacheEntries | public/sw.js:10-18 | `addAll` writes exactly the seven listed URLs |
| ServiceWorker.PrecacheAvailable | public/sw.js:10-18 | Every listed URL fetched with a 2xx response, the condition for `addAll` to succeed. `ServiceWorker.Worker.Install` succeeds exactly under it |
| ServiceWorker.Elements | public/sw.js:28-31 | The members of a sequence |
| ServiceWorker.ElementsSnoc | public/sw.js:28-31 | Appending a name adds it |
| ServiceWorker.RemoveOneMore | public/sw.js:31 | Deleting names one at a time deletes their union |
| ServiceWorker.DeleteStep | public/sw.js:31 | Deleting one more name extends the deleted prefix |
| ServiceWorker.KeepCurrent | public/sw.js:23-36 | Removing exactly the non-current names keeps exactly the current caches |
| ServiceWorker.Worker.constructor | public/sw.js:6-9 | The empty CacheStorage a first install starts from |
| ServiceWorker.Worker.Open | public/sw.js:9 | Creates an empty cache at the end of the order when none exists, and changes nothing otherwise |
| ServiceWorker.Worker.Put | public/sw.js:48 | The caches become `Stored`. A new cache joins the end of the order |
| ServiceWorker.Worker.Install | public/sw.js:6-21 | Opens the static cache. Succeeds exactly when every listed URL is fetched with a 2xx response, and then adds all seven; otherwise nothing is added. Other caches are unchanged. A newly created static cache joins the end of the creation order |
| ServiceWorker.Worker.Delete | public/sw.js:31 | Removes the cache and its name from the order |
| ServiceWorker.Worker.DeleteAll | public/sw.js:28-31 | Removes every named cache and its name (loop invariant) |
| ServiceWorker.Worker.Activate | public/sw.js:23-36 | Exactly the two current caches remain, unchanged and in their order |
| ServiceWorker.Worker.HandleFetch | public/sw.js:38-92 | Non-GET: not handled, nothing changes. Network-first: the network response, stored in the runtime cache; on failure the cached match or the offline page. Cache-first: the cached match, else the network response (nothing on failure); a fetched response is stored in the strategy's cache either way |

## Left out

- Running `yt-dlp`, `ffmpeg` and `execSync`, including the shell interpolation of the URL into the probe command: each is an input outcome in `Tools`.
- Real file I/O: `tmpFile`, `fs.stat`, `readFile` and `unlink` become paths, a size and success flags, and file contents are opaque.
- A `fs.stat` that throws inside the `close` callback leaves the promise unsettled, so the request hangs. The model only has a size for exit 0.
- yt-dlp failing to start: the `error` event of `spawn` is not observed by the source, and the model has no such outcome.
- `tmpFile` failing before the `try`: the model assumes both paths are granted.
- `parseFloat`: emitted progress is the matched text. Page progress is a `real` compared as line 37 compares it.
- The `URL` constructor: its result is a parameter, the protocol or nothing.
- Socket.IO setup and `disconnect`, and the React effect re-subscribing on `isActive`. `io.emit` is an append to the emitted log, and a page event is a call of `OnProgress` with the current `isActive`.
- Timing and races: the stream `data` events arrive as a sequence, and the un-awaited `cache.put` calls complete before the next event.
- Rendering, the theme toggle, the sound `play()`, the Select's disabled state and the `createObjectURL` and anchor dance. The anchor click is a download under a name.
- A JSON body of `null`: destructuring it at line 14 throws before the `url` check, outside the `try`, so the framework answers 500. `Request` always has the three fields, so the 400 of `ConvertHandler.EarlyExitsTouchNothing` is stated for object bodies only.
- The `console.warn` and `console.error` logging of lines 28, 70 and 113: it changes no state.
- Headers the framework adds when it sends the body: only the three the handler sets are modelled.
- Request fields `format` and `quality` that are JSON values other than strings. Only missing fields and strings are modelled; `null` does not take the default in the source.
- Cases where `cache.put` rejects, such as partial responses, and Cache `Vary` matching: `put` always stores, keyed by URL.
- `self.skipWaiting()` and `self.clients.claim()`: they affect which pages the worker controls, not the caches.
- Response bodies: a response is an opaque value with its `ok` flag.
- Convert.Progresses: its own contract only bounds the count. What it emits per chunk is stated by `Convert.ProgressesSnoc` and by `Convert.FindProgressMatches`.
- Convert.StripDisallowed: its contract states what survives, not that order is kept. That a clean string is left alone is `Convert.StripAllowed`.
