/** The deterministic stages of the conversion request handler
    (pages/api/convert.ts): the request checks, the yt-dlp format selector,
    the title sanitiser, the progress-line matcher, the download success rule
    and the two per-format tables. The handler that strings them together is in
    module ConvertHandler. */
module Convert {
  import opened Wrappers
  import opened JsText

  const DefaultFormat := "mp3"
  const DefaultQuality := "best"
  const DefaultTitle := "audio"

  // ---------------------------------------------------------------------------
  // Request checks

  /** A field of the parsed JSON body: missing, a string, or any other JSON value. */
  datatype BodyValue = Absent | Text(s: string) | NonText

  datatype EarlyReply = MethodNotAllowed | InvalidUrl

  /** The two checks made before anything is allocated: the method must be POST
      and `url` must be a non-empty string (`!videoUrl || typeof videoUrl !== 'string'`). */
  function EarlyExit(httpMethod: string, url: BodyValue): Option<EarlyReply> {
    if httpMethod != "POST" then Some(MethodNotAllowed)
    else if !url.Text? || url.s == "" then Some(InvalidUrl)
    else None
  }

  /** The destructuring defaults `format = 'mp3'` and `quality = 'best'`, which
      apply only when the field is missing. */
  function FormatOf(format: Option<string>): string { format.GetOr(DefaultFormat) }
  function QualityOf(quality: Option<string>): string { quality.GetOr(DefaultQuality) }

  // ---------------------------------------------------------------------------
  // yt-dlp format selector

  const HeightCapPrefix := "best[height<="

  /** The `-f` argument given to yt-dlp. It is chosen from `format` and
      `quality` alone: audio only unless mp4 is asked for; for mp4 either the
      best video and audio streams, or the best single file whose height does
      not exceed `quality`, which can be read back from the selector. */
  function FormatArg(format: string, quality: string): (r: string)
    ensures (r == "bestaudio") <==> (format != "mp4")
    ensures r == "bestvideo+bestaudio" <==> (format == "mp4" && quality == "best")
    ensures format == "mp4" && quality != "best" ==>
              |r| == |HeightCapPrefix| + |quality| + 1 && r[..|HeightCapPrefix|] == HeightCapPrefix &&
              r[|HeightCapPrefix|..|r| - 1] == quality && r[|r| - 1] == ']'
  {
    if format == "mp4" then
      if quality == "best" then "bestvideo+bestaudio"
      else
        var r := HeightCapPrefix + quality + "]";
        assert r[4] == '[';
        assert r[..|HeightCapPrefix|] == HeightCapPrefix;
        assert r[|HeightCapPrefix|..|r| - 1] == quality;
        r
    else "bestaudio"
  }

  // ---------------------------------------------------------------------------
  // Title sanitiser

  /** The characters `/[^\w\s\-\.]+/g` leaves in place. */
  predicate TitleChar(c: char) {
    IsWordChar(c) || IsSpace(c) || c == '-' || c == '.'
  }

  ghost predicate AllTitleChars(s: string) {
    forall i :: 0 <= i < |s| ==> TitleChar(s[i])
  }

  /** `replace(/[^\w\s\-\.]+/g, '')`: removes every other character, keeping
      the order of the rest. */
  function StripDisallowed(s: string): (r: string)
    ensures AllTitleChars(r)
    ensures |r| <= |s|
  {
    if s == [] then []
    else if TitleChar(s[0]) then [s[0]] + StripDisallowed(s[1..])
    else StripDisallowed(s[1..])
  }

  /** A string of allowed characters is left as it is. */
  lemma {:induction false} StripAllowed(s: string)
    requires AllTitleChars(s)
    ensures StripDisallowed(s) == s
  {
    if s != [] {
      assert AllTitleChars(s[1..]) by {
        forall i | 0 <= i < |s[1..]| ensures TitleChar(s[1..][i]) { assert s[1..][i] == s[i + 1]; }
      }
      StripAllowed(s[1..]);
      assert [s[0]] + s[1..] == s;
    }
  }

  /** Stripping distributes over concatenation: each character is kept or
      dropped on its own. */
  lemma {:induction false} StripConcat(a: string, b: string)
    ensures StripDisallowed(a + b) == StripDisallowed(a) + StripDisallowed(b)
  {
    if a != [] {
      StripConcat(a[1..], b);
      assert (a + b)[0] == a[0] && (a + b)[1..] == a[1..] + b;
      if TitleChar(a[0]) {
        assert StripDisallowed(a + b) == [a[0]] + StripDisallowed(a[1..] + b);
      } else {
        assert StripDisallowed(a + b) == StripDisallowed(a[1..] + b);
      }
    } else {
      assert a + b == b;
    }
  }

  /** The sanitiser proper: strip the disallowed characters, then trim. */
  function Sanitise(s: string): string {
    Trim(StripDisallowed(s))
  }

  lemma TrimKeepsTitleChars(s: string)
    requires AllTitleChars(s)
    ensures AllTitleChars(Trim(s))
  {
    forall k | 0 <= k < |Trim(s)| ensures TitleChar(Trim(s)[k]) {
      TrimAt(s, k);
    }
  }

  /** A sanitised title holds only ASCII word characters, `\s` characters, `-`
      and `.`, and neither starts nor ends with whitespace. */
  lemma SanitiseShape(s: string)
    ensures AllTitleChars(Sanitise(s)) && Trimmed(Sanitise(s))
  {
    TrimSlice(StripDisallowed(s));
    TrimKeepsTitleChars(StripDisallowed(s));
  }

  /** Sanitising twice is sanitising once. */
  lemma SanitiseIdempotent(s: string)
    ensures Sanitise(Sanitise(s)) == Sanitise(s)
  {
    SanitiseShape(s);
    var t := Sanitise(s);
    StripAllowed(t);
    TrimOfTrimmed(t);
  }

  /** A title whose only word, `-` or `.` characters are none at all sanitises to
      the empty string, even though the probe printed something. */
  lemma {:induction false} SanitiseToEmpty(s: string)
    requires forall i :: 0 <= i < |s| ==> !(IsWordChar(s[i]) || s[i] == '-' || s[i] == '.')
    ensures Sanitise(s) == []
  {
    OnlySpacesSurvive(s);
  }

  lemma {:induction false} OnlySpacesSurvive(s: string)
    requires forall i :: 0 <= i < |s| ==> !(IsWordChar(s[i]) || s[i] == '-' || s[i] == '.')
    ensures AllSpace(StripDisallowed(s))
  {
    if s != [] {
      assert forall i :: 0 <= i < |s[1..]| ==> s[1..][i] == s[i + 1];
      OnlySpacesSurvive(s[1..]);
    }
  }

  /** What the title-probe command (`yt-dlp --get-title`) did: threw, or printed
      something on standard output. */
  datatype ProbeResult = ProbeThrew | ProbePrinted(out: string)

  /** The title after lines 23-29: `audio` when the probe throws or prints only
      whitespace; otherwise the sanitised trimmed output, which may be empty. */
  function ProbedTitle(probe: ProbeResult): (title: string)
    ensures probe.ProbeThrew? || Trim(probe.out) == [] ==> title == DefaultTitle
    ensures probe.ProbePrinted? && Trim(probe.out) != [] ==>
              title == Sanitise(Trim(probe.out)) && AllTitleChars(title) && Trimmed(title)
  {
    match probe
    case ProbeThrew => DefaultTitle
    case ProbePrinted(out) =>
      var t := Trim(out);
      if t != [] then SanitiseShape(t); Sanitise(t) else DefaultTitle
  }

  /** A probe output that already is a clean title is used as it is. */
  lemma CleanTitleKept(out: string)
    requires out != [] && AllTitleChars(out) && Trimmed(out)
    ensures ProbedTitle(ProbePrinted(out)) == out
  {
    TrimOfTrimmed(out);
    StripAllowed(out);
  }

  /** The same for a clean title printed as one terminated line. */
  lemma CleanLineKept(title: string)
    requires title != [] && AllTitleChars(title) && Trimmed(title)
    ensures ProbedTitle(ProbePrinted(title + "\n")) == title
  {
    TrimLineEnd(title);
    CleanTitleKept(title);
  }

  // ---------------------------------------------------------------------------
  // Progress-line matcher: `str.match(/\[download\]\s+([\d\.]+)%/)`

  const DownloadTag := "[download]"

  predicate NumberChar(c: char) { IsDigit(c) || c == '.' }

  /** End of the run of `\s` characters starting at `j`. */
  function SpaceEnd(s: string, j: nat): (k: nat)
    requires j <= |s|
    ensures j <= k <= |s|
    decreases |s| - j
  {
    if j < |s| && IsSpace(s[j]) then SpaceEnd(s, j + 1) else j
  }

  /** End of the run of digits and dots starting at `j`. */
  function NumberEnd(s: string, j: nat): (k: nat)
    requires j <= |s|
    ensures j <= k <= |s|
    decreases |s| - j
  {
    if j < |s| && NumberChar(s[j]) then NumberEnd(s, j + 1) else j
  }

  /** `SpaceEnd` stops at the first character that is not `\s`. */
  lemma {:induction false} SpaceEndRun(s: string, j: nat)
    requires j <= |s|
    ensures forall m :: j <= m < SpaceEnd(s, j) ==> IsSpace(s[m])
    ensures SpaceEnd(s, j) < |s| ==> !IsSpace(s[SpaceEnd(s, j)])
    decreases |s| - j
  {
    if j < |s| && IsSpace(s[j]) { SpaceEndRun(s, j + 1); }
  }

  /** `NumberEnd` stops at the first character that is not a digit or a dot. */
  lemma {:induction false} NumberEndRun(s: string, j: nat)
    requires j <= |s|
    ensures forall m :: j <= m < NumberEnd(s, j) ==> NumberChar(s[m])
    ensures NumberEnd(s, j) < |s| ==> !NumberChar(s[NumberEnd(s, j)])
    decreases |s| - j
  {
    if j < |s| && NumberChar(s[j]) { NumberEndRun(s, j + 1); }
  }

  /** The regular expression matches at `i` with its group spanning `s[j..k]`:
      the tag, one or more `\s`, one or more digits or dots, then `%`. */
  ghost predicate RegexMatch(s: string, i: nat, j: nat, k: nat) {
    i + |DownloadTag| < j < k < |s| && s[i..i + |DownloadTag|] == DownloadTag &&
    (forall m :: i + |DownloadTag| <= m < j ==> IsSpace(s[m])) &&
    (forall m :: j <= m < k ==> NumberChar(s[m])) &&
    s[k] == '%'
  }

  /** The match attempt at position `i`, with the greedy quantifiers. */
  function MatchAt(s: string, i: nat): Option<string>
    requires i <= |s|
  {
    var t := i + |DownloadTag|;
    if t <= |s| && s[i..t] == DownloadTag then
      var j := SpaceEnd(s, t);
      var k := NumberEnd(s, j);
      if j > t && k > j && k < |s| && s[k] == '%' then Some(s[j..k]) else None
    else None
  }

  /** The greedy attempt finds a match exactly when the regular expression
      matches at `i`; because whitespace, digits/dots and `%` are disjoint, there
      is only one way to match there, and its group is what is returned. */
  lemma MatchAtSound(s: string, i: nat)
    requires i <= |s| && MatchAt(s, i).Some?
    ensures exists j: nat, k: nat :: RegexMatch(s, i, j, k) && MatchAt(s, i) == Some(s[j..k])
  {
    var t := i + |DownloadTag|;
    var j := SpaceEnd(s, t);
    var k := NumberEnd(s, j);
    SpaceEndRun(s, t);
    NumberEndRun(s, j);
    assert RegexMatch(s, i, j, k);
  }

  lemma MatchAtComplete(s: string, i: nat, j: nat, k: nat)
    requires RegexMatch(s, i, j, k)
    ensures MatchAt(s, i) == Some(s[j..k])
  {
    var t := i + |DownloadTag|;
    assert !IsSpace(s[j]) by { assert NumberChar(s[j]); }
    SpaceEndAt(s, t, j);
    NumberEndAt(s, j, k);
  }

  lemma {:induction false} SpaceEndAt(s: string, a: nat, j: nat)
    requires a <= j < |s|
    requires forall m :: a <= m < j ==> IsSpace(s[m])
    requires !IsSpace(s[j])
    ensures SpaceEnd(s, a) == j
    decreases j - a
  {
    if a < j { SpaceEndAt(s, a + 1, j); }
  }

  lemma {:induction false} NumberEndAt(s: string, a: nat, k: nat)
    requires a <= k < |s|
    requires forall m :: a <= m < k ==> NumberChar(s[m])
    requires !NumberChar(s[k])
    ensures NumberEnd(s, a) == k
    decreases k - a
  {
    if a < k { NumberEndAt(s, a + 1, k); }
  }

  /** The leftmost match at or after `from`. */
  function FirstMatch(s: string, from: nat): Option<string>
    requires from <= |s|
    decreases |s| - from
  {
    match MatchAt(s, from)
    case Some(g) => Some(g)
    case None => if from == |s| then None else FirstMatch(s, from + 1)
  }

  /** `FirstMatch` is the attempt at the first position, from `from` on, where
      one succeeds, and nothing when none does. */
  lemma {:induction false} FirstMatchLeftmost(s: string, from: nat)
    requires from <= |s|
    ensures FirstMatch(s, from).Some? ==>
              exists i :: from <= i <= |s| && MatchAt(s, i) == FirstMatch(s, from) &&
                          forall i' :: from <= i' < i ==> MatchAt(s, i').None?
    ensures FirstMatch(s, from).None? ==> forall i :: from <= i <= |s| ==> MatchAt(s, i).None?
    decreases |s| - from
  {
    if MatchAt(s, from).None? && from < |s| {
      FirstMatchLeftmost(s, from + 1);
      assert FirstMatch(s, from) == FirstMatch(s, from + 1);
      if FirstMatch(s, from).Some? {
        var i :| from + 1 <= i <= |s| && MatchAt(s, i) == FirstMatch(s, from + 1) &&
                 forall i' :: from + 1 <= i' < i ==> MatchAt(s, i').None?;
        forall i' | from <= i' < i ensures MatchAt(s, i').None? {
          if i' > from { assert from + 1 <= i' < i; }
        }
      } else {
        forall i | from <= i <= |s| ensures MatchAt(s, i).None? {
          if i > from { assert from + 1 <= i <= |s|; }
        }
      }
    }
  }

  /** `data.toString().match(...)`: the group of the leftmost match in a stdout
      chunk, or nothing. */
  function FindProgress(chunk: string): Option<string> {
    FirstMatch(chunk, 0)
  }

  /** A chunk yields a progress value exactly when the regular expression
      matches somewhere in it; the value is the group of its leftmost match, a
      non-empty run of digits and dots. */
  lemma FindProgressMatches(chunk: string)
    ensures FindProgress(chunk).Some? <==> exists i, j, k :: RegexMatch(chunk, i, j, k)
    ensures FindProgress(chunk).Some? ==>
              exists i: nat, j: nat, k: nat :: RegexMatch(chunk, i, j, k) && FindProgress(chunk) == Some(chunk[j..k]) &&
                                forall i', j', k' :: RegexMatch(chunk, i', j', k') ==> i <= i'
  {
    FirstMatchLeftmost(chunk, 0);
    if FindProgress(chunk).Some? {
      var i :| 0 <= i <= |chunk| && MatchAt(chunk, i) == FindProgress(chunk) &&
               forall i' :: 0 <= i' < i ==> MatchAt(chunk, i').None?;
      MatchAtSound(chunk, i);
      var j: nat, k: nat :| RegexMatch(chunk, i, j, k) && MatchAt(chunk, i) == Some(chunk[j..k]);
      forall i', j', k' | RegexMatch(chunk, i', j', k') ensures i <= i' {
        MatchAtComplete(chunk, i', j', k');
      }
    } else {
      forall i, j, k | RegexMatch(chunk, i, j, k) ensures false {
        MatchAtComplete(chunk, i, j, k);
      }
    }
  }

  lemma CaptureIsNumber(chunk: string)
    requires FindProgress(chunk).Some?
    ensures var p := FindProgress(chunk).value;
            p != [] && forall m :: 0 <= m < |p| ==> NumberChar(p[m])
  {
    FindProgressMatches(chunk);
    var i: nat, j: nat, k: nat :| RegexMatch(chunk, i, j, k) && FindProgress(chunk) == Some(chunk[j..k]);
    assert forall m :: 0 <= m < k - j ==> chunk[j..k][m] == chunk[j + m];
  }

  /** The progress values one stdout chunk produces (zero or one). */
  function ChunkProgress(chunk: string): (r: seq<string>)
    ensures |r| <= 1
  {
    match FindProgress(chunk)
    case Some(p) => [p]
    case None => []
  }

  /** The progress values emitted for a sequence of stdout chunks, in order:
      at most one per chunk. */
  function Progresses(chunks: seq<string>): (r: seq<string>)
    ensures |r| <= |chunks|
  {
    if chunks == [] then []
    else Progresses(chunks[..|chunks| - 1]) + ChunkProgress(chunks[|chunks| - 1])
  }

  lemma ProgressesSnoc(chunks: seq<string>, chunk: string)
    ensures Progresses(chunks + [chunk]) == Progresses(chunks) + ChunkProgress(chunk)
  {
    assert (chunks + [chunk])[..|chunks|] == chunks;
  }

  lemma ProgressesStep(chunks: seq<string>, i: nat)
    requires i < |chunks|
    ensures Progresses(chunks[..i + 1]) == Progresses(chunks[..i]) + ChunkProgress(chunks[i])
  {
    assert chunks[..i + 1] == chunks[..i] + [chunks[i]];
    ProgressesSnoc(chunks[..i], chunks[i]);
  }

  // ---------------------------------------------------------------------------
  // yt-dlp close handling

  /** How the download attempt ended; the two rejections carry different
      messages in the source (empty file, exit code). */
  datatype DownloadResult = Downloaded | EmptyFile | ExitFailure(code: Option<int>)

  /** The `close` handler: exit code 0 and a non-empty file resolves; exit code 0
      and an empty file is one rejection, any other exit (including none, when
      the process was killed by a signal) another. `size` is read only on exit 0. */
  function DownloadVerdict(code: Option<int>, size: nat): (r: DownloadResult)
    ensures r.Downloaded? <==> code == Some(0) && size > 0
    ensures r.EmptyFile? <==> code == Some(0) && size == 0
    ensures r.ExitFailure? <==> code != Some(0)
  {
    if code == Some(0) then (if size == 0 then EmptyFile else Downloaded)
    else ExitFailure(code)
  }

  // ---------------------------------------------------------------------------
  // Per-format tables

  /** The fluent-ffmpeg settings: an audio or a video codec and a container. */
  datatype Codec = AudioCodec(codec: string, container: string) | VideoCodec(codec: string, container: string)

  /** The codec chain of lines 90-98; `None` is the `Неподдерживаемый формат`
      rejection, made before `save` is called. */
  function CodecFor(format: string): (r: Option<Codec>)
    ensures r.Some? <==> format in {"mp3", "wav", "mp4"}
    ensures r.Some? ==> r.value.container == format
    ensures r.Some? ==> (r.value.VideoCodec? <==> format == "mp4")
    ensures format == "mp3" ==> r.value.codec == "libmp3lame"
    ensures format == "wav" ==> r.value.codec == "pcm_s16le"
    ensures format == "mp4" ==> r.value.codec == "libx264"
  {
    if format == "mp3" then Some(AudioCodec("libmp3lame", "mp3"))
    else if format == "wav" then Some(AudioCodec("pcm_s16le", "wav"))
    else if format == "mp4" then Some(VideoCodec("libx264", "mp4"))
    else None
  }

  /** The Content-Type ternary of line 107. */
  function ContentType(format: string): string {
    if format == "mp4" then "video/mp4" else if format == "wav" then "audio/wav" else "audio/mpeg"
  }

  /** The media type sent always describes what the transcoder wrote: video for
      the one video codec, audio otherwise, with the container as subtype (MPEG
      audio for mp3). */
  lemma ContentTypeMatchesCodec(format: string)
    requires CodecFor(format).Some?
    ensures CodecFor(format).value.VideoCodec? <==> ContentType(format) == "video/mp4"
    ensures ContentType(format) == (match CodecFor(format).value.container
                                    case "mp3" => "audio/mpeg"
                                    case "wav" => "audio/wav"
                                    case _ => "video/mp4")
  {
  }

  /** The Content-Disposition value of line 109. */
  function Disposition(title: string, format: string): string {
    "attachment; filename=\"" + title + "." + format + "\""
  }
}
