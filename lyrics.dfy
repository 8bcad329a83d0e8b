/** The lyrics screen: parsing the synced (LRC) and plain lyrics that the
    lyrics service returns, choosing between them, and finding the line to
    highlight for the current playback position. */
module Lyrics {
  import opened Wrappers
  import opened Seqs
  import opened Strings

  /** One displayed line; `startTime` is in milliseconds. */
  datatype Lyric = Lyric(startTime: int, text: string)

  // ---------------------------------------------------------------------------
  // Synced lyrics: lines of the form `[mm:ss.xx]text`
  // ---------------------------------------------------------------------------

  /** The three groups of `^\[(\d+):(\d+\.\d+)\](.+)$`, with the seconds
      group split at its dot. */
  datatype LrcLine = LrcLine(minutes: string, seconds: string, fraction: string, text: string)

  /** What the regular expression accepts: non-empty digit runs, and a text
      of at least one character that `.` matches. */
  predicate WellFormed(l: LrcLine) {
    && |l.minutes| > 0 && AllDigits(l.minutes)
    && |l.seconds| > 0 && AllDigits(l.seconds)
    && |l.fraction| > 0 && AllDigits(l.fraction)
    && |l.text| > 0 && !HasLineTerminator(l.text)
  }

  /** The `ss.xx` part of the time stamp. */
  function StampText(l: LrcLine): string {
    l.seconds + ("." + l.fraction)
  }

  /** The line `[mm:ss.xx]text`. */
  function FormatLrc(l: LrcLine): string {
    "[" + (l.minutes + (":" + (StampText(l) + ("]" + l.text))))
  }

  /** Matching `\d+\.\d+` against the time stamp, between the minutes
      and the text already matched. */
  function MatchStamp(minutes: string, stamp: string, text: string): (r: Option<LrcLine>)
    ensures r.Some? ==> r.value.minutes == minutes && r.value.text == text
    ensures r.Some? ==> && |r.value.seconds| > 0 && AllDigits(r.value.seconds)
                        && |r.value.fraction| > 0 && AllDigits(r.value.fraction)
                        && stamp == StampText(r.value)
  {
    var d := FirstIndexOf(stamp, '.');
    if d <= 0 || d + 1 >= |stamp| || !AllDigits(stamp[..d]) || !AllDigits(stamp[d + 1..]) then None
    else
      SplitAt(stamp, d);
      Some(LrcLine(minutes, stamp[..d], stamp[d + 1..], text))
  }

  /** Matching `(\d+\.\d+)\](.+)$` against what follows the colon. */
  function MatchAfterColon(minutes: string, rest: string): (r: Option<LrcLine>)
    ensures r.Some? ==> r.value.minutes == minutes && |r.value.text| > 0 && !HasLineTerminator(r.value.text)
    ensures r.Some? ==> && |r.value.seconds| > 0 && AllDigits(r.value.seconds)
                        && |r.value.fraction| > 0 && AllDigits(r.value.fraction)
    ensures r.Some? ==> rest == StampText(r.value) + ("]" + r.value.text)
  {
    var b := FirstIndexOf(rest, ']');
    if b < 0 then None
    else
      var text := rest[b + 1..];
      if |text| == 0 || HasLineTerminator(text) then None
      else
        assert rest == rest[..b] + ("]" + text) by { SplitAt(rest, b); }
        MatchStamp(minutes, rest[..b], text)
  }

  /** Matching one line against the pattern. The digit groups hold no `:`,
      `.` or `]`, so each is delimited by the first such character. */
  function MatchLrc(line: string): (r: Option<LrcLine>)
    ensures r.Some? ==> WellFormed(r.value) && FormatLrc(r.value) == line
  {
    if |line| == 0 || line[0] != '[' then None
    else
      var body := line[1..];
      var c := FirstIndexOf(body, ':');
      if c <= 0 || !AllDigits(body[..c]) then None
      else
        var r := MatchAfterColon(body[..c], body[c + 1..]);
        SplitAt(body, c);
        SplitAt(line, 0);
        r
  }

  lemma DigitsHaveNo(s: string, c: char)
    requires AllDigits(s) && !IsDigit(c)
    ensures c !in s
  {
  }

  lemma MatchStampText(l: LrcLine)
    requires WellFormed(l)
    ensures MatchStamp(l.minutes, StampText(l), l.text) == Some(l)
  {
    var stamp := StampText(l);
    DigitsHaveNo(l.seconds, '.');
    AroundParts(l.seconds, '.', l.fraction);
    FirstIndexOfAt(stamp, '.', |l.seconds|);
  }

  lemma MatchAfterColonAt(minutes: string, rest: string, b: nat)
    requires b == FirstIndexOf(rest, ']') && |rest[b + 1..]| > 0 && !HasLineTerminator(rest[b + 1..])
    ensures MatchAfterColon(minutes, rest) == MatchStamp(minutes, rest[..b], rest[b + 1..])
  {
  }

  lemma MatchAfterColonText(l: LrcLine)
    requires WellFormed(l)
    ensures MatchAfterColon(l.minutes, StampText(l) + ("]" + l.text)) == Some(l)
  {
    var stamp := StampText(l);
    var rest := stamp + ("]" + l.text);
    assert ']' !in stamp by {
      DigitsHaveNo(l.seconds, ']');
      DigitsHaveNo(l.fraction, ']');
    }
    AroundParts(stamp, ']', l.text);
    FirstIndexOfAt(rest, ']', |stamp|);
    MatchAfterColonAt(l.minutes, rest, |stamp|);
    MatchStampText(l);
  }

  /** Every well-formed line is matched, with the same groups. */
  lemma MatchFormat(l: LrcLine)
    requires WellFormed(l)
    ensures MatchLrc(FormatLrc(l)) == Some(l)
  {
    var line := FormatLrc(l);
    var rest := StampText(l) + ("]" + l.text);
    var body := l.minutes + (":" + rest);
    AroundParts([], '[', body);
    DigitsHaveNo(l.minutes, ':');
    AroundParts(l.minutes, ':', rest);
    FirstIndexOfAt(body, ':', |l.minutes|);
    MatchAfterColonText(l);
  }

  function Pow10(n: nat): (r: nat)
    ensures r >= 1
  {
    if n == 0 then 1 else 10 * Pow10(n - 1)
  }

  /** `+sec` for a `digits.digits` group, as an exact decimal. */
  function SecondsValue(l: LrcLine): real
    requires WellFormed(l)
  {
    DigitsValue(l.seconds) as real + DigitsValue(l.fraction) as real / Pow10(|l.fraction|) as real
  }

  /** `Math.round(+min * 60000 + +sec * 1000)`. */
  function LrcStartTime(l: LrcLine): (r: int)
    requires WellFormed(l)
    ensures r >= 0
    ensures var ms := DigitsValue(l.minutes) as real * 60000.0 + SecondsValue(l) * 1000.0;
      ms - 0.5 < r as real <= ms + 0.5
  {
    RoundHalfUp(DigitsValue(l.minutes) as real * 60000.0 + SecondsValue(l) * 1000.0)
  }

  function LrcLyric(l: LrcLine): Lyric
    requires WellFormed(l)
  {
    Lyric(LrcStartTime(l), Trim(l.text))
  }

  /** The per-line callback of the synced parse: `null` for a line the
      pattern rejects. */
  function ParseSyncedLine(line: string): (r: Option<Lyric>)
    ensures r.Some? <==> MatchLrc(line).Some?
    ensures r.Some? ==> r.value == LrcLyric(MatchLrc(line).value)
  {
    match MatchLrc(line)
    case None => None
    case Some(l) => Some(LrcLyric(l))
  }

  /** The lyrics of the lines that parse, in order (`map`, then
      `filter(Boolean)`). */
  function ParseSyncedLines(lines: seq<string>): (r: seq<Lyric>)
    ensures |r| <= |lines|
    ensures forall i :: 0 <= i < |r| ==> r[i].startTime >= 0
  {
    if lines == [] then []
    else
      var rest := ParseSyncedLines(lines[1..]);
      match ParseSyncedLine(lines[0])
      case None => rest
      case Some(lyric) => [lyric] + rest
  }

  function ParseSynced(s: string): (r: seq<Lyric>)
    ensures |r| <= |Split(s, '\n')|
    ensures forall i :: 0 <= i < |r| ==> r[i].startTime >= 0
  {
    ParseSyncedLines(Split(s, '\n'))
  }

  /** Parsing works line by line: the lyrics of two blocks of lines are
      those of the first followed by those of the second. */
  lemma {:induction false} ParseSyncedLinesAppend(a: seq<string>, b: seq<string>)
    ensures ParseSyncedLines(a + b) == ParseSyncedLines(a) + ParseSyncedLines(b)
  {
    if a == [] {
      assert a + b == b;
    } else {
      assert (a + b)[1..] == a[1..] + b;
      ParseSyncedLinesAppend(a[1..], b);
    }
  }

  /** Lines the pattern rejects contribute nothing. */
  lemma {:induction false} ParseSyncedLinesRejected(lines: seq<string>)
    requires forall k :: 0 <= k < |lines| ==> MatchLrc(lines[k]).None?
    ensures ParseSyncedLines(lines) == []
  {
    if lines != [] {
      ParseSyncedLinesRejected(lines[1..]);
    }
  }

  lemma ParseFormattedLine(l: LrcLine)
    requires WellFormed(l)
    ensures ParseSyncedLine(FormatLrc(l)) == Some(LrcLyric(l))
  {
    MatchFormat(l);
  }

  /** When every line parses, the result is their lyrics, in order. */
  lemma {:induction false} ParseSyncedLinesAllMatch(lines: seq<string>, out: seq<Lyric>)
    requires |out| == |lines|
    requires forall k :: 0 <= k < |lines| ==> ParseSyncedLine(lines[k]) == Some(out[k])
    ensures ParseSyncedLines(lines) == out
  {
    if lines != [] {
      ParseSyncedLinesAllMatch(lines[1..], out[1..]);
      assert out == [out[0]] + out[1..];
    }
  }

  /** A written line never contains a line feed. */
  lemma FormatHasNoLineFeed(l: LrcLine)
    requires WellFormed(l)
    ensures '\n' !in FormatLrc(l)
  {
    DigitsHaveNo(l.minutes, '\n');
    DigitsHaveNo(l.seconds, '\n');
    DigitsHaveNo(l.fraction, '\n');
  }

  /** A whole LRC file round-trips: writing the entries one per line and
      parsing the result gives exactly their lyrics. */
  lemma ParseSyncedFile(ls: seq<LrcLine>, lines: seq<string>, out: seq<Lyric>)
    requires |lines| == |ls| && |out| == |ls|
    requires forall k :: 0 <= k < |ls| ==> WellFormed(ls[k])
    requires forall k :: 0 <= k < |ls| ==> lines[k] == FormatLrc(ls[k]) && out[k] == LrcLyric(ls[k])
    ensures ParseSynced(Join(lines, "\n")) == out
  {
    if ls == [] {
      assert Split("", '\n') == [""];
      assert MatchLrc("") == None;
    } else {
      forall k | 0 <= k < |lines| ensures '\n' !in lines[k] {
        FormatHasNoLineFeed(ls[k]);
      }
      forall k | 0 <= k < |lines| ensures ParseSyncedLine(lines[k]) == Some(out[k]) {
        ParseFormattedLine(ls[k]);
      }
      SplitJoin(lines, '\n');
      ParseSyncedLinesAllMatch(lines, out);
    }
  }

  /** A line that ends in a line terminator is dropped: a file with Windows
      line ends (`\r\n`) keeps only its last line. */
  lemma TerminatedLineDropped(line: string)
    requires |line| > 0 && IsLineTerminator(line[|line| - 1])
    ensures ParseSyncedLine(line) == None
  {
    var m := MatchLrc(line);
    if m.Some? {
      assert false;
    }
  }

  lemma ExampleStartTime()
    ensures WellFormed(LrcLine("01", "02", "50", "Hello"))
    ensures LrcStartTime(LrcLine("01", "02", "50", "Hello")) == 62500
  {
    assert DigitsValue("01") == 1 by { assert "01"[..1] == "0"; }
    assert DigitsValue("02") == 2 by { assert "02"[..1] == "0"; }
    assert DigitsValue("50") == 50 by { assert "50"[..1] == "5"; }
    assert Pow10(2) == 100;
  }

  lemma ExampleSyncedLine()
    ensures ParseSyncedLine("[01:02.50]Hello") == Some(Lyric(62500, "Hello"))
  {
    var l := LrcLine("01", "02", "50", "Hello");
    assert FormatLrc(l) == "[01:02.50]Hello";
    TrimUnpadded("Hello");
    ExampleStartTime();
    ParseFormattedLine(l);
  }

  // ---------------------------------------------------------------------------
  // Plain lyrics: one line per second
  // ---------------------------------------------------------------------------

  predicate NonBlank(line: string) {
    Trim(line) != []
  }

  /** The non-blank lines, trimmed, the `i`-th of them starting at `i`
      seconds. */
  function ParsePlain(s: string): (r: seq<Lyric>)
    ensures |r| <= |Split(s, '\n')|
    ensures forall i :: 0 <= i < |r| ==> r[i].text != []
  {
    var lines := Filter(Split(s, '\n'), NonBlank);
    seq(|lines|, i requires 0 <= i < |lines| => Lyric(i * 1000, Trim(lines[i])))
  }

  /** Plain lyrics have one line per non-blank line of the text, each
      starting a second after the previous one and none empty or padded. */
  lemma ParsePlainShape(s: string)
    ensures |ParsePlain(s)| == |Filter(Split(s, '\n'), NonBlank)|
    ensures forall i :: 0 <= i < |ParsePlain(s)| ==>
      var l := ParsePlain(s)[i];
      && l.startTime == 1000 * i
      && l.text != []
      && !IsWhitespace(l.text[0]) && !IsWhitespace(l.text[|l.text| - 1])
    ensures forall i :: 0 <= i < |ParsePlain(s)| ==>
      ParsePlain(s)[i].text == Trim(Filter(Split(s, '\n'), NonBlank)[i])
  {
    var lines := Filter(Split(s, '\n'), NonBlank);
    forall i | 0 <= i < |lines| ensures NonBlank(lines[i]) {
      assert lines[i] in lines;
    }
  }

  /** A line that is not empty, has no white space at either end and no
      line feed: one that plain lyrics keep as it is. */
  predicate PlainLine(t: string) {
    t != [] && '\n' !in t && !IsWhitespace(t[0]) && !IsWhitespace(t[|t| - 1])
  }

  lemma PlainLineKept(t: string)
    requires PlainLine(t)
    ensures Trim(t) == t && NonBlank(t)
  {
    TrimUnpadded(t);
  }

  lemma PlainLinesKept(texts: seq<string>)
    requires forall i :: 0 <= i < |texts| ==> PlainLine(texts[i])
    ensures Filter(texts, NonBlank) == texts
    ensures forall i :: 0 <= i < |texts| ==> Trim(texts[i]) == texts[i]
  {
    forall i | 0 <= i < |texts| ensures Trim(texts[i]) == texts[i] && NonBlank(texts[i]) {
      PlainLineKept(texts[i]);
    }
    FilterKeepsAll(texts, NonBlank);
  }

  lemma ParsePlainEmpty()
    ensures ParsePlain("") == []
  {
    assert Split("", '\n') == [""];
    assert !NonBlank("");
  }

  lemma PlainOfLines(s: string, texts: seq<string>)
    requires Filter(Split(s, '\n'), NonBlank) == texts
    requires forall i :: 0 <= i < |texts| ==> Trim(texts[i]) == texts[i]
    ensures ParsePlain(s) == seq(|texts|, i requires 0 <= i < |texts| => Lyric(i * 1000, texts[i]))
  {
  }

  /** Non-blank, unpadded lines written one per line parse back to
      exactly those lines, a second apart. */
  lemma ParsePlainFile(texts: seq<string>)
    requires forall i :: 0 <= i < |texts| ==> PlainLine(texts[i])
    ensures ParsePlain(Join(texts, "\n")) ==
      seq(|texts|, i requires 0 <= i < |texts| => Lyric(i * 1000, texts[i]))
  {
    if |texts| == 0 {
      assert Join(texts, "\n") == "";
      ParsePlainEmpty();
    } else {
      var joined := Join(texts, "\n");
      assert forall i :: 0 <= i < |texts| ==> '\n' !in texts[i];
      SplitJoin(texts, '\n');
      PlainLinesKept(texts);
      PlainOfLines(joined, texts);
    }
  }

  // ---------------------------------------------------------------------------
  // Fetching
  // ---------------------------------------------------------------------------

  /** What the request for a track's lyrics yields: a failure (network or
      JSON decoding, with its message), a response whose status is not OK,
      or the decoded body's two fields. */
  datatype LyricsResponse =
    | FetchFailed(message: string)
    | NotOk
    | Received(syncedLyrics: Option<string>, plainLyrics: Option<string>)

  const NoLyricsFound: string := "No lyrics found"

  /** JavaScript truthiness of an optional string field. */
  predicate Truthy(s: Option<string>) {
    s.Some? && s.value != ""
  }

  /** The lyrics, or the message of the error thrown while getting them. */
  function LoadLyrics(resp: LyricsResponse): (r: Result<seq<Lyric>, string>)
    ensures r.Err? <==> (resp.Received? ==> !Truthy(resp.syncedLyrics) && !Truthy(resp.plainLyrics))
    ensures resp.FetchFailed? ==> r == Err(resp.message)
    ensures r.Err? && !resp.FetchFailed? ==> r.error == NoLyricsFound
    ensures r.Ok? && Truthy(resp.syncedLyrics) ==> r.value == ParseSynced(resp.syncedLyrics.value)
    ensures r.Ok? && !Truthy(resp.syncedLyrics) ==> r.value == ParsePlain(resp.plainLyrics.value)
  {
    match resp
    case FetchFailed(message) => Err(message)
    case NotOk => Err(NoLyricsFound)
    case Received(synced, plain) =>
      if Truthy(synced) then Ok(ParseSynced(synced.value))
      else if Truthy(plain) then Ok(ParsePlain(plain.value))
      else Err(NoLyricsFound)
  }

  /** The state the screen keeps. */
  datatype LyricsState = LyricsState(lyrics: seq<Lyric>, error: Option<string>, currentLineIndex: int)

  /** The state once a fetch settles; a fetch cancelled because the track
      changed leaves it alone. The highlighted line is not reset. */
  function AfterFetch(st: LyricsState, resp: LyricsResponse, cancelled: bool): (r: LyricsState)
    ensures cancelled ==> r == st
    ensures !cancelled ==> r.currentLineIndex == st.currentLineIndex
    ensures !cancelled ==> (r.error.None? <==> LoadLyrics(resp).Ok?)
    ensures !cancelled && r.error.Some? ==> r.lyrics == [] && r.error.value == LoadLyrics(resp).error
    ensures !cancelled && r.error.None? ==> r.lyrics == LoadLyrics(resp).value
  {
    if cancelled then st
    else
      match LoadLyrics(resp)
      case Ok(parsed) => st.(lyrics := parsed, error := None)
      case Err(message) => st.(lyrics := [], error := Some(message))
  }

  // ---------------------------------------------------------------------------
  // The highlighted line
  // ---------------------------------------------------------------------------

  /** The screen runs 0.93 s ahead of the player. */
  const LyricsOffsetMs: int := -930

  /** The position the screen highlights for a player position. */
  function LookAhead(position: int): int {
    position - LyricsOffsetMs
  }

  /** Line `i` has started at `pos` and the next one has not. */
  predicate IsActive(lyrics: seq<Lyric>, i: nat, pos: int)
    requires i < |lyrics|
  {
    pos >= lyrics[i].startTime && (i + 1 == |lyrics| || pos < lyrics[i + 1].startTime)
  }

  /** `findIndex` of an active line, searching from `from`. */
  function FirstActiveFrom(lyrics: seq<Lyric>, pos: int, from: nat): (r: int)
    requires from <= |lyrics|
    ensures r == -1 || from <= r < |lyrics|
    ensures r >= 0 ==> IsActive(lyrics, r, pos) && forall j :: from <= j < r ==> !IsActive(lyrics, j, pos)
    ensures r == -1 ==> forall j :: from <= j < |lyrics| ==> !IsActive(lyrics, j, pos)
    decreases |lyrics| - from
  {
    if from == |lyrics| then -1
    else if IsActive(lyrics, from, pos) then from
    else FirstActiveFrom(lyrics, pos, from + 1)
  }

  /** The index of the first line active at `LookAhead(position)`, or -1
      when none is. */
  function ActiveLine(lyrics: seq<Lyric>, position: int): (r: int)
    ensures -1 <= r < |lyrics|
    ensures r >= 0 ==> IsActive(lyrics, r, LookAhead(position))
    ensures r >= 0 ==> forall j :: 0 <= j < r ==> !IsActive(lyrics, j, LookAhead(position))
    ensures r == -1 <==> forall j :: 0 <= j < |lyrics| ==> !IsActive(lyrics, j, LookAhead(position))
  {
    FirstActiveFrom(lyrics, LookAhead(position), 0)
  }

  /** The highlighted line after a position or lyrics change: kept when
      there are no lyrics or no line is active. */
  function NextLineIndex(st: LyricsState, position: int): (r: LyricsState)
    ensures r.lyrics == st.lyrics && r.error == st.error
    ensures r.currentLineIndex == st.currentLineIndex || 0 <= r.currentLineIndex < |st.lyrics|
    ensures r.currentLineIndex != st.currentLineIndex ==> r.currentLineIndex == ActiveLine(st.lyrics, position)
    ensures |st.lyrics| > 0 && ActiveLine(st.lyrics, position) != -1 ==>
      r.currentLineIndex == ActiveLine(st.lyrics, position)
    ensures |st.lyrics| == 0 || ActiveLine(st.lyrics, position) == -1 ==> r == st
  {
    if |st.lyrics| == 0 then st
    else
      var idx := ActiveLine(st.lyrics, position);
      if idx != -1 then st.(currentLineIndex := idx) else st
  }

  predicate Sorted(lyrics: seq<Lyric>) {
    forall i, j :: 0 <= i < j < |lyrics| ==> lyrics[i].startTime <= lyrics[j].startTime
  }

  /** When no line is active and the first has started, every line has. */
  lemma {:induction false} AllStarted(lyrics: seq<Lyric>, pos: int, i: nat)
    requires i < |lyrics|
    requires pos >= lyrics[0].startTime
    requires forall j :: 0 <= j < |lyrics| ==> !IsActive(lyrics, j, pos)
    ensures pos >= lyrics[i].startTime
  {
    if i > 0 {
      AllStarted(lyrics, pos, i - 1);
      assert !IsActive(lyrics, i - 1, pos);
    }
  }

  /** On lyrics in time order, a line is highlighted exactly when the first
      one has started, and it is the one that started last. */
  lemma ActiveLineSorted(lyrics: seq<Lyric>, position: int)
    requires Sorted(lyrics) && |lyrics| > 0
    ensures var r := ActiveLine(lyrics, position);
      var pos := LookAhead(position);
      && (r >= 0 <==> pos >= lyrics[0].startTime)
      && (r >= 0 ==> lyrics[r].startTime <= pos && forall j :: r < j < |lyrics| ==> pos < lyrics[j].startTime)
  {
    var r := ActiveLine(lyrics, position);
    var pos := LookAhead(position);
    if pos >= lyrics[0].startTime && r == -1 {
      AllStarted(lyrics, pos, |lyrics| - 1);
      assert IsActive(lyrics, |lyrics| - 1, pos);
    }
  }

  /** On lyrics in time order at most one line is active, so an active line
      is the one highlighted. */
  lemma ActiveLineIs(lyrics: seq<Lyric>, position: int, k: nat)
    requires Sorted(lyrics) && k < |lyrics| && IsActive(lyrics, k, LookAhead(position))
    ensures ActiveLine(lyrics, position) == k
  {
  }

  /** Plain lyrics are in time order, a second apart. */
  lemma PlainStartTimes(s: string)
    ensures forall i :: 0 <= i < |ParsePlain(s)| ==> ParsePlain(s)[i].startTime == 1000 * i
    ensures Sorted(ParsePlain(s))
  {
  }

  /** With plain lyrics, the highlighted line advances once a second from
      0.93 s before the start, and stays on the last line. */
  lemma PlainActiveLine(s: string, position: int)
    requires |ParsePlain(s)| > 0 && LookAhead(position) >= 0
    ensures ActiveLine(ParsePlain(s), position)
         == if LookAhead(position) / 1000 < |ParsePlain(s)| then LookAhead(position) / 1000
            else |ParsePlain(s)| - 1
  {
    var lyrics := ParsePlain(s);
    var pos := LookAhead(position);
    var n := |lyrics|;
    PlainStartTimes(s);
    var k := if pos / 1000 < n then pos / 1000 else n - 1;
    assert lyrics[k].startTime == 1000 * k;
    assert k + 1 < n ==> lyrics[k + 1].startTime == 1000 * (k + 1);
    assert IsActive(lyrics, k, pos);
    ActiveLineIs(lyrics, position, k);
  }
}
