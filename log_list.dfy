/** The admin log page: each log line is split into timestamp, level and
    message; the fetched history is shown newest first, and live lines are
    put on top of a list that keeps at most 500 entries. */
module LogList {
  import opened Errors
  import LogService
  import opened Text

  /** One parsed line. The random display id is not modelled. */
  datatype Entry = Entry(timestamp: string, level: string, message: string)

  /** The length of the run of capital letters that starts s. */
  function CapsRun(s: string): (n: nat)
    ensures n <= |s| && (forall i :: 0 <= i < n ==> IsUpper(s[i]))
    ensures n == |s| || !IsUpper(s[n])
  {
    if s != [] && IsUpper(s[0]) then 1 + CapsRun(s[1..]) else 0
  }

  /** The shape of a timestamp, one character per position: 'd' for a
      digit, 'T' for a space or a T, anything else for itself. */
  const DatePattern := "dddd-dd-ddTdd:dd:dd.ddd"

  predicate FitsPattern(c: char, p: char)
  {
    if p == 'd' then IsDigit(c) else if p == 'T' then c == ' ' || c == 'T' else c == p
  }

  /** The text the date pattern matches: yyyy-MM-dd, a space or a T,
      then HH:mm:ss.SSS. */
  predicate IsTimestamp(d: string)
  {
    |d| == |DatePattern| && forall i :: 0 <= i < |d| ==> FitsPattern(d[i], DatePattern[i])
  }

  predicate HasTimestamp(line: string)
  {
    |line| >= |DatePattern| && IsTimestamp(line[..|DatePattern|])
  }

  const Separator := " : "
  const Unknown := "UNKNOWN"

  /** parseLogLine. */
  function ParseLine(line: string): (e: Entry)
    ensures !HasTimestamp(line) ==> e == Entry("", Unknown, line)
    ensures HasTimestamp(line) ==> e.timestamp == line[..|DatePattern|]
    ensures e.level == Unknown || (e.level != [] && forall i :: 0 <= i < |e.level| ==> IsUpper(e.level[i]))
  {
    if !HasTimestamp(line) then Entry("", Unknown, line)
    else
      var timestamp := line[..|DatePattern|];
      var split := SplitLevel(Trim(line[|DatePattern|..]));
      Entry(timestamp, split.0, MessageOf(split.1))
  }

  /** The level, the run of capitals that starts the text when white space
      follows it, and the trimmed text after it; else UNKNOWN and the text
      as it is. */
  function SplitLevel(rest: string): (r: (string, string))
    ensures r.0 == Unknown || (r.0 != [] && forall i :: 0 <= i < |r.0| ==> IsUpper(r.0[i]))
  {
    var n := CapsRun(rest);
    if n > 0 && n < |rest| && IsSpace(rest[n]) then (rest[..n], Trim(rest[n..]))
    else (Unknown, rest)
  }

  /** The text after the first " : ", or all of it when there is none. */
  function MessageOf(remaining: string): (m: string)
  {
    var sep := IndexOf(remaining, Separator);
    if sep != -1 then remaining[sep + 3..] else remaining
  }

  /** The levels logback writes. */
  datatype Level = Trace | Debug | Info | Warn | Error

  function LevelName(l: Level): string
  {
    match l
    case Trace => "TRACE"
    case Debug => "DEBUG"
    case Info => "INFO"
    case Warn => "WARN"
    case Error => "ERROR"
  }

  /** %-5level: the name, padded with spaces on the right to five characters. */
  function PaddedLevel(l: Level): (p: string)
    ensures |p| == 5 && p[..|LevelName(l)|] == LevelName(l) && AllSpace(p[|LevelName(l)|..])
  {
    match l
    case Trace => "TRACE"
    case Debug => "DEBUG"
    case Info => "INFO "
    case Warn => "WARN "
    case Error => "ERROR"
  }

  /** One event in the pattern of the streamed events (the encoder of the
      WebSocket appender),
      "%d{yyyy-MM-dd HH:mm:ss.SSS} %-5level --- [%thread] %logger{36} : %msg",
      followed by `eol`: the line separator as sent over the socket, or
      nothing once a line end is stripped. A line of the log file has this
      shape only if the file appender is set to the same pattern. */
  function Format(date: string, level: Level, thread: string, logger: string, msg: string, eol: string): string
  {
    date + (" " + (PaddedLevel(level) + " " + Body(thread, logger, msg)) + eol)
  }

  /** The part of a line after the padded level: "--- [%thread] %logger : %msg". */
  function Body(thread: string, logger: string, msg: string): string
  {
    ("--- [" + thread + "] " + logger) + Separator + msg
  }

  predicate NoColon(s: string)
  {
    forall i :: 0 <= i < |s| ==> s[i] != ':'
  }

  lemma NoColonConcat(a: string, b: string)
    requires NoColon(a) && NoColon(b)
    ensures NoColon(a + b)
  {
    forall i | 0 <= i < |a + b| ensures (a + b)[i] != ':' {
      if i >= |a| {
        assert (a + b)[i] == b[i - |a|];
      }
    }
  }

  /** The part of a formatted line between level and separator holds no
      colon when thread and logger hold none. */
  lemma PrefixNoColon(thread: string, logger: string)
    requires NoColon(thread) && NoColon(logger)
    ensures NoColon("--- [" + thread + "] " + logger)
  {
    NoColonConcat("--- [", thread);
    NoColonConcat("--- [" + thread, "] ");
    NoColonConcat("--- [" + thread + "] ", logger);
  }

  /** The first " : " after a prefix without a colon is the one right after it. */
  lemma SeparatorAfter(p: string, rest: string)
    requires NoColon(p)
    ensures IndexOf(p + Separator + rest, Separator) == |p|
  {
    var s := p + Separator + rest;
    assert OccursAt(s, Separator, |p|) by {
      assert s[|p|..|p| + 3] == Separator;
    }
    forall i | i < |p| ensures !OccursAt(s, Separator, i) {
      if 0 <= i <= |s| - 3 {
        assert s[i..i + 3][1] == s[i + 1];
        if i + 1 < |p| {
          assert s[i + 1] == p[i + 1];
        } else {
          assert s[i + 1] == Separator[0];
        }
      }
    }
  }

  /** The message is what follows the separator after a colon-free prefix. */
  lemma MessageAfter(p: string, msg: string)
    requires NoColon(p)
    ensures MessageOf(p + Separator + msg) == msg
  {
    SeparatorAfter(p, msg);
    var s := p + Separator + msg;
    assert s[|p| + 3..] == msg;
  }

  /** The run of capitals in a word of capitals followed by a character
      that is not one is the word. */
  lemma {:induction false} CapsRunOfWord(word: string, tail: string)
    requires forall i :: 0 <= i < |word| ==> IsUpper(word[i])
    requires tail != [] && !IsUpper(tail[0])
    ensures CapsRun(word + tail) == |word|
    decreases |word|
  {
    if word == [] {
      assert word + tail == tail;
    } else {
      assert (word + tail)[1..] == word[1..] + tail;
      CapsRunOfWord(word[1..], tail);
    }
  }

  lemma LevelNameIsCapitals(level: Level)
    ensures LevelName(level) != []
    ensures forall i :: 0 <= i < |LevelName(level)| ==> IsUpper(LevelName(level)[i])
  {
  }

  /** A level name, the padding and " --- " split off as level and text. */
  lemma SplitPadded(level: Level, body: string)
    requires body != [] && body[0] == '-' && !IsSpace(body[|body| - 1])
    ensures SplitLevel(PaddedLevel(level) + " " + body) == (LevelName(level), body)
  {
    var name := LevelName(level);
    var pad := PaddedLevel(level);
    var w := pad[|name|..] + " ";
    var tail := w + body;
    assert AllSpace(w);
    assert pad + " " + body == name + tail by {
      assert pad == name + pad[|name|..];
    }
    LevelNameIsCapitals(level);
    CapsRunOfWord(name, tail);
    assert (name + tail)[..|name|] == name;
    assert (name + tail)[|name|..] == w + body + "";
    TrimAround(w, body, "");
  }

  /** The text after the timestamp, trimmed, is the padded level through
      the message. */
  lemma TrimAfterDate(core: string, eol: string)
    requires core != [] && !IsSpace(core[0]) && !IsSpace(core[|core| - 1])
    requires eol == "" || eol == "\n"
    ensures Trim(" " + core + eol) == core
  {
    TrimAround(" ", core, eol);
  }

  /** A line that starts with a timestamp: the rest, trimmed, is split
      into level and message. */
  lemma ParseDated(date: string, after: string)
    requires IsTimestamp(date)
    ensures var split := SplitLevel(Trim(after));
      ParseLine(date + after) == Entry(date, split.0, MessageOf(split.1))
  {
    var line := date + after;
    assert line[..|DatePattern|] == date && line[|DatePattern|..] == after;
  }

  /** The part after the level starts with the dashes and ends where the
      message ends. */
  lemma BodyEnds(thread: string, logger: string, msg: string)
    requires msg != [] && !IsSpace(msg[|msg| - 1])
    ensures var body := Body(thread, logger, msg);
      body[0] == '-' && body[|body| - 1] == msg[|msg| - 1]
  {
  }

  /** The part after the date starts with the level's first letter. */
  lemma CoreEnds(level: Level, body: string)
    requires body != [] && !IsSpace(body[|body| - 1])
    ensures var core := PaddedLevel(level) + " " + body;
      core != [] && !IsSpace(core[0]) && !IsSpace(core[|core| - 1])
  {
    var core := PaddedLevel(level) + " " + body;
    assert core[0] == LevelName(level)[0];
    assert core[|core| - 1] == body[|body| - 1];
  }

  /** The steps of parsing a dated line, put together. */
  lemma ParseChain(date: string, after: string, core: string, level: string, body: string, msg: string)
    requires IsTimestamp(date) && Trim(after) == core
    requires SplitLevel(core) == (level, body) && MessageOf(body) == msg
    ensures ParseLine(date + after) == Entry(date, level, msg)
  {
    ParseDated(date, after);
  }

  /** A streamed event parses back to its date, level and message,
      when thread and logger hold no colon and the message does not end in
      white space. */
  lemma ParseFormatted(date: string, level: Level, thread: string, logger: string, msg: string, eol: string)
    requires IsTimestamp(date) && NoColon(thread) && NoColon(logger)
    requires msg != [] && !IsSpace(msg[|msg| - 1])
    requires eol == "" || eol == "\n"
    ensures ParseLine(Format(date, level, thread, logger, msg, eol)) == Entry(date, LevelName(level), msg)
  {
    var prefix := "--- [" + thread + "] " + logger;
    var body := Body(thread, logger, msg);
    var core := PaddedLevel(level) + " " + body;
    var after := " " + core + eol;
    BodyEnds(thread, logger, msg);
    CoreEnds(level, body);
    TrimAfterDate(core, eol);
    SplitPadded(level, body);
    PrefixNoColon(thread, logger);
    MessageAfter(prefix, msg);
    ParseChain(date, after, core, LevelName(level), body, msg);
  }

  /** Array.prototype.reverse. */
  function Reverse<T>(s: seq<T>): (r: seq<T>)
    ensures |r| == |s|
  {
    if s == [] then [] else Reverse(s[1..]) + [s[0]]
  }

  /** Reversing puts element n - 1 - i at position i. */
  lemma {:induction false} ReverseIndex<T>(s: seq<T>)
    ensures forall i :: 0 <= i < |s| ==> Reverse(s)[i] == s[|s| - 1 - i]
  {
    if s != [] {
      ReverseIndex(s[1..]);
      var r := Reverse(s);
      assert r == Reverse(s[1..]) + [s[0]];
      forall i | 0 <= i < |s| ensures r[i] == s[|s| - 1 - i] {
        if i < |s| - 1 {
          assert r[i] == Reverse(s[1..])[i] == s[1..][|s| - 2 - i];
        }
      }
    }
  }

  /** response.data.map(parseLogLine). */
  function ParseAll(lines: seq<string>): (r: seq<Entry>)
    ensures |r| == |lines| && forall i :: 0 <= i < |lines| ==> r[i] == ParseLine(lines[i])
  {
    seq(|lines|, i requires 0 <= i < |lines| => ParseLine(lines[i]))
  }

  /** The history as shown: the fetched lines parsed, then reversed. */
  function History(lines: seq<string>): seq<Entry>
  {
    Reverse(ParseAll(lines))
  }

  /** The newest line, the last one fetched, is shown first: entry i is
      the parse of line n - 1 - i. */
  lemma HistoryReversed(lines: seq<string>)
    ensures |History(lines)| == |lines|
    ensures forall i :: 0 <= i < |lines| ==> History(lines)[i] == ParseLine(lines[|lines| - 1 - i])
  {
    ReverseIndex(ParseAll(lines));
  }

  /** The number of history lines the page asks for. */
  const HistoryLimit := 200

  /** The most entries the page keeps. */
  const Capacity := 500

  /** [x, ...list].slice(0, 500). */
  function PushCapped<T>(x: T, list: seq<T>): seq<T>
  {
    var all := [x] + list;
    if |all| > Capacity then all[..Capacity] else all
  }

  /** The new element goes on top, and of the older ones only the oldest
      are dropped, and only as many as exceed 500. */
  lemma PushCappedNewestFirst<T>(x: T, list: seq<T>)
    ensures var r := PushCapped(x, list);
      |r| == (if |list| + 1 > Capacity then Capacity else |list| + 1) &&
      r[0] == x && r[1..] == list[..|r| - 1]
  {
    var r := PushCapped(x, list);
    assert r[1..] == ([x] + list)[1..|r|];
  }

  /** The list after a live message arrives: an empty body is ignored;
      otherwise the parsed line goes on top of the list, cut to 500. */
  function Received(logs: seq<Entry>, body: string): seq<Entry>
  {
    if body == [] then logs else PushCapped(ParseLine(body), logs)
  }

  /** An empty message leaves the list alone; any other goes on top, the
      list never exceeds 500 entries, and only the oldest are dropped. */
  lemma ReceivedNewestFirst(logs: seq<Entry>, body: string)
    ensures body == [] ==> Received(logs, body) == logs
    ensures body != [] ==>
      var r := Received(logs, body);
      |r| <= Capacity && |r| == (if |logs| + 1 > Capacity then Capacity else |logs| + 1) &&
      r[0] == ParseLine(body) && r[1..] == logs[..|r| - 1]
  {
    if body != [] {
      PushCappedNewestFirst(ParseLine(body), logs);
    }
  }

  /** The history the page asks for comes back unless the file fails while
      it is read, and then it fits within the list's capacity. */
  lemma HistoryFits(file: LogService.LogFile, path: string)
    ensures LogService.LatestLogs(file, path, HistoryLimit).Ok? <==> !file.ReadFailed?
    ensures !file.ReadFailed? ==>
      |History(LogService.LatestLogs(file, path, HistoryLimit).value)| <= HistoryLimit < Capacity
  {
    LogService.LatestLogsCases(file, path, HistoryLimit);
  }

  /** The colour of a level's chip. */
  function LevelColor(level: string): (c: string)
    ensures c == "error" <==> level == "ERROR"
    ensures c == "warning" <==> level == "WARN"
    ensures c == "info" <==> level == "INFO"
    ensures c == "default" <==> level !in {"ERROR", "WARN", "INFO"}
  {
    match level
    case "ERROR" => "error"
    case "WARN" => "warning"
    case "INFO" => "info"
    case "DEBUG" => "default"
    case _ => "default"
  }

  /** The page's list of entries, replaced as a whole on each change. */
  class LogView {
    var logs: seq<Entry>

    constructor ()
      ensures logs == []
    {
      logs := [];
    }

    /** fetchHistory: a successful fetch replaces the list with the parsed
        lines, newest first; a failed one leaves it as it is. */
    method LoadHistory(response: Option<seq<string>>)
      modifies this
      ensures response.Some? ==> logs == History(response.value)
      ensures response.None? ==> logs == old(logs)
    {
      if response.Some? {
        logs := History(response.value);
      }
    }

    /** The subscription handler for one message on /topic/logs. */
    method Receive(body: string)
      modifies this
      ensures logs == Received(old(logs), body)
      ensures old(|logs|) <= Capacity ==> |logs| <= Capacity
    {
      logs := Received(logs, body);
    }

    /** The clear button. */
    method Clear()
      modifies this
      ensures logs == []
    {
      logs := [];
    }
  }
}
