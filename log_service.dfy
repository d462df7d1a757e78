/** getLatestLogs: the last lines of the application log file. */
module LogService {
  import opened Errors

  /** A Java `int`: the limit the service is called with. */
  type JavaInt = x: int | -0x8000_0000 <= x < 0x8000_0000

  /** The lines a Java list can hold: its size is itself an `int`. */
  type LogLines = s: seq<string> | |s| < 0x8000_0000

  /** The state of the log file when it is read: absent; failing to open
      (Files.lines throws an IOException); opened but failing while its
      lines are collected (an UncheckedIOException, such as bytes that are
      not valid UTF-8); or read in full. */
  datatype LogFile = Missing | OpenFailed(message: string) | ReadFailed | Lines(lines: LogLines)

  /** Java's 32-bit subtraction result: the `int` congruent to `x` modulo
      2^32, which is `x` itself when it fits and `x - 2^32` when it
      overflows upwards. */
  function Wrap32(x: int): (r: JavaInt)
    ensures (r - x) % 0x1_0000_0000 == 0
    ensures -0x8000_0000 <= x < 0x8000_0000 ==> r == x
    ensures 0x8000_0000 <= x < 0x1_8000_0000 ==> r == x - 0x1_0000_0000
  {
    (x + 0x8000_0000) % 0x1_0000_0000 - 0x8000_0000
  }

  /** The start index the service computes, Math.max(0, size - limit),
      with the subtraction done in 32 bits. */
  function StartIndex(size: nat, limit: JavaInt): int
  {
    var d := Wrap32(size - limit);
    if d > 0 then d else 0
  }

  /** allLines.subList(startIndex, size): a start past the end throws
      IllegalArgumentException. */
  function Tail(lines: LogLines, limit: JavaInt): (r: Result<seq<string>>)
  {
    var start := StartIndex(|lines|, limit);
    if start > |lines| then Err(IllegalArgument) else Ok(lines[start..])
  }

  /** The answer for a readable file of n lines: it throws exactly for a
      negative limit above n - 2^31; a limit at or below that overflows the
      subtraction and returns every line; a limit of zero or more returns the
      last min(limit, n) lines in their original order, so that the lines
      before them and they make up the file. */
  lemma TailIsSuffix(lines: LogLines, limit: JavaInt)
    ensures Tail(lines, limit).Err? <==> |lines| - 0x8000_0000 < limit < 0
    ensures Tail(lines, limit).Err? ==> Tail(lines, limit).error == IllegalArgument
    ensures limit <= |lines| - 0x8000_0000 ==> Tail(lines, limit).Ok? && Tail(lines, limit).value == lines
    ensures limit >= 0 ==>
      var r := Tail(lines, limit).value;
      |r| == (if limit < |lines| then limit else |lines|) &&
      lines[..|lines| - |r|] + r == lines
  {
    if limit >= 0 {
      var r := Tail(lines, limit).value;
      assert lines[..|lines| - |r|] + lines[|lines| - |r|..] == lines;
    }
  }

  /** A limit of at least the line count returns every line; a limit of
      zero returns none. */
  lemma TailExtremes(lines: LogLines, limit: JavaInt)
    ensures limit >= |lines| ==> Tail(lines, limit).Ok? && Tail(lines, limit).value == lines
    ensures Tail(lines, 0) == Ok([])
  {
    assert lines[|lines|..] == [];
  }

  /** getLatestLogs over the state of the file; `path` is the absolute
      path of logs/application.log. */
  function LatestLogs(file: LogFile, path: string, limit: JavaInt): (r: Result<seq<string>>)
  {
    match file
    case Missing => Ok(["Log file not found at: " + path])
    case OpenFailed(message) => Ok(["Error reading log file: " + message])
    case ReadFailed => Err(UncheckedIO)
    case Lines(lines) => Tail(lines, limit)
  }

  /** A missing file or one that fails to open gives one message line
      whatever the limit; a failure while reading escapes the catch; a
      readable file gives its tail. */
  lemma LatestLogsCases(file: LogFile, path: string, limit: JavaInt)
    ensures file.Missing? ==> LatestLogs(file, path, limit) == Ok(["Log file not found at: " + path])
    ensures file.OpenFailed? ==> LatestLogs(file, path, limit) == Ok(["Error reading log file: " + file.message])
    ensures file.ReadFailed? ==> LatestLogs(file, path, limit) == Err(UncheckedIO)
    ensures file.Lines? && limit >= 0 ==>
      LatestLogs(file, path, limit).Ok? && |LatestLogs(file, path, limit).value| <= limit &&
      LatestLogs(file, path, limit).value == file.lines[|file.lines| - |LatestLogs(file, path, limit).value|..]
  {
    if file.Lines? && limit >= 0 {
      TailIsSuffix(file.lines, limit);
    }
  }
}
