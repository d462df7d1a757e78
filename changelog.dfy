/** The changelog page: the markdown file is cut at every "## " heading,
    and each piece becomes one timeline entry with a title, a stardate, a
    status, an icon chosen from the title and the remaining text. */
module Changelog {
  import opened Errors
  import opened Text

  // ---------------------------------------------------------------- splitting at headings

  /** The characters after which the multiline anchor ^ matches. */
  predicate IsLineTerminator(c: char)
  {
    c == '\n' || c == '\r' || c == '\U{2028}' || c == '\U{2029}'
  }

  const Heading := "## "

  /** /^## /m matches at position i: "## " at the start of a line. */
  predicate HeadingAt(md: string, i: int)
  {
    OccursAt(md, Heading, i) && (i == 0 || IsLineTerminator(md[i - 1]))
  }

  /** String.prototype.split with that expression, from a piece that began
      at p, having found no heading in [p, q). */
  function SplitFrom(md: string, p: nat, q: nat): (pieces: seq<string>)
    requires p <= q <= |md|
    ensures |pieces| >= 1
    decreases |md| - q
  {
    if q == |md| then [md[p..]]
    else if HeadingAt(md, q) then [md[p..q]] + SplitFrom(md, q + |Heading|, q + |Heading|)
    else SplitFrom(md, p, q + 1)
  }

  /** The pieces put back together, with "## " between consecutive ones. */
  function JoinHeadings(pieces: seq<string>): string
  {
    if pieces == [] then [] else if |pieces| == 1 then pieces[0] else pieces[0] + Heading + JoinHeadings(pieces[1..])
  }

  /** Nothing is lost in the split: joining the pieces with "## " gives the
      text back. */
  lemma {:induction false} SplitJoins(md: string, p: nat, q: nat)
    requires p <= q <= |md|
    ensures JoinHeadings(SplitFrom(md, p, q)) == md[p..]
    decreases |md| - q
  {
    if q == |md| {
    } else if HeadingAt(md, q) {
      var r := q + |Heading|;
      SplitJoins(md, r, r);
      var rest := SplitFrom(md, r, r);
      assert SplitFrom(md, p, q)[1..] == rest;
      assert md[q..r] == Heading;
      assert md[p..] == md[p..q] + md[q..r] + md[r..];
    } else {
      SplitJoins(md, p, q + 1);
    }
  }

  /** No piece holds a heading of the text: each heading is a cut. */
  lemma {:induction false} PiecesHoldNoHeading(md: string, p: nat, q: nat)
    requires p <= q <= |md|
    requires forall i :: p <= i < q ==> !HeadingAt(md, i)
    ensures var pieces := SplitFrom(md, p, q);
      forall i :: p <= i < p + |pieces[0]| ==> !HeadingAt(md, i)
    decreases |md| - q
  {
    if q < |md| && !HeadingAt(md, q) {
      PiecesHoldNoHeading(md, p, q + 1);
    }
  }

  /** md.split(/^## /m).slice(1): the text before the first heading is
      dropped. */
  function Chunks(md: string): seq<string>
  {
    SplitFrom(md, 0, 0)[1..]
  }

  /** The file is the dropped preamble followed by each chunk behind its
      heading, in file order, and the preamble holds no heading. */
  lemma ChunksInOrder(md: string)
    ensures var all := SplitFrom(md, 0, 0);
      all[1..] == Chunks(md) && JoinHeadings(all) == md &&
      forall i :: 0 <= i < |all[0]| ==> !HeadingAt(md, i)
  {
    SplitJoins(md, 0, 0);
    PiecesHoldNoHeading(md, 0, 0);
  }

  // ---------------------------------------------------------------- one entry

  /** String.prototype.split("\n"). */
  function Lines(s: string): (lines: seq<string>)
    ensures |lines| >= 1
    decreases |s|
  {
    var i := IndexOf(s, "\n");
    if i == -1 then [s] else [s[..i]] + Lines(s[i + 1..])
  }

  /** The index of the first line, from `from` on, holding the marker, or -1. */
  function FindFrom(lines: seq<string>, marker: string, from: nat): (r: int)
    requires from <= |lines|
    ensures r == -1 || (from <= r < |lines| && Contains(lines[r], marker))
    ensures forall i :: from <= i < |lines| && (r == -1 || i < r) ==> !Contains(lines[i], marker)
    decreases |lines| - from
  {
    if from == |lines| then -1
    else if Contains(lines[from], marker) then from
    else FindFrom(lines, marker, from + 1)
  }

  /** lines.find(l => l.includes(marker)): the first line holding the
      marker, if any. */
  function FindLine(lines: seq<string>, marker: string): (r: Option<string>)
    ensures r.None? <==> forall i :: 0 <= i < |lines| ==> !Contains(lines[i], marker)
    ensures r.Some? ==> exists i :: (0 <= i < |lines| && lines[i] == r.value && Contains(r.value, marker) &&
      forall j :: 0 <= j < i ==> !Contains(lines[j], marker))
  {
    var i := FindFrom(lines, marker, 0);
    if i == -1 then None else Some(lines[i])
  }

  /** line.split(marker)[1]: the text after the first marker, up to the
      next one. */
  function AfterMarker(line: string, marker: string): (r: string)
    requires Contains(line, marker)
  {
    var i := IndexOf(line, marker);
    var rest := line[i + |marker|..];
    var j := IndexOf(rest, marker);
    if j == -1 then rest else rest[..j]
  }

  const StardateMark := "**Stardate:**"
  const StatusMark := "**Status:**"
  const Unknown := "Unknown"

  /** The stardate or status: the trimmed text after the marker on the
      first line that holds it, else "Unknown". */
  function Field(lines: seq<string>, marker: string): string
  {
    match FindLine(lines, marker)
    case Some(line) => Trim(AfterMarker(line, marker))
    case None => Unknown
  }

  /** String.prototype.replace with a string pattern: the first occurrence
      is cut out. */
  function ReplaceFirst(s: string, pattern: string): (r: string)
  {
    var i := IndexOf(s, pattern);
    if i == -1 then s else s[..i] + s[i + |pattern|..]
  }

  /** The length of the first line of s, up to the first line terminator. */
  function SegmentLength(s: string): (n: nat)
    ensures n <= |s| && (n == |s| || IsLineTerminator(s[n]))
    ensures forall i :: 0 <= i < n ==> !IsLineTerminator(s[i])
  {
    if s == [] || IsLineTerminator(s[0]) then 0 else 1 + SegmentLength(s[1..])
  }

  /** replace(/.*MARK.*\n?/g, ""): every line holding the marker is removed
      together with the "\n" after it; . does not cross any line
      terminator, while \n? only takes a "\n". */
  function RemoveMarked(s: string, marker: string): string
    requires marker != []
    decreases |s|
  {
    var n := SegmentLength(s);
    if Contains(s[..n], marker) then
      assert ResumeAt(s, n) > 0 by { OccursIn(s[..n], marker); }
      RemoveMarked(s[ResumeAt(s, n)..], marker)
    else if n == |s| then s
    else s[..n + 1] + RemoveMarked(s[n + 1..], marker)
  }

  lemma OccursIn(s: string, t: string)
    requires Contains(s, t)
    ensures |t| <= |s|
  {
  }

  predicate NoTerminator(s: string)
  {
    forall i :: 0 <= i < |s| ==> !IsLineTerminator(s[i])
  }

  /** An occurrence of a text without line terminators cannot cross one. */
  lemma NotAcrossTerminator(seg: string, c: char, r: string, m: string)
    requires IsLineTerminator(c) && NoTerminator(m)
    requires !Contains(seg, m) && !Contains(r, m)
    ensures !Contains(seg + [c] + r, m)
  {
    var s := seg + [c] + r;
    forall i | 0 <= i <= |s| - |m| ensures !OccursAt(s, m, i) {
      if i + |m| <= |seg| {
        assert s[i..i + |m|] == seg[i..i + |m|];
        assert !OccursAt(seg, m, i);
      } else if i > |seg| {
        assert s[i..i + |m|] == r[i - |seg| - 1..i - |seg| - 1 + |m|];
        assert !OccursAt(r, m, i - |seg| - 1);
      } else {
        assert s[i..i + |m|][|seg| - i] == c;
        assert !IsLineTerminator(m[|seg| - i]);
      }
    }
  }

  /** Where the removal resumes after a marked line: past its "\n", if any. */
  function ResumeAt(s: string, n: nat): (k: nat)
    requires n <= |s|
    ensures n <= k <= |s|
  {
    if n < |s| && s[n] == '\n' then n + 1 else n
  }

  /** After removal no line holds the marker: the marker appears nowhere. */
  lemma {:induction false} RemoveMarkedClears(s: string, m: string)
    requires m != [] && NoTerminator(m)
    ensures !Contains(RemoveMarked(s, m), m)
    decreases |s|
  {
    var n := SegmentLength(s);
    if Contains(s[..n], m) {
      OccursIn(s[..n], m);
      RemoveMarkedClears(s[ResumeAt(s, n)..], m);
      MarkedLineDropped(s, m);
    } else if n == |s| {
      assert s[..n] == s;
    } else {
      RemoveMarkedClears(s[n + 1..], m);
      ClearLineKept(s, m, m);
    }
  }

  /** A marked line is dropped: what is left is the removal from the next line on. */
  lemma MarkedLineDropped(s: string, m: string)
    requires m != [] && Contains(s[..SegmentLength(s)], m)
    ensures 0 < ResumeAt(s, SegmentLength(s))
    ensures RemoveMarked(s, m) == RemoveMarked(s[ResumeAt(s, SegmentLength(s))..], m)
  {
    OccursIn(s[..SegmentLength(s)], m);
  }

  /** An unmarked line is kept with its terminator; a text without
      terminators that occurs neither in it nor in the rest's removal does
      not occur in the whole. */
  lemma ClearLineKept(s: string, m: string, t: string)
    requires m != [] && NoTerminator(t)
    requires SegmentLength(s) < |s| && !Contains(s[..SegmentLength(s)], m) && !Contains(s[..SegmentLength(s)], t)
    requires !Contains(RemoveMarked(s[SegmentLength(s) + 1..], m), t)
    ensures !Contains(RemoveMarked(s, m), t)
  {
    var n := SegmentLength(s);
    KeptLine(s, m);
    NotAcrossTerminator(s[..n], s[n], RemoveMarked(s[n + 1..], m), t);
  }

  /** An unmarked line is kept, its terminator after it. */
  lemma KeptLine(s: string, m: string)
    requires m != [] && SegmentLength(s) < |s| && !Contains(s[..SegmentLength(s)], m)
    ensures var n := SegmentLength(s);
      RemoveMarked(s, m) == s[..n] + [s[n]] + RemoveMarked(s[n + 1..], m)
  {
    var n := SegmentLength(s);
    assert s[..n + 1] == s[..n] + [s[n]];
  }

  /** Removing lines of one marker does not bring back another. */
  lemma {:induction false} RemoveMarkedKeepsClear(s: string, m: string, other: string)
    requires m != [] && NoTerminator(other) && !Contains(s, other)
    ensures !Contains(RemoveMarked(s, m), other)
    decreases |s|
  {
    var n := SegmentLength(s);
    if Contains(s[..n], m) {
      MarkedLineDropped(s, m);
      NotInSuffix(s, ResumeAt(s, n), other);
      RemoveMarkedKeepsClear(s[ResumeAt(s, n)..], m, other);
    } else if n < |s| {
      NotInSuffix(s, n + 1, other);
      NotInPrefix(s, n, other);
      RemoveMarkedKeepsClear(s[n + 1..], m, other);
      ClearLineKept(s, m, other);
    } else {
      assert s[..n] == s;
    }
  }

  lemma NotInSuffix(s: string, k: nat, t: string)
    requires k <= |s| && !Contains(s, t)
    ensures !Contains(s[k..], t)
  {
    forall i | 0 <= i <= |s[k..]| - |t| ensures !OccursAt(s[k..], t, i) {
      assert s[k..][i..i + |t|] == s[k + i..k + i + |t|];
      assert !OccursAt(s, t, k + i);
    }
  }

  lemma NotInPrefix(s: string, k: nat, t: string)
    requires k <= |s| && !Contains(s, t)
    ensures !Contains(s[..k], t)
  {
    forall i | 0 <= i <= |s[..k]| - |t| ensures !OccursAt(s[..k], t, i) {
      assert s[..k][i..i + |t|] == s[i..i + |t|];
      assert !OccursAt(s, t, i);
    }
  }

  /** The content: the chunk without its title line and without the marker
      lines, trimmed. */
  function Content(chunk: string): string
  {
    var title := Lines(chunk)[0];
    Trim(RemoveMarked(RemoveMarked(ReplaceFirst(chunk, title), StardateMark), StatusMark))
  }

  /** The content holds neither marker and starts and ends with no white
      space. */
  lemma ContentClean(chunk: string)
    ensures var c := Content(chunk);
      !Contains(c, StardateMark) && !Contains(c, StatusMark) &&
      (c == [] || (!IsSpace(c[0]) && !IsSpace(c[|c| - 1])))
  {
    MarksHaveNoTerminator();
    CleanAfterRemoval(ReplaceFirst(chunk, Lines(chunk)[0]), StardateMark, StatusMark);
  }

  lemma MarksHaveNoTerminator()
    ensures StardateMark != [] && NoTerminator(StardateMark)
    ensures StatusMark != [] && NoTerminator(StatusMark)
  {
  }

  /** Removing the lines of two markers, then trimming, leaves neither. */
  lemma CleanAfterRemoval(x: string, m1: string, m2: string)
    requires m1 != [] && NoTerminator(m1) && m2 != [] && NoTerminator(m2)
    ensures var c := Trim(RemoveMarked(RemoveMarked(x, m1), m2));
      !Contains(c, m1) && !Contains(c, m2) &&
      (c == [] || (!IsSpace(c[0]) && !IsSpace(c[|c| - 1])))
  {
    var once := RemoveMarked(x, m1);
    var twice := RemoveMarked(once, m2);
    RemoveMarkedClears(x, m1);
    RemoveMarkedKeepsClear(once, m2, m1);
    RemoveMarkedClears(once, m2);
    TrimKeepsClear(twice, m1);
    TrimKeepsClear(twice, m2);
  }

  /** Trimming does not make a text appear. */
  lemma TrimKeepsClear(s: string, t: string)
    requires !Contains(s, t)
    ensures !Contains(Trim(s), t)
  {
    var start := TrimStart(s);
    NotInSuffix(s, |s| - |start|, t);
    NotInPrefix(start, |TrimEnd(start)|, t);
  }

  // ---------------------------------------------------------------- icon and status colour

  /** The icons a title can get. */
  datatype Icon = SecurityIcon | RocketIcon | StorageIcon | MapIcon | BuildIcon | CodeIcon | LogIcon

  /** String.prototype.toLowerCase for every character whose lower case
      holds a letter of the keywords (ASCII letters, á é í ó ű): the ASCII
      and Latin-1 capitals, Ő and Ű, the Kelvin sign and the dotted capital
      I. Any other character keeps its value here. */
  function LowerOf(c: char): string
  {
    if 'A' <= c <= 'Z' || ('\U{00C0}' <= c <= '\U{00DE}' && c != '\U{00D7}') then [(c as int + 32) as char]
    else if c == '\U{0150}' || c == '\U{0170}' then [(c as int + 1) as char]
    else if c == '\U{212A}' then "k"
    else if c == '\U{0130}' then "i\U{0307}"
    else [c]
  }

  function ToLower(s: string): string
  {
    if s == [] then [] else LowerOf(s[0]) + ToLower(s[1..])
  }

  /** The keyword pairs, in the order they are tried, with their icons. */
  const IconGroups: seq<(string, string, Icon)> := [
    ("security", "védelmi", SecurityIcon),
    ("klónozás", "mission", RocketIcon),
    ("kódraktár", "gitea", StorageIcon),
    ("térkép", "swagger", MapIcon),
    ("építés", "backend", BuildIcon),
    ("műszerfal", "ui", CodeIcon)]

  /** getIconForTitle. */
  function IconFor(title: string): Icon
  {
    var lower := ToLower(title);
    if Contains(lower, "security") || Contains(lower, "védelmi") then SecurityIcon
    else if Contains(lower, "klónozás") || Contains(lower, "mission") then RocketIcon
    else if Contains(lower, "kódraktár") || Contains(lower, "gitea") then StorageIcon
    else if Contains(lower, "térkép") || Contains(lower, "swagger") then MapIcon
    else if Contains(lower, "építés") || Contains(lower, "backend") then BuildIcon
    else if Contains(lower, "műszerfal") || Contains(lower, "ui") then CodeIcon
    else LogIcon
  }

  predicate GroupMatches(lower: string, g: (string, string, Icon))
  {
    Contains(lower, g.0) || Contains(lower, g.1)
  }

  /** The icon of the first group, from k on, with a keyword in the text. */
  function FirstMatch(lower: string, k: nat): (icon: Icon)
    requires k <= |IconGroups|
    decreases |IconGroups| - k
  {
    if k == |IconGroups| then LogIcon
    else if GroupMatches(lower, IconGroups[k]) then IconGroups[k].2
    else FirstMatch(lower, k + 1)
  }

  /** The title's icon is that of the first keyword group it matches, in
      the table's order, and the log icon when none matches. */
  lemma IconIsFirstMatch(title: string)
    ensures IconFor(title) == FirstMatch(ToLower(title), 0)
  {
  }

  /** The icon is the log icon exactly when no keyword occurs. */
  lemma LogIconIffNoKeyword(title: string)
    ensures IconFor(title) == LogIcon <==>
      forall k :: 0 <= k < |IconGroups| ==> !GroupMatches(ToLower(title), IconGroups[k])
  {
    IconIsFirstMatch(title);
    NoMatchFrom(ToLower(title), 0);
  }

  /** From group k on, the log icon comes out exactly when no later group
      matches: no group carries the log icon. */
  lemma {:induction false} NoMatchFrom(lower: string, k: nat)
    requires k <= |IconGroups|
    ensures FirstMatch(lower, k) == LogIcon <==>
      forall j :: k <= j < |IconGroups| ==> !GroupMatches(lower, IconGroups[j])
    decreases |IconGroups| - k
  {
    if k < |IconGroups| {
      NoMatchFrom(lower, k + 1);
      assert IconGroups[k].2 != LogIcon;
    }
  }

  /** The status markers that mean "done". */
  predicate IsDone(status: string)
  {
    Contains(status, "KÉSZ") || Contains(status, "Sikeres") || Contains(status, "100%")
  }

  /** The chip colour (fill, text and border alike): green for a done
      status, amber otherwise. */
  function StatusColor(status: string): (c: string)
    ensures c == "#00ff88" <==> IsDone(status)
    ensures c == "#ffbd2e" <==> !IsDone(status)
  {
    if IsDone(status) then "#00ff88" else "#ffbd2e"
  }

  // ---------------------------------------------------------------- the page

  datatype Entry = Entry(id: string, title: string, date: string, status: string, icon: Icon, content: string)

  /** One chunk as an entry, the index-th. */
  function ParseEntry(chunk: string, index: nat): Entry
  {
    var lines := Lines(chunk);
    var title := Trim(lines[0]);
    Entry("entry-" + Decimal(index), title, Field(lines, StardateMark), Field(lines, StatusMark),
      IconFor(title), Content(chunk))
  }

  /** parseChangelog. */
  function ParseChangelog(md: string): (entries: seq<Entry>)
    ensures |entries| == |Chunks(md)|
  {
    var chunks := Chunks(md);
    seq(|chunks|, i requires 0 <= i < |chunks| => ParseEntry(chunks[i], i))
  }

  /** Entry i comes from chunk i, its id is "entry-i", and no two entries
      share an id. */
  lemma EntriesInOrder(md: string)
    ensures var e := ParseChangelog(md);
      (forall i :: 0 <= i < |e| ==> e[i] == ParseEntry(Chunks(md)[i], i) && e[i].id == "entry-" + Decimal(i)) &&
      forall i, j :: 0 <= i < j < |e| ==> e[i].id != e[j].id
  {
    var e := ParseChangelog(md);
    forall i, j | 0 <= i < j < |e| ensures e[i].id != e[j].id {
      DecimalInjective(i, j);
      var a := Decimal(i);
      var b := Decimal(j);
      assert ("entry-" + a)[6..] == a && ("entry-" + b)[6..] == b;
    }
  }
}
