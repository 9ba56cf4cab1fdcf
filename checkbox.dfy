/** The "Cycle Checkbox State" command: recognise a checkbox at the start of a
    line, advance its marker through the configured list and put the cursor at
    the end of the rewritten line.

    Text is a `seq<char>` in which each `char` stands for one UTF-16 code unit,
    the unit JavaScript string indexing, `length` and a non-unicode regex `.`
    work on. */
module Checkbox {

  datatype Option<T> = None | Some(value: T)

  /** The four ECMAScript line terminators, the only code units `.` refuses. */
  predicate IsLineTerminator(c: char) {
    c == '\n' || c == '\r' || c == '\U{2028}' || c == '\U{2029}'
  }

  predicate NoTerminators(s: string) {
    forall i :: 0 <= i < |s| ==> !IsLineTerminator(s[i])
  }

  /** What a greedy `(.*)` captures from `s`: the longest prefix of `s` holding
      no line terminator. */
  function TakeLine(s: string): (r: string)
    ensures r <= s
    ensures NoTerminators(r)
    ensures |r| == |s| || IsLineTerminator(s[|r|])
  {
    if s == [] || IsLineTerminator(s[0]) then [] else [s[0]] + TakeLine(s[1..])
  }

  /** The two capture groups of `/^- \[(.)\] ?(.*)/`. */
  datatype CheckboxMatch = CheckboxMatch(marker: char, content: string)

  /** Index of the first content code unit of a line that starts `- [m]`: the
      optional space after `]` is consumed when present. */
  function ContentStart(line: string): (k: nat)
    requires |line| >= 5
    ensures 5 <= k <= 6 && k <= |line|
    ensures k == 6 <==> |line| > 5 && line[5] == ' '
  {
    if |line| > 5 && line[5] == ' ' then 6 else 5
  }

  /** `line.match(/^- \[(.)\] ?(.*)/)`, written out as a parser for this one
      pattern. The pattern is anchored at the start only, so whatever follows a
      line terminator is outside the match but does not prevent it. */
  function MatchCheckbox(line: string): (r: Option<CheckboxMatch>)
    ensures r.Some? <==>
      |line| >= 5 && line[0] == '-' && line[1] == ' ' && line[2] == '[' &&
      !IsLineTerminator(line[3]) && line[4] == ']'
    ensures r.Some? ==> r.value.marker == line[3] && NoTerminators(r.value.content)
    ensures r.Some? ==> r.value.content <= line[ContentStart(line)..]
    ensures r.Some? ==>
      var rest := line[ContentStart(line)..];
      |r.value.content| == |rest| || IsLineTerminator(rest[|r.value.content|])
  {
    if |line| >= 5 && line[0] == '-' && line[1] == ' ' && line[2] == '['
       && !IsLineTerminator(line[3]) && line[4] == ']'
    then
      Some(CheckboxMatch(line[3], TakeLine(line[ContentStart(line)..])))
    else
      None
  }

  /** The template `- [${marker}] ${content}` the command writes back. */
  function FormatCheckbox(marker: string, content: string): (r: string)
    ensures |r| == |marker| + |content| + 5
  {
    "- [" + marker + "] " + content
  }

  /** `Array.prototype.indexOf` on a list of strings: the first index holding
      `s`, or -1 when there is none. */
  function IndexOf(chars: seq<string>, s: string): (r: int)
    ensures r == -1 <==> s !in chars
    ensures r != -1 ==>
      0 <= r < |chars| && chars[r] == s && forall j :: 0 <= j < r ==> chars[j] != s
  {
    if chars == [] then -1
    else if chars[0] == s then 0
    else
      var k := IndexOf(chars[1..], s);
      if k == -1 then -1 else k + 1
  }

  /** The line `cycleCheckbox` writes in place of `line`, given the configured
      marker list `chars`. Both operands of `%` are non-negative here, so
      Dafny's `%` agrees with JavaScript's. */
  function UpdatedLine(line: string, chars: seq<string>): (r: string)
    ensures "- [" <= r
    ensures MatchCheckbox(line).None? ==> |r| == |line| + 6
  {
    match MatchCheckbox(line)
    case Some(m) =>
      if [m.marker] in chars then
        var currentIndex := IndexOf(chars, [m.marker]);
        var nextIndex := (currentIndex + 1) % |chars|;
        FormatCheckbox(chars[nextIndex], m.content)
      else
        FormatCheckbox(" ", m.content)
    case None =>
      FormatCheckbox(" ", line)
  }

  /** An editor cursor: 0-based line index and 0-based code-unit column. */
  datatype Position = Position(line: nat, ch: nat)

  /** One run of the command on the line under `cursor`: the text written to
      that line and the cursor set afterwards. */
  function CycleCheckbox(cursor: Position, line: string, chars: seq<string>): (r: (string, Position))
    ensures r.0 == UpdatedLine(line, chars)
    ensures r.1.line == cursor.line && r.1.ch == |r.0|
  {
    var updatedLine := UpdatedLine(line, chars);
    (updatedLine, Position(cursor.line, |updatedLine|))
  }

  /** `f` applied `k` times, starting from `x`. */
  function Iterate(f: string -> string, x: string, k: nat): string
    decreases k
  {
    if k == 0 then x else Iterate(f, f(x), k - 1)
  }

  /** The command run `k` times on the same line. */
  function CycleTimes(line: string, chars: seq<string>, k: nat): string {
    Iterate(l => UpdatedLine(l, chars), line, k)
  }

  /** A marker list on which cycling is a true cycle: non-empty, every entry one
      code unit that `.` accepts, no entry twice. */
  predicate WellFormedCycle(chars: seq<string>) {
    |chars| > 0 &&
    (forall i :: 0 <= i < |chars| ==> |chars[i]| == 1 && !IsLineTerminator(chars[i][0])) &&
    (forall i, j :: 0 <= i < j < |chars| ==> chars[i][0] != chars[j][0])
  }

  // ---------------------------------------------------------------------------
  // The pattern

  /** On a terminator-free string `(.*)` captures everything. */
  lemma TakeLineWhole(s: string)
    requires NoTerminators(s)
    ensures TakeLine(s) == s
  {
    assert |TakeLine(s)| == |s|;
  }

  /** The text the command writes is read back as the marker and content it was
      built from. */
  lemma ParseCheckbox(marker: char, content: string)
    requires !IsLineTerminator(marker) && NoTerminators(content)
    ensures MatchCheckbox(FormatCheckbox([marker], content)) == Some(CheckboxMatch(marker, content))
  {
    var line := FormatCheckbox([marker], content);
    assert line[..3] == "- [" && line[3] == marker && line[4] == ']' && line[5] == ' ';
    assert line[6..] == content;
    TakeLineWhole(content);
  }

  /** The space after `]` is optional: `- [m]content` matches too when the
      content does not itself start with a space. */
  lemma ParseUnspaced(marker: char, content: string)
    requires !IsLineTerminator(marker) && NoTerminators(content)
    requires content == [] || content[0] != ' '
    ensures MatchCheckbox("- [" + [marker] + "]" + content) == Some(CheckboxMatch(marker, content))
  {
    var line := "- [" + [marker] + "]" + content;
    assert line[..3] == "- [" && line[3] == marker && line[4] == ']';
    assert line[5..] == content;
    TakeLineWhole(content);
  }

  /** Conversely, a terminator-free line that matches is `- [m]`, at most one
      space, and the content, with nothing left over. */
  lemma MatchDecomposes(line: string)
    requires NoTerminators(line) && MatchCheckbox(line).Some?
    ensures var m := MatchCheckbox(line).value;
      line == FormatCheckbox([m.marker], m.content) ||
      (line == "- [" + [m.marker] + "]" + m.content && (m.content == [] || m.content[0] != ' '))
  {
    var m := MatchCheckbox(line).value;
    var k := ContentStart(line);
    var rest := line[k..];
    assert NoTerminators(rest) by {
      forall i | 0 <= i < |rest| ensures !IsLineTerminator(rest[i]) {
        assert rest[i] == line[k + i];
      }
    }
    assert m.content == rest;
    assert line == line[..3] + [line[3]] + [line[4]] + line[5..];
    if k == 6 {
      assert line[5..] == [' '] + rest;
      assert line == FormatCheckbox([m.marker], m.content);
    } else {
      assert line[5..] == rest;
    }
  }

  /** Lines the pattern rejects: an empty box, a two-character marker, plain
      text. */
  lemma NonMatchingExamples()
    ensures MatchCheckbox("- []") == None
    ensures MatchCheckbox("- [ab]") == None
    ensures MatchCheckbox("Plain text") == None
    ensures MatchCheckbox("") == None
  {
  }

  // ---------------------------------------------------------------------------
  // One run of the command

  /** Whatever the line and the list, even an empty list, the command succeeds
      and writes `- [`, a marker that is a blank or an entry of the list, `] `
      and a content. */
  lemma CycleOutputForm(line: string, chars: seq<string>) returns (marker: string, content: string)
    ensures UpdatedLine(line, chars) == FormatCheckbox(marker, content)
    ensures marker == " " || marker in chars
    ensures content == line || (MatchCheckbox(line).Some? && content == MatchCheckbox(line).value.content)
  {
    match MatchCheckbox(line)
    case Some(m) =>
      content := m.content;
      if [m.marker] in chars {
        marker := chars[(IndexOf(chars, [m.marker]) + 1) % |chars|];
      } else {
        marker := " ";
      }
    case None =>
      marker, content := " ", line;
  }

  /** A known marker moves on to the entry after its first occurrence, wrapping
      round at the end of the list; the content is kept and exactly one space
      follows `]`. */
  lemma KnownMarkerAdvances(line: string, chars: seq<string>, i: nat)
    requires MatchCheckbox(line).Some?
    requires i < |chars| && chars[i] == [MatchCheckbox(line).value.marker]
    requires forall j :: 0 <= j < i ==> chars[j] != chars[i]
    ensures UpdatedLine(line, chars) ==
      FormatCheckbox(chars[(i + 1) % |chars|], MatchCheckbox(line).value.content)
  {
    var m := MatchCheckbox(line).value;
    assert IndexOf(chars, [m.marker]) == i;
  }

  /** A marker missing from the list, as every marker is from an empty list, is
      reset to a blank; the content is kept. */
  lemma UnknownMarkerResets(line: string, chars: seq<string>)
    requires MatchCheckbox(line).Some?
    requires [MatchCheckbox(line).value.marker] !in chars
    ensures UpdatedLine(line, chars) == FormatCheckbox(" ", MatchCheckbox(line).value.content)
  {
  }

  /** A line without a checkbox gets `- [ ] ` put in front of it, unchanged. */
  lemma NonMatchingLinePrefixed(line: string, chars: seq<string>)
    requires MatchCheckbox(line).None?
    ensures UpdatedLine(line, chars) == "- [ ] " + line
  {
  }

  /** With an empty list every line comes out with a blank box. */
  lemma EmptyListAlwaysBlank(line: string)
    ensures "- [ ] " <= UpdatedLine(line, [])
  {
  }

  /** The list and the content of the worked examples below. */
  lemma ExampleListWellFormed()
    ensures WellFormedCycle([" ", "/", "x"])
    ensures NoTerminators("Task")
  {
  }

  /** The worked examples' lines, as the writer spells them. */
  lemma ExampleLines()
    ensures FormatCheckbox(" ", "Task") == "- [ ] Task"
    ensures FormatCheckbox("/", "Task") == "- [/] Task"
    ensures FormatCheckbox("x", "Task") == "- [x] Task"
    ensures FormatCheckbox("?", "Task") == "- [?] Task"
    ensures "- [" + "/" + "]" + "Task" == "- [/]Task"
  {
  }

  /** Worked example: `- [ ] Task` advances to `- [/] Task`. */
  lemma ExampleAdvance()
    ensures UpdatedLine("- [ ] Task", [" ", "/", "x"]) == "- [/] Task"
  {
    ExampleListWellFormed();
    ExampleLines();
    CycleStep([" ", "/", "x"], 0, "Task");
  }

  /** Worked example: the last marker `x` wraps round to the blank. */
  lemma ExampleWrap()
    ensures UpdatedLine("- [x] Task", [" ", "/", "x"]) == "- [ ] Task"
  {
    ExampleListWellFormed();
    ExampleLines();
    CycleStep([" ", "/", "x"], 2, "Task");
  }

  /** Worked example: an unknown marker `?` is reset to the blank. */
  lemma ExampleUnknown()
    ensures UpdatedLine("- [?] Task", [" ", "/", "x"]) == "- [ ] Task"
  {
    ExampleListWellFormed();
    ExampleLines();
    ParseCheckbox('?', "Task");
    UnknownMarkerResets(FormatCheckbox("?", "Task"), [" ", "/", "x"]);
  }

  /** Worked example: a box written without the space still advances, and
      the space is put back. */
  lemma ExampleUnspaced()
    ensures UpdatedLine("- [/]Task", [" ", "/", "x"]) == "- [x] Task"
  {
    ExampleListWellFormed();
    ExampleLines();
    UnspacedStep([" ", "/", "x"], 1, "Task");
  }

  /** Worked example: plain text gets a blank box in front. */
  lemma ExamplePlain()
    ensures UpdatedLine("Plain text", [" ", "/", "x"]) == "- [ ] Plain text"
  {
    assert MatchCheckbox("Plain text") == None;
  }

  // ---------------------------------------------------------------------------
  // Repeated runs

  /** In a well-formed list no entry occurs before its own index. */
  lemma EntriesDistinct(chars: seq<string>, i: nat)
    requires WellFormedCycle(chars) && i < |chars|
    ensures forall j :: 0 <= j < i ==> chars[j] != chars[i]
    ensures IndexOf(chars, chars[i]) == i
  {
    forall j | 0 <= j < i ensures chars[j] != chars[i] {
      assert chars[j][0] != chars[i][0];
    }
  }

  /** The index `k` places after `i` round a list of `n`, for `k` up to one
      full round, without `%`. */
  function Ahead(i: nat, k: nat, n: nat): nat
    requires i < n && k <= n
  {
    if i + k < n then i + k else i + k - n
  }

  /** `Ahead` is the `(i + k) % n` of the source, and lands inside the list. */
  lemma AheadIsMod(i: nat, k: nat, n: nat)
    requires i < n && k <= n
    ensures Ahead(i, k, n) == (i + k) % n
    ensures Ahead(i, k, n) < n
  {
  }

  /** On a well-formed list a normalised line steps to the next entry. */
  lemma CycleStep(chars: seq<string>, i: nat, content: string)
    requires WellFormedCycle(chars) && i < |chars| && NoTerminators(content)
    ensures UpdatedLine(FormatCheckbox(chars[i], content), chars) ==
      FormatCheckbox(chars[Ahead(i, 1, |chars|)], content)
  {
    var c := chars[i][0];
    assert chars[i] == [c];
    ParseCheckbox(c, content);
    EntriesDistinct(chars, i);
    KnownMarkerAdvances(FormatCheckbox(chars[i], content), chars, i);
    AheadIsMod(i, 1, |chars|);
  }

  /** If `f` sends each entry of `orbit` to the next one, round the end, then
      `k` applications of `f`, up to one full round, go `k` entries on. */
  lemma {:induction false} IterateRound(f: string -> string, orbit: seq<string>, i: nat, k: nat)
    requires i < |orbit| && k <= |orbit|
    requires forall j :: 0 <= j < |orbit| ==> f(orbit[j]) == orbit[Ahead(j, 1, |orbit|)]
    ensures Iterate(f, orbit[i], k) == orbit[Ahead(i, k, |orbit|)]
    decreases k
  {
    if k > 0 {
      var n := |orbit|;
      IterateRound(f, orbit, Ahead(i, 1, n), k - 1);
      assert Ahead(Ahead(i, 1, n), k - 1, n) == Ahead(i, k, n);
    }
  }

  /** The normalised lines with a given content, one per entry of the list. */
  function Round(chars: seq<string>, content: string): seq<string> {
    seq(|chars|, j requires 0 <= j < |chars| => FormatCheckbox(chars[j], content))
  }

  /** Each run of the command takes one line of the round to the next. */
  lemma RoundSteps(chars: seq<string>, content: string)
    requires WellFormedCycle(chars) && NoTerminators(content)
    ensures var orbit := Round(chars, content);
      forall j :: 0 <= j < |orbit| ==>
        UpdatedLine(orbit[j], chars) == orbit[Ahead(j, 1, |orbit|)]
  {
    var orbit := Round(chars, content);
    forall j | 0 <= j < |orbit|
      ensures UpdatedLine(orbit[j], chars) == orbit[Ahead(j, 1, |orbit|)]
    {
      CycleStep(chars, j, content);
    }
  }

  /** On a well-formed list a line written without the space after `]` also
      steps to the next entry, and gets the space back. */
  lemma UnspacedStep(chars: seq<string>, i: nat, content: string)
    requires WellFormedCycle(chars) && i < |chars| && NoTerminators(content)
    requires content == [] || content[0] != ' '
    ensures UpdatedLine("- [" + chars[i] + "]" + content, chars) ==
      FormatCheckbox(chars[Ahead(i, 1, |chars|)], content)
  {
    var c := chars[i][0];
    assert chars[i] == [c];
    ParseUnspaced(c, content);
    EntriesDistinct(chars, i);
    KnownMarkerAdvances("- [" + chars[i] + "]" + content, chars, i);
    AheadIsMod(i, 1, |chars|);
  }

  /** `k` runs, up to one full round, move a normalised line `k` entries on,
      wrapping round the end of the list. */
  lemma CycleTimesSteps(chars: seq<string>, i: nat, content: string, k: nat)
    requires WellFormedCycle(chars) && i < |chars| && NoTerminators(content) && k <= |chars|
    ensures CycleTimes(FormatCheckbox(chars[i], content), chars, k) ==
      FormatCheckbox(chars[Ahead(i, k, |chars|)], content)
  {
    var orbit := Round(chars, content);
    RoundSteps(chars, content);
    IterateRound(l => UpdatedLine(l, chars), orbit, i, k);
  }

  /** Cycle closure: `|chars|` runs bring a normalised line back to itself. */
  lemma CycleClosure(chars: seq<string>, i: nat, content: string)
    requires WellFormedCycle(chars) && i < |chars| && NoTerminators(content)
    ensures CycleTimes(FormatCheckbox(chars[i], content), chars, |chars|) == FormatCheckbox(chars[i], content)
  {
    CycleTimesSteps(chars, i, content, |chars|);
  }

  /** The first run on a line whose marker is entry `i` of a well-formed list
      gives the normalised line of entry `i + 1`. */
  lemma FirstRunSteps(line: string, chars: seq<string>, i: nat)
    requires WellFormedCycle(chars) && i < |chars|
    requires MatchCheckbox(line).Some? && chars[i] == [MatchCheckbox(line).value.marker]
    ensures UpdatedLine(line, chars) ==
      FormatCheckbox(chars[Ahead(i, 1, |chars|)], MatchCheckbox(line).value.content)
  {
    EntriesDistinct(chars, i);
    KnownMarkerAdvances(line, chars, i);
    AheadIsMod(i, 1, |chars|);
  }

  /** A line whose marker is in a well-formed list is back at its own marker
      and content after `|chars|` runs, with the space after `]` normalised
      to exactly one. */
  lemma KnownLineReturns(line: string, chars: seq<string>)
    requires WellFormedCycle(chars)
    requires MatchCheckbox(line).Some? && [MatchCheckbox(line).value.marker] in chars
    ensures var m := MatchCheckbox(line).value;
      CycleTimes(line, chars, |chars|) == FormatCheckbox([m.marker], m.content)
  {
    var m := MatchCheckbox(line).value;
    var n := |chars|;
    var i :| 0 <= i < n && chars[i] == [m.marker];
    var i' := Ahead(i, 1, n);
    FirstRunSteps(line, chars, i);
    assert CycleTimes(line, chars, n) == CycleTimes(FormatCheckbox(chars[i'], m.content), chars, n - 1);
    CycleTimesSteps(chars, i', m.content, n - 1);
    assert Ahead(i', n - 1, n) == i;
  }

  /** When the blank is on a well-formed list, any terminator-free line is on
      the cycle after one run: from then on `|chars|` runs return it. */
  lemma OnCycleAfterOneRun(line: string, chars: seq<string>)
    requires WellFormedCycle(chars) && " " in chars && NoTerminators(line)
    ensures var once := UpdatedLine(line, chars);
      CycleTimes(once, chars, |chars|) == once
  {
    var marker, content := CycleOutputForm(line, chars);
    var i :| 0 <= i < |chars| && chars[i] == marker;
    assert NoTerminators(content);
    CycleClosure(chars, i, content);
  }
}
