/** The text operations the file formats and the swap string are read with. */
module Text {

  /** The parts between separators; a text without any is one part. */
  function Split(s: string, sep: char): (parts: seq<string>)
    ensures |parts| >= 1
  {
    if s == "" then [""]
    else
      var rest := Split(s[1..], sep);
      if s[0] == sep then [""] + rest else [[s[0]] + rest[0]] + rest[1..]
  }

  function Join(parts: seq<string>, sep: char): string {
    if parts == [] then ""
    else if |parts| == 1 then parts[0]
    else parts[0] + [sep] + Join(parts[1..], sep)
  }

  lemma {:induction false} SplitOfPart(part: string, sep: char)
    requires sep !in part
    ensures Split(part, sep) == [part]
  {
    if part != "" {
      SplitOfPart(part[1..], sep);
      assert [part[0]] + part[1..] == part;
    }
  }

  lemma {:induction false} SplitAtSeparator(part: string, rest: string, sep: char)
    requires sep !in part
    ensures Split(part + [sep] + rest, sep) == [part] + Split(rest, sep)
  {
    var s := part + [sep] + rest;
    if part == "" {
      assert s[1..] == rest;
    } else {
      SplitAtSeparator(part[1..], rest, sep);
      assert s[1..] == part[1..] + [sep] + rest;
      assert [part[0]] + part[1..] == part;
    }
  }

  /** Splitting takes a joined text apart again. */
  lemma {:induction false} SplitJoin(parts: seq<string>, sep: char)
    requires parts != [] && forall p | p in parts :: sep !in p
    ensures Split(Join(parts, sep), sep) == parts
  {
    if |parts| == 1 {
      SplitOfPart(parts[0], sep);
    } else {
      SplitJoin(parts[1..], sep);
      SplitAtSeparator(parts[0], Join(parts[1..], sep), sep);
    }
  }

  lemma {:induction false} JoinAppend(parts: seq<string>, last: string, sep: char)
    ensures Join(parts + [last], sep) == if parts == [] then last else Join(parts, sep) + [sep] + last
  {
    if |parts| == 1 {
      assert (parts + [last])[1..] == [last];
    } else if |parts| > 1 {
      JoinAppend(parts[1..], last, sep);
      assert (parts + [last])[1..] == parts[1..] + [last];
      assert parts[0] + [sep] + (Join(parts[1..], sep) + [sep] + last)
          == (parts[0] + [sep] + Join(parts[1..], sep)) + [sep] + last;
    }
  }

  /** A joined text is empty only without parts, if no part is. */
  lemma JoinIsEmpty(parts: seq<string>, sep: char)
    requires forall p | p in parts :: p != ""
    ensures Join(parts, sep) == "" <==> parts == []
  {
    if parts != [] {
      assert parts[0] in parts && parts[0] != "";
      assert |Join(parts, sep)| >= |parts[0]|;
    }
  }

  function StripCr(line: string): string {
    if line != "" && line[|line| - 1] == '\r' then line[..|line| - 1] else line
  }

  /** The parts between line feeds as lines: a last empty one is none, the others lose a carriage return. */
  function LinesOfParts(parts: seq<string>): seq<string>
    requires parts != []
  {
    if |parts| == 1 then (if parts[0] == "" then [] else parts)
    else [StripCr(parts[0])] + LinesOfParts(parts[1..])
  }

  /**
   * The lines of a text: a line ending is a line feed, with a carriage return before it or
   * not; the last one is optional.
   */
  function Lines(s: string): seq<string> {
    LinesOfParts(Split(s, '\n'))
  }

  /** A line that reads back as it was written. */
  predicate IsPlainLine(line: string) {
    line != "" && '\n' !in line && line[|line| - 1] != '\r'
  }

  lemma {:induction false} PlainParts(lines: seq<string>)
    requires lines != [] && forall l | l in lines :: IsPlainLine(l)
    ensures LinesOfParts(lines) == lines
  {
    assert lines[0] in lines;
    if |lines| > 1 {
      PlainParts(lines[1..]);
      assert lines == [lines[0]] + lines[1..];
    }
  }

  lemma LinesOfJoin(lines: seq<string>)
    requires forall l | l in lines :: IsPlainLine(l)
    ensures Lines(Join(lines, '\n')) == lines
  {
    if lines == [] {
      assert Split("", '\n') == [""];
    } else {
      SplitJoin(lines, '\n');
      PlainParts(lines);
    }
  }

  /** Lines that each end in a line feed, blank ones included. */
  function Terminated(lines: seq<string>): string {
    if lines == [] then "" else lines[0] + "\n" + Terminated(lines[1..])
  }

  lemma {:induction false} LinesOfTerminated(lines: seq<string>)
    requires forall l | l in lines :: l == "" || IsPlainLine(l)
    ensures Lines(Terminated(lines)) == lines
  {
    if lines == [] {
      assert Split("", '\n') == [""];
    } else {
      LinesOfTerminated(lines[1..]);
      assert lines[0] in lines;
      SplitAtSeparator(lines[0], Terminated(lines[1..]), '\n');
      var rest := Split(Terminated(lines[1..]), '\n');
      assert ([lines[0]] + rest)[1..] == rest;
    }
  }

  /** Unicode white space. */
  predicate IsSpace(c: char) {
    var n := c as int;
    || 0x09 <= n <= 0x0D || n == 0x20 || n == 0x85 || n == 0xA0 || n == 0x1680
    || 0x2000 <= n <= 0x200A || n == 0x2028 || n == 0x2029 || n == 0x202F || n == 0x205F || n == 0x3000
  }

  function TrimStart(s: string): string {
    if s != "" && IsSpace(s[0]) then TrimStart(s[1..]) else s
  }

  function TrimEnd(s: string): string {
    if s != "" && IsSpace(s[|s| - 1]) then TrimEnd(s[..|s| - 1]) else s
  }

  function Trim(s: string): string {
    TrimEnd(TrimStart(s))
  }

  /** A text without white space at its ends trims to itself. */
  lemma TrimKeeps(s: string)
    requires s != "" && !IsSpace(s[0]) && !IsSpace(s[|s| - 1])
    ensures Trim(s) == s
  {
  }

  // What these operations do to any text.

  /** How often a character occurs. */
  function Count(s: string, sep: char): nat {
    if s == "" then 0 else (if s[0] == sep then 1 else 0) + Count(s[1..], sep)
  }

  /** Splitting gives one part more than there are separators, and none with a separator. */
  lemma {:induction false} SplitCounts(s: string, sep: char)
    ensures |Split(s, sep)| == Count(s, sep) + 1
    ensures forall p | p in Split(s, sep) :: sep !in p
  {
    if s != "" {
      SplitCounts(s[1..], sep);
      var rest := Split(s[1..], sep);
      assert rest[0] in rest;
    }
  }

  /** Joining what was split gives back the text. */
  lemma {:induction false} JoinSplit(s: string, sep: char)
    ensures Join(Split(s, sep), sep) == s
  {
    if s != "" {
      JoinSplit(s[1..], sep);
      var rest := Split(s[1..], sep);
      assert s == [s[0]] + s[1..];
      if s[0] == sep {
        assert ([""] + rest)[1..] == rest;
      } else {
        JoinFirst(s[0], rest, sep);
      }
    }
  }

  lemma JoinFirst(c: char, parts: seq<string>, sep: char)
    requires parts != []
    ensures Join([[c] + parts[0]] + parts[1..], sep) == [c] + Join(parts, sep)
  {
    var more := [[c] + parts[0]] + parts[1..];
    assert more[1..] == parts[1..];
    if |parts| > 1 {
      assert [c] + (parts[0] + [sep] + Join(parts[1..], sep)) == ([c] + parts[0]) + [sep] + Join(parts[1..], sep);
    }
  }

  /** Without a line feed there is at most one line, as it is. */
  lemma LastLine(line: string)
    requires '\n' !in line
    ensures Lines(line) == if line == "" then [] else [line]
  {
    SplitOfPart(line, '\n');
  }

  /** A line ends at a line feed, which takes one carriage return before it along. */
  lemma LineEnds(line: string, rest: string)
    requires '\n' !in line
    ensures Lines(line + ['\n'] + rest) == [StripCr(line)] + Lines(rest)
  {
    SplitAtSeparator(line, rest, '\n');
    var parts := Split(rest, '\n');
    assert ([line] + parts)[1..] == parts;
  }

  lemma CarriageReturnGoes(line: string)
    ensures StripCr(line + ['\r']) == line
    ensures (line == "" || line[|line| - 1] != '\r') ==> StripCr(line) == line
  {
    assert (line + ['\r'])[..|line|] == line;
  }

  predicate AllSpace(s: string) {
    forall c | c in s :: IsSpace(c)
  }

  /** Trimming takes white space off both ends, and all of it. */
  lemma TrimIs(s: string) returns (before: string, after: string)
    ensures s == before + Trim(s) + after && AllSpace(before) && AllSpace(after)
    ensures Trim(s) != "" ==> !IsSpace(Trim(s)[0]) && !IsSpace(Trim(s)[|Trim(s)| - 1])
  {
    before := TrimStartIs(s);
    after := TrimEndIs(TrimStart(s));
    assert before + (Trim(s) + after) == before + Trim(s) + after;
    if Trim(s) != "" {
      assert TrimStart(s)[0] == Trim(s)[0];
    }
  }

  lemma {:induction false} TrimStartIs(s: string) returns (before: string)
    ensures s == before + TrimStart(s) && AllSpace(before)
    ensures TrimStart(s) != "" ==> !IsSpace(TrimStart(s)[0])
  {
    before := "";
    if s != "" && IsSpace(s[0]) {
      var more := TrimStartIs(s[1..]);
      before := [s[0]] + more;
      assert s == [s[0]] + s[1..];
    }
  }

  lemma {:induction false} TrimEndIs(s: string) returns (after: string)
    ensures s == TrimEnd(s) + after && AllSpace(after)
    ensures TrimEnd(s) != "" ==> !IsSpace(TrimEnd(s)[|TrimEnd(s)| - 1])
    decreases |s|
  {
    after := "";
    if s != "" && IsSpace(s[|s| - 1]) {
      var k := |s| - 1;
      var more := TrimEndIs(s[..k]);
      after := more + [s[k]];
      assert s == s[..k] + [s[k]];
      assert TrimEnd(s[..k]) + (more + [s[k]]) == TrimEnd(s[..k]) + more + [s[k]];
    }
  }
}
