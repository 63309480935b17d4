/** Text as lines: splitting, joining, and the two ways a carriage return at the end of a line is dropped. */
module EnvLines {
  import opened Prelude
  import opened Strings

  predicate OneLine(s: Text) {
    '\n' !in s
  }

  predicate AllLines(lines: seq<Text>) {
    forall l :: l in lines ==> OneLine(l)
  }

  function Split(s: Text): (lines: seq<Text>)
    ensures |lines| >= 1
  {
    if s == [] then [[]]
    else
      var rest := Split(s[1..]);
      if s[0] == '\n' then [[]] + rest else [[s[0]] + rest[0]] + rest[1..]
  }

  function Join(lines: seq<Text>): Text {
    JoinWith(lines, '\n')
  }

  /** Every "\r\n" replaced by "\n". */
  function Unix(s: Text): Text {
    if s == [] then []
    else if |s| >= 2 && s[0] == '\r' && s[1] == '\n' then ['\n'] + Unix(s[2..])
    else [s[0]] + Unix(s[1..])
  }

  function TrimNewlines(s: Text): Text {
    if s != [] && Last(s) == '\n' then TrimNewlines(s[..|s| - 1]) else s
  }

  function DropCr(line: Text): Text {
    if line != [] && Last(line) == '\r' then line[..|line| - 1] else line
  }

  function DropAll(lines: seq<Text>): seq<Text> {
    seq(|lines|, i requires 0 <= i < |lines| => DropCr(lines[i]))
  }

  /** Without the empty lines at the end. */
  function Strip(lines: seq<Text>): seq<Text> {
    if lines != [] && Last(lines) == [] then Strip(lines[..|lines| - 1]) else lines
  }

  lemma {:induction false} SplitIsLines(s: Text)
    ensures AllLines(Split(s))
  {
    if s != [] {
      SplitIsLines(s[1..]);
      var rest := Split(s[1..]);
      forall l | l in Split(s)
        ensures OneLine(l)
      {
        assert l in rest || l == [] || (s[0] != '\n' && l == [s[0]] + rest[0] && rest[0] in rest);
      }
    }
  }

  lemma {:induction false} SplitLine(line: Text, rest: Text)
    requires OneLine(line)
    ensures Split(line) == [line] && Split(line + "\n" + rest) == [line] + Split(rest)
    decreases |line|
  {
    var s := line + "\n" + rest;
    if line == [] {
      assert s[1..] == rest;
    } else {
      SplitLine(line[1..], rest);
      assert s[1..] == line[1..] + "\n" + rest;
      assert line == [line[0]] + line[1..];
    }
  }

  lemma {:induction false} SplitJoin(lines: seq<Text>)
    requires lines != [] && AllLines(lines)
    ensures Split(Join(lines)) == lines
  {
    assert lines[0] in lines;
    if |lines| == 1 {
      SplitLine(lines[0], []);
    } else {
      SplitLine(lines[0], Join(lines[1..]));
      SplitJoin(lines[1..]);
    }
  }

  lemma {:induction false} JoinSplit(s: Text)
    ensures Join(Split(s)) == s
  {
    if s != [] {
      JoinSplit(s[1..]);
      var rest := Split(s[1..]);
      if s[0] == '\n' {
        assert ([[]] + rest)[1..] == rest;
      } else {
        assert Split(s)[1..] == rest[1..];
      }
      assert s == [s[0]] + s[1..];
    }
  }

  lemma {:induction false} JoinSnoc(lines: seq<Text>, line: Text)
    requires lines != []
    ensures Join(lines + [line]) == Join(lines) + "\n" + line
  {
    if |lines| > 1 {
      assert (lines + [line])[1..] == lines[1..] + [line];
      JoinSnoc(lines[1..], line);
    } else {
      assert (lines + [line])[1..] == [line] && (lines + [line])[0] == lines[0];
      assert Join(lines) == lines[0] && Join([line]) == line;
    }
  }

  /** Trimming the newlines at the end strips the empty lines there. */
  lemma {:induction false} TrimJoin(lines: seq<Text>)
    requires AllLines(lines)
    ensures TrimNewlines(Join(lines)) == Join(Strip(lines))
    decreases |lines|
  {
    if lines != [] {
      var init, last := lines[..|lines| - 1], Last(lines);
      assert lines == init + [last];
      if init != [] {
        JoinSnoc(init, last);
      }
      if last == [] {
        TrimJoin(init);
        if init != [] {
          assert Join(lines)[..|Join(lines)| - 1] == Join(init);
        }
      } else {
        assert Last(Join(lines)) == Last(last) && Last(last) in last && last in lines;
      }
    }
  }

  lemma UnixStep(c: Byte, t: Text)
    requires !(c == '\r' && t != [] && t[0] == '\n')
    ensures Unix([c] + t) == [c] + Unix(t)
  {
    assert ([c] + t)[1..] == t;
  }

  lemma {:induction false} UnixFixes(line: Text)
    requires OneLine(line)
    ensures Unix(line) == line
  {
    if line != [] {
      UnixFixes(line[1..]);
      UnixStep(line[0], line[1..]);
      assert line == [line[0]] + line[1..];
    }
  }

  lemma {:induction false} UnixLine(line: Text, rest: Text)
    requires OneLine(line)
    ensures Unix(line + "\n" + rest) == DropCr(line) + "\n" + Unix(rest)
    decreases |line|
  {
    if line == [] {
      UnixStep('\n', rest);
      assert line + "\n" + rest == ['\n'] + rest;
    } else if line == "\r" {
      var s := line + "\n" + rest;
      assert s[2..] == rest;
    } else {
      var tail := line[1..] + "\n" + rest;
      UnixLine(line[1..], rest);
      assert line == [line[0]] + line[1..];
      assert |line| > 1 ==> tail[0] == line[1];
      UnixStep(line[0], tail);
      assert line + "\n" + rest == [line[0]] + tail;
      assert DropCr(line) == [line[0]] + DropCr(line[1..]);
    }
  }

  /** Reading as Unix text drops one carriage return at the end of every line but the last. */
  lemma {:induction false} UnixJoin(lines: seq<Text>)
    requires lines != [] && AllLines(lines)
    ensures Unix(Join(lines)) == Join(DropAll(lines[..|lines| - 1]) + [Last(lines)])
  {
    assert lines[0] in lines;
    var read := DropAll(lines[..|lines| - 1]) + [Last(lines)];
    if |lines| == 1 {
      UnixFixes(lines[0]);
      assert read == lines;
    } else {
      UnixLine(lines[0], Join(lines[1..]));
      UnixJoin(lines[1..]);
      assert read[1..] == DropAll(lines[1..][..|lines| - 2]) + [Last(lines[1..])];
      assert read[0] == DropCr(lines[0]);
    }
  }

  /** The text a list of lines is written as. */
  function Written(lines: seq<Text>): Text {
    TrimNewlines(Join(lines)) + "\n"
  }

  function LinesOf(s: Text): seq<Text> {
    Split(Unix(s))
  }

  lemma StripIsLines(lines: seq<Text>)
    requires AllLines(lines)
    ensures AllLines(Strip(lines)) && Strip(lines) <= lines
  {
  }

  lemma DropAllIsLines(lines: seq<Text>)
    requires AllLines(lines)
    ensures AllLines(DropAll(lines))
  {
    forall l | l in DropAll(lines)
      ensures OneLine(l)
    {
      var i :| 0 <= i < |lines| && l == DropCr(lines[i]);
      assert lines[i] in lines;
    }
  }

  /** The lines of what was written: an empty file has two empty lines, otherwise one follows the last line. */
  lemma LinesOfWritten(lines: seq<Text>)
    requires AllLines(lines)
    ensures LinesOf(Written(lines)) == DropAll(if Strip(lines) == [] then [[]] else Strip(lines)) + [[]]
    ensures AllLines(LinesOf(Written(lines)))
  {
    var body := if Strip(lines) == [] then [[]] else Strip(lines);
    TrimJoin(lines);
    StripIsLines(lines);
    JoinSnoc(body, []);
    assert Written(lines) == Join(body + [[]]);
    assert (body + [[]])[..|body|] == body;
    UnixJoin(body + [[]]);
    DropAllIsLines(body);
    SplitJoin(DropAll(body) + [[]]);
  }
}
