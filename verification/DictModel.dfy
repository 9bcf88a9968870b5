/**
  The dictionary file: its lines, how a line is read, and what the loaded dictionary answers.
*/
module DictModel {
  import opened Tally

  const SEP: string := ": "

  const NONE: string := "None"

  // The lines getline delivers: the pieces between newlines, without an empty last one.
  function Lines(content: string): seq<string>
  {
    if content == [] then [] else
      var n := FirstNewline(content);
      if n == |content| then [content] else [content[..n]] + Lines(content[n + 1..])
  }

  function FirstNewline(s: string): (n: nat)
    ensures n <= |s| && (n < |s| ==> s[n] == '\n') && forall i | 0 <= i < n :: s[i] != '\n'
  {
    if s == [] || s[0] == '\n' then 0 else 1 + FirstNewline(s[1..])
  }

  predicate SepAt(line: string, i: nat)
  {
    i + |SEP| <= |line| && line[i..i + |SEP|] == SEP
  }

  // Where the separator first occurs, or |line| if it does not.
  function FindSep(line: string): (n: nat)
    ensures n <= |line| && (n < |line| ==> SepAt(line, n)) && forall i: nat | i < n :: !SepAt(line, i)
  {
    FindSepFrom(line, 0)
  }

  function FindSepFrom(line: string, i: nat): (n: nat)
    requires i <= |line|
    ensures i <= n <= |line| && (n < |line| ==> SepAt(line, n)) && forall j: nat | i <= j < n :: !SepAt(line, j)
    decreases |line| - i
  {
    if i == |line| || SepAt(line, i) then i else FindSepFrom(line, i + 1)
  }

  // The key and value of a line; none if there is no separator or either part is empty.
  function ParseLine(line: string): Option<(string, string)>
  {
    if line == [] then None else
      var pos := FindSep(line);
      if pos == |line| then None else
        var key, value := line[..pos], line[pos + |SEP|..];
        if key == [] || value == [] then None else Some((key, value))
  }

  // insert leaves an entry that is there as it is.
  function Insert(d: map<string, string>, line: string): map<string, string>
  {
    match ParseLine(line)
    case None => d
    case Some((key, value)) => if key in d then d else d[key := value]
  }

  function Load(lines: seq<string>): map<string, string>
  {
    if lines == [] then map[] else Insert(Load(lines[..|lines| - 1]), lines[|lines| - 1])
  }

  function Translate(d: map<string, string>, word: string): string
  {
    if word == [] then NONE else if word in d then d[word] else NONE
  }

  // ---- lines and entries -----------------------------------------------------------------------

  // The lines, each ended by a newline.
  function Unlines(lines: seq<string>): string
  {
    if lines == [] then [] else lines[0] + ['\n'] + Unlines(lines[1..])
  }

  // Lines cuts the content at its newlines and nowhere else ...
  lemma {:induction false} LinesHaveNoNewline(content: string)
    ensures forall i | 0 <= i < |Lines(content)| :: '\n' !in Lines(content)[i]
  {
    if content != [] && FirstNewline(content) < |content| {
      LinesHaveNoNewline(content[FirstNewline(content) + 1..]);
    }
  }

  function Ended(content: string): string
  {
    if content != [] && content[|content| - 1] != '\n' then content + ['\n'] else content
  }

  lemma EndedStep(line: string, rest: string)
    ensures Ended(line + ['\n'] + rest) == line + ['\n'] + Ended(rest)
  {
    var content := line + ['\n'] + rest;
    if rest == [] {
      assert content[|content| - 1] == '\n';
    } else {
      assert content[|content| - 1] == rest[|rest| - 1];
    }
  }

  lemma UnlinesCons(line: string, lines: seq<string>)
    ensures Unlines([line] + lines) == line + ['\n'] + Unlines(lines)
  {
    assert ([line] + lines)[1..] == lines;
  }

  lemma CutAt(content: string, n: nat)
    requires n < |content| && content[n] == '\n'
    ensures content == content[..n] + ['\n'] + content[n + 1..]
  {
  }

  lemma {:induction false} LinesJoin(content: string)
    ensures Unlines(Lines(content)) == Ended(content)
  {
    var n := FirstNewline(content);
    if content != [] && n == |content| {
      UnlinesCons(content, []);
      assert [content] + [] == [content];
      assert content + ['\n'] + [] == content + ['\n'];
    } else if content != [] {
      var line, rest := content[..n], content[n + 1..];
      LinesJoin(rest);
      CutAt(content, n);
      UnlinesCons(line, Lines(rest));
      EndedStep(line, rest);
    }
  }

  // ... and loses nothing: put together again the lines are the content, whether or not the last
  // of them was ended.
  lemma LinesAre(content: string)
    ensures forall i | 0 <= i < |Lines(content)| :: '\n' !in Lines(content)[i]
    ensures Unlines(Lines(content)) ==
            if content != [] && content[|content| - 1] != '\n' then content + ['\n'] else content
  {
    LinesHaveNoNewline(content);
    LinesJoin(content);
  }

  lemma LineFirst(line: string, rest: string)
    requires '\n' !in line
    ensures Lines(line + ['\n'] + rest) == [line] + Lines(rest)
  {
    var content := line + ['\n'] + rest;
    var n := |line|;
    assert content[n] == '\n' && forall i | 0 <= i < n :: content[i] == line[i];
    assert FirstNewline(content) == n;
    assert content[..n] == line && content[n + 1..] == rest;
  }

  // Those are the only lines of which that is true.
  lemma {:induction false} LinesOfUnlines(lines: seq<string>)
    requires forall i | 0 <= i < |lines| :: '\n' !in lines[i]
    ensures Lines(Unlines(lines)) == lines
  {
    if lines != [] {
      LinesOfUnlines(lines[1..]);
      LineFirst(lines[0], Unlines(lines[1..]));
    }
  }

  lemma SepAtIs(line: string, i: nat)
    ensures SepAt(line, i) <==> i + 2 <= |line| && line[i] == ':' && line[i + 1] == ' '
  {
    if i + 2 <= |line| {
      assert line[i..i + 2] == [line[i], line[i + 1]];
    }
  }

  // The first separator of a line, position by position.
  lemma FindSepIs(line: string, n: nat)
    requires n + 2 <= |line| && line[n] == ':' && line[n + 1] == ' '
    requires forall i: nat | i < n :: !(line[i] == ':' && line[i + 1] == ' ')
    ensures FindSep(line) == n
  {
    SepAtIs(line, n);
    forall i: nat | i < n
      ensures !SepAt(line, i)
    {
      SepAtIs(line, i);
    }
  }

  lemma EntryParses(key: string, value: string)
    requires key != "" && value != ""
    requires var line := key + ": " + value; forall i: nat | i < |key| :: !(line[i] == ':' && line[i + 1] == ' ')
    ensures ParseLine(key + ": " + value) == Some((key, value))
  {
    var line := key + ": " + value;
    assert line[|key|] == ':' && line[|key| + 1] == ' ';
    FindSepIs(line, |key|);
    assert line[..|key|] == key && line[|key| + 2..] == value;
  }

  lemma ParsedIsEntry(line: string, key: string, value: string)
    requires ParseLine(line) == Some((key, value))
    ensures key != "" && value != "" && line == key + ": " + value
    ensures forall i: nat | i < |key| :: !(line[i] == ':' && line[i + 1] == ' ')
  {
    var pos := FindSep(line);
    SepAtIs(line, pos);
    assert line == line[..pos] + ": " + line[pos + 2..];
    forall i: nat | i < |key|
      ensures !(line[i] == ':' && line[i + 1] == ' ')
    {
      SepAtIs(line, i);
    }
  }

  // A line is an entry exactly if it is a key and a value, neither of them empty, with ": " between
  // them and not earlier.
  lemma ParseLineIs(line: string, key: string, value: string)
    ensures ParseLine(line) == Some((key, value)) <==>
            && key != "" && value != "" && line == key + ": " + value
            && forall i: nat | i < |key| :: !(line[i] == ':' && line[i + 1] == ' ')
  {
    if ParseLine(line) == Some((key, value)) {
      ParsedIsEntry(line, key, value);
    } else if key != "" && value != "" && line == key + ": " + value {
      if forall i: nat | i < |key| :: !(line[i] == ':' && line[i + 1] == ' ') {
        EntryParses(key, value);
      }
    }
  }

  // ---- first line wins -----------------------------------------------------------------------

  ghost predicate Defines(line: string, word: string, value: string)
  {
    ParseLine(line) == Some((word, value))
  }

  ghost predicate FirstDefines(lines: seq<string>, i: nat, word: string, value: string)
  {
    i < |lines| && Defines(lines[i], word, value) && forall j, v | 0 <= j < i :: !Defines(lines[j], word, v)
  }

  // For any file: a word is in the dictionary exactly if some line defines it, with the value on
  // the first such line.
  lemma {:induction false} FirstValidLineWins(lines: seq<string>, word: string)
    ensures if word in Load(lines)
            then exists i | 0 <= i < |lines| :: FirstDefines(lines, i, word, Load(lines)[word])
            else forall j, v | 0 <= j < |lines| :: !Defines(lines[j], word, v)
  {
    if lines != [] {
      var pre, n := lines[..|lines| - 1], |lines| - 1;
      FirstValidLineWins(pre, word);
      assert forall j | 0 <= j < n :: pre[j] == lines[j];
      if word in Load(pre) {
        var i :| 0 <= i < n && FirstDefines(pre, i, word, Load(pre)[word]);
        assert FirstDefines(lines, i, word, Load(lines)[word]);
      } else if word in Load(lines) {
        assert FirstDefines(lines, n, word, Load(lines)[word]);
      }
    }
  }

  // ---- round trip ----------------------------------------------------------------------------

  function Print(entries: seq<(string, string)>): string
  {
    if entries == [] then [] else entries[0].0 + ": " + entries[0].1 + ['\n'] + Print(entries[1..])
  }

  ghost predicate GoodKey(key: string)
  {
    key != [] && '\n' !in key && forall i: nat | i + 1 < |key| :: !(key[i] == ':' && key[i + 1] == ' ')
  }

  ghost predicate GoodValue(value: string)
  {
    value != [] && '\n' !in value
  }

  ghost predicate Printable(entries: seq<(string, string)>)
  {
    && (forall i | 0 <= i < |entries| :: GoodKey(entries[i].0) && GoodValue(entries[i].1))
    && (forall i, j | 0 <= i < j < |entries| :: entries[i].0 != entries[j].0)
  }

  // A printed line is parsed back, even if the key ends in a colon.
  lemma ParsePrinted(key: string, value: string)
    requires GoodKey(key) && GoodValue(value)
    ensures ParseLine(key + ": " + value) == Some((key, value))
  {
    var line := key + ": " + value;
    assert line[|key|] == ':' && forall i | 0 <= i < |key| :: line[i] == key[i];
    EntryParses(key, value);
  }

  function Printed(e: (string, string)): string { e.0 + ": " + e.1 }

  lemma {:induction false} PrintedLines(entries: seq<(string, string)>)
    requires Printable(entries)
    ensures Lines(Print(entries)) == seq(|entries|, i requires 0 <= i < |entries| => Printed(entries[i]))
  {
    if entries != [] {
      var e := entries[0];
      PrintedLines(entries[1..]);
      assert GoodKey(e.0) && GoodValue(e.1);
      LineFirst(Printed(e), Print(entries[1..]));
    }
  }

  lemma PrintedParse(entries: seq<(string, string)>, i: nat)
    requires Printable(entries) && i < |entries|
    ensures |Lines(Print(entries))| == |entries| && ParseLine(Lines(Print(entries))[i]) == Some(entries[i])
  {
    PrintedLines(entries);
    ParsePrinted(entries[i].0, entries[i].1);
  }

  lemma OnlyLine(entries: seq<(string, string)>, i: nat, j: nat, value: string)
    requires Printable(entries) && i < |entries| && j < |Lines(Print(entries))|
    requires Defines(Lines(Print(entries))[j], entries[i].0, value)
    ensures value == entries[i].1
  {
    PrintedLines(entries);
    PrintedParse(entries, j);
  }

  lemma LoadedWord(entries: seq<(string, string)>, i: nat)
    requires Printable(entries) && i < |entries|
    ensures var d := Load(Lines(Print(entries))); entries[i].0 in d && d[entries[i].0] == entries[i].1
  {
    var lines, word := Lines(Print(entries)), entries[i].0;
    PrintedParse(entries, i);
    assert Defines(lines[i], word, entries[i].1);
    FirstValidLineWins(lines, word);
    var j :| 0 <= j < |lines| && FirstDefines(lines, j, word, Load(lines)[word]);
    OnlyLine(entries, i, j, Load(lines)[word]);
  }

  lemma UnknownWord(entries: seq<(string, string)>, word: string)
    requires Printable(entries) && forall i | 0 <= i < |entries| :: entries[i].0 != word
    ensures word !in Load(Lines(Print(entries)))
  {
    var lines := Lines(Print(entries));
    FirstValidLineWins(lines, word);
    if word in Load(lines) {
      var j :| 0 <= j < |lines| && FirstDefines(lines, j, word, Load(lines)[word]);
      PrintedLines(entries);
      PrintedParse(entries, j);
      assert false;
    }
  }

  // Printing distinct entries and loading them makes Translate return each value, and "None" for
  // every other word.
  lemma RoundTrip(entries: seq<(string, string)>, word: string)
    requires Printable(entries)
    ensures var d := Load(Lines(Print(entries)));
            && (forall i | 0 <= i < |entries| :: Translate(d, entries[i].0) == entries[i].1)
            && ((forall i | 0 <= i < |entries| :: entries[i].0 != word) ==> Translate(d, word) == "None")
  {
    forall i | 0 <= i < |entries|
      ensures Translate(Load(Lines(Print(entries))), entries[i].0) == entries[i].1
    {
      LoadedWord(entries, i);
      assert GoodKey(entries[i].0);
    }
    if forall i | 0 <= i < |entries| :: entries[i].0 != word {
      UnknownWord(entries, word);
    }
  }
}
