/** What a frame's fields are: lines are the text cut at line feeds, a value is what follows the field's name without
    the blanks around it, and the data of a frame is its values one to a line.
    */
module SseFields {
  import opened Machine
  import opened Sse
  import opened SseFrames

  predicate OneLiner(s: string) {
    '\n' !in s
  }

  predicate AllOneLiners(lines: seq<string>) {
    forall i :: 0 <= i < |lines| ==> OneLiner(lines[i])
  }

  /** Lines hold no line feed, and joined by line feeds they are the text again. */
  lemma {:induction false} LinesAre(s: string)
    ensures AllOneLiners(Lines(s)) && Join(Lines(s)) == s
    decreases |s|
  {
    if s != [] {
      var c, rest := s[0], Lines(s[1..]);
      LinesAre(s[1..]);
      if c == '\n' {
        var none: seq<string> := [[]];
        assert (none + rest)[1..] == rest;
        assert Join(none + rest) == [] + "\n" + Join(rest) == s;
      } else {
        FirstGrows(c, rest);
        assert [c] + s[1..] == s;
      }
    }
  }

  lemma {:induction false} FirstGrows(c: char, rest: seq<string>)
    requires |rest| > 0
    ensures Join([[c] + rest[0]] + rest[1..]) == [c] + Join(rest)
  {
    var grown := [[c] + rest[0]] + rest[1..];
    assert grown[1..] == rest[1..];
    if |rest| > 1 {
      assert ([c] + rest[0]) + "\n" + Join(rest[1..]) == [c] + (rest[0] + "\n" + Join(rest[1..]));
    }
  }

  /** And there is only one way to cut: joining lines and cutting again gives the lines. */
  lemma {:induction false} JoinedLines(parts: seq<string>)
    requires parts != [] && AllOneLiners(parts)
    ensures Lines(Join(parts)) == parts
    decreases |parts|
  {
    OneLinerIsALine(parts[0]);
    if |parts| > 1 {
      JoinedLines(parts[1..]);
      LinesJoin(parts[0], Join(parts[1..]));
      assert parts == [parts[0]] + parts[1..];
    } else {
      assert parts == [parts[0]];
    }
  }

  lemma {:induction false} OneLinerIsALine(s: string)
    requires OneLiner(s)
    ensures Lines(s) == [s]
    decreases |s|
  {
    if s != [] {
      OneLinerIsALine(s[1..]);
      assert s == [s[0]] + s[1..];
    }
  }

  // ------------------------------------------------------------------- values

  /** `t` is `s` without the blanks at both ends. */
  ghost predicate IsTrimmed(s: string, t: string) {
    && (exists pre: string, post: string :: Blank(pre) && Blank(post) && s == pre + t + post)
    && (t != [] ==> !IsSpace(t[0]) && !IsSpace(t[|t| - 1]))
  }

  lemma {:induction false} TrimStartIs(s: string) returns (pre: string)
    ensures Blank(pre) && s == pre + TrimStart(s)
    ensures TrimStart(s) != [] ==> !IsSpace(TrimStart(s)[0])
    decreases |s|
  {
    if s != [] && IsSpace(s[0]) {
      var rest := TrimStartIs(s[1..]);
      pre := [s[0]] + rest;
      assert s == [s[0]] + s[1..];
    } else {
      pre := [];
    }
  }

  lemma {:induction false} TrimEndIs(s: string) returns (post: string)
    ensures Blank(post) && s == TrimEnd(s) + post
    ensures TrimEnd(s) != [] ==> !IsSpace(TrimEnd(s)[|TrimEnd(s)| - 1])
    decreases |s|
  {
    if s != [] && IsSpace(s[|s| - 1]) {
      var rest := TrimEndIs(s[..|s| - 1]);
      post := rest + [s[|s| - 1]];
      assert s == s[..|s| - 1] + [s[|s| - 1]];
    } else {
      post := [];
    }
  }

  lemma TrimIs(s: string)
    ensures IsTrimmed(s, Trim(s))
  {
    var pre := TrimStartIs(s);
    var t := TrimStart(s);
    var post := TrimEndIs(t);
    assert s == pre + Trim(s) + post;
    if Trim(s) != [] { assert Trim(s)[0] == t[0]; }
  }

  /** A line carries a field exactly when it begins with the field's name, and the value is the trimmed rest. */
  lemma FieldIs(line: string, name: string)
    ensures Field(line, name).Some? <==> |name| <= |line| && line[..|name|] == name
    ensures Field(line, name).Some? ==> IsTrimmed(line[|name|..], Field(line, name).value)
  {
    hide Trim, IsTrimmed;
    if name <= line {
      TrimIs(line[|name|..]);
    }
  }

  lemma TrimmedIsOneLine(s: string, t: string)
    requires OneLiner(s) && IsTrimmed(s, t)
    ensures OneLiner(t)
  {
    var pre: string, post: string :| Blank(pre) && Blank(post) && s == pre + t + post;
    forall i | 0 <= i < |t| ensures t[i] != '\n' {
      assert s[|pre| + i] == t[i];
    }
  }

  lemma {:induction false} ValuesAreOneLiners(lines: seq<string>, name: string)
    requires AllOneLiners(lines)
    ensures AllOneLiners(AllFields(lines, name))
    decreases |lines|
  {
    hide Field;
    if lines != [] {
      var front, last := lines[..|lines| - 1], lines[|lines| - 1];
      ValuesAreOneLiners(front, name);
      FieldIs(last, name);
      if Field(last, name).Some? {
        assert OneLiner(last[|name|..]);
        TrimmedIsOneLine(last[|name|..], Field(last, name).value);
      }
    }
  }

  /** The lines of a frame's data are its data values, in their order. */
  lemma DataIsOneValuePerLine(raw: string)
    requires FrameOf(raw).Some? && AllFields(Lines(raw), "data:") != []
    ensures Lines(FrameOf(raw).value.data) == AllFields(Lines(raw), "data:")
  {
    hide AllFields, LastField, Lines, Join;
    LinesAre(raw);
    ValuesAreOneLiners(Lines(raw), "data:");
    JoinedLines(AllFields(Lines(raw), "data:"));
  }
}
