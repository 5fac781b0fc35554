/** What a frame carries, as a value that lines add up to: a carriage return at the end of a line adds nothing,
    and an unfinished frame of blanks carries nothing.
    */
module SseFrames {
  import opened Machine
  import opened Sse

  datatype Content = Content(data: seq<string>, event: Option<string>, id: Option<string>)

  function ContentOf(lines: seq<string>): Content {
    Content(AllFields(lines, "data:"), LastField(lines, "event:"), LastField(lines, "id:"))
  }

  function ContentIn(s: string): Content {
    ContentOf(Lines(s))
  }

  /** A frame is delivered when it has data or an event name. */
  predicate Delivers(c: Content) {
    c.data != [] || c.event.Some?
  }

  function FrameFrom(c: Content): seq<Frame> {
    if Delivers(c) then [Frame(c.event, c.id, Join(c.data))] else []
  }

  lemma {:induction false} FrameIsContent(s: string)
    ensures Kept(FrameOf(s)) == FrameFrom(ContentIn(s))
  {
    hide AllFields, LastField, Lines, Join;
  }

  function Later(a: Option<string>, b: Option<string>): Option<string> {
    if b.Some? then b else a
  }

  function Merged(a: Content, b: Content): Content {
    Content(a.data + b.data, Later(a.event, b.event), Later(a.id, b.id))
  }

  const NOTHING: Content := Content([], None, None)

  // -------------------------------------------------------------------- lines

  lemma {:induction false} AllFieldsJoin(a: seq<string>, b: seq<string>, name: string)
    ensures AllFields(a + b, name) == AllFields(a, name) + AllFields(b, name)
    decreases |b|
  {
    if b == [] {
      assert a + b == a;
    } else {
      assert (a + b)[..|a + b| - 1] == a + b[..|b| - 1];
      AllFieldsJoin(a, b[..|b| - 1], name);
    }
  }

  lemma {:induction false} LastFieldJoins(a: seq<string>, b: seq<string>, name: string)
    ensures LastField(a + b, name) == Later(LastField(a, name), LastField(b, name))
    decreases |b|
  {
    if b == [] {
      assert a + b == a;
    } else {
      assert (a + b)[..|a + b| - 1] == a + b[..|b| - 1];
      LastFieldJoins(a, b[..|b| - 1], name);
    }
  }

  lemma {:induction false} ContentJoins(a: seq<string>, b: seq<string>)
    ensures ContentOf(a + b) == Merged(ContentOf(a), ContentOf(b))
  {
    hide AllFields, LastField;
    AllFieldsJoin(a, b, "data:");
    LastFieldJoins(a, b, "event:");
    LastFieldJoins(a, b, "id:");
  }

  lemma {:induction false} LinesJoin(x: string, y: string)
    ensures Lines(x + "\n" + y) == Lines(x) + Lines(y)
    decreases |x|
  {
    if x == [] {
      assert (x + "\n" + y)[1..] == y;
    } else {
      assert (x + "\n" + y)[1..] == x[1..] + "\n" + y;
      LinesJoin(x[1..], y);
    }
  }

  lemma {:induction false} LinesCr(x: string)
    ensures Lines(x + "\r") == LastWithCr(Lines(x))
    decreases |x|
  {
    if x == [] {
      var cr: string, none: string := "\r", [];
      assert x + cr == cr && cr[1..] == none && Lines(none) == [none];
      assert Lines(cr) == [[cr[0]] + none];
      assert [cr[0]] + none == none + cr && Lines(none)[..0] == [];
    } else {
      assert (x + "\r")[1..] == x[1..] + "\r";
      LinesCr(x[1..]);
      CrMovesOut(x[0], Lines(x[1..]));
    }
  }

  function LastWithCr(lines: seq<string>): (r: seq<string>)
    requires |lines| > 0
    ensures |r| == |lines|
  {
    lines[..|lines| - 1] + [lines[|lines| - 1] + "\r"]
  }

  lemma {:induction false} CrMovesOut(c: char, rest: seq<string>)
    requires |rest| > 0
    ensures [[]] + LastWithCr(rest) == LastWithCr([[]] + rest)
    ensures [[c] + LastWithCr(rest)[0]] + LastWithCr(rest)[1..] == LastWithCr([[c] + rest[0]] + rest[1..])
  {
    var m := |rest| - 1;
    if m == 0 {
      assert [c] + (rest[0] + "\r") == [c] + rest[0] + "\r";
    }
  }

  // --------------------------------------------------------- carriage returns

  lemma {:induction false} TrimStartCr(s: string)
    ensures TrimStart(s + "\r") == if TrimStart(s) == [] then [] else TrimStart(s) + "\r"
    decreases |s|
  {
    if s == [] {
      assert (s + "\r")[1..] == [];
    } else if IsSpace(s[0]) {
      assert (s + "\r")[1..] == s[1..] + "\r";
      TrimStartCr(s[1..]);
    }
  }

  lemma {:induction false} TrimCr(s: string)
    ensures Trim(s + "\r") == Trim(s)
  {
    TrimStartCr(s);
    var t := TrimStart(s);
    assert (t + "\r")[..|t|] == t;
  }

  /** A field name ends in a colon, so a trailing carriage return is part of no name and of no value. */
  lemma {:induction false} FieldCr(line: string, name: string)
    requires name != [] && name[|name| - 1] == ':'
    ensures Field(line + "\r", name) == Field(line, name)
  {
    hide Trim;
    var more := line + "\r";
    if |name| <= |line| {
      assert name <= more <==> name <= line;
      if name <= line {
        assert more[|name|..] == line[|name|..] + "\r";
        TrimCr(line[|name|..]);
      }
    } else {
      assert more[|line|] == '\r';
      if |name| == |more| { assert name[|line|] == ':'; }
    }
  }

  lemma {:induction false} LineCr(line: string)
    ensures ContentOf([line + "\r"]) == ContentOf([line])
  {
    hide Field;
    FieldCr(line, "data:");
    FieldCr(line, "event:");
    FieldCr(line, "id:");
    OneLine(line);
    OneLine(line + "\r");
  }

  lemma {:induction false} OneLine(line: string)
    ensures ContentOf([line]) == Content(
      if Field(line, "data:").Some? then [Field(line, "data:").value] else [], Field(line, "event:"), Field(line, "id:"))
  {
    OneField(line, "data:");
    OneField(line, "event:");
    OneField(line, "id:");
  }

  lemma {:induction false} OneField(line: string, name: string)
    ensures AllFields([line], name) == (if Field(line, name).Some? then [Field(line, name).value] else [])
    ensures LastField([line], name) == Field(line, name)
  {
    hide Field;
    var lines := [line];
    assert lines[..|lines| - 1] == [];
  }

  lemma {:induction false} CrAddsNothing(x: string)
    ensures ContentIn(x + "\r") == ContentIn(x)
  {
    hide ContentOf, Lines;
    LinesCr(x);
    var lines := Lines(x);
    var front, last := lines[..|lines| - 1], lines[|lines| - 1];
    LineCr(last);
    assert lines == front + [last];
    assert LastWithCr(lines) == front + [last + "\r"];
    ContentJoins(front, [last]);
    ContentJoins(front, [last + "\r"]);
  }

  /** The content of two runs of lines is that of the one and the other. */
  lemma {:induction false} ContentAcross(x: string, y: string)
    ensures ContentIn(x + "\n" + y) == Merged(ContentIn(x), ContentIn(y))
  {
    hide ContentOf, Lines;
    LinesJoin(x, y);
    ContentJoins(Lines(x), Lines(y));
  }

  lemma {:induction false} EmptyCarriesNothing()
    ensures ContentIn("") == NOTHING
  {
    OneLine("");
    var empty := "";
    assert Field(empty, "data:") == None && Field(empty, "event:") == None && Field(empty, "id:") == None;
  }

  // ------------------------------------------------------------------- blanks

  predicate Blank(s: string) {
    forall i :: 0 <= i < |s| ==> IsSpace(s[i])
  }

  lemma {:induction false} TrimmedAway(s: string)
    requires TrimStart(s) == []
    ensures Blank(s)
    decreases |s|
  {
    if s != [] {
      TrimmedAway(s[1..]);
      assert forall i :: 0 < i < |s| ==> s[i] == s[1..][i - 1];
    }
  }

  lemma {:induction false} TrimEndKeeps(s: string)
    requires s != [] && !IsSpace(s[0])
    ensures TrimEnd(s) != []
    decreases |s|
  {
    if IsSpace(s[|s| - 1]) {
      TrimEndKeeps(s[..|s| - 1]);
    }
  }

  lemma {:induction false} TrimStartStops(s: string)
    ensures TrimStart(s) == [] || !IsSpace(TrimStart(s)[0])
    decreases |s|
  {
    if s != [] && IsSpace(s[0]) {
      TrimStartStops(s[1..]);
    }
  }

  lemma {:induction false} BlankLines(s: string)
    requires Blank(s)
    ensures forall i :: 0 <= i < |Lines(s)| ==> Blank(Lines(s)[i])
    decreases |s|
  {
    if s != [] {
      assert forall i :: 0 <= i < |s[1..]| ==> s[1..][i] == s[i + 1];
      BlankLines(s[1..]);
    }
  }

  lemma {:induction false} BlanksCarryNothing(lines: seq<string>)
    requires forall i :: 0 <= i < |lines| ==> Blank(lines[i])
    ensures ContentOf(lines) == NOTHING
    decreases |lines|
  {
    if lines != [] {
      var front, last := lines[..|lines| - 1], lines[|lines| - 1];
      assert lines == front + [last];
      BlanksCarryNothing(front);
      ContentJoins(front, [last]);
      OneFieldOnly(last);
      OneLine(last);
    }
  }

  /** The check that skips a blank rest is redundant: such a rest is no frame. */
  lemma {:induction false} FlushIsAFrame(s: string)
    ensures Flushed(s) == FrameFrom(ContentIn(s))
  {
    hide ContentOf, Lines;
    FrameIsContent(s);
    if Trim(s) == [] {
      TrimStartStops(s);
      if TrimStart(s) != [] { TrimEndKeeps(TrimStart(s)); }
      TrimmedAway(s);
      BlankLines(s);
      BlanksCarryNothing(Lines(s));
    }
  }
}
