/** Server-sent event framing, apps/keeper/src/txline/sse.ts: frames end at a blank line, as in section 9.2.6
    of the WHATWG HTML Living Standard. Feeding a stream in pieces gives the frames of the whole.
    */
module Sse {
  import opened Machine

  datatype Frame = Frame(event: Option<string>, id: Option<string>, data: string)

  // ------------------------------------------------------------- one frame

  /** What JavaScript's `trim` removes. */
  predicate IsSpace(c: char) {
    || c in {' ', '\t', '\n', '\r', '\U{000B}', '\U{000C}', '\U{00A0}', '\U{1680}', '\U{2028}', '\U{2029}', '\U{202F}',
             '\U{205F}', '\U{3000}', '\U{FEFF}'}
    || '\U{2000}' <= c <= '\U{200A}'
  }

  function TrimStart(s: string): string {
    if s != [] && IsSpace(s[0]) then TrimStart(s[1..]) else s
  }

  function TrimEnd(s: string): string {
    if s != [] && IsSpace(s[|s| - 1]) then TrimEnd(s[..|s| - 1]) else s
  }

  function Trim(s: string): string {
    TrimEnd(TrimStart(s))
  }

  /** `s.split("\n")`. */
  function Lines(s: string): (lines: seq<string>)
    ensures |lines| > 0
  {
    if s == [] then [[]]
    else
      var rest := Lines(s[1..]);
      if s[0] == '\n' then [[]] + rest else [[s[0]] + rest[0]] + rest[1..]
  }

  /** The value of a line with the given field name. */
  function Field(line: string, name: string): Option<string> {
    if name <= line then Some(Trim(line[|name|..])) else None
  }

  /** The last value wins. */
  function LastField(lines: seq<string>, name: string): Option<string> {
    if lines == [] then None
    else
      var last := Field(lines[|lines| - 1], name);
      if last.Some? then last else LastField(lines[..|lines| - 1], name)
  }

  /** All values, in order. */
  function AllFields(lines: seq<string>, name: string): seq<string> {
    if lines == [] then []
    else
      var last := Field(lines[|lines| - 1], name);
      AllFields(lines[..|lines| - 1], name) + (if last.Some? then [last.value] else [])
  }

  function Join(parts: seq<string>): string {
    if parts == [] then []
    else if |parts| == 1 then parts[0]
    else parts[0] + "\n" + Join(parts[1..])
  }

  /** The frame between two blank lines, if it carries anything. */
  function FrameOf(raw: string): Option<Frame> {
    var lines := Lines(raw);
    var data, event := AllFields(lines, "data:"), LastField(lines, "event:");
    if data == [] && event.None? then None
    else Some(Frame(event, LastField(lines, "id:"), Join(data)))
  }

  /** `parseSseFrame`: one pass over the lines, the fields overwritten as they come. */
  method ParseSseFrame(raw: string) returns (frame: Option<Frame>)
    ensures frame == FrameOf(raw)
  {
    var event: Option<string>, id: Option<string>, data: seq<string> := None, None, [];
    var lines := Lines(raw);
    for i := 0 to |lines|
      invariant event == LastField(lines[..i], "event:")
      invariant id == LastField(lines[..i], "id:")
      invariant data == AllFields(lines[..i], "data:")
    {
      assert lines[..i + 1][..i] == lines[..i];
      var line := lines[i];
      OneFieldOnly(line);
      if "data:" <= line {
        data := data + [Trim(line[5..])];
      } else if "event:" <= line {
        event := Some(Trim(line[6..]));
      } else if "id:" <= line {
        id := Some(Trim(line[3..]));
      }
    }
    assert lines[..|lines|] == lines;
    if |data| == 0 && event.None? {
      return None;
    }
    return Some(Frame(event, id, Join(data)));
  }

  lemma OneFieldOnly(line: string)
    ensures "data:" <= line ==> line[0] == 'd'
    ensures "event:" <= line ==> line[0] == 'e'
    ensures "id:" <= line ==> line[0] == 'i'
  {
    var d, e, i := "data:", "event:", "id:";
    assert d <= line ==> line[0] == d[0];
    assert e <= line ==> line[0] == e[0];
    assert i <= line ==> line[0] == i[0];
  }

  // --------------------------------------------------------------- a stream

  /** `replace(/\r\n/g, "\n")`. */
  function Normalize(s: string): string {
    if |s| >= 2 && s[0] == '\r' && s[1] == '\n' then ['\n'] + Normalize(s[2..])
    else if s == [] then []
    else [s[0]] + Normalize(s[1..])
  }

  predicate PairAt(s: string, k: nat) {
    k + 1 < |s| && s[k] == '\n' && s[k + 1] == '\n'
  }

  /** `indexOf("\n\n")`. */
  function BlankAt(s: string): (i: Option<nat>)
    ensures i.Some? ==> PairAt(s, i.value)
    ensures forall k: nat :: PairAt(s, k) ==> i.Some? && i.value <= k
  {
    if |s| < 2 then None
    else if PairAt(s, 0) then Some(0)
    else
      var rest := BlankAt(s[1..]);
      assert forall k: nat :: PairAt(s, k) ==> k > 0 && PairAt(s[1..], k - 1);
      if rest.None? then None else Some(rest.value + 1)
  }

  function Kept(frame: Option<Frame>): seq<Frame> {
    if frame.Some? then [frame.value] else []
  }

  /** The complete frames at the front of a body, and what is left behind them. */
  function Frames(s: string): seq<Frame>
    decreases |s|
  {
    var i := BlankAt(s);
    if i.None? then [] else Kept(FrameOf(s[..i.value])) + Frames(s[i.value + 2..])
  }

  function Rest(s: string): string
    decreases |s|
  {
    var i := BlankAt(s);
    if i.None? then s else Rest(s[i.value + 2..])
  }

  lemma FrontFrame(s: string, i: nat)
    requires BlankAt(s) == Some(i)
    ensures Frames(s) == Kept(FrameOf(s[..i])) + Frames(s[i + 2..]) && Rest(s) == Rest(s[i + 2..])
  {
    hide FrameOf;
  }

  lemma NoFrame(s: string)
    requires BlankAt(s) == None
    ensures Frames(s) == [] && Rest(s) == s
  {
  }

  /** What `flush` makes of the text behind the last blank line. */
  function Flushed(rest: string): seq<Frame> {
    if Trim(rest) == [] then [] else Kept(FrameOf(rest))
  }

  /** A whole body at once, line ends already normalized. */
  function ParseBody(body: string): seq<Frame> {
    Frames(body) + Flushed(Rest(body))
  }

  class SseFrameParser {
    var buffer: string

    constructor ()
      ensures buffer == []
    {
      buffer := [];
    }

    method Push(chunk: string) returns (frames: seq<Frame>)
      modifies this
      ensures frames == Frames(old(buffer) + Normalize(chunk))
      ensures buffer == Rest(old(buffer) + Normalize(chunk))
    {
      hide FrameOf, Normalize, Frames, Rest, BlankAt;
      buffer := buffer + Normalize(chunk);
      frames := [];
      ghost var all, rest := Frames(buffer), Rest(buffer);
      var idx := BlankAt(buffer);
      while idx.Some?
        invariant idx == BlankAt(buffer)
        invariant all == frames + Frames(buffer) && Rest(buffer) == rest
        decreases |buffer|
      {
        ghost var was := buffer;
        var raw := buffer[..idx.value];
        buffer := buffer[idx.value + 2..];
        FrontFrame(was, idx.value);
        var frame := ParseSseFrame(raw);
        if frame.Some? {
          frames := frames + [frame.value];
        }
        assert all == frames + Frames(buffer);
        idx := BlankAt(buffer);
      }
      NoFrame(buffer);
    }

    method Flush() returns (frames: seq<Frame>)
      modifies this
      ensures frames == Flushed(old(buffer)) && buffer == []
    {
      var rest := buffer;
      buffer := [];
      if Trim(rest) == [] {
        return [];
      }
      var frame := ParseSseFrame(rest);
      return if frame.Some? then [frame.value] else [];
    }
  }

  method ParseSseText(text: string) returns (frames: seq<Frame>)
    ensures frames == ParseBody(Normalize(text))
  {
    var parser := new SseFrameParser();
    var pushed := parser.Push(text);
    assert [] + Normalize(text) == Normalize(text);
    var flushed := parser.Flush();
    return pushed + flushed;
  }

  // ---------------------------------------------------------- pieces and whole

  /** The first blank line of the front stays the first when more text follows. */
  lemma BlankStays(a: string, b: string)
    requires BlankAt(a).Some?
    ensures BlankAt(a + b) == BlankAt(a)
  {
    hide BlankAt;
    var i := BlankAt(a).value;
    assert PairAt(a + b, i);
    assert forall k: nat :: k < i ==> (PairAt(a + b, k) <==> PairAt(a, k));
  }

  /** Reading on after a front part is reading the whole. */
  lemma {:induction false} ReadOn(a: string, b: string)
    ensures Frames(a + b) == Frames(a) + Frames(Rest(a) + b)
    ensures Rest(a + b) == Rest(Rest(a) + b)
    decreases |a|
  {
    hide FrameOf, Frames, Rest, BlankAt;
    var i := BlankAt(a);
    if i.Some? {
      BlankStays(a, b);
      FrontFrame(a, i.value);
      FrontFrame(a + b, i.value);
      assert (a + b)[..i.value] == a[..i.value];
      assert (a + b)[i.value + 2..] == a[i.value + 2..] + b;
      ReadOn(a[i.value + 2..], b);
    } else {
      NoFrame(a);
    }
  }
}
