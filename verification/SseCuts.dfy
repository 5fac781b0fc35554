/** A stream in pieces: where the pieces may be cut without changing the frames, and where exactly a cut
    changes them. apps/keeper/src/txline/sse.ts.
    */
module SseCuts {
  import opened Machine
  import opened Sse
  import opened SseFrames

  function Concat(chunks: seq<string>): string {
    if chunks == [] then [] else Concat(chunks[..|chunks| - 1]) + chunks[|chunks| - 1]
  }

  /** The pieces as the parser joins them: each normalized on its own. */
  function Joined(chunks: seq<string>): string {
    if chunks == [] then [] else Joined(chunks[..|chunks| - 1]) + Normalize(chunks[|chunks| - 1])
  }

  /** Pushing the pieces one by one and flushing: always the frames of the joined pieces. */
  method ParseStream(chunks: seq<string>) returns (frames: seq<Frame>)
    ensures frames == ParseBody(Joined(chunks))
    ensures QuietCuts(chunks) ==> frames == ParseBody(Normalize(Concat(chunks)))
    // Text without carriage returns may be cut anywhere, into any number of pieces.
    ensures '\r' !in Concat(chunks) ==> frames == ParseBody(Normalize(Concat(chunks)))
    // The exact condition, for one cut or for any number of which at most one is harmful.
    ensures AtMostOneHarmful(chunks) ==>
      (frames == ParseBody(Normalize(Concat(chunks))) <==> forall k :: 0 <= k < |chunks| ==> HarmlessAt(chunks, k))
    ensures |chunks| == 2 ==> (frames == ParseBody(Normalize(Concat(chunks))) <==> Harmless(chunks[0], chunks[1], ""))
  {
    hide Normalize, Flushed, Harmless, QuietCuts, AtMostOneHarmful, HarmlessAt;
    var parser := new SseFrameParser();
    frames := [];
    for i := 0 to |chunks|
      invariant frames == Frames(Joined(chunks[..i])) && parser.buffer == Rest(Joined(chunks[..i]))
    {
      assert chunks[..i + 1][..i] == chunks[..i];
      ReadOn(Joined(chunks[..i]), Normalize(chunks[i]));
      var pushed := parser.Push(chunks[i]);
      frames := frames + pushed;
    }
    assert chunks[..|chunks|] == chunks;
    var flushed := parser.Flush();
    frames := frames + flushed;
    if '\r' !in Concat(chunks) {
      LfTextCutsQuietly(chunks);
    }
    if QuietCuts(chunks) {
      QuietCutsJoin(chunks, "");
      assert Joined(chunks) + "" == Joined(chunks) && Normalize(Concat(chunks)) + "" == Normalize(Concat(chunks));
    }
    if |chunks| == 2 {
      TwoPieces(chunks);
      CutExactlyWhen(chunks[0], chunks[1], "");
      assert Joined(chunks) + "" == Joined(chunks) && Normalize(Concat(chunks)) + "" == Normalize(Concat(chunks));
    }
    if AtMostOneHarmful(chunks) {
      CutsExactlyWhen(chunks);
    }
  }

  lemma {:induction false} TwoPieces(chunks: seq<string>)
    requires |chunks| == 2
    ensures Joined(chunks) == Normalize(chunks[0]) + Normalize(chunks[1]) && Concat(chunks) == chunks[0] + chunks[1]
  {
    hide Normalize;
    var one := chunks[..|chunks| - 1];
    assert |one| == 1 && one[|one| - 1] == chunks[0];
    OnePiece(one);
  }

  lemma {:induction false} OnePiece(one: seq<string>)
    requires |one| == 1
    ensures Joined(one) == Normalize(one[0]) && Concat(one) == one[0]
  {
    hide Normalize;
    var none := one[..|one| - 1];
    assert none == [] && Joined(none) == [] && Concat(none) == [];
  }

  // ------------------------------------------------------------- where cuts fall

  predicate SplitsCrlf(a: string, b: string) {
    a != [] && b != [] && a[|a| - 1] == '\r' && b[0] == '\n'
  }

  lemma {:induction false} NormalizeInParts(a: string, b: string)
    requires !SplitsCrlf(a, b)
    ensures Normalize(a + b) == Normalize(a) + Normalize(b)
    decreases |a|
  {
    hide Normalize;
    NormalizeUnfolds(a);
    if a == [] {
      assert a + b == b;
    } else {
      NormalizeUnfolds(a + b);
      if |a| >= 2 && a[0] == '\r' && a[1] == '\n' {
        assert (a + b)[2..] == a[2..] + b;
        NormalizeInParts(a[2..], b);
      } else {
        assert (a + b)[1..] == a[1..] + b;
        NormalizeInParts(a[1..], b);
      }
    }
  }

  lemma {:induction false} NormalizeLosesOne(a: string, b: string)
    requires SplitsCrlf(a, b)
    ensures |Normalize(a + b)| == |Normalize(a)| + |Normalize(b)| - 1
    decreases |a|
  {
    if |a| == 1 {
      assert (a + b)[2..] == b[1..];
      assert Normalize(a) == a && Normalize(b) == ['\n'] + Normalize(b[1..]);
    } else if a[0] == '\r' && a[1] == '\n' {
      assert (a + b)[2..] == a[2..] + b;
      NormalizeLosesOne(a[2..], b);
    } else {
      assert (a + b)[1..] == a[1..] + b;
      NormalizeLosesOne(a[1..], b);
    }
  }

  /** Normalizing in two parts is normalizing the whole exactly when the cut splits no line end. */
  lemma {:induction false} NormalizeSplitsExactlyWhen(a: string, b: string)
    ensures Normalize(a + b) == Normalize(a) + Normalize(b) <==> !SplitsCrlf(a, b)
  {
    hide Normalize;
    if SplitsCrlf(a, b) {
      NormalizeLosesOne(a, b);
    } else {
      NormalizeInParts(a, b);
    }
  }

  lemma {:induction false} WithoutCr(s: string)
    requires '\r' !in s
    ensures Normalize(s) == s
  {
    if s != [] {
      WithoutCr(s[1..]);
    }
  }

  // ----------------------------------------------------------- frames and cuts

  /** A body as its first frame and what follows, or as its only frame. */
  lemma {:induction false} BodySplits(s: string)
    ensures BlankAt(s).None? ==> ParseBody(s) == FrameFrom(ContentIn(s))
    ensures BlankAt(s).Some? ==>
      ParseBody(s) == FrameFrom(ContentIn(s[..BlankAt(s).value])) + ParseBody(s[BlankAt(s).value + 2..])
  {
    hide FrameOf, BlankAt, Frames, Rest, Flushed, ContentIn;
    if BlankAt(s).None? {
      NoFrame(s);
      FlushIsAFrame(s);
    } else {
      FrontFrame(s, BlankAt(s).value);
      FrameIsContent(s[..BlankAt(s).value]);
    }
  }

  lemma {:induction false} BodyReadsOn(a: string, b: string)
    ensures ParseBody(a + b) == Frames(a) + ParseBody(Rest(a) + b)
  {
    hide Frames, Rest, Flushed, BlankAt;
    ReadOn(a, b);
  }

  lemma {:induction false} RestIsOpen(s: string)
    ensures BlankAt(Rest(s)).None?
    ensures Rest(s) != [] ==> |Rest(s)| <= |s| && s[|s| - |Rest(s)|..] == Rest(s)
    decreases |s|
  {
    if BlankAt(s).Some? {
      RestIsOpen(s[BlankAt(s).value + 2..]);
    }
  }

  /** The next line is the first of its frame, or the line before it has begun. */
  predicate MidLine(s: string) {
    s == [] || s[|s| - 1] != '\n'
  }

  /** The first blank line behind an unfinished frame is the first one of what follows. */
  lemma {:induction false} BlankBehind(x: string, y: string)
    requires BlankAt(x).None? && MidLine(x)
    ensures BlankAt(x + y) == if BlankAt(y).Some? then Some(BlankAt(y).value + |x|) else None
  {
    hide BlankAt;
    PairsBehind(x, y);
    if BlankAt(y).Some? {
      assert PairAt(x + y, BlankAt(y).value + |x|);
    }
  }

  lemma {:induction false} PairsBehind(x: string, y: string)
    requires BlankAt(x).None? && MidLine(x)
    ensures forall k: nat :: PairAt(x + y, k) ==> k >= |x| && PairAt(y, k - |x|)
    ensures forall k: nat :: PairAt(y, k) ==> PairAt(x + y, k + |x|)
  {
    hide BlankAt;
    forall k: nat | PairAt(x + y, k) ensures k >= |x| && PairAt(y, k - |x|) {
      assert !PairAt(x, k);
    }
  }

  lemma {:induction false} CrKeepsOpen(x: string)
    requires BlankAt(x).None?
    ensures BlankAt(x + "\r").None?
  {
    hide BlankAt;
    var cr := "\r";
    assert cr[0] == '\r';
    assert forall k: nat :: PairAt(x + cr, k) ==> PairAt(x, k);
  }

  /** Behind an unfinished frame in the middle of a line, or at its very start, a carriage return before the
      line feed changes nothing, whatever follows. */
  lemma {:induction false} CrIsSilent(x: string, y: string)
    requires BlankAt(x).None? && MidLine(x)
    ensures ParseBody(x + "\r" + ("\n" + y)) == ParseBody(x + ("\n" + y))
  {
    hide BlankAt, ContentIn, ParseBody, FrameFrom;
    var z, xr := "\n" + y, x + "\r";
    CrKeepsOpen(x);
    BlankBehind(x, z);
    BlankBehind(xr, z);
    BodySplits(x + z);
    BodySplits(xr + z);
    var j := BlankAt(z);
    if j.None? {
      SameContent(x, y);
    } else {
      assert (x + z)[..j.value + |x|] == x + z[..j.value] && (xr + z)[..j.value + |xr|] == xr + z[..j.value];
      assert (x + z)[j.value + |x| + 2..] == z[j.value + 2..] == (xr + z)[j.value + |xr| + 2..];
      if j.value == 0 {
        assert x + z[..0] == x && xr + z[..0] == xr;
        CrAddsNothing(x);
      } else {
        assert z[..j.value] == "\n" + y[..j.value - 1];
        SameContent(x, y[..j.value - 1]);
      }
    }
  }

  lemma {:induction false} SameContent(x: string, y: string)
    ensures ContentIn(x + "\r" + ("\n" + y)) == ContentIn(x + ("\n" + y)) == Merged(ContentIn(x), ContentIn(y))
  {
    hide ContentIn;
    assert x + "\r" + ("\n" + y) == (x + "\r") + "\n" + y && x + ("\n" + y) == x + "\n" + y;
    ContentAcross(x + "\r", y);
    ContentAcross(x, y);
    CrAddsNothing(x);
  }

  /** Line feeds before a frame change nothing. */
  lemma {:induction false} LeadingLineFeed(y: string)
    ensures ParseBody("\n" + y) == ParseBody(y)
    decreases |y|
  {
    hide ContentIn, ParseBody, BlankAt;
    var s := "\n" + y;
    BodySplits(s);
    EmptyCarriesNothing();
    BlankAfterFeed(y);
    if y != [] && y[0] == '\n' {
      assert s[..0] == "" && s[2..] == y[1..] && y == "\n" + y[1..];
      LeadingLineFeed(y[1..]);
    } else {
      BodySplits(y);
      FeedAddsNothing(y);
      if BlankAt(y).Some? {
        var i := BlankAt(y).value;
        assert s[..i + 1] == "\n" + y[..i] && s[i + 3..] == y[i + 2..];
        FeedAddsNothing(y[..i]);
      }
    }
  }

  lemma {:induction false} FeedAddsNothing(y: string)
    ensures ContentIn("\n" + y) == ContentIn(y)
  {
    hide ContentIn;
    assert "" + "\n" + y == "\n" + y;
    ContentAcross("", y);
    EmptyCarriesNothing();
    assert Merged(NOTHING, ContentIn(y)) == ContentIn(y);
  }

  // --------------------------------------------------------------- a cut line end

  /** Two neighbouring frames can be read as one without a difference: they do not both deliver, and the one
      that does keeps its own id. */
  predicate Separable(a: Content, b: Content) {
    && !(Delivers(a) && Delivers(b))
    && (Delivers(b) ==> a.id.None? || b.id.Some?)
    && (Delivers(a) ==> b.id.None? || b.id == a.id)
  }

  lemma {:induction false} MergedExactlyWhen(a: Content, b: Content, rest: seq<Frame>)
    ensures FrameFrom(Merged(a, b)) + rest == FrameFrom(a) + FrameFrom(b) + rest <==> Separable(a, b)
  {
    var one, two := FrameFrom(Merged(a, b)), FrameFrom(a) + FrameFrom(b);
    if |one| == |two| {
      assert one + rest == two + rest <==> one == two by {
        assert (one + rest)[..|one|] == one && (two + rest)[..|two|] == two;
      }
    } else {
      assert |one + rest| != |two + rest|;
    }
    assert [] + b.data == b.data && a.data + [] == a.data;
    if Delivers(a) && !Delivers(b) { assert two == FrameFrom(a); }
    if Delivers(b) && !Delivers(a) { assert two == FrameFrom(b); }
  }

  function FirstPart(s: string): string {
    if BlankAt(s).Some? then s[..BlankAt(s).value] else s
  }

  /** At the empty line that ends a frame the carriage return joins that frame and the next one. */
  lemma {:induction false} CrJoinsFrames(x: string, y: string)
    requires BlankAt(x).None? && MidLine(x)
    ensures ParseBody(x + "\n" + "\r" + ("\n" + y)) == ParseBody(x + "\n" + ("\n" + y)) <==>
      (y != [] && y[0] == '\n') || Separable(ContentIn(x), ContentIn(FirstPart(y)))
  {
    hide ContentIn, ParseBody, FrameFrom, Separable, BlankAt;
    WholeFrame(x, y);
    if y != [] && y[0] == '\n' {
      JoinedWithNone(x, y);
    } else if BlankAt(y).None? {
      JoinedWithLast(x, y);
    } else {
      JoinedWithNext(x, y);
    }
  }

  lemma {:induction false} JoinedWithNone(x: string, y: string)
    requires BlankAt(x).None? && MidLine(x) && y != [] && y[0] == '\n'
    ensures ParseBody(x + "\n" + "\r" + ("\n" + y)) == FrameFrom(ContentIn(x)) + ParseBody(y)
  {
    hide ContentIn, ParseBody, FrameFrom, BlankAt;
    var z, xr := "\n" + y, x + "\n" + "\r";
    OpenAfterCr(x);
    BlankBehind(xr, z);
    BlankAfterFeed(y);
    BodySplits(xr + z);
    EmptyLineWithCr(x);
    assert (xr + z)[..|xr|] == xr && (xr + z)[|xr| + 2..] == y[1..] && y == "\n" + y[1..];
    LeadingLineFeed(y[1..]);
  }

  lemma {:induction false} JoinedWithLast(x: string, y: string)
    requires BlankAt(x).None? && MidLine(x) && (y == [] || y[0] != '\n') && BlankAt(y).None?
    ensures ParseBody(x + "\n" + "\r" + ("\n" + y)) == FrameFrom(ContentIn(x)) + ParseBody(y)
      <==> Separable(ContentIn(x), ContentIn(y))
  {
    hide ContentIn, ParseBody, FrameFrom, Separable, BlankAt;
    var z, xr := "\n" + y, x + "\n" + "\r";
    OpenAfterCr(x);
    BlankBehind(xr, z);
    BlankAfterFeed(y);
    BodySplits(xr + z);
    BodySplits(y);
    SplitContent(x, y);
    MergedExactlyWhen(ContentIn(x), ContentIn(y), []);
    var one, two := FrameFrom(Merged(ContentIn(x), ContentIn(y))), FrameFrom(ContentIn(x)) + FrameFrom(ContentIn(y));
    assert one + [] == one && two + [] == two;
  }

  lemma {:induction false} JoinedWithNext(x: string, y: string)
    requires BlankAt(x).None? && MidLine(x) && y != [] && y[0] != '\n' && BlankAt(y).Some?
    ensures ParseBody(x + "\n" + "\r" + ("\n" + y)) == FrameFrom(ContentIn(x)) + ParseBody(y)
      <==> Separable(ContentIn(x), ContentIn(FirstPart(y)))
  {
    hide ContentIn, ParseBody, FrameFrom, Separable, BlankAt;
    var z, xr, i := "\n" + y, x + "\n" + "\r", BlankAt(y).value;
    OpenAfterCr(x);
    BlankBehind(xr, z);
    BlankAfterFeed(y);
    BodySplits(xr + z);
    BodySplits(y);
    assert (xr + z)[..i + 1 + |xr|] == xr + ("\n" + y[..i]) && (xr + z)[i + 3 + |xr|..] == y[i + 2..];
    SplitContent(x, y[..i]);
    var a, b, rest := ContentIn(x), ContentIn(y[..i]), ParseBody(y[i + 2..]);
    MergedExactlyWhen(a, b, rest);
    assert FrameFrom(a) + (FrameFrom(b) + rest) == FrameFrom(a) + FrameFrom(b) + rest;
  }

  lemma {:induction false} EmptyLineWithCr(x: string)
    ensures ContentIn(x + "\n" + "\r") == ContentIn(x)
  {
    hide ContentIn;
    CrAddsNothing(x + "\n");
    assert x + "\n" + "" == x + "\n";
    ContentAcross(x, "");
    EmptyCarriesNothing();
    assert Merged(ContentIn(x), NOTHING) == ContentIn(x);
  }

  lemma {:induction false} SplitContent(x: string, y: string)
    ensures ContentIn(x + "\n" + "\r" + ("\n" + y)) == Merged(ContentIn(x), ContentIn(y))
  {
    hide ContentIn;
    assert x + "\n" + "\r" + ("\n" + y) == (x + "\n" + "\r") + "\n" + y;
    ContentAcross(x + "\n" + "\r", y);
    EmptyLineWithCr(x);
  }

  lemma {:induction false} WholeFrame(x: string, y: string)
    requires BlankAt(x).None? && MidLine(x)
    ensures ParseBody(x + "\n" + ("\n" + y)) == FrameFrom(ContentIn(x)) + ParseBody(y)
  {
    hide ContentIn, ParseBody, FrameFrom, BlankAt, MidLine, PairAt;
    var z := "\n" + y;
    var feeds := "\n" + z;
    BlankAfterFeed(z);
    FirstFrame(x, feeds);
    assert feeds[2..] == y;
    assert x + "\n" + z == x + feeds;
  }

  lemma {:induction false} FirstFrame(x: string, feeds: string)
    requires BlankAt(x).None? && MidLine(x) && BlankAt(feeds) == Some(0)
    ensures |feeds| >= 2 && ParseBody(x + feeds) == FrameFrom(ContentIn(x)) + ParseBody(feeds[2..])
  {
    hide ContentIn, ParseBody, FrameFrom, BlankAt, MidLine;
    BlankBehind(x, feeds);
    var s := x + feeds;
    BodySplits(s);
    assert s[..|x|] == x && s[|x| + 2..] == feeds[2..];
  }

  lemma {:induction false} OpenAfterCr(x: string)
    requires BlankAt(x).None? && MidLine(x)
    ensures BlankAt(x + "\n" + "\r").None? && MidLine(x + "\n" + "\r")
  {
    hide BlankAt;
    var end := "\n" + "\r";
    assert end[1] == '\r';
    BlankBehind(x, end);
    assert x + end == x + "\n" + "\r";
  }

  lemma {:induction false} BlankAfterFeed(y: string)
    ensures BlankAt("\n" + y) == if y != [] && y[0] == '\n' then Some(0)
      else if BlankAt(y).Some? then Some(BlankAt(y).value + 1) else None
  {
    hide BlankAt;
    var s := "\n" + y;
    assert forall k: nat :: k > 0 ==> (PairAt(s, k) <==> PairAt(y, k - 1));
    assert PairAt(s, 0) <==> y != [] && y[0] == '\n';
    if BlankAt(y).Some? { assert PairAt(s, BlankAt(y).value + 1); }
  }

  /** What a cut leaves unchanged, `more` being the text behind its second piece. Only a cut inside the line end
      of an empty line can change anything: not when that line begins a frame, nor when another empty line
      follows; else exactly when the frame it ends and the next one cannot be read as one. */
  predicate Harmless(a: string, b: string, more: string) {
    SplitsCrlf(a, b) ==> Unseen(Rest(Normalize(a[..|a| - 1])), Normalize(b[1..]) + more)
  }

  predicate Unseen(before: string, after: string) {
    || MidLine(before)
    || (after != [] && after[0] == '\n')
    || Separable(ContentIn(before[..|before| - 1]), ContentIn(FirstPart(after)))
  }

  /** The exact condition for a cut: the frames of the two pieces, and of what follows, are those of the whole
      exactly when the cut is harmless. */
  lemma {:induction false} CutExactlyWhen(a: string, b: string, more: string)
    ensures ParseBody(Normalize(a) + Normalize(b) + more) == ParseBody(Normalize(a + b) + more) <==> Harmless(a, b, more)
  {
    hide Normalize, ParseBody, Unseen, Rest;
    if !SplitsCrlf(a, b) {
      NormalizeInParts(a, b);
    } else {
      var x, y := Normalize(a[..|a| - 1]), Normalize(b[1..]);
      CutLineEnd(a, b);
      assert x + "\r" + ("\n" + y) + more == x + "\r" + ("\n" + (y + more));
      assert x + ("\n" + y) + more == x + ("\n" + (y + more));
      LineEndExactlyWhen(x, y + more);
    }
  }

  lemma {:induction false} LineEndExactlyWhen(x: string, y: string)
    ensures ParseBody(x + "\r" + ("\n" + y)) == ParseBody(x + ("\n" + y)) <==> Unseen(Rest(x), y)
  {
    hide ParseBody, ContentIn, FirstPart, Separable, Rest, Frames, BlankAt;
    var open := Rest(x);
    RestIsOpen(x);
    assert x + "\r" + ("\n" + y) == x + ("\r" + ("\n" + y));
    BodyReadsOn(x, "\r" + ("\n" + y));
    BodyReadsOn(x, "\n" + y);
    SameFront(Frames(x), ParseBody(open + ("\r" + ("\n" + y))), ParseBody(open + ("\n" + y)));
    assert open + ("\r" + ("\n" + y)) == open + "\r" + ("\n" + y);
    if MidLine(open) {
      CrIsSilent(open, y);
    } else {
      var front := open[..|open| - 1];
      assert open == front + "\n";
      OpenFront(open);
      CrJoinsFrames(front, y);
    }
  }

  lemma {:induction false} SameFront(front: seq<Frame>, u: seq<Frame>, v: seq<Frame>)
    ensures front + u == front + v <==> u == v
  {
    assert (front + u)[|front|..] == u && (front + v)[|front|..] == v;
  }

  lemma {:induction false} OpenFront(open: string)
    requires BlankAt(open).None? && open != [] && open[|open| - 1] == '\n'
    ensures BlankAt(open[..|open| - 1]).None? && MidLine(open[..|open| - 1])
  {
    hide BlankAt;
    var front := open[..|open| - 1];
    assert forall k: nat :: PairAt(front, k) ==> PairAt(open, k);
    assert !PairAt(open, |front|) && (front != [] ==> !PairAt(open, |front| - 1));
  }

  /** The texts on both sides of a cut line end. */
  lemma {:induction false} CutLineEnd(a: string, b: string)
    requires SplitsCrlf(a, b)
    ensures var x, y := Normalize(a[..|a| - 1]), Normalize(b[1..]);
      Normalize(a) + Normalize(b) == x + "\r" + ("\n" + y) && Normalize(a + b) == x + ("\n" + y)
  {
    hide Normalize;
    var a0, b0, cr, lf := a[..|a| - 1], b[1..], "\r", "\n";
    var end := cr + (lf + b0);
    assert a == a0 + cr && b == lf + b0 && a + b == a0 + end;
    assert cr[0] == '\r' && lf[0] == '\n' && end[0] == '\r';
    NormalizeInParts(a0, cr);
    NormalizeInParts(lf, b0);
    NormalizeInParts(a0, end);
    SingleChars();
    NormalizeUnfolds(end);
    assert end[2..] == b0 && end[1] == '\n';
  }

  lemma {:induction false} NormalizeUnfolds(s: string)
    ensures Normalize(s)
         == if |s| >= 2 && s[0] == '\r' && s[1] == '\n' then ['\n'] + Normalize(s[2..])
            else if s == [] then []
            else [s[0]] + Normalize(s[1..])
  {
  }

  lemma {:induction false} SingleChars()
    ensures Normalize("\r") == "\r" && Normalize("\n") == "\n"
  {
    WithoutCr("\n");
    var cr := "\r";
    assert cr[1..] == [];
    assert Normalize([]) == [];
  }

  // ------------------------------------------------------------------ many cuts

  /** Every cut falls between line ends, or inside the line end of a line that is not empty or begins a frame. */
  predicate QuietCuts(chunks: seq<string>) {
    chunks == [] ||
    (var front, last := chunks[..|chunks| - 1], chunks[|chunks| - 1];
     QuietCuts(front) &&
     (SplitsCrlf(Concat(front), last) ==> MidLine(Rest(Normalize(Concat(front)[..|Concat(front)| - 1])))))
  }

  /** Quiet cuts change nothing, whatever text follows. */
  lemma {:induction false} QuietCutsJoin(chunks: seq<string>, more: string)
    requires QuietCuts(chunks)
    ensures ParseBody(Joined(chunks) + more) == ParseBody(Normalize(Concat(chunks)) + more)
    decreases |chunks|
  {
    hide ParseBody, Normalize, Rest, BlankAt, Frames;
    if chunks == [] {
      assert Normalize([]) == [] by { WithoutCr([]); }
    } else {
      var front, last := chunks[..|chunks| - 1], chunks[|chunks| - 1];
      var c := Concat(front);
      QuietCutsJoin(front, Normalize(last) + more);
      assert Joined(chunks) + more == Joined(front) + (Normalize(last) + more);
      assert Normalize(c) + (Normalize(last) + more) == Normalize(c) + Normalize(last) + more;
      if !SplitsCrlf(c, last) {
        NormalizeInParts(c, last);
      } else {
        var x, y := Normalize(c[..|c| - 1]), Normalize(last[1..]);
        CutLineEnd(c, last);
        QuietCut(x, y, more);
      }
    }
  }

  lemma {:induction false} QuietCut(x: string, y: string, more: string)
    requires MidLine(Rest(x))
    ensures ParseBody(x + "\r" + ("\n" + y) + more) == ParseBody(x + ("\n" + y) + more)
  {
    hide ParseBody, Rest, BlankAt, Frames;
    var back := "\n" + (y + more);
    var cr := "\r" + back;
    assert x + "\r" + ("\n" + y) + more == x + cr;
    assert x + ("\n" + y) + more == x + back;
    RestIsOpen(x);
    BodyReadsOn(x, cr);
    BodyReadsOn(x, back);
    assert Rest(x) + cr == Rest(x) + "\r" + back;
    CrIsSilent(Rest(x), y + more);
  }

  /** Text without carriage returns has only quiet cuts, so it may be cut anywhere. */
  lemma {:induction false} LfTextCutsQuietly(chunks: seq<string>)
    requires '\r' !in Concat(chunks)
    ensures QuietCuts(chunks)
    ensures ParseBody(Joined(chunks)) == ParseBody(Normalize(Concat(chunks))) == ParseBody(Concat(chunks))
    decreases |chunks|
  {
    hide ParseBody, Normalize, Rest;
    WithoutCr(Concat(chunks));
    if chunks != [] {
      var front := chunks[..|chunks| - 1];
      assert forall c :: c in Concat(front) ==> c in Concat(chunks);
      LfTextCutsQuietly(front);
      assert Concat(front) != [] ==> Concat(front)[|Concat(front)| - 1] in Concat(front);
    }
    QuietCutsJoin(chunks, "");
    assert Joined(chunks) + "" == Joined(chunks) && Normalize(Concat(chunks)) + "" == Normalize(Concat(chunks));
  }

  /** The cut before piece `k`, with the pieces behind it as the parser joins them. */
  predicate HarmlessAt(chunks: seq<string>, k: nat)
    requires k < |chunks|
  {
    Harmless(Concat(chunks[..k]), chunks[k], Joined(chunks[k + 1..]))
  }

  predicate AtMostOneHarmful(chunks: seq<string>) {
    forall j, k :: 0 <= j < k < |chunks| ==> HarmlessAt(chunks, j) || HarmlessAt(chunks, k)
  }

  /** The first `k` pieces as one text, the others cut. */
  function CutFrom(chunks: seq<string>, k: nat): string
    requires k <= |chunks|
  {
    Normalize(Concat(chunks[..k])) + Joined(chunks[k..])
  }

  lemma {:induction false} JoinedFront(chunks: seq<string>)
    requires chunks != []
    ensures Joined(chunks) == Normalize(chunks[0]) + Joined(chunks[1..])
    decreases |chunks|
  {
    hide Normalize;
    if |chunks| == 1 {
      OnePiece(chunks);
      assert Joined(chunks[1..]) == [];
    } else {
      var front, last := chunks[..|chunks| - 1], chunks[|chunks| - 1];
      JoinedFront(front);
      var back := chunks[1..];
      assert back[..|back| - 1] == front[1..] && back[|back| - 1] == last;
    }
  }

  /** Healing the cut before piece `k` changes the frames exactly when it is harmful. */
  lemma {:induction false} HealedExactlyWhen(chunks: seq<string>, k: nat)
    requires k < |chunks|
    ensures ParseBody(CutFrom(chunks, k)) == ParseBody(CutFrom(chunks, k + 1)) <==> HarmlessAt(chunks, k)
  {
    hide Normalize, ParseBody, Harmless, Joined, Concat;
    var a, more := Concat(chunks[..k]), Joined(chunks[k + 1..]);
    CutExactlyWhen(a, chunks[k], more);
    JoinedFront(chunks[k..]);
    assert chunks[k..][1..] == chunks[k + 1..];
    assert Normalize(a) + (Normalize(chunks[k]) + more) == Normalize(a) + Normalize(chunks[k]) + more;
    assert Concat(chunks[..k + 1]) == a + chunks[k] by { ConcatOneMore(chunks, k); }
  }

  lemma {:induction false} ConcatOneMore(chunks: seq<string>, k: nat)
    requires k < |chunks|
    ensures Concat(chunks[..k + 1]) == Concat(chunks[..k]) + chunks[k]
  {
    var front := chunks[..k + 1];
    assert front[..|front| - 1] == chunks[..k];
  }

  /** Between two points with only harmless cuts the frames stay. */
  lemma {:induction false} HarmlessBetween(chunks: seq<string>, i: nat, j: nat)
    requires i <= j <= |chunks| && forall k :: i <= k < j ==> HarmlessAt(chunks, k)
    ensures ParseBody(CutFrom(chunks, i)) == ParseBody(CutFrom(chunks, j))
    decreases j - i
  {
    hide ParseBody, CutFrom, HarmlessAt;
    if i < j {
      HealedExactlyWhen(chunks, i);
      HarmlessBetween(chunks, i + 1, j);
    }
  }

  /** Any number of cuts of which at most one is harmful: the frames are those of the whole exactly when none
      is. */
  lemma {:induction false} CutsExactlyWhen(chunks: seq<string>)
    requires AtMostOneHarmful(chunks)
    ensures ParseBody(Joined(chunks)) == ParseBody(Normalize(Concat(chunks)))
      <==> forall k :: 0 <= k < |chunks| ==> HarmlessAt(chunks, k)
  {
    hide ParseBody, CutFrom, HarmlessAt;
    var n := |chunks|;
    CutEnds(chunks);
    if k: nat :| k < n && !HarmlessAt(chunks, k) {
      assert forall j :: 0 <= j < n && j != k ==> HarmlessAt(chunks, j);
      HarmlessBetween(chunks, 0, k);
      HealedExactlyWhen(chunks, k);
      HarmlessBetween(chunks, k + 1, n);
    } else {
      HarmlessBetween(chunks, 0, n);
    }
  }

  lemma {:induction false} CutEnds(chunks: seq<string>)
    ensures CutFrom(chunks, 0) == Joined(chunks) && CutFrom(chunks, |chunks|) == Normalize(Concat(chunks))
  {
    hide Normalize;
    var none: seq<string> := [];
    assert chunks[..0] == none && chunks[0..] == chunks && chunks[..|chunks|] == chunks && chunks[|chunks|..] == none;
    assert Concat(none) == "" && Joined(none) == "";
    WithoutCr("");
  }

  // ----------------------------------------------------- a cut that changes it

  lemma {:induction false} FirstLine(s: string, n: nat)
    requires n <= |s| && '\n' !in s[..n]
    ensures s[..n] <= Lines(s)[0]
  {
    if n > 0 {
      assert s[0] in s[..n] && s[1..][..n - 1] == s[..n][1..];
      FirstLine(s[1..], n - 1);
    }
  }

  lemma {:induction false} FieldFound(lines: seq<string>, name: string)
    requires |lines| > 0 && name <= lines[0]
    ensures AllFields(lines, name) != []
    decreases |lines|
  {
    if |lines| > 1 {
      FieldFound(lines[..|lines| - 1], name);
    }
  }

  /** Text that starts with a data field and ends in no space is a frame of its own. */
  lemma {:induction false} DataIsAFrame(s: string)
    requires |s| >= 5 && s[..5] == "data:" && !IsSpace(s[|s| - 1])
    ensures FrameOf(s).Some? && Flushed(s) == [FrameOf(s).value]
  {
    FirstLine(s, 5);
    FieldFound(Lines(s), "data:");
    assert TrimStart(s) == s && TrimEnd(s) == s;
  }

  /** A cut inside a line end can lose a frame boundary: two frames in one piece, one in two. */
  lemma {:induction false} SplitLineEndMergesFrames(whole: seq<string>, cut: seq<string>, d: string)
    requires d == "data:" && whole == [d + "\r\n" + ("\r\n" + d)] && cut == [d + "\r\n" + "\r", "\n" + d]
    ensures Concat(whole) == Concat(cut)
    ensures |ParseBody(Joined(whole))| == 2 && |ParseBody(Joined(cut))| == 1
  {
    ExampleTexts(whole, cut, d);
    TwoFrames(Joined(whole), d);
    OneFrame(Joined(cut), d);
  }

  lemma {:induction false} TwoFrames(s: string, d: string)
    requires d == "data:" && s == d + "\n\n" + d
    ensures |ParseBody(s)| == 2
  {
    hide FrameOf, Flushed, BlankAt;
    assert s[5] == '\n' && s[6] == '\n' && s[..5] == d && s[7..] == d;
    assert PairAt(s, 5) && forall k: nat :: k < 5 ==> s[k] == d[k] && d[k] != '\n' && !PairAt(s, k);
    FrontFrame(s, 5);
    NoFrame(d);
    DataIsAFrame(d);
  }

  lemma {:induction false} OneFrame(s: string, d: string)
    requires d == "data:" && s == d + "\n\r\n" + d
    ensures |ParseBody(s)| == 1
  {
    hide FrameOf, Flushed, BlankAt;
    assert s[5] == '\n' && s[6] == '\r' && s[7] == '\n' && s[..5] == d && s[8..] == d;
    assert forall k: nat :: k < |s| ==> !PairAt(s, k);
    NoFrame(s);
    DataIsAFrame(s);
  }

  lemma {:induction false} ExampleTexts(whole: seq<string>, cut: seq<string>, d: string)
    requires d == "data:" && whole == [d + "\r\n" + ("\r\n" + d)] && cut == [d + "\r\n" + "\r", "\n" + d]
    ensures Concat(whole) == Concat(cut)
    ensures Joined(whole) == d + "\n\n" + d && Joined(cut) == d + "\n\r\n" + d
  {
    hide Normalize;
    var front, crlf, back := d + "\r\n", "\r\n", "\r\n" + d;
    WithoutCr(d);
    WithoutCr("\n" + d);
    LineEnds();
    NormalizeInParts(d, crlf);
    NormalizeInParts(crlf, d);
    NormalizeInParts(front, back);
    NormalizeInParts(front, "\r");
    var none: seq<string> := [];
    assert whole[..0] == none && cut[..1] == [front + "\r"] && cut[..1][..0] == none;
    assert Concat(none) == [] && Joined(none) == [];
    assert Concat(cut[..1]) == front + "\r" && Joined(cut[..1]) == Normalize(front + "\r");
  }

  lemma {:induction false} LineEnds()
    ensures Normalize("\r\n") == "\n" && Normalize("\r") == "\r"
  {
    var crlf, cr: string := "\r\n", "\r";
    assert crlf[2..] == [] && cr[1..] == [];
    assert Normalize(crlf) == ['\n'] + Normalize([]);
    assert Normalize(cr) == ['\r'] + Normalize([]);
  }
}
