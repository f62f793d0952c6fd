/**
 * The raster canvas (canvas.rs): a row-major buffer of width * height colours
 * with per-pixel write and read, a fill, and the plain-PPM ("P3") serialiser
 * that wraps its numeric body at 70 characters per line.
 */
module Canvases {
  import opened Strings
  import opened Colors
  import opened Options

  /** Longest line the PPM body may hold. */
  const MAX_LINE: nat := 70

  // ---------------------------------------------------------------------------
  // The PPM text
  // ---------------------------------------------------------------------------

  /** "P3", the dimensions and the maximum channel value, one per line. */
  function PpmHeader(width: nat, height: nat): string
  {
    "P3\n" + NatToString(width) + " " + NatToString(height) + "\n255\n"
  }

  /** The header reads back as its three lines, and its words give the dimensions back. */
  lemma PpmHeaderReadsBack(width: nat, height: nat)
    ensures Words(PpmHeader(width, height)) == ["P3", NatToString(width), NatToString(height), "255"]
    ensures ParseUsize(Words(PpmHeader(width, height))[1]) == Some(width)
    ensures ParseUsize(Words(PpmHeader(width, height))[2]) == Some(height)
    ensures Lines(PpmHeader(width, height)) == ["P3", NatToString(width) + " " + NatToString(height), "255"]
  {
    NatToStringNoWhitespace(width);
    NatToStringNoWhitespace(height);
    ParseUsizeOfNatToString(width);
    ParseUsizeOfNatToString(height);
    HeaderWords(NatToString(width), NatToString(height));
    HeaderLines(NatToString(width), NatToString(height));
  }

  lemma HeaderWords(w: string, h: string)
    requires w != "" && NoWhitespace(w) && h != "" && NoWhitespace(h)
    ensures Words("P3\n" + w + " " + h + "\n255\n") == ["P3", w, h, "255"]
  {
    var tail := "255" + ['\n'] + "";
    assert "P3\n" + w + " " + h + "\n255\n" == "P3" + ['\n'] + (w + [' '] + (h + ['\n'] + tail));
    WordsConsToken("255", '\n', "");
    WordsConsToken(h, '\n', tail);
    WordsConsToken(w, ' ', h + ['\n'] + tail);
    WordsConsToken("P3", '\n', w + [' '] + (h + ['\n'] + tail));
    WordsOfEmpty();
  }

  lemma HeaderLines(w: string, h: string)
    requires NoWhitespace(w) && NoWhitespace(h)
    ensures Lines("P3\n" + w + " " + h + "\n255\n") == ["P3", w + " " + h, "255"]
  {
    var dims := w + " " + h;
    var tail := "255" + ['\n'] + "";
    assert "P3\n" + w + " " + h + "\n255\n" == "P3" + ['\n'] + (dims + ['\n'] + tail);
    forall i | 0 <= i < |dims|
      ensures !IsNewline(dims[i])
    {
      if i < |w| {
        assert dims[i] == w[i];
      } else if i > |w| {
        assert dims[i] == h[i - |w| - 1];
      }
    }
    SplitOnConsLine("255", "");
    SplitOnConsLine(dims, tail);
    SplitOnConsLine("P3", dims + ['\n'] + tail);
  }

  /** A line without line ends, ended, is the first field. */
  lemma SplitOnConsLine(l: string, rest: string)
    requires forall i :: 0 <= i < |l| ==> !IsNewline(l[i])
    ensures SplitOn(l + ['\n'] + rest, IsNewline) == [l] + SplitOn(rest, IsNewline)
  {
    SplitOnAppend(l, '\n', rest, IsNewline);
    SplitOnNoSeparator(l, IsNewline);
  }

  /** The channel strings of every pixel in order: red, green, blue of pixel 0, then pixel 1, ... */
  function PpmTokens(pixels: seq<Color>): (r: seq<string>)
    ensures |r| == 3 * |pixels|
  {
    if |pixels| == 0 then [] else PpmTokens(pixels[..|pixels| - 1]) + AsByteStrings(pixels[|pixels| - 1])
  }

  /** Token 3i+j is channel j of pixel i: none dropped, none duplicated, none reordered. */
  lemma {:induction false} PpmTokensAt(pixels: seq<Color>)
    ensures forall i, j :: 0 <= i < |pixels| && 0 <= j < 3 ==> PpmTokens(pixels)[3 * i + j] == AsByteStrings(pixels[i])[j]
  {
    if |pixels| > 0 {
      PpmTokensAt(pixels[..|pixels| - 1]);
    }
  }

  /** A PPM token: one to three characters, no whitespace. */
  predicate IsToken(t: string)
  {
    1 <= |t| <= 3 && NoWhitespace(t)
  }

  lemma {:induction false} PpmTokensAreTokens(pixels: seq<Color>)
    ensures forall k :: 0 <= k < |PpmTokens(pixels)| ==> IsToken(PpmTokens(pixels)[k])
  {
    if |pixels| > 0 {
      PpmTokensAreTokens(pixels[..|pixels| - 1]);
      AsByteStringsAreWords(pixels[|pixels| - 1]);
    }
  }

  // ---------------------------------------------------------------------------
  // Line wrapping: the lines already written and the line being built
  // ---------------------------------------------------------------------------

  datatype LineState = LineState(done: seq<string>, line: string)

  /** Each line followed by a line end. */
  function Unlines(ls: seq<string>): string
  {
    if |ls| == 0 then "" else ls[0] + "\n" + Unlines(ls[1..])
  }

  lemma {:induction false} UnlinesSnoc(ls: seq<string>, l: string)
    ensures Unlines(ls + [l]) == Unlines(ls) + l + "\n"
  {
    if |ls| > 0 {
      assert (ls + [l])[1..] == ls[1..] + [l];
      UnlinesSnoc(ls[1..], l);
    }
  }

  /** Lines without a line end inside them are read back by `lines`. */
  lemma {:induction false} LinesOfUnlines(ls: seq<string>)
    requires forall i :: 0 <= i < |ls| ==> '\n' !in ls[i]
    ensures SplitOn(Unlines(ls), IsNewline) == ls + [""]
    ensures Lines(Unlines(ls)) == ls
  {
    if |ls| > 0 {
      LinesOfUnlines(ls[1..]);
      assert forall j :: 0 <= j < |ls[0]| ==> !IsNewline(ls[0][j]) by {
        assert '\n' !in ls[0];
      }
      SplitOnNoSeparator(ls[0], IsNewline);
      SplitOnAppend(ls[0], '\n', Unlines(ls[1..]), IsNewline);
      assert Unlines(ls) == ls[0] + ['\n'] + Unlines(ls[1..]);
      assert [ls[0]] + (ls[1..] + [""]) == ls + [""];
    }
  }

  /** The words of finished lines followed by more text. */
  lemma WordsAfterLines(ls: seq<string>, rest: string)
    ensures Words(Unlines(ls) + rest) == Words(Unlines(ls)) + Words(rest)
  {
    if |ls| == 0 {
      assert Unlines(ls) + rest == rest;
      WordsOfEmpty();
    } else {
      var a := Unlines(ls[..|ls| - 1]) + ls[|ls| - 1];
      assert ls == ls[..|ls| - 1] + [ls[|ls| - 1]];
      UnlinesSnoc(ls[..|ls| - 1], ls[|ls| - 1]);
      assert Unlines(ls) + rest == a + ['\n'] + rest;
      assert Unlines(ls) == a + ['\n'] + "";
      WordsAppend(a, '\n', rest);
      WordsAppend(a, '\n', "");
      WordsOfEmpty();
    }
  }

  /** Everything written so far, the pending line last. */
  function Flushed(s: LineState): string
  {
    Unlines(s.done) + s.line
  }

  /**
   * One step of the serialiser as canvas.rs writes it, for the token at
   * `index`; a row holds `rowLen` tokens. A line that would reach 70 characters
   * is ended first and the token starts the next line; otherwise the token
   * ending a row is appended and ends the line; otherwise it is appended, after
   * a space unless it starts a row.
   */
  function AsWrittenStep(s: LineState, index: nat, c: string, rowLen: nat): LineState
    requires rowLen > 0
  {
    if |s.line| + |c| >= MAX_LINE then LineState(s.done + [s.line], c)
    else if (index + 1) % rowLen == 0 then LineState(s.done + [s.line + " " + c], "")
    else if index % rowLen != 0 then LineState(s.done, s.line + " " + c)
    else LineState(s.done, s.line + c)
  }

  /**
   * The same step with the row end honoured also when the line is wrapped:
   * a token that both wraps and ends a row is written on a line of its own.
   */
  function WrapStep(s: LineState, index: nat, c: string, rowLen: nat): LineState
    requires rowLen > 0
  {
    if |s.line| + |c| >= MAX_LINE then
      if (index + 1) % rowLen == 0 then LineState(s.done + [s.line] + [c], "")
      else LineState(s.done + [s.line], c)
    else if (index + 1) % rowLen == 0 then LineState(s.done + [s.line + " " + c], "")
    else if index % rowLen != 0 then LineState(s.done, s.line + " " + c)
    else LineState(s.done, s.line + c)
  }

  /** The state after the first n tokens, as written. */
  function AsWrittenState(tokens: seq<string>, rowLen: nat, n: nat): LineState
    requires n <= |tokens|
    requires n == 0 || rowLen > 0
  {
    if n == 0 then LineState([], "")
    else AsWrittenStep(AsWrittenState(tokens, rowLen, n - 1), n - 1, tokens[n - 1], rowLen)
  }

  /** The state after the first n tokens, row ends honoured. */
  function WrapState(tokens: seq<string>, rowLen: nat, n: nat): LineState
    requires n <= |tokens|
    requires n == 0 || rowLen > 0
  {
    if n == 0 then LineState([], "")
    else WrapStep(WrapState(tokens, rowLen, n - 1), n - 1, tokens[n - 1], rowLen)
  }

  function AsWrittenBody(tokens: seq<string>, rowLen: nat): string
    requires |tokens| == 0 || rowLen > 0
  {
    Flushed(AsWrittenState(tokens, rowLen, |tokens|))
  }

  function PpmBody(tokens: seq<string>, rowLen: nat): string
    requires |tokens| == 0 || rowLen > 0
  {
    Flushed(WrapState(tokens, rowLen, |tokens|))
  }

  /** A state whose text holds exactly the given words, in lines of at most 70 characters. */
  predicate WellWrapped(s: LineState, words: seq<string>)
  {
    && Words(Flushed(s)) == words
    && |s.line| <= MAX_LINE && '\n' !in s.line
    && forall i :: 0 <= i < |s.done| ==> |s.done[i]| <= MAX_LINE && '\n' !in s.done[i]
  }

  lemma TokenHasNoNewline(t: string)
    requires IsToken(t)
    ensures '\n' !in t
  {
  }

  /** One corrected step adds exactly the token's word to the text. */
  lemma WrapStepWords(s: LineState, index: nat, c: string, rowLen: nat)
    requires rowLen > 0 && IsToken(c)
    requires index % rowLen == 0 ==> s.line == ""
    ensures Words(Flushed(WrapStep(s, index, c, rowLen))) == Words(Flushed(s)) + [c]
  {
    if |s.line| + |c| >= MAX_LINE {
      if (index + 1) % rowLen == 0 {
        WordsAfterWrapAtRowEnd(s, c);
      } else {
        WordsAfterWrap(s, c);
      }
    } else if (index + 1) % rowLen == 0 {
      WordsAfterRowEnd(s, c);
    } else if index % rowLen != 0 {
      WordsAfterSpace(s, c);
    } else {
      WordsAfterRowStart(s, c);
    }
  }

  lemma WordsAfterWrap(s: LineState, c: string)
    requires IsToken(c)
    ensures Words(Flushed(LineState(s.done + [s.line], c))) == Words(Flushed(s)) + [c]
  {
    UnlinesSnoc(s.done, s.line);
    assert Flushed(LineState(s.done + [s.line], c)) == Flushed(s) + ['\n'] + c;
    WordsAppend(Flushed(s), '\n', c);
    WordsOfToken(c);
  }

  lemma WordsAfterWrapAtRowEnd(s: LineState, c: string)
    requires IsToken(c)
    ensures Words(Flushed(LineState(s.done + [s.line] + [c], ""))) == Words(Flushed(s)) + [c]
  {
    UnlinesSnoc(s.done, s.line);
    UnlinesSnoc(s.done + [s.line], c);
    assert Flushed(LineState(s.done + [s.line] + [c], "")) == Flushed(s) + ['\n'] + (c + ['\n'] + "");
    WordsAppend(Flushed(s), '\n', c + ['\n'] + "");
    EndedWord(c);
  }

  lemma WordsAfterRowEnd(s: LineState, c: string)
    requires IsToken(c)
    ensures Words(Flushed(LineState(s.done + [s.line + " " + c], ""))) == Words(Flushed(s)) + [c]
  {
    UnlinesSnoc(s.done, s.line + " " + c);
    assert Flushed(LineState(s.done + [s.line + " " + c], "")) == Flushed(s) + [' '] + (c + ['\n'] + "");
    WordsAppend(Flushed(s), ' ', c + ['\n'] + "");
    EndedWord(c);
  }

  lemma WordsAfterSpace(s: LineState, c: string)
    requires IsToken(c)
    ensures Words(Flushed(LineState(s.done, s.line + " " + c))) == Words(Flushed(s)) + [c]
  {
    assert Flushed(LineState(s.done, s.line + " " + c)) == Flushed(s) + [' '] + c;
    WordsAppend(Flushed(s), ' ', c);
    WordsOfToken(c);
  }

  lemma WordsAfterRowStart(s: LineState, c: string)
    requires IsToken(c) && s.line == ""
    ensures Words(Flushed(LineState(s.done, s.line + c))) == Words(Flushed(s)) + [c]
  {
    assert Flushed(LineState(s.done, s.line + c)) == Unlines(s.done) + c;
    assert Flushed(s) == Unlines(s.done) + "";
    WordsAfterLines(s.done, c);
    WordsAfterLines(s.done, "");
    WordsOfEmpty();
    WordsOfToken(c);
  }

  lemma EndedWord(c: string)
    requires IsToken(c)
    ensures Words(c + ['\n'] + "") == [c]
  {
    WordsConsToken(c, '\n', "");
    WordsOfEmpty();
  }

  /** One corrected step keeps every line within 70 characters and free of line ends. */
  lemma WrapStepShape(s: LineState, index: nat, c: string, rowLen: nat)
    requires rowLen > 0 && IsToken(c)
    requires |s.line| <= MAX_LINE && '\n' !in s.line
    requires forall i :: 0 <= i < |s.done| ==> |s.done[i]| <= MAX_LINE && '\n' !in s.done[i]
    ensures var t := WrapStep(s, index, c, rowLen);
      && |t.line| <= MAX_LINE && '\n' !in t.line
      && (forall i :: 0 <= i < |t.done| ==> |t.done[i]| <= MAX_LINE && '\n' !in t.done[i])
      && (t.line == "" <==> (index + 1) % rowLen == 0)
  {
    TokenHasNoNewline(c);
  }

  lemma {:induction false} WrapStateWellWrapped(tokens: seq<string>, rowLen: nat, n: nat)
    requires rowLen > 0 && n <= |tokens|
    requires forall k :: 0 <= k < |tokens| ==> IsToken(tokens[k])
    ensures WellWrapped(WrapState(tokens, rowLen, n), tokens[..n])
    ensures WrapState(tokens, rowLen, n).line == "" <==> n % rowLen == 0
  {
    if n == 0 {
      WordsOfEmpty();
    } else {
      WrapStateWellWrapped(tokens, rowLen, n - 1);
      WrapStepWords(WrapState(tokens, rowLen, n - 1), n - 1, tokens[n - 1], rowLen);
      WrapStepShape(WrapState(tokens, rowLen, n - 1), n - 1, tokens[n - 1], rowLen);
      assert tokens[..n - 1] + [tokens[n - 1]] == tokens[..n];
    }
  }

  /**
   * The corrected body holds exactly the tokens, in order, as its words, and
   * it splits into lines of at most 70 characters.
   */
  lemma PpmBodyWellFormed(tokens: seq<string>, rowLen: nat)
    requires rowLen > 0 && |tokens| % rowLen == 0
    requires forall k :: 0 <= k < |tokens| ==> IsToken(tokens[k])
    ensures Words(PpmBody(tokens, rowLen)) == tokens
    ensures forall l :: l in Lines(PpmBody(tokens, rowLen)) ==> |l| <= MAX_LINE
  {
    var s := WrapState(tokens, rowLen, |tokens|);
    WrapStateWellWrapped(tokens, rowLen, |tokens|);
    assert tokens[..|tokens|] == tokens;
    assert PpmBody(tokens, rowLen) == Unlines(s.done);
    LinesOfUnlines(s.done);
  }

  // ---------------------------------------------------------------------------
  // The row-gluing discrepancy of the serialiser as written
  // ---------------------------------------------------------------------------

  /**
   * The line bound holds for the serialiser as written too: a token that
   * would bring the line to 70 characters always starts a new line, and the
   * other two branches only append to a line that stays below 70.
   */
  lemma AsWrittenStepShort(s: LineState, index: nat, c: string, rowLen: nat)
    requires rowLen > 0 && IsToken(c)
    requires |s.line| <= MAX_LINE && '\n' !in s.line
    requires forall i :: 0 <= i < |s.done| ==> |s.done[i]| <= MAX_LINE && '\n' !in s.done[i]
    ensures var t := AsWrittenStep(s, index, c, rowLen);
      && |t.line| <= MAX_LINE && '\n' !in t.line
      && (forall i :: 0 <= i < |t.done| ==> |t.done[i]| <= MAX_LINE && '\n' !in t.done[i])
  {
    TokenHasNoNewline(c);
  }

  /** After any number of tokens, every line the serialiser as written holds is at most 70 characters. */
  lemma {:induction false} AsWrittenStateShort(tokens: seq<string>, rowLen: nat, n: nat)
    requires rowLen > 0 && n <= |tokens|
    requires forall k :: 0 <= k < |tokens| ==> IsToken(tokens[k])
    ensures var s := AsWrittenState(tokens, rowLen, n);
      && |s.line| <= MAX_LINE && '\n' !in s.line
      && (forall i :: 0 <= i < |s.done| ==> |s.done[i]| <= MAX_LINE && '\n' !in s.done[i])
  {
    if n > 0 {
      AsWrittenStateShort(tokens, rowLen, n - 1);
      AsWrittenStepShort(AsWrittenState(tokens, rowLen, n - 1), n - 1, tokens[n - 1], rowLen);
    }
  }

  /** Finished lines followed by a pending line split back into those lines and the pending one. */
  lemma {:induction false} SplitFlushed(ls: seq<string>, l: string)
    requires forall i :: 0 <= i < |ls| ==> '\n' !in ls[i]
    requires '\n' !in l
    ensures SplitOn(Unlines(ls) + l, IsNewline) == ls + [l]
  {
    if |ls| == 0 {
      assert Unlines(ls) + l == l;
      assert forall j :: 0 <= j < |l| ==> !IsNewline(l[j]);
      SplitOnNoSeparator(l, IsNewline);
    } else {
      SplitFlushed(ls[1..], l);
      assert forall j :: 0 <= j < |ls[0]| ==> !IsNewline(ls[0][j]) by {
        assert '\n' !in ls[0];
      }
      SplitOnNoSeparator(ls[0], IsNewline);
      assert Unlines(ls) + l == ls[0] + ['\n'] + (Unlines(ls[1..]) + l);
      SplitOnAppend(ls[0], '\n', Unlines(ls[1..]) + l, IsNewline);
      assert [ls[0]] + (ls[1..] + [l]) == ls + [l];
    }
  }

  /** Every line of the body as canvas.rs writes it is at most 70 characters long. */
  lemma AsWrittenBodyShort(tokens: seq<string>, rowLen: nat)
    requires |tokens| == 0 || rowLen > 0
    requires forall k :: 0 <= k < |tokens| ==> IsToken(tokens[k])
    ensures forall l :: l in Lines(AsWrittenBody(tokens, rowLen)) ==> |l| <= MAX_LINE
  {
    if |tokens| == 0 {
      assert AsWrittenBody(tokens, rowLen) == "";
      LinesOfEmpty();
      return;
    }
    var s := AsWrittenState(tokens, rowLen, |tokens|);
    AsWrittenStateShort(tokens, rowLen, |tokens|);
    SplitFlushed(s.done, s.line);
    var fields := SplitOn(AsWrittenBody(tokens, rowLen), IsNewline);
    assert fields == s.done + [s.line];
    forall l | l in Lines(AsWrittenBody(tokens, rowLen))
      ensures |l| <= MAX_LINE
    {
      assert l in fields;
      var i :| 0 <= i < |fields| && fields[i] == l;
      if i < |s.done| {
        assert l == s.done[i];
      }
    }
  }

  /** No line of the pixel body `as_ppm` writes, for any canvas width, is longer than 70 characters. */
  lemma AsWrittenPpmBodyShort(pixels: seq<Color>, width: nat)
    requires |pixels| == 0 || width > 0
    ensures forall l :: l in Lines(AsWrittenBody(PpmTokens(pixels), 3 * width)) ==> |l| <= MAX_LINE
  {
    PpmTokensAreTokens(pixels);
    AsWrittenBodyShort(PpmTokens(pixels), 3 * width);
  }

  /** What as written has emitted so far is never taken back. */
  lemma {:induction false} AsWrittenGrows(tokens: seq<string>, rowLen: nat, n: nat, m: nat)
    requires rowLen > 0 && n <= m <= |tokens|
    ensures Flushed(AsWrittenState(tokens, rowLen, n)) <= Flushed(AsWrittenState(tokens, rowLen, m))
  {
    if n < m {
      AsWrittenGrows(tokens, rowLen, n, m - 1);
      AsWrittenStepGrows(AsWrittenState(tokens, rowLen, m - 1), m - 1, tokens[m - 1], rowLen);
    }
  }

  lemma AsWrittenStepGrows(s: LineState, index: nat, c: string, rowLen: nat)
    requires rowLen > 0
    ensures Flushed(s) <= Flushed(AsWrittenStep(s, index, c, rowLen))
  {
    if |s.line| + |c| >= MAX_LINE {
      UnlinesSnoc(s.done, s.line);
    } else if (index + 1) % rowLen == 0 {
      UnlinesSnoc(s.done, s.line + " " + c);
    }
  }

  /** n white tokens as one line: "255 255 ... 255". */
  function WhiteRun(n: nat): (r: string)
    requires n >= 1
    ensures |r| == 4 * n - 1
  {
    if n == 1 then "255" else WhiteRun(n - 1) + " 255"
  }

  lemma {:induction false} WordsOfWhiteRun(n: nat)
    requires n >= 1
    ensures Words(WhiteRun(n)) == seq(n, _ => "255")
  {
    if n == 1 {
      WordsOfToken("255");
    } else {
      WordsOfWhiteRun(n - 1);
      assert WhiteRun(n) == WhiteRun(n - 1) + [' '] + "255";
      WordsSnocToken(WhiteRun(n - 1), "255");
    }
  }

  lemma WordsSnocToken(a: string, t: string)
    requires t != "" && NoWhitespace(t)
    ensures Words(a + [' '] + t) == Words(a) + [t]
  {
    WordsAppend(a, ' ', t);
    WordsOfToken(t);
  }

  /** The first 17 tokens of a row of six white pixels share one line. */
  lemma {:induction false} AsWrittenWhiteRun(tokens: seq<string>, n: nat)
    requires |tokens| == 36 && forall k :: 0 <= k < 36 ==> tokens[k] == "255"
    requires 1 <= n <= 17
    ensures AsWrittenState(tokens, 18, n) == LineState([], WhiteRun(n))
  {
    if n > 1 {
      AsWrittenWhiteRun(tokens, n - 1);
    }
  }

  lemma NatToString255()
    ensures NatToString(255) == "255"
  {
    assert NatToString(2) == "2";
    assert NatToString(25) == "25";
  }

  /** The channel strings of a 6 x 2 white canvas: 36 times "255". */
  lemma WhiteTokens()
    ensures PpmTokens(seq(12, _ => WHITE)) == seq(36, _ => "255")
  {
    var ps := seq(12, _ => WHITE);
    NatToString255();
    assert ChannelByte(1.0) == 255;
    PpmTokensAt(ps);
    forall k | 0 <= k < 36
      ensures PpmTokens(ps)[k] == "255"
    {
      assert PpmTokens(ps)[3 * (k / 3) + k % 3] == AsByteStrings(ps[k / 3])[k % 3];
    }
  }

  /**
   * As written, a 6 x 2 white canvas wraps at the last token of its first row
   * (the line already holds 67 characters), and the second row's first token is
   * then appended to that token without a space: the body holds the word
   * "255255", so its words are not the 36 channel strings. Corrected, they are.
   */
  lemma AsWrittenGluesRows()
    ensures |Words(AsWrittenBody(PpmTokens(seq(12, _ => WHITE)), 18))| > 17
    ensures Words(AsWrittenBody(PpmTokens(seq(12, _ => WHITE)), 18))[17] == "255255"
    ensures Words(AsWrittenBody(PpmTokens(seq(12, _ => WHITE)), 18)) != PpmTokens(seq(12, _ => WHITE))
    ensures Words(PpmBody(PpmTokens(seq(12, _ => WHITE)), 18)) == PpmTokens(seq(12, _ => WHITE))
  {
    WhiteTokens();
    GluesWhiteRows(PpmTokens(seq(12, _ => WHITE)));
    PpmTokensAreTokens(seq(12, _ => WHITE));
    PpmBodyWellFormed(PpmTokens(seq(12, _ => WHITE)), 18);
  }

  /** The two rows of 18 tokens "255", written out as the source does. */
  lemma GluesWhiteRows(tokens: seq<string>)
    requires |tokens| == 36 && forall k :: 0 <= k < 36 ==> tokens[k] == "255"
    ensures |Words(AsWrittenBody(tokens, 18))| > 17
    ensures Words(AsWrittenBody(tokens, 18))[17] == "255255"
    ensures Words(AsWrittenBody(tokens, 18)) != tokens
  {
    AsWrittenRowEnd(tokens);
    AsWrittenGrows(tokens, 18, 20, 36);
    var body := AsWrittenBody(tokens, 18);
    var prefix := Flushed(AsWrittenState(tokens, 18, 20));
    WordsOfWhiteRun(17);
    GluedWord(WhiteRun(17), body[|prefix|..]);
    assert body == prefix + body[|prefix|..];
    assert tokens[17] == "255";
  }

  /** After the first row's last token and two more, the second row's first token is glued on. */
  lemma AsWrittenRowEnd(tokens: seq<string>)
    requires |tokens| == 36 && forall k :: 0 <= k < 36 ==> tokens[k] == "255"
    ensures Flushed(AsWrittenState(tokens, 18, 20)) == WhiteRun(17) + "\n" + "255255 255"
  {
    AsWrittenWhiteRun(tokens, 17);
    assert AsWrittenState(tokens, 18, 18) == LineState([WhiteRun(17)], "255");
    assert AsWrittenState(tokens, 18, 19) == LineState([WhiteRun(17)], "255255");
    assert AsWrittenState(tokens, 18, 20) == LineState([WhiteRun(17)], "255255 255");
  }

  /** A line of 17 words followed by "255255 " gives "255255" as the 18th word. */
  lemma GluedWord(a: string, rest: string)
    requires |Words(a)| == 17
    ensures |Words(a + "\n" + "255255 255" + rest)| > 17
    ensures Words(a + "\n" + "255255 255" + rest)[17] == "255255"
  {
    LineThenWord(a, "255255", "255" + rest);
    assert a + "\n" + "255255 255" + rest == a + ['\n'] + ("255255" + [' '] + ("255" + rest));
  }

  lemma LineThenWord(a: string, t: string, rest: string)
    requires t != "" && NoWhitespace(t)
    ensures Words(a + ['\n'] + (t + [' '] + rest)) == Words(a) + [t] + Words(rest)
  {
    WordsAppend(a, '\n', t + [' '] + rest);
    WordsConsToken(t, ' ', rest);
  }

  // ---------------------------------------------------------------------------
  // The canvas
  // ---------------------------------------------------------------------------

  class Canvas {
    const width: nat
    const height: nat
    /** Row-major: pixel (x, y) is at y * width + x. */
    const pixels: array<Color>

    ghost predicate Valid()
    {
      pixels.Length == width * height
    }

    /** A width x height canvas, every pixel black. */
    constructor(width: nat, height: nat)
      ensures Valid() && this.width == width && this.height == height
      ensures fresh(pixels)
      ensures forall k :: 0 <= k < pixels.Length ==> pixels[k] == BLACK
    {
      this.width := width;
      this.height := height;
      pixels := new Color[width * height](_ => BLACK);
    }

    /** Sets pixel (x, y) and nothing else. */
    method WritePixel(x: nat, y: nat, c: Color)
      requires RowMajor(x, y, width) < pixels.Length
      modifies pixels
      ensures pixels[RowMajor(x, y, width)] == c
      ensures forall k :: 0 <= k < pixels.Length && k != RowMajor(x, y, width) ==> pixels[k] == old(pixels[k])
    {
      RowMajorValue(x, y, width);
      pixels[y * width + x] := c;
    }

    method PixelAt(x: nat, y: nat) returns (c: Color)
      requires RowMajor(x, y, width) < pixels.Length
      ensures c == pixels[RowMajor(x, y, width)]
    {
      RowMajorValue(x, y, width);
      c := pixels[y * width + x];
    }

    /** Column by column, every pixel is set to c. */
    method Fill(c: Color)
      requires Valid()
      modifies pixels
      ensures forall k :: 0 <= k < pixels.Length ==> pixels[k] == c
    {
      RowMajorInRange(width, height);
      for i := 0 to width
        invariant forall x: nat, y: nat :: x < i && y < height ==> pixels[RowMajor(x, y, width)] == c
      {
        for j := 0 to height
          invariant forall x: nat, y: nat :: y < height && (x < i || (x == i && y < j)) ==> pixels[RowMajor(x, y, width)] == c
        {
          RowMajorInjective(i, j, width);
          WritePixel(i, j, c);
        }
      }
      forall k | 0 <= k < pixels.Length
        ensures pixels[k] == c
      {
        RowMajorCovers(k, width, height);
      }
    }

    /** The plain PPM text with every row ending a line. */
    method AsPpm() returns (ppm: string)
      requires Valid()
      ensures ppm == PpmHeader(width, height) + PpmBody(PpmTokens(pixels[..]), 3 * width)
    {
      var tokens := PpmTokens(pixels[..]);
      var rowLen := 3 * width;
      var header := PpmHeader(width, height);
      var output := header;
      var line := "";
      for index := 0 to |tokens|
        invariant output == header + Unlines(WrapState(tokens, rowLen, index).done)
        invariant line == WrapState(tokens, rowLen, index).line
      {
        output, line := PushToken(header, WrapState(tokens, rowLen, index), output, line, index, tokens[index], rowLen);
      }
      ppm := output + line;
    }

    /** The plain PPM text as canvas.rs builds it. */
    method AsPpmAsWritten() returns (ppm: string)
      requires Valid()
      ensures ppm == PpmHeader(width, height) + AsWrittenBody(PpmTokens(pixels[..]), 3 * width)
    {
      var tokens := PpmTokens(pixels[..]);
      var rowLen := 3 * width;
      var header := PpmHeader(width, height);
      var output := header;
      var line := "";
      for index := 0 to |tokens|
        invariant output == header + Unlines(AsWrittenState(tokens, rowLen, index).done)
        invariant line == AsWrittenState(tokens, rowLen, index).line
      {
        output, line := PushTokenAsWritten(header, AsWrittenState(tokens, rowLen, index), output, line, index, tokens[index], rowLen);
      }
      ppm := output + line;
    }
  }

  /** The serialiser's loop body, row ends honoured: the text after `header` follows `WrapStep`. */
  method PushToken(ghost header: string, ghost st: LineState, output: string, line: string, index: nat, c: string, rowLen: nat)
    returns (output': string, line': string)
    requires rowLen > 0
    requires output == header + Unlines(st.done) && line == st.line
    ensures output' == header + Unlines(WrapStep(st, index, c, rowLen).done)
    ensures line' == WrapStep(st, index, c, rowLen).line
  {
    output', line' := output, line;
    if |line'| + |c| >= MAX_LINE {
      EmitLine(output', header, st.done, line');
      output' := output' + line' + "\n";
      if (index + 1) % rowLen == 0 {
        EmitLine(output', header, st.done + [line'], c);
        output' := output' + c + "\n";
        line' := "";
      } else {
        line' := c;
      }
    } else if (index + 1) % rowLen == 0 {
      line' := line' + " " + c;
      EmitLine(output', header, st.done, line');
      output' := output' + line' + "\n";
      line' := "";
    } else {
      if index % rowLen != 0 {
        line' := line' + " ";
      }
      line' := line' + c;
    }
  }

  /** The serialiser's loop body as canvas.rs writes it. */
  method PushTokenAsWritten(ghost header: string, ghost st: LineState, output: string, line: string, index: nat, c: string, rowLen: nat)
    returns (output': string, line': string)
    requires rowLen > 0
    requires output == header + Unlines(st.done) && line == st.line
    ensures output' == header + Unlines(AsWrittenStep(st, index, c, rowLen).done)
    ensures line' == AsWrittenStep(st, index, c, rowLen).line
  {
    output', line' := output, line;
    if |line'| + |c| >= MAX_LINE {
      EmitLine(output', header, st.done, line');
      output' := output' + line' + "\n";
      line' := c;
    } else if (index + 1) % rowLen == 0 {
      line' := line' + " " + c;
      EmitLine(output', header, st.done, line');
      output' := output' + line' + "\n";
      line' := "";
    } else {
      if index % rowLen != 0 {
        line' := line' + " ";
      }
      line' := line' + c;
    }
  }

  /** Ending a line extends the finished lines by it. */
  lemma EmitLine(output: string, header: string, done: seq<string>, l: string)
    requires output == header + Unlines(done)
    ensures output + l + "\n" == header + Unlines(done + [l])
  {
    UnlinesSnoc(done, l);
  }

  /** The buffer index of pixel (x, y): x past the start of row y, each row `width` long. */
  function RowMajor(x: nat, y: nat, width: nat): nat
  {
    if y == 0 then x else RowMajor(x, y - 1, width) + width
  }

  lemma {:induction false} RowMajorValue(x: nat, y: nat, width: nat)
    ensures RowMajor(x, y, width) == y * width + x
  {
    if y > 0 {
      RowMajorValue(x, y - 1, width);
    }
  }

  lemma MulMonotone(a: nat, b: nat, w: nat)
    requires a <= b
    ensures a * w <= b * w
  {
  }

  /** Every pixel of a width x height canvas has an index in the buffer. */
  lemma RowMajorInRange(width: nat, height: nat)
    ensures forall x: nat, y: nat :: x < width && y < height ==> RowMajor(x, y, width) < width * height
  {
    forall x: nat, y: nat | x < width && y < height
      ensures RowMajor(x, y, width) < width * height
    {
      RowMajorValue(x, y, width);
      PixelIndexBound(x, y, width, height);
    }
  }

  lemma PixelIndexBound(x: nat, y: nat, width: nat, height: nat)
    requires x < width && y < height
    ensures y * width + x < width * height
  {
    MulMonotone(y + 1, height, width);
    assert (y + 1) * width == y * width + width;
    assert height * width == width * height;
  }

  /** Distinct pixels of a row of the given width have distinct indices. */
  lemma RowMajorInjective(i: nat, j: nat, width: nat)
    requires i < width
    ensures forall x: nat, y: nat :: x < width && (x != i || y != j) ==> RowMajor(x, y, width) != RowMajor(i, j, width)
  {
    forall x: nat, y: nat | x < width && (x != i || y != j)
      ensures RowMajor(x, y, width) != RowMajor(i, j, width)
    {
      RowMajorValue(x, y, width);
      RowMajorValue(i, j, width);
      if y < j {
        MulMonotone(y + 1, j, width);
      } else if y > j {
        MulMonotone(j + 1, y, width);
      }
    }
  }

  /** Every index of the buffer is the index of a pixel. */
  lemma RowMajorCovers(k: nat, width: nat, height: nat)
    requires k < width * height
    ensures width > 0 && k % width < width && k / width < height
    ensures RowMajor(k % width, k / width, width) == k
  {
    PositiveWidth(k, width, height);
    var q, r := k / width, k % width;
    QuotientBelow(k, width, height);
    RowMajorValue(r, q, width);
  }

  lemma PositiveWidth(k: nat, width: nat, height: nat)
    requires k < width * height
    ensures width > 0
  {
  }

  /** The row of buffer index k, k / width, is a row of the canvas. */
  lemma QuotientBelow(k: nat, width: nat, height: nat)
    requires width > 0 && k < width * height
    ensures k / width < height && k == (k / width) * width + k % width
  {
    var q := k / width;
    assert k == q * width + k % width;
    if q >= height {
      MulMonotone(height, q, width);
    }
  }

}
