/**
  Comment handling: `remove_comments`, which prepares the text for the
  header scanner, and `get_rst_comments`, which collects the documentation
  comments (starred block comments and starred line comments) for the document
  renderer.
 */
module Comments {
  import opened Opt
  import opened Text

  const BlockDelims: seq<string> := ["/*", "*/"]
  const LongDelims: seq<string> := ["/**", "*/"]
  const ShortDelims: seq<string> := ["//*", "\n"]

  /** `''.join(pieces)`, built by appending at the end as the loops do. */
  function Join(pieces: seq<string>): string
  {
    if |pieces| == 0 then "" else Join(pieces[..|pieces| - 1]) + pieces[|pieces| - 1]
  }

  // ---------------------------------------------------------------------
  // Line comments: re.sub(r'//.*\n', ' ', code)
  // ---------------------------------------------------------------------

  /** The pattern `//.*\n` matches at the start of `s`: `.` never crosses a newline, so a newline must follow somewhere. */
  predicate StartsLineComment(s: string)
  {
    |s| >= 2 && s[0] == '/' && s[1] == '/' && '\n' in s
  }

  function NewlineIndex(s: string): (i: nat)
    requires '\n' in s
    ensures i < |s| && s[i] == '\n'
    ensures forall k :: 0 <= k < i ==> s[k] != '\n'
  {
    if s[0] == '\n' then 0 else NewlineIndex(s[1..]) + 1
  }

  /** Each `//` comment up to and including the next newline becomes one space. */
  function BlankLineComments(s: string): string
    decreases |s|
  {
    if |s| == 0 then ""
    else if StartsLineComment(s) then " " + BlankLineComments(s[NewlineIndex(s) + 1..])
    else [s[0]] + BlankLineComments(s[1..])
  }

  /** Text with no newline has no line comment to blank (an unterminated `//` stays). */
  lemma {:induction false} BlankLineCommentsNoNewline(s: string)
    requires '\n' !in s
    ensures BlankLineComments(s) == s
    decreases |s|
  {
    if |s| > 0 {
      assert '\n' !in s[1..];
      BlankLineCommentsNoNewline(s[1..]);
    }
  }

  /** Text in which no line comment starts is left unchanged. */
  lemma {:induction false} BlankLineCommentsNone(s: string)
    requires forall k :: 0 <= k < |s| ==> !StartsLineComment(s[k..])
    ensures BlankLineComments(s) == s
    decreases |s|
  {
    if |s| > 0 {
      assert s[0..] == s;
      forall k | 0 <= k < |s| - 1 ensures !StartsLineComment(s[1..][k..]) {
        assert s[1..][k..] == s[k + 1..];
      }
      BlankLineCommentsNone(s[1..]);
    }
  }

  /** After blanking, no line comment is left anywhere in the text. */
  lemma {:induction false} BlankLineCommentsComplete(s: string)
    ensures forall k :: 0 <= k < |BlankLineComments(s)| ==> !StartsLineComment(BlankLineComments(s)[k..])
    decreases |s|
  {
    var r := BlankLineComments(s);
    if |s| == 0 {
    } else if StartsLineComment(s) {
      var rest := s[NewlineIndex(s) + 1..];
      BlankLineCommentsComplete(rest);
      var r' := BlankLineComments(rest);
      assert r == " " + r';
      forall k | 0 <= k < |r| ensures !StartsLineComment(r[k..]) {
        if k > 0 {
          assert r[k..] == r'[k - 1..];
        } else {
          assert r[0..] == r;
        }
      }
    } else {
      BlankLineCommentsComplete(s[1..]);
      var r' := BlankLineComments(s[1..]);
      assert r == [s[0]] + r';
      forall k | 0 <= k < |r| ensures !StartsLineComment(r[k..]) {
        if k > 0 {
          assert r[k..] == r'[k - 1..];
        } else if s[0] == '/' && |s| >= 2 {
          assert r[0..] == r;
          if s[1] == '/' {
            assert '\n' !in s;
            assert '\n' !in s[1..];
            BlankLineCommentsNoNewline(s[1..]);
            assert r == s;
          } else {
            assert !StartsLineComment(s[1..]);
            assert r' == [s[1]] + BlankLineComments(s[2..]);
          }
        } else {
          assert r[0..] == r;
        }
      }
    }
  }

  /** Blanking line comments a second time changes nothing. */
  lemma BlankLineCommentsIdempotent(s: string)
    ensures BlankLineComments(BlankLineComments(s)) == BlankLineComments(s)
  {
    BlankLineCommentsComplete(s);
    BlankLineCommentsNone(BlankLineComments(s));
  }

  // ---------------------------------------------------------------------
  // Block comments: the flag loop over the split on both block delimiters
  // ---------------------------------------------------------------------

  /**
    Character-level reference for block-comment removal: both delimiters
    are dropped, and text is kept only outside a comment region.
   */
  function StripBlocks(s: string, inBlock: bool): (r: string)
    ensures |r| <= |s|
    decreases |s|
  {
    if |s| == 0 then ""
    else if |s| >= 2 && s[..2] == "/*" then StripBlocks(s[2..], true)
    else if |s| >= 2 && s[..2] == "*/" then StripBlocks(s[2..], false)
    else (if inBlock then "" else [s[0]]) + StripBlocks(s[1..], inBlock)
  }

  /** What the flag loop of `remove_comments` keeps from a list of split pieces. */
  function KeepOutside(pieces: seq<string>, inBlock: bool): string
  {
    if |pieces| == 0 then ""
    else if pieces[0] == "/*" then KeepOutside(pieces[1..], true)
    else if pieces[0] == "*/" then KeepOutside(pieces[1..], false)
    else (if inBlock then "" else pieces[0]) + KeepOutside(pieces[1..], inBlock)
  }

  /** The piece-wise loop over the split agrees with the character-level reference. */
  lemma {:induction false} KeepOutsideSplit(s: string, inBlock: bool)
    ensures KeepOutside(Split(s, BlockDelims), inBlock) == StripBlocks(s, inBlock)
    decreases |s|
  {
    var r := Split(s, BlockDelims);
    if |s| == 0 {
      assert r == [""];
    } else if FirstDelim(s, BlockDelims).Some? {
      var d := FirstDelim(s, BlockDelims).value;
      KeepOutsideSplit(s[|d|..], d == "/*");
      StripBlocksAtDelim(s, d, inBlock);
      KeepOutsideDelim(d, Split(s[|d|..], BlockDelims), inBlock);
    } else {
      KeepOutsideSplit(s[1..], inBlock);
      KeepOutsidePlain(s, inBlock);
    }
  }

  /** A first character that starts no delimiter is kept by both the split loop and the reference, or dropped by both. */
  lemma KeepOutsidePlain(s: string, inBlock: bool)
    requires |s| > 0 && FirstDelim(s, BlockDelims).None?
    requires KeepOutside(Split(s[1..], BlockDelims), inBlock) == StripBlocks(s[1..], inBlock)
    ensures KeepOutside(Split(s, BlockDelims), inBlock) == StripBlocks(s, inBlock)
  {
    KeepOutsideCharStep(s, inBlock);
    NoDelimFirst(s);
    StripCharStep(s, inBlock);
  }

  /** The split loop keeps a first character that starts no delimiter, or drops it inside a block. */
  lemma KeepOutsideCharStep(s: string, inBlock: bool)
    requires |s| > 0 && FirstDelim(s, BlockDelims).None?
    ensures KeepOutside(Split(s, BlockDelims), inBlock)
         == (if inBlock then "" else [s[0]]) + KeepOutside(Split(s[1..], BlockDelims), inBlock)
  {
    var t := Split(s[1..], BlockDelims);
    SplitPlainStep(s, BlockDelims);
    FirstPieceNotDelim(s);
    FirstPieceNotDelim(s[1..]);
    var head := [s[0]] + t[0];
    var tail := KeepOutside(t[1..], inBlock);
    KeepOutsideText(head, t[1..], inBlock);
    KeepOutsideText(t[0], t[1..], inBlock);
    assert t == [t[0]] + t[1..];
    if !inBlock {
      assert head + tail == [s[0]] + (t[0] + tail);
    }
  }

  lemma StripBlocksAtDelim(s: string, d: string, inBlock: bool)
    requires FirstDelim(s, BlockDelims) == Some(d)
    ensures |d| == 2 && StripBlocks(s, inBlock) == StripBlocks(s[2..], d == "/*")
  {
    assert d == "/*" || d == "*/";
  }

  lemma KeepOutsideDelim(d: string, t: seq<string>, inBlock: bool)
    requires d == "/*" || d == "*/"
    ensures KeepOutside(["", d] + t, inBlock) == KeepOutside(t, d == "/*")
  {
    assert (["", d] + t)[1..] == [d] + t;
    assert ([d] + t)[1..] == t;
  }

  lemma KeepOutsideText(p: string, t: seq<string>, inBlock: bool)
    requires p != "/*" && p != "*/"
    ensures KeepOutside([p] + t, inBlock) == (if inBlock then "" else p) + KeepOutside(t, inBlock)
  {
    assert ([p] + t)[1..] == t;
  }

  lemma NotBlockDelim(s: string)
    requires FirstDelim(s, BlockDelims).None?
    ensures |s| >= 2 ==> s[..2] != "/*" && s[..2] != "*/"
  {
    assert BlockDelims[0] == "/*" && BlockDelims[1] == "*/";
  }

  lemma KeepOutsideAt(pieces: seq<string>, i: nat, inBlock: bool)
    requires i < |pieces|
    ensures KeepOutside(pieces[i..], inBlock)
         == if pieces[i] == "/*" then KeepOutside(pieces[i + 1..], true)
            else if pieces[i] == "*/" then KeepOutside(pieces[i + 1..], false)
            else (if inBlock then "" else pieces[i]) + KeepOutside(pieces[i + 1..], inBlock)
  {
    assert pieces[i..][1..] == pieces[i + 1..];
  }

  lemma JoinAppend(pieces: seq<string>, p: string)
    ensures Join(pieces + [p]) == Join(pieces) + p
  {
    assert (pieces + [p])[..|pieces|] == pieces;
  }

  /** One pass of the flag loop keeps what is kept so far plus what the rest keeps. */
  lemma RemoveStep(split: seq<string>, i: nat, flag: bool, kept: seq<string>)
    requires i < |split|
    ensures var p := split[i];
      var flag' := if p == "/*" then true else if p == "*/" then false else flag;
      var kept' := if p != "/*" && p != "*/" && !flag then kept + [p] else kept;
      Join(kept') + KeepOutside(split[i + 1..], flag') == Join(kept) + KeepOutside(split[i..], flag)
  {
    var p := split[i];
    KeepOutsideAt(split, i, flag);
    var rest := KeepOutside(split[i + 1..], flag);
    if p != "/*" && p != "*/" {
      if flag {
        assert KeepOutside(split[i..], flag) == "" + rest;
      } else {
        JoinAppend(kept, p);
        assert Join(kept) + p + rest == Join(kept) + (p + rest);
      }
    }
  }

  /** `remove_comments`: line comments blanked first, then block comments dropped. */
  method RemoveComments(code: string) returns (clean: string)
    ensures clean == StripBlocks(BlankLineComments(code), false)
  {
    var text := BlankLineComments(code);
    var split := Split(text, BlockDelims);
    var flag := false;
    var cleanSplit: seq<string> := [];
    for i := 0 to |split|
      invariant Join(cleanSplit) + KeepOutside(split[i..], flag) == KeepOutside(split, false)
    {
      var s := split[i];
      RemoveStep(split, i, flag, cleanSplit);
      if s == "/*" {
        flag := true;
      } else if s == "*/" {
        flag := false;
      } else if !flag {
        cleanSplit := cleanSplit + [s];
      }
    }
    clean := Join(cleanSplit);
    assert split[|split|..] == [];
    KeepOutsideSplit(text, false);
  }

  /** No block delimiter, `/*` or `*/`, starts at any of the first `n` positions of `s`. */
  predicate NoBlockDelimIn(s: string, n: nat)
  {
    forall k :: 0 <= k < n && k + 1 < |s| ==> !(s[k] == '/' && s[k + 1] == '*') && !(s[k] == '*' && s[k + 1] == '/')
  }

  /** Text in which no block delimiter starts passes through block removal untouched, or vanishes inside a block. */
  lemma {:induction false} StripBlocksPlain(a: string, t: string, inBlock: bool)
    requires NoBlockDelimIn(a + t, |a|)
    ensures StripBlocks(a + t, inBlock) == (if inBlock then "" else a) + StripBlocks(t, inBlock)
    decreases |a|
  {
    if |a| > 0 {
      NoBlockDelimTail(a, t);
      StripCharStep(a + t, inBlock);
      StripBlocksPlain(a[1..], t, inBlock);
      var x := StripBlocks(t, inBlock);
      if inBlock {
        assert StripBlocks(a + t, inBlock) == "" + ("" + x);
      } else {
        assert StripBlocks(a + t, inBlock) == [a[0]] + (a[1..] + x);
        assert [a[0]] + (a[1..] + x) == ([a[0]] + a[1..]) + x;
        assert [a[0]] + a[1..] == a;
      }
    } else {
      assert a + t == t;
    }
  }

  lemma NoBlockDelimTail(a: string, t: string)
    requires |a| > 0 && NoBlockDelimIn(a + t, |a|)
    ensures (a + t)[0] == a[0] && (a + t)[1..] == a[1..] + t
    ensures NoBlockDelimIn(a + t, 1) && NoBlockDelimIn(a[1..] + t, |a| - 1)
  {
    assert (a + t)[1..] == a[1..] + t;
  }

  /** The first piece of a split on the block delimiters is never one of them. */
  lemma {:induction false} FirstPieceNotDelim(s: string)
    ensures Split(s, BlockDelims)[0] != "/*" && Split(s, BlockDelims)[0] != "*/"
    decreases |s|
  {
    if |s| > 0 && FirstDelim(s, BlockDelims).None? {
      var t := Split(s[1..], BlockDelims);
      FirstPieceNotDelim(s[1..]);
      SplitHead(s[1..], BlockDelims);
      SplitPlainStep(s, BlockDelims);
      var h := [s[0]] + t[0];
      if |h| == 2 {
        NotBlockDelim(s);
        assert |s| >= 2 && s[1] == t[0][0];
        assert s[..2] == h;
      }
    }
  }

  lemma NoDelimFirst(s: string)
    requires FirstDelim(s, BlockDelims).None?
    ensures NoBlockDelimIn(s, 1)
  {
    NotBlockDelim(s);
    if |s| >= 2 {
      assert s[..2] == [s[0], s[1]];
    }
  }

  /** A first character that starts no block delimiter is kept, or dropped inside a block. */
  lemma StripCharStep(s: string, inBlock: bool)
    requires |s| > 0 && NoBlockDelimIn(s, 1)
    ensures StripBlocks(s, inBlock) == (if inBlock then "" else [s[0]]) + StripBlocks(s[1..], inBlock)
  {
    if |s| >= 2 {
      assert s[..2][0] == s[0] && s[..2][1] == s[1];
    }
  }

  /** A delimiter after `x` leaves no delimiter starting inside `x`, whatever follows it. */
  lemma NoBlockDelimExtend(x: string, d: string, y: string)
    requires |d| == 2 && NoBlockDelimIn(x + d, |x|)
    ensures NoBlockDelimIn(x + (d + y), |x|)
  {
    assert x + (d + y) == (x + d) + y;
  }

  lemma StripAtOpen(t: string, inBlock: bool)
    ensures StripBlocks("/*" + t, inBlock) == StripBlocks(t, true)
  {
    var s := "/*" + t;
    assert s[..2] == "/*" && s[2..] == t;
  }

  lemma StripAtClose(t: string, inBlock: bool)
    ensures StripBlocks("*/" + t, inBlock) == StripBlocks(t, false)
  {
    var s := "*/" + t;
    assert s[..2] == "*/" && s[2..] == t;
    assert s[..2] != "/*";
  }

  // A block comment is removed together with both delimiters, and the text
  // around it is kept: `a` holds no block delimiter before the opening one,
  // and the body `b` none before the closing one (so `b` may hold a lone `*`
  // or `/`).
  lemma StripBlocksRemovesComment(a: string, b: string, c: string)
    requires NoBlockDelimIn(a + "/*", |a|)
    requires NoBlockDelimIn(b + "*/", |b|)
    ensures StripBlocks(a + "/*" + b + "*/" + c, false) == a + StripBlocks(c, false)
  {
    var s := "/*" + (b + ("*/" + c));
    AroundComment(a, b, c);
    NoBlockDelimExtend(a, "/*", b + ("*/" + c));
    StripBlocksPlain(a, s, false);
    StripCommentBody(b, c);
  }

  /** From the opening delimiter on, the body and the closing delimiter vanish. */
  lemma StripCommentBody(b: string, c: string)
    requires NoBlockDelimIn(b + "*/", |b|)
    ensures StripBlocks("/*" + (b + ("*/" + c)), false) == StripBlocks(c, false)
  {
    var u := "*/" + c;
    StripAtOpen(b + u, false);
    NoBlockDelimExtend(b, "*/", c);
    StripBlocksPlain(b, u, true);
    StripAtClose(c, true);
  }

  lemma AroundComment(a: string, b: string, c: string)
    ensures a + "/*" + b + "*/" + c == a + ("/*" + (b + ("*/" + c)))
  {
    var open: string := "/*";
    var close: string := "*/";
    assert a + open + b + close + c == a + (open + (b + (close + c)));
  }

  // ---------------------------------------------------------------------
  // Documentation comments: get_rst_comments
  // ---------------------------------------------------------------------

  /**
    `^\s*\*` followed by one space (`spaceOnly`) or by one `\s` character,
    matched at the start of `s`. `\s*` is greedy and `*` is not a space, so
    the match, when there is one, spans exactly the leading whitespace run,
    which may cross line breaks.
   */
  predicate StarAt(s: string, spaceOnly: bool)
  {
    var w := RunEnd(s, 0, Space);
    w + 1 < |s| && s[w] == '*' && (if spaceOnly then s[w + 1] == ' ' else IsSpace(s[w + 1]))
  }

  /**
    `re.sub(pattern, repl, s, flags=re.MULTILINE)` for the two star patterns:
    a match may start only at the beginning of a line (`lineStart`).
   */
  function StarLines(s: string, lineStart: bool, spaceOnly: bool, repl: string): string
    decreases |s|
  {
    if |s| == 0 then ""
    else if lineStart && StarAt(s, spaceOnly) then
      var e := RunEnd(s, 0, Space) + 2;
      repl + StarLines(s[e..], s[e - 1] == '\n', spaceOnly, repl)
    else [s[0]] + StarLines(s[1..], s[0] == '\n', spaceOnly, repl)
  }

  /** The two rewrites applied to the body of a long documentation comment. */
  function Reflow(s: string): string
  {
    StarLines(StarLines(s, true, true, ""), true, false, "\n")
  }

  /** Text without a `*` is never rewritten. */
  lemma {:induction false} StarLinesNoStar(s: string, lineStart: bool, spaceOnly: bool, repl: string)
    requires '*' !in s
    ensures StarLines(s, lineStart, spaceOnly, repl) == s
    decreases |s|
  {
    if |s| > 0 {
      assert !StarAt(s, spaceOnly);
      assert '*' !in s[1..];
      StarLinesNoStar(s[1..], s[0] == '\n', spaceOnly, repl);
    }
  }

  lemma ReflowNoStar(s: string)
    requires '*' !in s
    ensures Reflow(s) == s
  {
    StarLinesNoStar(s, true, true, "");
    StarLinesNoStar(s, true, false, "\n");
  }

  /** `re.sub(r'^[ \t\r\f\v]*', ' ', s, flags=re.MULTILINE)`: each line's leading blanks become one space. */
  function LineTrim(s: string, lineStart: bool): string
    decreases |s|, if lineStart then 1 else 0
  {
    if lineStart then " " + LineTrim(s[RunEnd(s, 0, HorizontalSpace)..], false)
    else if |s| == 0 then ""
    else [s[0]] + LineTrim(s[1..], s[0] == '\n')
  }

  lemma {:induction false} LineTrimNoNewline(s: string)
    requires '\n' !in s
    ensures LineTrim(s, false) == s
    decreases |s|
  {
    if |s| > 0 {
      assert '\n' !in s[1..];
      LineTrimNoNewline(s[1..]);
    }
  }

  /** Bodies collected by the long-comment loop: every text piece seen while the flag is set. */
  function LongBodies(pieces: seq<string>, inBlock: bool): seq<string>
  {
    if |pieces| == 0 then []
    else if pieces[0] == "/**" then LongBodies(pieces[1..], true)
    else if pieces[0] == "*/" then LongBodies(pieces[1..], false)
    else (if inBlock then [Reflow(pieces[0])] else []) + LongBodies(pieces[1..], inBlock)
  }

  /** Bodies collected by the short-comment loop: every text piece seen before the end of the line. */
  function ShortBodies(pieces: seq<string>, inLine: bool): seq<string>
  {
    if |pieces| == 0 then []
    else if pieces[0] == "//*" then ShortBodies(pieces[1..], true)
    else if pieces[0] == "\n" then ShortBodies(pieces[1..], false)
    else (if inLine then [LineTrim(pieces[0], true)] else []) + ShortBodies(pieces[1..], inLine)
  }

  lemma LongBodiesAt(pieces: seq<string>, i: nat, inBlock: bool)
    requires i < |pieces|
    ensures LongBodies(pieces[i..], inBlock)
         == if pieces[i] == "/**" then LongBodies(pieces[i + 1..], true)
            else if pieces[i] == "*/" then LongBodies(pieces[i + 1..], false)
            else (if inBlock then [Reflow(pieces[i])] else []) + LongBodies(pieces[i + 1..], inBlock)
  {
    assert pieces[i..][1..] == pieces[i + 1..];
  }

  lemma ShortBodiesAt(pieces: seq<string>, i: nat, inLine: bool)
    requires i < |pieces|
    ensures ShortBodies(pieces[i..], inLine)
         == if pieces[i] == "//*" then ShortBodies(pieces[i + 1..], true)
            else if pieces[i] == "\n" then ShortBodies(pieces[i + 1..], false)
            else (if inLine then [LineTrim(pieces[i], true)] else []) + ShortBodies(pieces[i + 1..], inLine)
  {
    assert pieces[i..][1..] == pieces[i + 1..];
  }

  /** `get_rst_comments`: the long and the short documentation comments, in source order. */
  method GetRstComments(code: string) returns (longComments: seq<string>, shortComments: seq<string>)
    ensures longComments == LongBodies(Split(code, LongDelims), false)
    ensures shortComments == ShortBodies(Split(code, ShortDelims), false)
  {
    longComments := CollectLongComments(code);
    shortComments := CollectShortComments(code);
  }

  /** The first loop of `get_rst_comments`: the reflowed bodies of the starred block comments. */
  method CollectLongComments(code: string) returns (longComments: seq<string>)
    ensures longComments == LongBodies(Split(code, LongDelims), false)
  {
    var split := Split(code, LongDelims);
    var flag := false;
    longComments := [];
    for i := 0 to |split|
      invariant longComments + LongBodies(split[i..], flag) == LongBodies(split, false)
    {
      var s := split[i];
      LongBodiesAt(split, i, flag);
      if s == "/**" {
        flag := true;
      } else if s == "*/" {
        flag := false;
      } else if flag {
        s := StarLines(s, true, true, "");
        s := StarLines(s, true, false, "\n");
        assert s == Reflow(split[i]);
        longComments := longComments + [s];
      }
    }
    assert split[|split|..] == [];
  }

  /** The second loop of `get_rst_comments`: the trimmed rest of every line that opens a starred line comment. */
  method CollectShortComments(code: string) returns (shortComments: seq<string>)
    ensures shortComments == ShortBodies(Split(code, ShortDelims), false)
  {
    var split := Split(code, ShortDelims);
    var flag := false;
    shortComments := [];
    for i := 0 to |split|
      invariant shortComments + ShortBodies(split[i..], flag) == ShortBodies(split, false)
    {
      var s := split[i];
      ShortBodiesAt(split, i, flag);
      if s == "//*" {
        flag := true;
      } else if s == "\n" {
        flag := false;
      } else if flag {
        s := LineTrim(s, true);
        shortComments := shortComments + [s];
      }
    }
    assert split[|split|..] == [];
  }

  /** The shape of a short comment: one leading space, then the line's text from its first non-blank character. */
  predicate ShortShaped(c: string)
  {
    |c| >= 1 && c[0] == ' ' && '\n' !in c && (|c| >= 2 ==> !IsHorizontalSpace(c[1]))
  }

  lemma {:induction false} ShortBodiesShaped(pieces: seq<string>, inLine: bool)
    requires forall j :: 0 <= j < |pieces| && pieces[j] != "\n" ==> '\n' !in pieces[j]
    ensures forall c :: c in ShortBodies(pieces, inLine) ==> ShortShaped(c)
  {
    if |pieces| > 0 {
      ShortBodiesShaped(pieces[1..], pieces[0] == "//*" || (pieces[0] != "\n" && inLine));
      var p := pieces[0];
      if p != "//*" && p != "\n" && inLine {
        var w := RunEnd(p, 0, HorizontalSpace);
        assert '\n' !in p[w..];
        LineTrimNoNewline(p[w..]);
        var c := LineTrim(p, true);
        assert c == " " + p[w..];
        assert |c| >= 2 ==> c[1] == p[w];
      }
    }
  }

  /** Every short comment `get_rst_comments` returns has that shape. */
  lemma ShortCommentsShaped(code: string)
    ensures forall c :: c in ShortBodies(Split(code, ShortDelims), false) ==> ShortShaped(c)
  {
    var r := Split(code, ShortDelims);
    SplitPieces(code, ShortDelims);
    forall j | 0 <= j < |r| && r[j] != "\n" ensures '\n' !in r[j] {
      assert PieceOk(r, j, ShortDelims);
      assert ["\n"[0]] == "\n";
    }
    ShortBodiesShaped(r, false);
  }

  /** `pat` occurs somewhere in `s`. */
  predicate Occurs(pat: string, s: string)
  {
    exists k :: 0 <= k <= |s| && pat <= s[k..]
  }

  /** In a line free of the short-comment opener, no short-comment delimiter starts before the opener or newline that follows it. */
  lemma NoShortDelimIn(a: string, rest: string)
    requires '\n' !in a && !Occurs("//*", a)
    requires |rest| >= 1 && (rest[0] == '\n' || (|rest| >= 2 && rest[..2] == "//"))
    ensures NoDelimBefore(a + rest, |a|, ShortDelims)
  {
    var s := a + rest;
    forall k | 0 <= k < |a| ensures FirstDelim(s[k..], ShortDelims).None? {
      assert s[k] == a[k];
      if k + 3 <= |a| {
        assert a[k..][..3] == s[k..][..3];
        assert !("//*" <= a[k..]);
      } else if k + 2 == |a| {
        assert s[k + 2] == rest[0];
      } else {
        assert s[k + 1] == rest[0];
        assert |rest| >= 2 ==> s[k + 2] == rest[1] && rest[1] == rest[..2][1];
      }
    }
  }

  lemma ShortBodiesOfLine(a: string, b: string, tc: seq<string>)
    requires a != "//*" && a != "\n" && b != "//*" && b != "\n"
    ensures ShortBodies([a, "//*", b, "\n"] + tc, false) == [LineTrim(b, true)] + ShortBodies(tc, false)
  {
    var r := [a, "//*", b, "\n"] + tc;
    assert r[1..] == ["//*", b, "\n"] + tc;
    assert r[2..] == [b, "\n"] + tc;
    assert r[3..] == ["\n"] + tc;
    assert r[4..] == tc;
    assert ShortBodies(r[3..], true) == ShortBodies(tc, false);
    assert ShortBodies(r[2..], true) == [LineTrim(b, true)] + ShortBodies(r[3..], true);
    assert ShortBodies(r[1..], false) == ShortBodies(r[2..], true);
    assert ShortBodies(r, false) == [] + ShortBodies(r[1..], false);
  }

  /**
    A short documentation comment yields exactly one short comment: the rest of its line,
    with the leading blanks replaced by one space.
   */
  lemma ShortCommentOfLine(a: string, b: string, c: string)
    requires '\n' !in a && !Occurs("//*", a)
    requires '\n' !in b && !Occurs("//*", b)
    ensures ShortBodies(Split(a + "//*" + b + "\n" + c, ShortDelims), false)
         == [" " + b[RunEnd(b, 0, HorizontalSpace)..]] + ShortBodies(Split(c, ShortDelims), false)
  {
    SplitOfLine(a, b, c);
    AbsentNotEqual("//*", a);
    AbsentNotEqual("//*", b);
    assert a != "\n" && b != "\n" by { assert "\n"[0] == '\n'; }
    ShortBodiesOfLine(a, b, Split(c, ShortDelims));
    var w := RunEnd(b, 0, HorizontalSpace);
    assert '\n' !in b[w..];
    LineTrimNoNewline(b[w..]);
  }

  lemma AbsentNotEqual(pat: string, s: string)
    requires !Occurs(pat, s)
    ensures s != pat
  {
    assert s[0..] == s;
  }

  lemma SplitOfLine(a: string, b: string, c: string)
    requires '\n' !in a && !Occurs("//*", a)
    requires '\n' !in b && !Occurs("//*", b)
    ensures Split(a + "//*" + b + "\n" + c, ShortDelims) == [a, "//*", b, "\n"] + Split(c, ShortDelims)
  {
    var s2 := b + "\n" + c;
    assert a + "//*" + b + "\n" + c == a + ("//*" + s2);
    SplitAtShortOpen(a, s2);
    SplitAfterText(b, c);
  }

  lemma SplitAtShortOpen(a: string, s2: string)
    requires '\n' !in a && !Occurs("//*", a)
    ensures Split(a + ("//*" + s2), ShortDelims) == [a, "//*"] + Split(s2, ShortDelims)
  {
    var rest := "//*" + s2;
    var s := a + rest;
    assert rest[..2] == "//";
    NoShortDelimIn(a, rest);
    assert s[|a|..] == rest;
    ShortOpenFirst(s2);
    SplitAt(s, |a|, "//*", ShortDelims);
    assert s[..|a|] == a && s[|a| + 3..] == s2;
  }

  lemma ShortOpenFirst(s2: string)
    ensures FirstDelim("//*" + s2, ShortDelims) == Some("//*")
  {
    assert "//*" <= "//*" + s2;
  }

  lemma SplitAfterText(b: string, c: string)
    requires '\n' !in b && !Occurs("//*", b)
    ensures Split(b + "\n" + c, ShortDelims) == [b, "\n"] + Split(c, ShortDelims)
  {
    var s2 := b + ("\n" + c);
    assert s2 == b + "\n" + c;
    NoShortDelimIn(b, "\n" + c);
    assert s2[|b|..] == "\n" + c;
    assert FirstDelim(s2[|b|..], ShortDelims) == Some("\n");
    SplitAt(s2, |b|, "\n", ShortDelims);
    assert s2[..|b|] == b && s2[|b| + 1..] == c;
  }

  lemma LongBodiesOfBlock(b: string, tc: seq<string>)
    requires b != "/**" && b != "*/"
    ensures LongBodies(["", "/**", b, "*/"] + tc, false) == [Reflow(b)] + LongBodies(tc, false)
  {
    var r := ["", "/**", b, "*/"] + tc;
    assert r[1..] == ["/**", b, "*/"] + tc;
    assert r[2..] == [b, "*/"] + tc;
    assert r[3..] == ["*/"] + tc;
    assert r[4..] == tc;
    assert LongBodies(r[3..], true) == LongBodies(tc, false);
    assert LongBodies(r[2..], true) == [Reflow(b)] + LongBodies(r[3..], true);
    assert LongBodies(r[1..], false) == LongBodies(r[2..], true);
    assert LongBodies(r, false) == [] + LongBodies(r[1..], false);
  }

  /** A long documentation comment yields exactly one long comment: its reflowed body. */
  lemma LongCommentOfBlock(b: string, c: string)
    requires NoDelimBefore(b + "*/" + c, |b|, LongDelims)
    ensures LongBodies(Split("/**" + b + "*/" + c, LongDelims), false)
         == [Reflow(b)] + LongBodies(Split(c, LongDelims), false)
  {
    SplitOfBlock(b, c);
    var s2 := b + "*/" + c;
    if |b| > 0 {
      assert FirstDelim(s2[0..], LongDelims).None?;
      assert s2[0..] == s2;
      assert b != "/**" && b != "*/";
    }
    LongBodiesOfBlock(b, Split(c, LongDelims));
  }

  lemma SplitOfBlock(b: string, c: string)
    requires NoDelimBefore(b + "*/" + c, |b|, LongDelims)
    ensures Split("/**" + b + "*/" + c, LongDelims) == ["", "/**", b, "*/"] + Split(c, LongDelims)
  {
    var s2 := b + "*/" + c;
    var s := "/**" + s2;
    assert s == "/**" + b + "*/" + c;
    assert FirstDelim(s, LongDelims) == Some("/**");
    assert s[3..] == s2;
    assert Split(s, LongDelims) == ["", "/**"] + Split(s2, LongDelims);
    SplitAfterBody(b, c);
  }

  lemma SplitAfterBody(b: string, c: string)
    requires NoDelimBefore(b + "*/" + c, |b|, LongDelims)
    ensures Split(b + "*/" + c, LongDelims) == [b, "*/"] + Split(c, LongDelims)
  {
    var s2 := b + "*/" + c;
    assert s2[|b|..] == "*/" + c;
    assert s2[|b|..][0] == '*';
    assert FirstDelim(s2[|b|..], LongDelims) == Some("*/");
    SplitAt(s2, |b|, "*/", LongDelims);
    assert s2[..|b|] == b && s2[|b| + 2..] == c;
  }
}
