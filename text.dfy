/** The optional-value wrapper used throughout the model. */
module Opt {
  datatype Option<+T> = None | Some(value: T)
}

/**
  Character classes of Python's `re` module as the header patterns use them,
  restricted to ASCII, plus the part of `re.split` that the comment handling
  relies on (splitting on a list of literal delimiters, keeping them).
 */
module Text {
  import opened Opt

  predicate IsDigit(c: char) { '0' <= c <= '9' }

  /** `\w` on ASCII text. */
  predicate IsWord(c: char) { 'a' <= c <= 'z' || 'A' <= c <= 'Z' || IsDigit(c) || c == '_' }

  /** `\s` on ASCII text: Python's str patterns also count the separators 0x1C-0x1F. */
  predicate IsSpace(c: char) { c == ' ' || '\t' <= c <= '\r' || '\U{1C}' <= c <= '\U{1F}' }

  /** The class `[ \t\r\f\v]` used to trim short comments. */
  predicate IsHorizontalSpace(c: char) { c == ' ' || c == '\t' || c == '\r' || c == '\U{0C}' || c == '\U{0B}' }

  /** The class `[\w\-\+\*\/\%\$\(\)]` allowed in widths and parameter values. */
  predicate IsExprChar(c: char) { IsWord(c) || c in "-+*/%$()" }

  datatype Class = Space | HorizontalSpace | Word | NonDigit | ExprChar | NotNewline

  predicate InClass(c: char, cls: Class)
  {
    match cls
    case Space => IsSpace(c)
    case HorizontalSpace => IsHorizontalSpace(c)
    case Word => IsWord(c)
    case NonDigit => !IsDigit(c)
    case ExprChar => IsExprChar(c)
    case NotNewline => c != '\n'
  }

  /** End of the longest run of `cls` characters starting at `i` (what a greedy `cls*` consumes). */
  function RunEnd(s: string, i: nat, cls: Class): (j: nat)
    requires i <= |s|
    ensures i <= j <= |s|
    ensures forall k :: i <= k < j ==> InClass(s[k], cls)
    ensures j == |s| || !InClass(s[j], cls)
    decreases |s| - i
  {
    if i < |s| && InClass(s[i], cls) then RunEnd(s, i + 1, cls) else i
  }

  /** `s` with its leading `\s*` removed. */
  function SkipSpace(s: string): string
  {
    s[RunEnd(s, 0, Space)..]
  }

  /** The first delimiter, in listed order, that `s` starts with (the alternation order of the split pattern). */
  function FirstDelim(s: string, delims: seq<string>): (r: Option<string>)
    ensures r.Some? ==> r.value in delims && r.value <= s
    ensures r.None? ==> forall d :: d in delims ==> !(d <= s)
  {
    if |delims| == 0 then None
    else if delims[0] <= s then Some(delims[0])
    else
      assert forall d :: d in delims ==> d == delims[0] || d in delims[1..];
      FirstDelim(s, delims[1..])
  }

  predicate NonEmptyDelims(delims: seq<string>)
  {
    forall d :: d in delims ==> |d| > 0
  }

  /**
    `re.split('(d1|d2|...)', s)`: the text pieces at even indices and the
    delimiters found at odd indices, scanning left to right.
   */
  function Split(s: string, delims: seq<string>): (r: seq<string>)
    requires NonEmptyDelims(delims)
    ensures |r| % 2 == 1
    decreases |s|
  {
    if |s| == 0 then [""]
    else match FirstDelim(s, delims)
      case Some(d) => ["", d] + Split(s[|d|..], delims)
      case None =>
        var t := Split(s[1..], delims);
        [[s[0]] + t[0]] + t[1..]
  }

  function Concat(pieces: seq<string>): string
  {
    if |pieces| == 0 then "" else pieces[0] + Concat(pieces[1..])
  }

  /** Joining the pieces of a split gives back the text: nothing is lost or duplicated. */
  lemma {:induction false} SplitConcat(s: string, delims: seq<string>)
    requires NonEmptyDelims(delims)
    ensures Concat(Split(s, delims)) == s
    decreases |s|
  {
    if |s| > 0 {
      match FirstDelim(s, delims)
      case Some(d) =>
        SplitConcat(s[|d|..], delims);
        assert s == d + s[|d|..];
      case None =>
        var t := Split(s[1..], delims);
        SplitConcat(s[1..], delims);
        assert Concat(t) == t[0] + Concat(t[1..]);
        assert Concat([[s[0]] + t[0]] + t[1..]) == [s[0]] + t[0] + Concat(t[1..]);
        assert s == [s[0]] + s[1..];
    }
  }

  /** Piece `j` of a split: a delimiter at odd `j`; at even `j` a text that is no delimiter and holds no one-character delimiter. */
  predicate PieceOk(r: seq<string>, j: nat, delims: seq<string>)
    requires j < |r|
  {
    if j % 2 == 1 then r[j] in delims
    else r[j] !in delims && forall c :: [c] in delims ==> c !in r[j]
  }

  /** Every odd piece of a split is a delimiter and every even piece is plain text. */
  lemma {:induction false} SplitPieces(s: string, delims: seq<string>)
    requires NonEmptyDelims(delims)
    ensures forall j :: 0 <= j < |Split(s, delims)| ==> PieceOk(Split(s, delims), j, delims)
    decreases |s|
  {
    if |s| > 0 {
      match FirstDelim(s, delims)
      case Some(d) =>
        SplitPieces(s[|d|..], delims);
        var t := Split(s[|d|..], delims);
        var r := ["", d] + t;
        assert Split(s, delims) == r;
        forall j | 0 <= j < |r| ensures PieceOk(r, j, delims) {
          if j >= 2 {
            assert PieceOk(t, j - 2, delims);
            assert r[j] == t[j - 2];
            assert j % 2 == (j - 2) % 2;
          }
        }
      case None =>
        SplitPieces(s[1..], delims);
        SplitHead(s[1..], delims);
        var t := Split(s[1..], delims);
        var p := [s[0]] + t[0];
        var r := [p] + t[1..];
        assert p <= s;
        assert Split(s, delims) == r;
        forall j | 0 <= j < |r| ensures PieceOk(r, j, delims) {
          if j == 0 {
            forall c | [c] in delims ensures c !in p {
              assert !([c] <= s);
              assert PieceOk(t, 0, delims);
            }
          } else {
            assert PieceOk(t, j, delims);
          }
        }
    }
  }

  /** The first text piece is a prefix of the text, and it is empty when the text starts with a delimiter. */
  lemma {:induction false} SplitHead(s: string, delims: seq<string>)
    requires NonEmptyDelims(delims)
    ensures Split(s, delims)[0] <= s
    ensures FirstDelim(s, delims).Some? ==> Split(s, delims)[0] == ""
    decreases |s|
  {
    if |s| > 0 && FirstDelim(s, delims).None? {
      SplitHead(s[1..], delims);
    }
  }

  /** No delimiter starts at any of the first `n` positions of `s`. */
  predicate NoDelimBefore(s: string, n: nat, delims: seq<string>)
    requires n <= |s|
  {
    forall k :: 0 <= k < n ==> FirstDelim(s[k..], delims).None?
  }

  /** A stretch with no delimiter in it joins the first text piece of what follows. */
  lemma {:induction false} SplitPrefix(s: string, n: nat, delims: seq<string>)
    requires NonEmptyDelims(delims)
    requires n <= |s| && NoDelimBefore(s, n, delims)
    ensures var t := Split(s[n..], delims);
      Split(s, delims) == [s[..n] + t[0]] + t[1..]
    decreases n
  {
    var t := Split(s[n..], delims);
    if n > 0 {
      NoDelimBeforeTail(s, n, delims);
      SplitPrefix(s[1..], n - 1, delims);
      assert s[1..][n - 1..] == s[n..];
      var u := Split(s[1..], delims);
      SplitPlainStep(s, delims);
      assert [s[0]] + (s[1..][..n - 1] + t[0]) == s[..n] + t[0];
    } else {
      assert s[0..] == s && s[..0] == "";
      assert t == Split(s, delims);
      assert s[..0] + t[0] == t[0];
      assert t == [t[0]] + t[1..];
    }
  }

  lemma NoDelimBeforeTail(s: string, n: nat, delims: seq<string>)
    requires 0 < n <= |s| && NoDelimBefore(s, n, delims)
    ensures FirstDelim(s, delims).None?
    ensures NoDelimBefore(s[1..], n - 1, delims)
  {
    assert s[0..] == s;
    forall k | 0 <= k < n - 1 ensures FirstDelim(s[1..][k..], delims).None? {
      assert s[1..][k..] == s[k + 1..];
    }
  }

  /** A text that starts with no delimiter puts its first character in front of the first piece of the rest. */
  lemma SplitPlainStep(s: string, delims: seq<string>)
    requires NonEmptyDelims(delims)
    requires |s| > 0 && FirstDelim(s, delims).None?
    ensures var u := Split(s[1..], delims);
      Split(s, delims) == [[s[0]] + u[0]] + u[1..]
  {
  }

  /** The first delimiter found, after a stretch free of delimiters, closes the first text piece. */
  lemma SplitAt(s: string, n: nat, d: string, delims: seq<string>)
    requires NonEmptyDelims(delims)
    requires n <= |s| && NoDelimBefore(s, n, delims)
    requires FirstDelim(s[n..], delims) == Some(d)
    ensures n + |d| <= |s|
    ensures Split(s, delims) == [s[..n], d] + Split(s[n + |d|..], delims)
  {
    SplitPrefix(s, n, delims);
    var u := s[n..];
    var t := Split(u, delims);
    assert Split(s, delims) == [s[..n] + t[0]] + t[1..];
    assert |d| > 0 && d <= u;
    assert t == ["", d] + Split(u[|d|..], delims);
    assert u[|d|..] == s[n + |d|..];
    assert s[..n] + "" == s[..n];
  }
}
