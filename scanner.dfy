/**
  The table-driven header scanner (`tokenize_and_parse`): token kinds, the
  table of permitted successors, the field names each kind binds, one
  matcher per kind, and the loop that accepts, from the current state, the
  first permitted kind whose pattern matches the remaining text.
 */
module Scanner {
  import opened Opt
  import opened Text
  import Regex

  datatype Kind =
    | ModuleKeyword
    | ModuleName
    | ParameterListStart
    | ParameterListComma
    | ParameterDecl
    | PortListStart
    | PortListComma
    | PortDecl
    | PortDeclIntf
    | ListStop
    | DeclEnd

  /** The scanner state: the start, or the kind of the last token accepted. */
  datatype State = Root | After(kind: Kind)

  /** The permitted successors of each state, in the order they are tried. */
  function Follows(st: State): seq<Kind>
  {
    match st
    case Root => [ModuleKeyword]
    case After(ModuleKeyword) => [ModuleName]
    case After(ModuleName) => [ParameterListStart, PortListStart]
    case After(ParameterListStart) => [ParameterDecl]
    case After(ParameterListComma) => [ParameterDecl]
    case After(ParameterDecl) => [ParameterListComma, ListStop]
    case After(PortListStart) => [PortDeclIntf, PortDecl]
    case After(PortListComma) => [PortDeclIntf, PortDecl]
    case After(PortDecl) => [PortListComma, ListStop]
    case After(PortDeclIntf) => [PortListComma, ListStop]
    case After(ListStop) => [DeclEnd, PortListStart]
    case After(DeclEnd) => []
  }

  /** The keys a token binds its captured groups under (`name`, `type`, `sign`, ...). */
  datatype FieldName =
    | DirectionField | TypeField | SignField
    | Packed0 | Packed1 | Packed2 | Packed3
    | NameField | ValueField | UnpackedField | InterfaceField | ModportField

  /** The names bound to the capture groups of each kind, in group order. */
  function FieldNames(k: Kind): seq<FieldName>
  {
    match k
    case ModuleName => [NameField]
    case ParameterDecl => [TypeField, SignField, NameField, ValueField]
    case PortDecl => [DirectionField, TypeField, SignField, Packed0, Packed1, Packed2, Packed3, NameField, UnpackedField]
    case PortDeclIntf => [InterfaceField, ModportField, NameField, UnpackedField]
    case _ => []
  }

  /** Fields whose group lies outside every optional part of the pattern, so a match always binds them. */
  function Required(k: Kind): set<nat>
  {
    match k
    case ModuleName => {0}
    case ParameterDecl => {2, 3}
    case PortDecl => {7}
    case PortDeclIntf => {0, 1, 2}
    case _ => {}
  }

  /** A token: its kind and the captured groups, `None` for a group that did not take part. */
  datatype Token = Token(kind: Kind, fields: seq<Option<string>>)

  predicate WellFormed(t: Token)
  {
    |t.fields| == |FieldNames(t.kind)| && forall i :: i in Required(t.kind) ==> i < |t.fields| && t.fields[i].Some?
  }

  /** The position of the group bound under `name` in a token of kind `k`, if the kind has that field. */
  function Slot(k: Kind, name: FieldName): Option<nat>
  {
    match k
    case ModuleName => if name == NameField then Some(0) else None
    case ParameterDecl =>
      (match name
       case TypeField => Some(0)
       case SignField => Some(1)
       case NameField => Some(2)
       case ValueField => Some(3)
       case _ => None)
    case PortDecl =>
      (match name
       case DirectionField => Some(0)
       case TypeField => Some(1)
       case SignField => Some(2)
       case Packed0 => Some(3)
       case Packed1 => Some(4)
       case Packed2 => Some(5)
       case Packed3 => Some(6)
       case NameField => Some(7)
       case UnpackedField => Some(8)
       case _ => None)
    case PortDeclIntf =>
      (match name
       case InterfaceField => Some(0)
       case ModportField => Some(1)
       case NameField => Some(2)
       case UnpackedField => Some(3)
       case _ => None)
    case _ => None
  }

  /** `Slot` agrees with the field-name table: a kind has a slot for exactly the names it lists, at their listed positions. */
  lemma SlotsMatchNames(k: Kind, name: FieldName)
    ensures Slot(k, name).Some? <==> name in FieldNames(k)
    ensures Slot(k, name).Some? ==> Slot(k, name).value < |FieldNames(k)| && FieldNames(k)[Slot(k, name).value] == name
  {
  }

  /** `token[name]`: the field bound under that name. */
  function Field(t: Token, name: FieldName): Option<string>
    requires WellFormed(t) && Slot(t.kind, name).Some?
  {
    SlotsMatchNames(t.kind, name);
    t.fields[Slot(t.kind, name).value]
  }

  // ---------------------------------------------------------------------
  // Matchers
  // ---------------------------------------------------------------------

  /** The text left after a match: a suffix strictly shorter than the text matched against. */
  predicate Consumed(code: string, rest: string)
  {
    |rest| < |code| && rest == code[|code| - |rest|..]
  }

  lemma SkipSpaceSuffix(code: string, n: nat)
    requires 0 < n <= |code|
    ensures Consumed(code, SkipSpace(code[n..]))
  {
    var w := RunEnd(code[n..], 0, Space);
    assert SkipSpace(code[n..]) == code[n + w..];
  }

  /** A fixed punctuation mark followed by `\s*`, at the start of the text. */
  function Punct(mark: string, code: string): (r: Option<(seq<Option<string>>, string)>)
    requires |mark| > 0
    ensures r.Some? <==> mark <= code
    ensures r.Some? ==> r.value.0 == [] && Consumed(code, r.value.1)
  {
    if mark <= code then
      SkipSpaceSuffix(code, |mark|);
      Some(([], SkipSpace(code[|mark|..])))
    else None
  }

  /** `\A(\D\w*)\s*`: any non-digit (a space or a bracket included), then word characters. */
  function Name(code: string): (r: Option<(seq<Option<string>>, string)>)
    ensures r.Some? <==> |code| > 0 && !IsDigit(code[0])
    ensures r.Some? ==> |r.value.0| == 1 && r.value.0[0].Some? && Consumed(code, r.value.1)
    ensures r.Some? ==> var n := r.value.0[0].value;
      n <= code && (forall k :: 1 <= k < |n| ==> IsWord(n[k])) && (|n| < |code| ==> !IsWord(code[|n|]))
  {
    if |code| > 0 && !IsDigit(code[0]) then
      var e := RunEnd(code, 1, Word);
      SkipSpaceSuffix(code, e);
      Some(([Some(code[..e])], SkipSpace(code[e..])))
    else None
  }

  /** After a punctuation mark the scan goes on past the whitespace run that follows the mark. */
  lemma PunctRest(mark: string, code: string)
    requires |mark| > 0 && mark <= code
    ensures Punct(mark, code).Some? && Punct(mark, code).value.1 == SkipSpace(code[|mark|..])
  {
  }

  /** After a module name the scan goes on past the whitespace run that follows the name. */
  lemma NameRest(code: string)
    requires |code| > 0 && !IsDigit(code[0])
    ensures Name(code).Some? && Name(code).value.0[0].Some?
    ensures Name(code).value.1 == SkipSpace(code[|Name(code).value.0[0].value|..])
  {
  }

  /** "module" starts at offset `q`. */
  predicate KeywordAt(s: string, q: nat)
  {
    q <= |s| && "module" <= s[q..]
  }

  /** No newline lies between offsets `i` and `j`. */
  predicate SameLine(s: string, i: nat, j: nat)
  {
    forall k :: i <= k < j && k < |s| ==> s[k] != '\n'
  }

  /**
    Scan for `.*module`: `best` is the last "module" seen on the current line;
    the scan stops at the end of the first line that has one.
   */
  function KeywordScan(s: string, i: nat, best: Option<nat>): Option<nat>
    requires i <= |s|
    decreases |s| - i
  {
    if i == |s| then best
    else if s[i] == '\n' && best.Some? then best
    else KeywordScan(s, i + 1, if "module" <= s[i..] then Some(i) else best)
  }

  /** What the keyword scan has established before offset `i`. */
  predicate KeywordScanned(s: string, i: nat, best: Option<nat>)
  {
    match best
    case None => forall q :: 0 <= q < i ==> !KeywordAt(s, q)
    case Some(b) =>
      b < i && KeywordAt(s, b) && SameLine(s, b, i)
      && (forall q :: b < q < i ==> !KeywordAt(s, q))
      && (forall q :: 0 <= q < b && KeywordAt(s, q) ==> SameLine(s, q, b))
  }

  lemma {:induction false} KeywordScanSound(s: string, i: nat, best: Option<nat>)
    requires i <= |s| && KeywordScanned(s, i, best)
    ensures KeywordScan(s, i, best).None? ==> forall q :: 0 <= q < |s| ==> !KeywordAt(s, q)
    ensures KeywordScan(s, i, best).Some? ==>
      var p := KeywordScan(s, i, best).value;
      && KeywordAt(s, p)
      && (forall q :: 0 <= q < p && KeywordAt(s, q) ==> SameLine(s, q, p))
      && (forall q :: p < q < |s| && KeywordAt(s, q) ==> !SameLine(s, p, q))
    decreases |s| - i
  {
    if i == |s| {
    } else if s[i] == '\n' && best.Some? {
      KeywordLineEnd(s, i, best.value);
    } else {
      var best' := if "module" <= s[i..] then Some(i) else best;
      KeywordAdvance(s, i, best);
      KeywordScanSound(s, i + 1, best');
    }
  }

  /** At the end of a line that holds a keyword, no later keyword shares that line. */
  lemma KeywordLineEnd(s: string, i: nat, b: nat)
    requires i < |s| && s[i] == '\n' && KeywordScanned(s, i, Some(b))
    ensures forall q :: b < q < |s| && KeywordAt(s, q) ==> !SameLine(s, b, q)
  {
    forall q | b < q < |s| && KeywordAt(s, q) ensures !SameLine(s, b, q) {
      if q > i {
        assert s[i] == '\n';
      }
    }
  }

  /** One character further: the scan's record of keywords still holds. */
  lemma KeywordAdvance(s: string, i: nat, best: Option<nat>)
    requires i < |s| && KeywordScanned(s, i, best)
    requires s[i] != '\n' || best.None?
    ensures KeywordScanned(s, i + 1, if "module" <= s[i..] then Some(i) else best)
  {
    if "module" <= s[i..] {
      assert KeywordAt(s, i);
      if best.Some? {
        forall q | 0 <= q < i && KeywordAt(s, q) ensures SameLine(s, q, i) {
          if q < best.value {
            assert SameLine(s, q, best.value);
          }
        }
      }
    } else {
      assert !KeywordAt(s, i);
      if best.Some? {
        assert SameLine(s, best.value, i + 1);
      }
    }
  }

  /**
    `.*module\s*`, searched anywhere: the match starts at the first line that
    contains "module", and the greedy `.*` makes it end after the last
    "module" on that line; the text before it is discarded.
   */
  function Keyword(code: string): (r: Option<(seq<Option<string>>, string)>)
    ensures r.Some? ==> r.value.0 == [] && Consumed(code, r.value.1)
  {
    match KeywordScan(code, 0, None)
    case None => None
    case Some(p) =>
      assert KeywordAt(code, p) by { KeywordScanSound(code, 0, None); }
      SkipSpaceSuffix(code, p + 6);
      Some(([], SkipSpace(code[p + 6..])))
  }

  /** The keyword match cuts after the last "module" of the first line holding one, and fails only when there is none. */
  lemma KeywordChoice(code: string)
    ensures Keyword(code).None? <==> forall q :: 0 <= q < |code| ==> !KeywordAt(code, q)
    ensures Keyword(code).Some? ==> exists p: nat ::
      && KeywordAt(code, p)
      && Keyword(code).value.1 == SkipSpace(code[p + 6..])
      && (forall q :: 0 <= q < p && KeywordAt(code, q) ==> SameLine(code, q, p))
      && (forall q :: p < q < |code| && KeywordAt(code, q) ==> !SameLine(code, p, q))
  {
    KeywordScanSound(code, 0, None);
  }

  /** The parameter declaration pattern: type, sign, name and value groups. */
  function ParameterMatch(code: string): (r: Option<(seq<Option<string>>, string)>)
    ensures r.Some? ==> |r.value.0| == 4 && r.value.0[2].Some? && r.value.0[3].Some? && Consumed(code, r.value.1)
  {
    Regex.ParameterDeclFacts();
    Regex.Match(code, Regex.ParameterDecl, 4)
  }

  /** The port declaration pattern: direction, type, sign, four packed dimensions, name, unpacked dimension. */
  function PortMatch(code: string): (r: Option<(seq<Option<string>>, string)>)
    ensures r.Some? ==> |r.value.0| == 9 && r.value.0[7].Some? && Consumed(code, r.value.1)
  {
    Regex.PortDeclFacts();
    Regex.Match(code, Regex.PortDecl, 9)
  }

  /** The interface port pattern: interface, modport, name and unpacked dimension. */
  function InterfacePortMatch(code: string): (r: Option<(seq<Option<string>>, string)>)
    ensures r.Some? ==> |r.value.0| == 4 && Consumed(code, r.value.1)
    ensures r.Some? ==> r.value.0[0].Some? && r.value.0[1].Some? && r.value.0[2].Some?
  {
    Regex.PortDeclIntfFacts();
    Regex.Match(code, Regex.PortDeclIntf, 4)
  }

  /** The pattern of each kind applied to the start of the remaining text: the groups and the unmatched suffix. */
  function MatchKind(k: Kind, code: string): (r: Option<(seq<Option<string>>, string)>)
    ensures r.Some? ==> Consumed(code, r.value.1)
  {
    match k
    case ModuleKeyword => Keyword(code)
    case ModuleName => Name(code)
    case ParameterListStart => Punct("#(", code)
    case ParameterListComma => Punct(",", code)
    case ParameterDecl => ParameterMatch(code)
    case PortListStart => Punct("(", code)
    case PortListComma => Punct(",", code)
    case PortDecl => PortMatch(code)
    case PortDeclIntf => InterfacePortMatch(code)
    case ListStop => Punct(")", code)
    case DeclEnd => Punct(";", code)
  }

  /** A match binds one group per field name of its kind, and every mandatory group takes part. */
  lemma MatchKindFields(k: Kind, code: string)
    ensures MatchKind(k, code).Some? ==> WellFormed(Token(k, MatchKind(k, code).value.0))
  {
    match k
    case ModuleName =>
    case ParameterDecl =>
    case PortDecl =>
    case PortDeclIntf =>
    case _ =>
  }

  // ---------------------------------------------------------------------
  // The scanner
  // ---------------------------------------------------------------------

  /** The first of `kinds`, from position `from` on, whose pattern matches; `|kinds|` when none does. */
  function FirstMatchIndex(kinds: seq<Kind>, code: string, from: nat): (j: nat)
    requires from <= |kinds|
    ensures from <= j <= |kinds|
    ensures forall i :: from <= i < j ==> MatchKind(kinds[i], code).None?
    ensures j < |kinds| ==> MatchKind(kinds[j], code).Some?
    decreases |kinds| - from
  {
    if from == |kinds| || MatchKind(kinds[from], code).Some? then from
    else FirstMatchIndex(kinds, code, from + 1)
  }

  /** One scanner step: the token accepted in state `st` and the text left after it. */
  function Step(st: State, code: string): Option<(Token, string)>
  {
    var ks := Follows(st);
    var j := FirstMatchIndex(ks, code, 0);
    if j == |ks| then None
    else
      var m := MatchKind(ks[j], code).value;
      Some((Token(ks[j], m.0), m.1))
  }

  /** The whole scan from state `st`: the tokens up to and including the first declaration end, or None when a step fails. */
  function Scan(code: string, st: State): Option<seq<Token>>
    decreases |code|
  {
    match Step(st, code)
    case None => None
    case Some((t, rest)) =>
      if t.kind == DeclEnd then Some([t])
      else match Scan(rest, After(t.kind))
        case None => None
        case Some(ts) => Some([t] + ts)
  }

  function Prepend(ts: seq<Token>, r: Option<seq<Token>>): Option<seq<Token>>
  {
    match r
    case None => None
    case Some(us) => Some(ts + us)
  }

  /** A step accepts the first permitted kind whose pattern matches, and fails only when none matches. */
  lemma StepFirstMatch(st: State, code: string)
    ensures Step(st, code).None? <==> forall i :: 0 <= i < |Follows(st)| ==> MatchKind(Follows(st)[i], code).None?
    ensures Step(st, code).Some? ==> exists j ::
      && 0 <= j < |Follows(st)|
      && Step(st, code).value.0.kind == Follows(st)[j]
      && MatchKind(Follows(st)[j], code) == Some((Step(st, code).value.0.fields, Step(st, code).value.1))
      && forall i :: 0 <= i < j ==> MatchKind(Follows(st)[i], code).None?
  {
    var ks := Follows(st);
    var j := FirstMatchIndex(ks, code, 0);
    if j < |ks| {
      assert Step(st, code).value.0.kind == ks[j];
    }
  }

  lemma FirstMatchIndexIs(kinds: seq<Kind>, code: string, j: nat)
    requires j <= |kinds|
    requires forall i :: 0 <= i < j ==> MatchKind(kinds[i], code).None?
    requires j < |kinds| ==> MatchKind(kinds[j], code).Some?
    ensures FirstMatchIndex(kinds, code, 0) == j
  {
  }

  /** A scan is its first step followed by the scan of the rest. */
  lemma ScanUnfold(st: State, code: string)
    ensures Step(st, code).None? ==> Scan(code, st).None?
    ensures Step(st, code).Some? ==>
      var (t, rest) := Step(st, code).value;
      Scan(code, st) == if t.kind == DeclEnd then Some([t]) else Prepend([t], Scan(rest, After(t.kind)))
  {
  }

  /** The step taken when the kind at position `i` is the first to match. */
  lemma StepAt(st: State, code: string, i: nat)
    requires i <= |Follows(st)|
    requires forall j :: 0 <= j < i ==> MatchKind(Follows(st)[j], code).None?
    requires i < |Follows(st)| ==> MatchKind(Follows(st)[i], code).Some?
    ensures i == |Follows(st)| ==> Step(st, code).None?
    ensures i < |Follows(st)| ==>
      var m := MatchKind(Follows(st)[i], code).value;
      Step(st, code) == Some((Token(Follows(st)[i], m.0), m.1))
  {
    FirstMatchIndexIs(Follows(st), code, i);
  }

  lemma PrependNil(r: Option<seq<Token>>)
    ensures Prepend([], r) == r
  {
    if r.Some? {
      assert [] + r.value == r.value;
    }
  }

  lemma PrependAssoc(ts: seq<Token>, us: seq<Token>, r: Option<seq<Token>>)
    ensures Prepend(ts, Prepend(us, r)) == Prepend(ts + us, r)
  {
    if r.Some? {
      assert ts + (us + r.value) == (ts + us) + r.value;
    }
  }

  /** The inner loop of `tokenize_and_parse`: try the permitted kinds in order and stop at the first that matches. */
  method TryFollows(follows: seq<Kind>, code: string) returns (i: nat, split: Option<(seq<Option<string>>, string)>)
    ensures i <= |follows|
    ensures forall j :: 0 <= j < i ==> MatchKind(follows[j], code).None?
    ensures i < |follows| ==> split == MatchKind(follows[i], code) && split.Some?
    ensures i == |follows| ==> split.None?
  {
    i := 0;
    split := None;
    while i < |follows|
      invariant 0 <= i <= |follows|
      invariant forall j :: 0 <= j < i ==> MatchKind(follows[j], code).None?
      invariant split.None?
    {
      split := MatchKind(follows[i], code);
      if split.Some? {
        return;
      }
      i := i + 1;
    }
  }

  /** `tokenize_and_parse`: the loop over states, trying the permitted kinds in order. */
  method TokenizeAndParse(code0: string) returns (result: Option<seq<Token>>)
    ensures result == Scan(code0, Root)
  {
    var tokens: seq<Token> := [];
    var code := code0;
    var curr := Root;
    PrependNil(Scan(code, curr));
    while true
      invariant Scan(code0, Root) == Prepend(tokens, Scan(code, curr))
      decreases |code|
    {
      var follows := Follows(curr);
      var i, split := TryFollows(follows, code);
      StepAt(curr, code, i);
      ScanUnfold(curr, code);
      if i == |follows| {
        return None;
      }
      var next := follows[i];
      var token := Token(next, split.value.0);
      var rest := split.value.1;
      assert Step(curr, code) == Some((token, rest));
      PrependAssoc(tokens, [token], Scan(rest, After(next)));
      code := rest;
      tokens := tokens + [token];
      curr := After(next);
      if next == DeclEnd {
        return Some(tokens);
      }
    }
  }

  // ---------------------------------------------------------------------
  // Properties of a scan
  // ---------------------------------------------------------------------

  /** Each token follows its predecessor in the successor table, and the first follows the starting state. */
  predicate IsPath(ts: seq<Token>, st: State)
  {
    && (|ts| > 0 ==> ts[0].kind in Follows(st))
    && forall i :: 0 <= i < |ts| - 1 ==> ts[i + 1].kind in Follows(After(ts[i].kind))
  }

  /**
    A successful scan is a path through the successor table, every token
    binds its mandatory fields, it ends with the first declaration end, and
    no declaration end comes before it.
   */
  lemma {:induction false} ScanShape(code: string, st: State)
    requires Scan(code, st).Some?
    ensures var ts := Scan(code, st).value;
      && |ts| > 0
      && IsPath(ts, st)
      && (forall i :: 0 <= i < |ts| ==> WellFormed(ts[i]))
      && ts[|ts| - 1].kind == DeclEnd
      && forall i :: 0 <= i < |ts| - 1 ==> ts[i].kind != DeclEnd
    decreases |code|
  {
    var (t, rest) := Step(st, code).value;
    StepShape(st, code);
    if t.kind != DeclEnd {
      ScanShape(rest, After(t.kind));
      ConsShape(t, Scan(rest, After(t.kind)).value, st);
    }
  }

  /** The token of a step is permitted in its state and binds its mandatory fields. */
  lemma StepShape(st: State, code: string)
    requires Step(st, code).Some?
    ensures Step(st, code).value.0.kind in Follows(st)
    ensures WellFormed(Step(st, code).value.0)
  {
    var ks := Follows(st);
    var j := FirstMatchIndex(ks, code, 0);
    MatchKindFields(ks[j], code);
  }

  /** A permitted, well-formed token that is no declaration end, in front of a scan of the rest, keeps the scan's shape. */
  lemma ConsShape(t: Token, us: seq<Token>, st: State)
    requires t.kind in Follows(st) && WellFormed(t) && t.kind != DeclEnd
    requires |us| > 0 && IsPath(us, After(t.kind)) && us[|us| - 1].kind == DeclEnd
    requires forall i :: 0 <= i < |us| ==> WellFormed(us[i])
    requires forall i :: 0 <= i < |us| - 1 ==> us[i].kind != DeclEnd
    ensures var ts := [t] + us;
      && IsPath(ts, st)
      && (forall i :: 0 <= i < |ts| ==> WellFormed(ts[i]))
      && ts[|ts| - 1].kind == DeclEnd
      && forall i :: 0 <= i < |ts| - 1 ==> ts[i].kind != DeclEnd
  {
    var ts := [t] + us;
    forall i | 0 <= i < |ts| - 1 ensures ts[i + 1].kind in Follows(After(ts[i].kind)) {
      if i > 0 { assert ts[i] == us[i - 1] && ts[i + 1] == us[i]; }
    }
    forall i | 0 <= i < |ts| ensures WellFormed(ts[i]) {
      if i > 0 { assert ts[i] == us[i - 1]; }
    }
    forall i | 0 <= i < |ts| - 1 ensures ts[i].kind != DeclEnd {
      if i > 0 { assert ts[i] == us[i - 1]; }
    }
  }

  /** Only a module keyword follows the start, and only a module name follows a module keyword. */
  lemma {:induction false} KindsAfterStart(ts: seq<Token>)
    requires IsPath(ts, Root)
    ensures |ts| > 0 ==> ts[0].kind == ModuleKeyword
    ensures |ts| > 1 ==> ts[1].kind == ModuleName
    ensures forall i :: 1 <= i < |ts| ==> ts[i].kind != ModuleKeyword
    ensures forall i :: 2 <= i < |ts| ==> ts[i].kind != ModuleName
  {
    forall i | 1 <= i < |ts| ensures ts[i].kind != ModuleKeyword {
      assert ts[i].kind in Follows(After(ts[i - 1].kind));
    }
    forall i | 2 <= i < |ts| ensures ts[i].kind != ModuleName {
      assert ts[i].kind in Follows(After(ts[i - 1].kind));
      assert ts[i - 1].kind != ModuleKeyword;
    }
    if |ts| > 1 {
      assert ts[1].kind in Follows(After(ts[0].kind));
    }
  }

  /** The shortest kind sequence a path from the start can end with a declaration end through. */
  lemma {:induction false} PathLength(ts: seq<Token>)
    requires IsPath(ts, Root) && |ts| > 0 && ts[|ts| - 1].kind == DeclEnd
    ensures |ts| >= 6
  {
    KindsAfterStart(ts);
    var n := |ts|;
    assert n >= 2;
    assert ts[n - 1].kind in Follows(After(ts[n - 2].kind));
    assert ts[n - 2].kind == ListStop;
    assert n >= 3;
    assert ts[n - 2].kind in Follows(After(ts[n - 3].kind));
    assert ts[n - 3].kind in {ParameterDecl, PortDecl, PortDeclIntf};
    assert n >= 5;
    assert ts[n - 3].kind in Follows(After(ts[n - 4].kind));
    assert ts[n - 4].kind in {ParameterListStart, ParameterListComma, PortListStart, PortListComma};
  }

  /**
    A scan from the start yields the module keyword, then the one module
    name of the header, and at least six tokens in all: a header needs a
    non-empty parameter or port list.
   */
  lemma ScanFromRoot(code: string)
    requires Scan(code, Root).Some?
    ensures var ts := Scan(code, Root).value;
      && |ts| >= 6
      && ts[0].kind == ModuleKeyword && ts[1].kind == ModuleName
      && forall i :: 0 <= i < |ts| && i != 1 ==> ts[i].kind != ModuleName
  {
    ScanShape(code, Root);
    var ts := Scan(code, Root).value;
    KindsAfterStart(ts);
    PathLength(ts);
  }
}
