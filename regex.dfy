/**
  A backtracking matcher for the fragment of Python's `re` syntax used by the
  three declaration patterns of the header scanner: literals, one character
  of a class, greedy runs `c*` / `c+`, greedy optional groups `(...)?`,
  alternation `a|b` and capture groups, matched at the start of the text
  (`\A`). Alternatives are tried in order and runs from longest to shortest,
  which is the order in which Python's engine explores them, so the first
  match found is the one Python reports.
 */
module Regex {
  import opened Opt
  import opened Text

  datatype Item =
    | Lit(text: string)
    | One(cls: Class)
    | Rep(cls: Class, min: nat)
    | Alt(first: seq<Item>, second: seq<Item>)
    | Open(group: nat)
    | Close(group: nat)

  /** Group number to the (start, end) offsets it last captured. */
  type Captures = map<nat, (nat, nat)>

  function Size(it: Item): nat
  {
    match it
    case Rep(_, _) => 2
    case Alt(a, b) => 1 + SizeSeq(a) + SizeSeq(b)
    case _ => 1
  }

  function SizeSeq(items: seq<Item>): nat
  {
    if |items| == 0 then 0 else Size(items[0]) + SizeSeq(items[1..])
  }

  lemma {:induction false} SizeSeqAppend(a: seq<Item>, b: seq<Item>)
    ensures SizeSeq(a + b) == SizeSeq(a) + SizeSeq(b)
  {
    if |a| > 0 {
      assert (a + b)[1..] == a[1..] + b;
      SizeSeqAppend(a[1..], b);
    } else {
      assert a + b == b;
    }
  }

  function Min(x: nat, y: nat): nat { if x <= y then x else y }

  /** The fewest characters any match of the items consumes. */
  function MinLen(items: seq<Item>): nat
  {
    if |items| == 0 then 0
    else
      var head := match items[0]
        case Lit(t) => |t|
        case One(_) => 1
        case Rep(_, m) => m
        case Alt(a, b) => Min(MinLen(a), MinLen(b))
        case _ => 0;
      head + MinLen(items[1..])
  }

  lemma {:induction false} MinLenAppend(a: seq<Item>, b: seq<Item>)
    ensures MinLen(a + b) == MinLen(a) + MinLen(b)
  {
    if |a| > 0 {
      assert (a + b)[1..] == a[1..] + b;
      assert (a + b)[0] == a[0];
      MinLenAppend(a[1..], b);
    } else {
      assert a + b == b;
    }
  }

  /** The groups every match of the items captures: those opened outside any alternative. */
  function TopGroups(items: seq<Item>): set<nat>
  {
    if |items| == 0 then {}
    else (if items[0].Open? then {items[0].group} else {}) + TopGroups(items[1..])
  }

  lemma {:induction false} TopGroupsAppend(a: seq<Item>, b: seq<Item>)
    ensures TopGroups(a + b) == TopGroups(a) + TopGroups(b)
  {
    if |a| > 0 {
      assert (a + b)[1..] == a[1..] + b;
      assert (a + b)[0] == a[0];
      TopGroupsAppend(a[1..], b);
    } else {
      assert a + b == b;
    }
  }

  /** Every recorded group spans a stretch of the text read so far. */
  predicate ValidCaps(caps: Captures, pos: nat)
  {
    forall g :: g in caps ==> caps[g].0 <= caps[g].1 <= pos
  }

  /**
    Match `items` against `s` from `pos`, then succeed with the captures and
    the end offset; on failure of a later item, earlier runs give back
    characters and earlier alternatives move to their next option.
   */
  function MatchSeq(s: string, items: seq<Item>, pos: nat, caps: Captures): (r: Option<(Captures, nat)>)
    requires pos <= |s| && ValidCaps(caps, pos)
    ensures r.Some? ==> pos + MinLen(items) <= r.value.1 <= |s|
    ensures r.Some? ==> ValidCaps(r.value.0, r.value.1)
    ensures r.Some? ==> caps.Keys + TopGroups(items) <= r.value.0.Keys
    decreases SizeSeq(items), 0
  {
    if |items| == 0 then Some((caps, pos))
    else
      var rest := items[1..];
      assert SizeSeq(items) == Size(items[0]) + SizeSeq(rest);
      match items[0]
      case Lit(t) =>
        if t <= s[pos..] then MatchSeq(s, rest, pos + |t|, caps) else None
      case One(cls) =>
        if pos < |s| && InClass(s[pos], cls) then MatchSeq(s, rest, pos + 1, caps) else None
      case Rep(cls, m) =>
        var e := RunEnd(s, pos, cls);
        if e - pos < m then None else Backtrack(s, rest, pos, caps, e - pos, m)
      case Alt(a, b) =>
        SizeSeqAppend(a, rest);
        SizeSeqAppend(b, rest);
        MinLenAppend(a, rest);
        MinLenAppend(b, rest);
        TopGroupsAppend(a, rest);
        TopGroupsAppend(b, rest);
        var r := MatchSeq(s, a + rest, pos, caps);
        if r.Some? then r else MatchSeq(s, b + rest, pos, caps)
      case Open(g) =>
        MatchSeq(s, rest, pos, caps[g := (pos, pos)])
      case Close(g) =>
        MatchSeq(s, rest, pos, if g in caps then caps[g := (caps[g].0, pos)] else caps)
  }

  /** Try the rest of the pattern after a run of `k` characters, then `k - 1`, down to `m`. */
  function Backtrack(s: string, rest: seq<Item>, pos: nat, caps: Captures, k: nat, m: nat): (r: Option<(Captures, nat)>)
    requires pos + k <= |s| && m <= k && ValidCaps(caps, pos)
    ensures r.Some? ==> pos + m + MinLen(rest) <= r.value.1 <= |s|
    ensures r.Some? ==> ValidCaps(r.value.0, r.value.1)
    ensures r.Some? ==> caps.Keys + TopGroups(rest) <= r.value.0.Keys
    decreases SizeSeq(rest) + 1, k
  {
    var r := MatchSeq(s, rest, pos + k, caps);
    if r.Some? then r
    else if k == m then None
    else Backtrack(s, rest, pos, caps, k - 1, m)
  }

  /** The text group `g` captured, if it took part in the match. */
  function Captured(s: string, caps: Captures, g: nat): Option<string>
    requires ValidCaps(caps, |s|)
  {
    if g in caps then Some(s[caps[g].0..caps[g].1]) else None
  }

  /**
    `re.match(pattern, s)` followed by reading groups 1 to `n`: the groups
    (None for a group that did not participate) and the unmatched suffix.
   */
  function Match(s: string, items: seq<Item>, n: nat): (r: Option<(seq<Option<string>>, string)>)
    ensures r.Some? ==> |r.value.0| == n
    ensures r.Some? ==> |r.value.1| + MinLen(items) <= |s| && r.value.1 == s[|s| - |r.value.1|..]
    ensures r.Some? ==> forall g :: 1 <= g <= n && g in TopGroups(items) ==> r.value.0[g - 1].Some?
  {
    match MatchSeq(s, items, 0, map[])
    case None => None
    case Some((caps, end)) =>
      assert ValidCaps(caps, |s|);
      Some((seq(n, i requires 0 <= i < n => Captured(s, caps, i + 1)), s[end..]))
  }

  // ---------------------------------------------------------------------
  // Building blocks of the declaration patterns
  // ---------------------------------------------------------------------

  /** `\s*` */
  const Ws: Item := Rep(Space, 0)

  /** `[\w\-\+\*\/\%\$\(\)]+` */
  const Expr: Item := Rep(ExprChar, 1)

  /** `\[\s*E+\s*\:\s*E+\s*\]` where `E` is the expression class: one packed or unpacked dimension. */
  const Dim: seq<Item> := [Lit("["), Ws, Expr, Ws, Lit(":"), Ws, Expr, Ws, Lit("]")]

  /** `\D\w*` */
  const Ident: seq<Item> := [One(NonDigit), Rep(Word, 0)]

  function Group(g: nat, inner: seq<Item>): seq<Item>
  {
    [Open(g)] + inner + [Close(g)]
  }

  /** `(inner)?`, trying the group first. */
  function Optional(g: nat, inner: seq<Item>): Item
  {
    Alt(Group(g, inner), [])
  }

  /** `w0|w1|...`, tried in the listed order. */
  function OneOf(words: seq<string>): seq<Item>
    requires |words| > 0
  {
    if |words| == 1 then [Lit(words[0])] else [Alt([Lit(words[0])], OneOf(words[1..]))]
  }

  /** `\Aparameter\s*(logic|wire|reg|int|integer)?\s*(signed|unsigned)?(\D\w*)\s*=\s*(E+)\s*` */
  const ParameterDecl: seq<Item> :=
    [Lit("parameter"), Ws,
     Optional(1, OneOf(["logic", "wire", "reg", "int", "integer"])), Ws,
     Optional(2, OneOf(["signed", "unsigned"]))]
    + Group(3, Ident) + [Ws, Lit("="), Ws] + Group(4, [Expr]) + [Ws]

  /** The port pattern: optional direction, type, sign and four packed dimensions, the name, an optional unpacked dimension. */
  const PortDecl: seq<Item> :=
    [Optional(1, OneOf(["input", "output", "inout"])), Ws,
     Optional(2, [Rep(Word, 1)]), Ws,
     Optional(3, OneOf(["signed", "unsigned"])), Ws,
     Optional(4, Dim), Ws,
     Optional(5, Dim), Ws,
     Optional(6, Dim), Ws,
     Optional(7, Dim), Ws]
    + Group(8, [Rep(Word, 1)]) + [Ws, Optional(9, Dim), Ws]

  /** `\A(\D\w*)\.(\D\w*)\s+(\D\w*)\s*(DIM\s*)?`: interface, modport, name, unpacked dimension. */
  const PortDeclIntf: seq<Item> :=
    Group(1, Ident) + [Lit(".")] + Group(2, Ident) + [Rep(Space, 1)] + Group(3, Ident)
    + [Ws, Optional(4, Dim + [Ws])]

  /** Every match of the parameter pattern consumes at least one character and binds the name and the value. */
  lemma ParameterDeclFacts()
    ensures MinLen(ParameterDecl) >= 1 && {3, 4} <= TopGroups(ParameterDecl)
  {
    var p1 := [Lit("parameter"), Ws,
     Optional(1, OneOf(["logic", "wire", "reg", "int", "integer"])), Ws,
     Optional(2, OneOf(["signed", "unsigned"]))];
    var p2 := p1 + Group(3, Ident);
    var p3 := p2 + [Ws, Lit("="), Ws];
    var p4 := p3 + Group(4, [Expr]);
    TopGroupsAppend(p1, Group(3, Ident));
    TopGroupsAppend(p2, [Ws, Lit("="), Ws]);
    TopGroupsAppend(p3, Group(4, [Expr]));
    TopGroupsAppend(p4, [Ws]);
    MinLenAppend(p1, Group(3, Ident));
    MinLenAppend(p2, [Ws, Lit("="), Ws]);
    MinLenAppend(p3, Group(4, [Expr]));
    MinLenAppend(p4, [Ws]);
    assert MinLen(p1) >= 9;
  }

  /** Every match of the port pattern consumes at least one character and binds the port name. */
  lemma PortDeclFacts()
    ensures MinLen(PortDecl) >= 1 && {8} <= TopGroups(PortDecl)
  {
    var q1 := [Optional(1, OneOf(["input", "output", "inout"])), Ws,
     Optional(2, [Rep(Word, 1)]), Ws,
     Optional(3, OneOf(["signed", "unsigned"])), Ws,
     Optional(4, Dim), Ws,
     Optional(5, Dim), Ws,
     Optional(6, Dim), Ws,
     Optional(7, Dim), Ws];
    var q2 := Group(8, [Rep(Word, 1)]);
    TopGroupsAppend(q1, q2);
    MinLenAppend(q1, q2);
    TopGroupsAppend(q1 + q2, [Ws, Optional(9, Dim), Ws]);
    MinLenAppend(q1 + q2, [Ws, Optional(9, Dim), Ws]);
    assert MinLen(q2) == 1;
  }

  /** Every match of the interface-port pattern consumes at least one character and binds interface, modport and name. */
  lemma PortDeclIntfFacts()
    ensures MinLen(PortDeclIntf) >= 1 && {1, 2, 3} <= TopGroups(PortDeclIntf)
  {
    var r1 := Group(1, Ident);
    var r2 := r1 + [Lit(".")];
    var r3 := r2 + Group(2, Ident);
    var r4 := r3 + [Rep(Space, 1)];
    var r5 := r4 + Group(3, Ident);
    TopGroupsAppend(r1, [Lit(".")]);
    TopGroupsAppend(r2, Group(2, Ident));
    TopGroupsAppend(r3, [Rep(Space, 1)]);
    TopGroupsAppend(r4, Group(3, Ident));
    TopGroupsAppend(r5, [Ws, Optional(4, Dim + [Ws])]);
    MinLenAppend(r1, [Lit(".")]);
    MinLenAppend(r2, Group(2, Ident));
    MinLenAppend(r3, [Rep(Space, 1)]);
    MinLenAppend(r4, Group(3, Ident));
    MinLenAppend(r5, [Ws, Optional(4, Dim + [Ws])]);
  }
}
