/**
  The row plan of the module table drawn by `sv_prettyplot`: how many rows
  the table gets, which row each input or output lands in, and how many rows
  its cell spans. The plan is kept as data (rows of optional cells), not as
  the HTML text the source accumulates.
 */
module Layout {
  import opened Opt
  import opened Builder

  // ---------------------------------------------------------------------
  // coprime2
  // ---------------------------------------------------------------------

  /**
    Euclid's algorithm by subtraction, standing in for `math.gcd` on
    non-negative arguments.
   */
  function Gcd(a: nat, b: nat): nat
    decreases a + b, if a < b then 1 else 0
  {
    if b == 0 then a
    else if a < b then Gcd(b, a)
    else Gcd(a - b, b)
  }

  /** `a` is a multiple of `d`, for a positive `d`. */
  predicate Divides(d: nat, a: nat)
    decreases a
  {
    d > 0 && (a == 0 || (a >= d && Divides(d, a - d)))
  }

  lemma {:induction false} DividesSum(d: nat, a: nat, b: nat)
    requires Divides(d, a) && Divides(d, b)
    ensures Divides(d, a + b)
    decreases a
  {
    if a > 0 {
      DividesSum(d, a - d, b);
      assert a + b - d == (a - d) + b;
    }
  }

  lemma {:induction false} DividesDifference(d: nat, a: nat, b: nat)
    requires Divides(d, a) && Divides(d, b) && b <= a
    ensures Divides(d, a - b)
    decreases b
  {
    if b > 0 {
      DividesDifference(d, a - d, b - d);
      assert (a - d) - (b - d) == a - b;
    }
  }

  /** `Gcd` divides both arguments, and every common divisor divides it. */
  lemma {:induction false} GcdIsGreatest(a: nat, b: nat)
    requires a > 0 || b > 0
    ensures Divides(Gcd(a, b), a) && Divides(Gcd(a, b), b)
    ensures forall d :: Divides(d, a) && Divides(d, b) ==> Divides(d, Gcd(a, b))
    decreases a + b, if a < b then 1 else 0
  {
    if b == 0 {
      assert Divides(a, a) by {
        assert Divides(a, a - a);
      }
    } else if a < b {
      GcdIsGreatest(b, a);
    } else {
      GcdIsGreatest(a - b, b);
      var g := Gcd(a, b);
      DividesSum(g, a - b, b);
      forall d | Divides(d, a) && Divides(d, b) ensures Divides(d, g) {
        DividesDifference(d, a, b);
      }
    }
  }

  lemma NotDividesOne(d: nat)
    requires d > 1
    ensures !Divides(d, 1)
  {
    assert 1 - d < 0;
  }

  /** `coprime2`: a count of one is never coprime, otherwise the counts must share no factor. */
  function Coprime2(a: nat, b: nat): bool
  {
    if a == 1 || b == 1 then false else Gcd(a, b) == 1
  }

  /** `coprime2` on positive counts holds exactly when neither is 1 and no divisor above 1 divides both. */
  lemma Coprime2Meaning(a: nat, b: nat)
    requires a >= 1 && b >= 1
    ensures Coprime2(a, b) <==> a != 1 && b != 1 && forall d :: d > 1 ==> !(Divides(d, a) && Divides(d, b))
  {
    GcdIsGreatest(a, b);
    var g := Gcd(a, b);
    if a != 1 && b != 1 {
      if g != 1 {
        assert g > 1 && Divides(g, a) && Divides(g, b);
        assert exists d :: d > 1 && Divides(d, a) && Divides(d, b);
      } else {
        forall d | d > 1 ensures !(Divides(d, a) && Divides(d, b)) {
          NotDividesOne(d);
        }
      }
    }
  }

  // ---------------------------------------------------------------------
  // The plan
  // ---------------------------------------------------------------------

  /** A cell's port id: the prefix (`i`, `ii`, `o`, `io`, `iri`, `iro`) and the index within its list. */
  datatype PortRef = PortRef(prefix: string, index: nat)

  /** Something to place on one side of the table: its port id and the name shown. */
  datatype Entry = Entry(port: PortRef, name: string)

  datatype Cell = Cell(span: int, port: PortRef, name: string)

  /** One table row: the cell in the input column and the cell in the output column, each possibly absent. */
  datatype Row = Row(left: Option<Cell>, right: Option<Cell>)

  function Max(a: int, b: int): int
  {
    if a >= b then a else b
  }

  /** The entries of one list: entry `k` has port id `prefix` + `k`. */
  function Entries(prefix: string, names: seq<string>): seq<Entry>
  {
    seq(|names|, k requires 0 <= k < |names| => Entry(PortRef(prefix, k), names[k]))
  }

  function PortNames(ps: seq<Port>): seq<string>
  {
    seq(|ps|, k requires 0 <= k < |ps| => ps[k].name)
  }

  function InterfaceNames(ps: seq<InterfacePort>): seq<string>
  {
    seq(|ps|, k requires 0 <= k < |ps| => ps[k].name)
  }

  /** `nb_ports`: the larger side in diagonal mode, the product in product mode. */
  function RowCount(nIn: nat, nOut: nat, coprime: bool): nat
  {
    if coprime then Max(nIn, nOut) else nIn * nOut
  }

  /**
    The cell one side gets in row `i` of a grid with `nb` rows: `nSelf` is
    that side's slot count and `nOther` the other side's. A slot beyond the
    entries (the dummy slot of an empty side) emits no cell.
   */
  function SideCell(i: nat, nb: nat, nSelf: nat, nOther: nat, coprime: bool, entries: seq<Entry>): Option<Cell>
    requires nSelf >= 1 && nOther >= 1
  {
    var placed := if coprime then i < nSelf else i % nOther == 0;
    var k := if coprime then i else i / nOther;
    var span := if i < nSelf then 1 else if coprime then nb - nOther + 1 else nOther;
    if placed && k < |entries| then Some(Cell(span, entries[k].port, entries[k].name)) else None
  }

  /** The rows of one grid pairing `left` (counted by `nIn`) with `right` (counted by `nOut`). */
  function Grid(nIn: nat, nOut: nat, coprime: bool, left: seq<Entry>, right: seq<Entry>): seq<Row>
    requires nIn >= 1 && nOut >= 1
  {
    var nb := RowCount(nIn, nOut, coprime);
    seq(nb, i requires 0 <= i < nb => Row(SideCell(i, nb, nIn, nOut, coprime, left), SideCell(i, nb, nOut, nIn, coprime, right)))
  }

  /** The rows of the undirected interfaces: one row each, the same name in both columns. */
  function RestRows(ifs: seq<InterfacePort>): seq<Row>
  {
    seq(|ifs|, k requires 0 <= k < |ifs| =>
      Row(Some(Cell(1, PortRef("iri", k), ifs[k].name)), Some(Cell(1, PortRef("iro", k), ifs[k].name))))
  }

  /** The inputs then the incoming interfaces, as the left column of the shared grid lists them. */
  function InSide(m: Module): seq<Entry>
  {
    Entries("i", PortNames(m.inputPorts)) + Entries("ii", InterfaceNames(m.incomingInterfaces))
  }

  function OutSide(m: Module): seq<Entry>
  {
    Entries("o", PortNames(m.outputPorts)) + Entries("io", InterfaceNames(m.outgoingInterfaces))
  }

  /**
    The rows of the module table below its title. With `always_coprime`
    ports and directed interfaces share one grid; without it the ports get a
    grid (sized by ports and interfaces together) and the directed
    interfaces a second one. The undirected interfaces follow in both cases.
   */
  function TablePlan(m: Module, alwaysCoprime: bool): seq<Row>
  {
    if alwaysCoprime then SharedGrid(m) + RestRows(m.interfaces)
    else PortGrid(m) + InterfaceGrid(m) + RestRows(m.interfaces)
  }

  /**
    With `always_coprime`, one diagonal grid of the whole input side (ports,
    then incoming interfaces) against the whole output side; none when both
    sides are empty.
   */
  function SharedGrid(m: Module): seq<Row>
  {
    var nIn := Max(|m.inputPorts| + |m.incomingInterfaces|, 1);
    var nOut := Max(|m.outputPorts| + |m.outgoingInterfaces|, 1);
    if |m.inputPorts| + |m.incomingInterfaces| > 0 || |m.outputPorts| + |m.outgoingInterfaces| > 0
    then Grid(nIn, nOut, true, InSide(m), OutSide(m))
    else []
  }

  /** With `always_coprime` off, the grid of input against output ports, sized by both whole sides; none without ports. */
  function PortGrid(m: Module): seq<Row>
  {
    var nIn := Max(|m.inputPorts| + |m.incomingInterfaces|, 1);
    var nOut := Max(|m.outputPorts| + |m.outgoingInterfaces|, 1);
    if |m.inputPorts| > 0 || |m.outputPorts| > 0
    then Grid(nIn, nOut, Coprime2(nIn, nOut), Entries("i", PortNames(m.inputPorts)), Entries("o", PortNames(m.outputPorts)))
    else []
  }

  /** With `always_coprime` off, the grid of incoming against outgoing interfaces; none without directed interfaces. */
  function InterfaceGrid(m: Module): seq<Row>
  {
    var nIn := Max(|m.incomingInterfaces|, 1);
    var nOut := Max(|m.outgoingInterfaces|, 1);
    if |m.incomingInterfaces| > 0 || |m.outgoingInterfaces| > 0
    then Grid(nIn, nOut, Coprime2(nIn, nOut), Entries("ii", InterfaceNames(m.incomingInterfaces)), Entries("io", InterfaceNames(m.outgoingInterfaces)))
    else []
  }

  // ---------------------------------------------------------------------
  // The loops that emit the rows
  // ---------------------------------------------------------------------

  /** One row loop of `sv_prettyplot`: row `i` gets the cells its placement rule selects. */
  method EmitGrid(nIn: nat, nOut: nat, coprime: bool, left: seq<Entry>, right: seq<Entry>) returns (rows: seq<Row>)
    requires nIn >= 1 && nOut >= 1
    ensures rows == Grid(nIn, nOut, coprime, left, right)
  {
    var nb := if coprime then Max(nIn, nOut) else nIn * nOut;
    rows := [];
    for i := 0 to nb
      invariant |rows| == i
      invariant forall j :: 0 <= j < i ==> rows[j] == Grid(nIn, nOut, coprime, left, right)[j]
    {
      var outCond := if coprime then i < nIn else i % nOut == 0;
      var inCond := if coprime then i < nOut else i % nIn == 0;
      var iOut := if coprime then i else i / nOut;
      var iIn := if coprime then i else i / nIn;
      var rsOut := if i < nIn then 1 else if coprime then nb - nOut + 1 else nOut;
      var rsIn := if i < nOut then 1 else if coprime then nb - nIn + 1 else nIn;
      var l: Option<Cell> := None;
      var r: Option<Cell> := None;
      if outCond && iOut < |left| {
        l := Some(Cell(rsOut, left[iOut].port, left[iOut].name));
      }
      if inCond && iIn < |right| {
        r := Some(Cell(rsIn, right[iIn].port, right[iIn].name));
      }
      rows := rows + [Row(l, r)];
    }
  }

  /** The undirected-interface loop: one two-cell row per interface. */
  method EmitRest(ifs: seq<InterfacePort>) returns (rows: seq<Row>)
    ensures rows == RestRows(ifs)
  {
    rows := [];
    for i := 0 to |ifs|
      invariant rows == RestRows(ifs[..i])
    {
      assert ifs[..i + 1][..i] == ifs[..i];
      rows := rows + [Row(Some(Cell(1, PortRef("iri", i), ifs[i].name)), Some(Cell(1, PortRef("iro", i), ifs[i].name)))];
    }
    assert ifs[..|ifs|] == ifs;
  }

  /** The table rows of `sv_prettyplot`, in either mode. */
  method PlanTable(m: Module, alwaysCoprime: bool) returns (rows: seq<Row>)
    ensures rows == TablePlan(m, alwaysCoprime)
  {
    rows := [];
    var nIn := Max(|m.inputPorts| + |m.incomingInterfaces|, 1);
    var nOut := Max(|m.outputPorts| + |m.outgoingInterfaces|, 1);
    var coprime := Coprime2(nIn, nOut) || alwaysCoprime;
    if alwaysCoprime {
      if |m.inputPorts| + |m.incomingInterfaces| > 0 || |m.outputPorts| + |m.outgoingInterfaces| > 0 {
        rows := EmitGrid(nIn, nOut, coprime, InSide(m), OutSide(m));
      }
    } else {
      if |m.inputPorts| > 0 || |m.outputPorts| > 0 {
        rows := EmitGrid(nIn, nOut, coprime, Entries("i", PortNames(m.inputPorts)), Entries("o", PortNames(m.outputPorts)));
      }
      var nIn2 := Max(|m.incomingInterfaces|, 1);
      var nOut2 := Max(|m.outgoingInterfaces|, 1);
      var coprime2 := Coprime2(nIn2, nOut2) || alwaysCoprime;
      if |m.incomingInterfaces| > 0 || |m.outgoingInterfaces| > 0 {
        var directed := EmitGrid(nIn2, nOut2, coprime2,
          Entries("ii", InterfaceNames(m.incomingInterfaces)), Entries("io", InterfaceNames(m.outgoingInterfaces)));
        rows := rows + directed;
      } else {
        assert rows + [] == rows;
      }
    }
    var rest := EmitRest(m.interfaces);
    rows := rows + rest;
  }

  // ---------------------------------------------------------------------
  // Properties of the plan
  // ---------------------------------------------------------------------

  /** No two entries of a side share a port id. */
  predicate Distinct(entries: seq<Entry>)
  {
    forall a, b :: 0 <= a < b < |entries| ==> entries[a].port != entries[b].port
  }

  lemma EntriesDistinct(p: string, names: seq<string>, q: string, others: seq<string>)
    requires p != q
    ensures Distinct(Entries(p, names))
    ensures Distinct(Entries(p, names) + Entries(q, others))
  {
  }

  /** The row entry `k` of a side is placed in: row `k` in diagonal mode, row `k * nOther` in product mode. */
  function Place(k: nat, nOther: nat, coprime: bool): nat
  {
    if coprime then k else k * nOther
  }

  /** `n * m` is at least `n` for a positive `m`. */
  lemma {:induction false} ProductAtLeast(n: nat, m: nat)
    requires n > 0 && m >= 1
    ensures n * m >= n
    decreases m
  {
    if m > 1 {
      ProductAtLeast(n, m - 1);
      assert n * m == n * (m - 1) + n;
    }
  }

  /** Quotient and remainder are the only pair that rebuild the dividend. */
  lemma DivModUnique(a: int, n: int, q: int, r: int)
    requires n > 0 && 0 <= r < n && a == n * q + r
    ensures a / n == q && a % n == r
  {
    var q0, r0 := a / n, a % n;
    assert n * (q - q0) == r0 - r;
    if q - q0 >= 1 {
      ProductAtLeast(n, q - q0);
    }
    if q0 - q >= 1 {
      ProductAtLeast(n, q0 - q);
    }
  }

  lemma MultipleQuotient(k: nat, n: nat)
    requires n > 0
    ensures (k * n) / n == k && (k * n) % n == 0
  {
    DivModUnique(k * n, n, k, 0);
  }

  /** Entry `k` of a side is the cell of row `Place(k)`. */
  lemma EntryPlaced(nb: nat, nSelf: nat, nOther: nat, coprime: bool, entries: seq<Entry>, k: nat)
    requires nSelf >= 1 && nOther >= 1 && |entries| <= nSelf
    requires nb == RowCount(nSelf, nOther, coprime) && k < |entries|
    ensures Place(k, nOther, coprime) < nb
    ensures SideCell(Place(k, nOther, coprime), nb, nSelf, nOther, coprime, entries).Some?
    ensures SideCell(Place(k, nOther, coprime), nb, nSelf, nOther, coprime, entries).value.port == entries[k].port
    ensures SideCell(Place(k, nOther, coprime), nb, nSelf, nOther, coprime, entries).value.name == entries[k].name
  {
    if !coprime {
      MultipleQuotient(k, nOther);
      assert k * nOther < nSelf * nOther by {
        assert (nSelf - k) * nOther > 0;
      }
    }
  }

  /** A cell in row `i` is the entry whose place is row `i`. */
  lemma CellFromEntry(nb: nat, nSelf: nat, nOther: nat, coprime: bool, entries: seq<Entry>, i: nat)
    requires nSelf >= 1 && nOther >= 1
    requires SideCell(i, nb, nSelf, nOther, coprime, entries).Some?
    ensures var k := if coprime then i else i / nOther;
      && k < |entries| && i == Place(k, nOther, coprime)
      && SideCell(i, nb, nSelf, nOther, coprime, entries).value.port == entries[k].port
      && SideCell(i, nb, nSelf, nOther, coprime, entries).value.name == entries[k].name
  {
    if !coprime {
      assert i == (i / nOther) * nOther + i % nOther;
    }
  }

  /**
    Every entry of a side is placed exactly once, in its row; every cell the
    side emits is one of its entries, in that entry's row. This holds in both
    modes as long as the side has no more entries than slots.
   */
  lemma PlacedOnce(nb: nat, nSelf: nat, nOther: nat, coprime: bool, entries: seq<Entry>)
    requires nSelf >= 1 && nOther >= 1 && |entries| <= nSelf
    requires nb == RowCount(nSelf, nOther, coprime)
    ensures forall k :: 0 <= k < |entries| ==> (Place(k, nOther, coprime) < nb
      && SideCell(Place(k, nOther, coprime), nb, nSelf, nOther, coprime, entries).Some?
      && SideCell(Place(k, nOther, coprime), nb, nSelf, nOther, coprime, entries).value.port == entries[k].port)
    ensures forall i :: 0 <= i < nb && SideCell(i, nb, nSelf, nOther, coprime, entries).Some? ==>
      exists k :: (0 <= k < |entries| && i == Place(k, nOther, coprime)
        && SideCell(i, nb, nSelf, nOther, coprime, entries).value.port == entries[k].port
        && SideCell(i, nb, nSelf, nOther, coprime, entries).value.name == entries[k].name)
  {
    forall k | 0 <= k < |entries|
      ensures Place(k, nOther, coprime) < nb
      ensures SideCell(Place(k, nOther, coprime), nb, nSelf, nOther, coprime, entries).Some?
      ensures SideCell(Place(k, nOther, coprime), nb, nSelf, nOther, coprime, entries).value.port == entries[k].port
    {
      EntryPlaced(nb, nSelf, nOther, coprime, entries, k);
    }
    forall i | 0 <= i < nb && SideCell(i, nb, nSelf, nOther, coprime, entries).Some?
      ensures exists k :: (0 <= k < |entries| && i == Place(k, nOther, coprime)
        && SideCell(i, nb, nSelf, nOther, coprime, entries).value.port == entries[k].port
        && SideCell(i, nb, nSelf, nOther, coprime, entries).value.name == entries[k].name)
    {
      CellFromEntry(nb, nSelf, nOther, coprime, entries, i);
    }
  }

  /** With distinct port ids, no port id appears in two rows of the same side. */
  lemma PlacedOnlyThere(nb: nat, nSelf: nat, nOther: nat, coprime: bool, entries: seq<Entry>, k: nat, i: nat)
    requires nSelf >= 1 && nOther >= 1 && |entries| <= nSelf && Distinct(entries)
    requires nb == RowCount(nSelf, nOther, coprime)
    requires k < |entries| && i < nb
    requires SideCell(i, nb, nSelf, nOther, coprime, entries).Some?
    requires SideCell(i, nb, nSelf, nOther, coprime, entries).value.port == entries[k].port
    ensures i == Place(k, nOther, coprime)
  {
    PlacedOnce(nb, nSelf, nOther, coprime, entries);
  }

  /** In diagonal mode row `i` holds entry `i` with span 1, or nothing once the entries run out. */
  lemma DiagonalCells(nb: nat, nSelf: nat, nOther: nat, entries: seq<Entry>, i: nat)
    requires nSelf >= 1 && nOther >= 1 && |entries| <= nSelf
    requires nb == Max(nSelf, nOther) && i < nb
    ensures SideCell(i, nb, nSelf, nOther, true, entries)
      == if i < |entries| then Some(Cell(1, entries[i].port, entries[i].name)) else None
  {
  }

  /** In product mode a cell sits only on a multiple of `nOther`, with span 1 in the first `nSelf` rows and `nOther` after. */
  lemma ProductCells(nb: nat, nSelf: nat, nOther: nat, entries: seq<Entry>, i: nat)
    requires nSelf >= 1 && nOther >= 1 && nb == nSelf * nOther && i < nb
    ensures SideCell(i, nb, nSelf, nOther, false, entries).Some? <==> i % nOther == 0 && i / nOther < |entries|
    ensures SideCell(i, nb, nSelf, nOther, false, entries).Some? ==>
      SideCell(i, nb, nSelf, nOther, false, entries).value.span == if i < nSelf then 1 else nOther
  {
  }

  /**
    The spans a side gets do not add up to the row count: in product mode
    with four inputs and two outputs the input cells in rows 0, 2, 4 and 6
    span 1, 1, 2 and 2 rows, six of the eight.
   */
  lemma ProductSpansExample(left: seq<Entry>, right: seq<Entry>)
    requires |left| == 4
    ensures var g := Grid(4, 2, false, left, right);
      && |g| == 8
      && g[0].left.value.span == 1 && g[2].left.value.span == 1
      && g[4].left.value.span == 2 && g[6].left.value.span == 2
      && g[1].left.None? && g[3].left.None? && g[5].left.None? && g[7].left.None?
  {
    var g := Grid(4, 2, false, left, right);
    assert g[6] == Row(SideCell(6, 8, 4, 2, false, left), SideCell(6, 8, 2, 4, false, right));
    assert 6 / 2 == 3 && 6 % 2 == 0;
  }

  /** The cell a diagonal grid gives entry `i` of a side: span 1, or no cell once the entries run out. */
  function DiagonalCell(entries: seq<Entry>, i: nat): Option<Cell>
  {
    if i < |entries| then Some(Cell(1, entries[i].port, entries[i].name)) else None
  }

  /** The number of rows of the shared grid in the default layout. */
  function DefaultGridSize(m: Module): nat
  {
    var nIn := |m.inputPorts| + |m.incomingInterfaces|;
    var nOut := |m.outputPorts| + |m.outgoingInterfaces|;
    if nIn + nOut > 0 then Max(nIn, nOut) else 0
  }

  /** The default layout row by row: the shared diagonal grid, then one row per undirected interface. */
  lemma DefaultRow(m: Module, i: nat)
    ensures |TablePlan(m, true)| == DefaultGridSize(m) + |m.interfaces|
    ensures i < DefaultGridSize(m) ==> TablePlan(m, true)[i] == Row(DiagonalCell(InSide(m), i), DiagonalCell(OutSide(m), i))
    ensures DefaultGridSize(m) <= i < |TablePlan(m, true)| ==> TablePlan(m, true)[i] == RestRows(m.interfaces)[i - DefaultGridSize(m)]
  {
    var nIn := Max(|m.inputPorts| + |m.incomingInterfaces|, 1);
    var nOut := Max(|m.outputPorts| + |m.outgoingInterfaces|, 1);
    var grid := SharedGrid(m);
    assert |grid| == DefaultGridSize(m);
    if i < |grid| {
      DiagonalCells(|grid|, nIn, nOut, InSide(m), i);
      DiagonalCells(|grid|, nOut, nIn, OutSide(m), i);
    }
  }

  /** Every cell of the default layout spans one row. */
  lemma DefaultSpans(m: Module)
    ensures var plan := TablePlan(m, true);
      forall i :: 0 <= i < |plan| ==>
        && (plan[i].left.Some? ==> plan[i].left.value.span == 1)
        && (plan[i].right.Some? ==> plan[i].right.value.span == 1)
  {
    var plan := TablePlan(m, true);
    forall i | 0 <= i < |plan|
      ensures plan[i].left.Some? ==> plan[i].left.value.span == 1
      ensures plan[i].right.Some? ==> plan[i].right.value.span == 1
    {
      DefaultRow(m, i);
    }
  }

  /**
    In the default layout input port `k` is the input cell of row `k` and
    incoming interface `k` the input cell of the row after the input ports
    and `k` more.
   */
  lemma DefaultInputPlacement(m: Module)
    ensures var plan := TablePlan(m, true);
      forall k :: 0 <= k < |m.inputPorts| ==> k < |plan| && plan[k].left == Some(Cell(1, PortRef("i", k), m.inputPorts[k].name))
    ensures var plan := TablePlan(m, true);
      forall k :: 0 <= k < |m.incomingInterfaces| ==>
        |m.inputPorts| + k < |plan| && plan[|m.inputPorts| + k].left == Some(Cell(1, PortRef("ii", k), m.incomingInterfaces[k].name))
  {
    var plan := TablePlan(m, true);
    forall k | 0 <= k < |m.inputPorts|
      ensures k < |plan| && plan[k].left == Some(Cell(1, PortRef("i", k), m.inputPorts[k].name))
    {
      DefaultRow(m, k);
    }
    forall k | 0 <= k < |m.incomingInterfaces|
      ensures |m.inputPorts| + k < |plan|
      ensures plan[|m.inputPorts| + k].left == Some(Cell(1, PortRef("ii", k), m.incomingInterfaces[k].name))
    {
      DefaultRow(m, |m.inputPorts| + k);
    }
  }

  /** In the default layout no port id appears in the input column twice. */
  lemma DefaultInputsUnique(m: Module)
    ensures var plan := TablePlan(m, true);
      forall i, j :: 0 <= i < j < |plan| && plan[i].left.Some? && plan[j].left.Some? ==> plan[i].left.value.port != plan[j].left.value.port
  {
    var plan := TablePlan(m, true);
    EntriesDistinct("i", PortNames(m.inputPorts), "ii", InterfaceNames(m.incomingInterfaces));
    forall i, j | 0 <= i < j < |plan| && plan[i].left.Some? && plan[j].left.Some?
      ensures plan[i].left.value.port != plan[j].left.value.port
    {
      DefaultRow(m, i);
      DefaultRow(m, j);
    }
  }

  /**
    The table row of input-side entry `k` (the input ports, then the
    incoming interfaces): row `k` of the shared grid with `always_coprime`;
    otherwise its place in the port grid, or in the interface grid that
    follows it.
   */
  function InputRow(m: Module, alwaysCoprime: bool, k: nat): nat
  {
    var nIn := Max(|m.inputPorts| + |m.incomingInterfaces|, 1);
    var nOut := Max(|m.outputPorts| + |m.outgoingInterfaces|, 1);
    var nIn2 := Max(|m.incomingInterfaces|, 1);
    var nOut2 := Max(|m.outgoingInterfaces|, 1);
    if alwaysCoprime then k
    else if k < |m.inputPorts| then Place(k, nOut, Coprime2(nIn, nOut))
    else |PortGrid(m)| + Place(k - |m.inputPorts|, nOut2, Coprime2(nIn2, nOut2))
  }

  /** The table row of output-side entry `k` (the output ports, then the outgoing interfaces), in either mode. */
  function OutputRow(m: Module, alwaysCoprime: bool, k: nat): nat
  {
    var nIn := Max(|m.inputPorts| + |m.incomingInterfaces|, 1);
    var nOut := Max(|m.outputPorts| + |m.outgoingInterfaces|, 1);
    var nIn2 := Max(|m.incomingInterfaces|, 1);
    var nOut2 := Max(|m.outgoingInterfaces|, 1);
    if alwaysCoprime then k
    else if k < |m.outputPorts| then Place(k, nIn, Coprime2(nIn, nOut))
    else |PortGrid(m)| + Place(k - |m.outputPorts|, nIn2, Coprime2(nIn2, nOut2))
  }

  /** Input port `k` is the input cell of its row of the port grid. */
  lemma InputPortPlaced(m: Module, k: nat)
    requires k < |m.inputPorts|
    ensures var r := InputRow(m, false, k);
      r < |PortGrid(m)| && PortGrid(m)[r].left.Some?
      && PortGrid(m)[r].left.value.port == PortRef("i", k) && PortGrid(m)[r].left.value.name == m.inputPorts[k].name
  {
    var nIn := Max(|m.inputPorts| + |m.incomingInterfaces|, 1);
    var nOut := Max(|m.outputPorts| + |m.outgoingInterfaces|, 1);
    EntryPlaced(|PortGrid(m)|, nIn, nOut, Coprime2(nIn, nOut), Entries("i", PortNames(m.inputPorts)), k);
  }

  /** Output port `k` is the output cell of its row of the port grid. */
  lemma OutputPortPlaced(m: Module, k: nat)
    requires k < |m.outputPorts|
    ensures var r := OutputRow(m, false, k);
      r < |PortGrid(m)| && PortGrid(m)[r].right.Some?
      && PortGrid(m)[r].right.value.port == PortRef("o", k) && PortGrid(m)[r].right.value.name == m.outputPorts[k].name
  {
    var nIn := Max(|m.inputPorts| + |m.incomingInterfaces|, 1);
    var nOut := Max(|m.outputPorts| + |m.outgoingInterfaces|, 1);
    assert nOut * nIn == nIn * nOut;
    EntryPlaced(|PortGrid(m)|, nOut, nIn, Coprime2(nIn, nOut), Entries("o", PortNames(m.outputPorts)), k);
  }

  /** Incoming interface `k` is the input cell of its row of the interface grid. */
  lemma IncomingPlaced(m: Module, k: nat)
    requires k < |m.incomingInterfaces|
    ensures var r := InputRow(m, false, |m.inputPorts| + k) - |PortGrid(m)|;
      0 <= r < |InterfaceGrid(m)| && InterfaceGrid(m)[r].left.Some?
      && InterfaceGrid(m)[r].left.value.port == PortRef("ii", k) && InterfaceGrid(m)[r].left.value.name == m.incomingInterfaces[k].name
  {
    var nIn := Max(|m.incomingInterfaces|, 1);
    var nOut := Max(|m.outgoingInterfaces|, 1);
    EntryPlaced(|InterfaceGrid(m)|, nIn, nOut, Coprime2(nIn, nOut), Entries("ii", InterfaceNames(m.incomingInterfaces)), k);
  }

  /** Outgoing interface `k` is the output cell of its row of the interface grid. */
  lemma OutgoingPlaced(m: Module, k: nat)
    requires k < |m.outgoingInterfaces|
    ensures var r := OutputRow(m, false, |m.outputPorts| + k) - |PortGrid(m)|;
      0 <= r < |InterfaceGrid(m)| && InterfaceGrid(m)[r].right.Some?
      && InterfaceGrid(m)[r].right.value.port == PortRef("io", k) && InterfaceGrid(m)[r].right.value.name == m.outgoingInterfaces[k].name
  {
    var nIn := Max(|m.incomingInterfaces|, 1);
    var nOut := Max(|m.outgoingInterfaces|, 1);
    assert nOut * nIn == nIn * nOut;
    EntryPlaced(|InterfaceGrid(m)|, nOut, nIn, Coprime2(nIn, nOut), Entries("io", InterfaceNames(m.outgoingInterfaces)), k);
  }

  /** In either mode every input-side entry is the input cell of its row of the table. */
  lemma InputPlaced(m: Module, alwaysCoprime: bool, k: nat)
    requires k < |InSide(m)|
    ensures InputRow(m, alwaysCoprime, k) < |TablePlan(m, alwaysCoprime)|
    ensures TablePlan(m, alwaysCoprime)[InputRow(m, alwaysCoprime, k)].left.Some?
    ensures TablePlan(m, alwaysCoprime)[InputRow(m, alwaysCoprime, k)].left.value.port == InSide(m)[k].port
    ensures TablePlan(m, alwaysCoprime)[InputRow(m, alwaysCoprime, k)].left.value.name == InSide(m)[k].name
  {
    if alwaysCoprime {
      DefaultRow(m, k);
    } else {
      var plan := TablePlan(m, false);
      assert plan == PortGrid(m) + InterfaceGrid(m) + RestRows(m.interfaces);
      var r := InputRow(m, false, k);
      if k < |m.inputPorts| {
        InputPortPlaced(m, k);
        assert plan[r] == PortGrid(m)[r];
      } else {
        IncomingPlaced(m, k - |m.inputPorts|);
        assert plan[r] == InterfaceGrid(m)[r - |PortGrid(m)|];
      }
    }
  }

  /** In either mode every output-side entry is the output cell of its row of the table. */
  lemma OutputPlaced(m: Module, alwaysCoprime: bool, k: nat)
    requires k < |OutSide(m)|
    ensures OutputRow(m, alwaysCoprime, k) < |TablePlan(m, alwaysCoprime)|
    ensures TablePlan(m, alwaysCoprime)[OutputRow(m, alwaysCoprime, k)].right.Some?
    ensures TablePlan(m, alwaysCoprime)[OutputRow(m, alwaysCoprime, k)].right.value.port == OutSide(m)[k].port
    ensures TablePlan(m, alwaysCoprime)[OutputRow(m, alwaysCoprime, k)].right.value.name == OutSide(m)[k].name
  {
    if alwaysCoprime {
      DefaultRow(m, k);
    } else {
      var plan := TablePlan(m, false);
      assert plan == PortGrid(m) + InterfaceGrid(m) + RestRows(m.interfaces);
      var r := OutputRow(m, false, k);
      if k < |m.outputPorts| {
        OutputPortPlaced(m, k);
        assert plan[r] == PortGrid(m)[r];
      } else {
        OutgoingPlaced(m, k - |m.outputPorts|);
        assert plan[r] == InterfaceGrid(m)[r - |PortGrid(m)|];
      }
    }
  }
}
