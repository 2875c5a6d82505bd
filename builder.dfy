/**
  The module builder (`interpret_systemverilog`): folds the token list into
  a module record with a name and seven ordered lists, and sorts interface
  ports by modport. The record is a dictionary in the source, so a
  declaration that reaches for a list that is not there raises a key error;
  the model reports that as an outcome.
 */
module Builder {
  import opened Opt
  import opened Scanner

  const IncomingModports: seq<string> := ["slave", "sink", "monitor", "target"]
  const OutgoingModports: seq<string> := ["master", "source", "initiator"]

  datatype Parameter = Parameter(name: string, value: string)

  datatype Port = Port(
    name: string, ptype: Option<string>, sign: Option<string>,
    packed0: string, packed1: string, packed2: string, packed3: string,
    unpacked: string)

  datatype InterfacePort = InterfacePort(name: string, iface: string, modport: string, unpacked: string)

  datatype Module = Module(
    name: string,
    parameters: seq<Parameter>,
    inputPorts: seq<Port>,
    outputPorts: seq<Port>,
    inoutPorts: seq<Port>,
    interfaces: seq<InterfacePort>,
    incomingInterfaces: seq<InterfacePort>,
    outgoingInterfaces: seq<InterfacePort>)

  /** What the builder returns: the record, the empty record when no name was seen, or the key whose lookup failed. */
  datatype Outcome = Built(record: Module) | NoModule | MissingKey(key: string)

  datatype Bucket = Incoming | Outgoing | Undirected

  /** Where an interface port goes, by its modport. */
  function BucketOf(modport: string): (b: Bucket)
    ensures b == Incoming <==> modport in IncomingModports
    ensures b == Outgoing <==> modport !in IncomingModports && modport in OutgoingModports
  {
    if modport in IncomingModports then Incoming
    else if modport in OutgoingModports then Outgoing
    else Undirected
  }

  function BucketKey(b: Bucket): string
  {
    match b
    case Incoming => "incoming_interfaces"
    case Outgoing => "outgoing_interfaces"
    case Undirected => "interfaces"
  }

  /** `'%s_ports' % direction`: a missing direction prints as `None`. */
  function PortsKey(direction: Option<string>): string
  {
    (if direction.None? then "None" else direction.value) + "_ports"
  }

  const PortKeys: set<string> := {"input_ports", "output_ports", "inout_ports"}

  /** The three port lists of the record. */
  datatype PortList = InputPorts | OutputPorts | InoutPorts

  function ListKey(l: PortList): string
  {
    match l
    case InputPorts => "input_ports"
    case OutputPorts => "output_ports"
    case InoutPorts => "inout_ports"
  }

  /** The port list a direction names, if the record has one under that key. */
  function ListOf(direction: Option<string>): Option<PortList>
  {
    if direction == Some("input") then Some(InputPorts)
    else if direction == Some("output") then Some(OutputPorts)
    else if direction == Some("inout") then Some(InoutPorts)
    else None
  }

  /** The key `'%s_ports' % direction` is in the record exactly when the direction names a list, and then it is that list's key. */
  lemma ListOfKey(direction: Option<string>)
    ensures ListOf(direction).Some? <==> PortsKey(direction) in PortKeys
    ensures ListOf(direction).Some? ==> PortsKey(direction) == ListKey(ListOf(direction).value)
  {
    var key := PortsKey(direction);
    var d := if direction.None? then "None" else direction.value;
    assert key == d + "_ports" && key[..|d|] == d;
    if key == "input_ports" || key == "inout_ports" {
      assert |d| == 5;
      assert key[..5] == "input" || key[..5] == "inout";
    } else if key == "output_ports" {
      assert |d| == 6;
      assert key[..6] == "output";
    }
  }

  /** `x if x is not None else ''` */
  function OrEmpty(o: Option<string>): string
  {
    if o.Some? then o.value else ""
  }

  function NameOf(t: Token): string
    requires t.kind == ModuleName && WellFormed(t)
  {
    t.fields[0].value
  }

  function ParameterOf(t: Token): (p: Parameter)
    requires t.kind == ParameterDecl && WellFormed(t)
    ensures p.name == Field(t, NameField).value && p.value == Field(t, ValueField).value
  {
    Parameter(t.fields[2].value, t.fields[3].value)
  }

  /** The direction group of a port token. */
  function DirectionOf(t: Token): Option<string>
    requires t.kind == PortDecl && WellFormed(t)
  {
    t.fields[0]
  }

  function PortOf(t: Token): (p: Port)
    requires t.kind == PortDecl && WellFormed(t)
    ensures p.name == Field(t, NameField).value
    ensures p.ptype == Field(t, TypeField) && p.sign == Field(t, SignField)
    ensures p.unpacked == OrEmpty(Field(t, UnpackedField))
    ensures p.packed0 == OrEmpty(Field(t, Packed0)) && p.packed1 == OrEmpty(Field(t, Packed1))
    ensures p.packed2 == OrEmpty(Field(t, Packed2)) && p.packed3 == OrEmpty(Field(t, Packed3))
  {
    Port(t.fields[7].value, t.fields[1], t.fields[2],
      OrEmpty(t.fields[3]), OrEmpty(t.fields[4]), OrEmpty(t.fields[5]), OrEmpty(t.fields[6]),
      OrEmpty(t.fields[8]))
  }

  function InterfacePortOf(t: Token): (p: InterfacePort)
    requires t.kind == PortDeclIntf && WellFormed(t)
    ensures p.name == Field(t, NameField).value && p.iface == Field(t, InterfaceField).value
    ensures p.modport == Field(t, ModportField).value && p.unpacked == OrEmpty(Field(t, UnpackedField))
  {
    InterfacePort(t.fields[2].value, t.fields[0].value, t.fields[1].value, OrEmpty(t.fields[3]))
  }

  predicate AllWellFormed(ts: seq<Token>)
  {
    forall i :: 0 <= i < |ts| ==> WellFormed(ts[i])
  }

  // ---------------------------------------------------------------------
  // The reference: what the record holds after a token list
  // ---------------------------------------------------------------------

  /** The key a token fails on, given whether a module name has been seen. */
  function TokenFault(t: Token, named: bool): Option<string>
    requires WellFormed(t)
  {
    match t.kind
    case ParameterDecl => if named then None else Some("parameters")
    case PortDecl =>
      if named && ListOf(DirectionOf(t)).Some? then None else Some(PortsKey(DirectionOf(t)))
    case PortDeclIntf =>
      if named then None else Some(BucketKey(BucketOf(InterfacePortOf(t).modport)))
    case _ => None
  }

  /** The position of the last module name token. */
  function LastName(ts: seq<Token>): (r: Option<nat>)
    ensures r.Some? ==> r.value < |ts| && ts[r.value].kind == ModuleName
    ensures r.Some? ==> forall i :: r.value < i < |ts| ==> ts[i].kind != ModuleName
    ensures r.None? ==> forall i :: 0 <= i < |ts| ==> ts[i].kind != ModuleName
  {
    if |ts| == 0 then None
    else if ts[|ts| - 1].kind == ModuleName then Some(|ts| - 1)
    else LastName(ts[..|ts| - 1])
  }

  /** The key of the first token that fails. */
  function Fault(ts: seq<Token>): Option<string>
    requires AllWellFormed(ts)
  {
    if |ts| == 0 then None
    else
      var init := ts[..|ts| - 1];
      if Fault(init).Some? then Fault(init)
      else TokenFault(ts[|ts| - 1], LastName(init).Some?)
  }

  /** The parameters declared in `ts`, in order. */
  function Params(ts: seq<Token>): seq<Parameter>
    requires AllWellFormed(ts)
  {
    if |ts| == 0 then []
    else
      var t := ts[|ts| - 1];
      Params(ts[..|ts| - 1]) + (if t.kind == ParameterDecl then [ParameterOf(t)] else [])
  }

  /** The ports of `ts` whose direction names the list `l`, in order. */
  function Ports(ts: seq<Token>, l: PortList): seq<Port>
    requires AllWellFormed(ts)
  {
    if |ts| == 0 then []
    else
      var t := ts[|ts| - 1];
      Ports(ts[..|ts| - 1], l) + (if t.kind == PortDecl && ListOf(DirectionOf(t)) == Some(l) then [PortOf(t)] else [])
  }

  /** The interface ports of `ts` whose modport sorts them into `b`, in order. */
  function Interfaces(ts: seq<Token>, b: Bucket): seq<InterfacePort>
    requires AllWellFormed(ts)
  {
    if |ts| == 0 then []
    else
      var t := ts[|ts| - 1];
      Interfaces(ts[..|ts| - 1], b)
        + (if t.kind == PortDeclIntf && BucketOf(InterfacePortOf(t).modport) == b then [InterfacePortOf(t)] else [])
  }

  /** The record built from a name token and the declarations that follow it. */
  function Collect(name: string, ts: seq<Token>): Module
    requires AllWellFormed(ts)
  {
    Module(name, Params(ts), Ports(ts, InputPorts), Ports(ts, OutputPorts), Ports(ts, InoutPorts),
      Interfaces(ts, Undirected), Interfaces(ts, Incoming), Interfaces(ts, Outgoing))
  }

  /**
    The outcome of the builder on `ts`: the first failing key if any token
    fails; otherwise the record opened by the last module name, holding the
    declarations after it; the empty record if there is no name.
   */
  function Interpretation(ts: seq<Token>): Outcome
    requires AllWellFormed(ts)
  {
    if Fault(ts).Some? then MissingKey(Fault(ts).value)
    else match LastName(ts)
      case None => NoModule
      case Some(j) => Built(Collect(NameOf(ts[j]), ts[j + 1..]))
  }

  // ---------------------------------------------------------------------
  // The builder loop
  // ---------------------------------------------------------------------

  /** The record state after the first tokens: None while no name has been seen. */
  predicate Holds(ts: seq<Token>, record: Option<Module>)
    requires AllWellFormed(ts)
  {
    && Fault(ts).None?
    && (record.None? <==> LastName(ts).None?)
    && (record.Some? ==> record.value == Collect(NameOf(ts[LastName(ts).value]), ts[LastName(ts).value + 1..]))
  }

  /** The effect of one token on the record, when its lookup succeeds. */
  function Apply(record: Option<Module>, t: Token): Option<Module>
    requires WellFormed(t) && TokenFault(t, record.Some?).None?
  {
    if t.kind == ModuleName then Some(Module(NameOf(t), [], [], [], [], [], [], []))
    else if t.kind == ParameterDecl then
      var m := record.value;
      Some(m.(parameters := m.parameters + [ParameterOf(t)]))
    else if t.kind == PortDecl then
      var m := record.value;
      match ListOf(DirectionOf(t)).value
      case InputPorts => Some(m.(inputPorts := m.inputPorts + [PortOf(t)]))
      case OutputPorts => Some(m.(outputPorts := m.outputPorts + [PortOf(t)]))
      case InoutPorts => Some(m.(inoutPorts := m.inoutPorts + [PortOf(t)]))
    else if t.kind == PortDeclIntf then
      var m := record.value;
      var b := BucketOf(InterfacePortOf(t).modport);
      if b == Incoming then Some(m.(incomingInterfaces := m.incomingInterfaces + [InterfacePortOf(t)]))
      else if b == Outgoing then Some(m.(outgoingInterfaces := m.outgoingInterfaces + [InterfacePortOf(t)]))
      else Some(m.(interfaces := m.interfaces + [InterfacePortOf(t)]))
    else record
  }

  lemma AppendLast(ts: seq<Token>, t: Token)
    ensures (ts + [t])[..|ts|] == ts && (ts + [t])[|ts|] == t
  {
  }

  lemma FaultAppend(ts: seq<Token>, t: Token)
    requires AllWellFormed(ts) && WellFormed(t)
    ensures AllWellFormed(ts + [t])
    ensures Fault(ts + [t]) == if Fault(ts).Some? then Fault(ts) else TokenFault(t, LastName(ts).Some?)
  {
    AppendLast(ts, t);
  }

  lemma LastNameAppend(ts: seq<Token>, t: Token)
    ensures LastName(ts + [t]) == if t.kind == ModuleName then Some(|ts|) else LastName(ts)
  {
    AppendLast(ts, t);
  }

  lemma ParamsAppend(ts: seq<Token>, t: Token)
    requires AllWellFormed(ts) && WellFormed(t)
    ensures AllWellFormed(ts + [t])
    ensures Params(ts + [t]) == Params(ts) + if t.kind == ParameterDecl then [ParameterOf(t)] else []
  {
    AppendLast(ts, t);
  }

  lemma PortsAppend(ts: seq<Token>, t: Token, l: PortList)
    requires AllWellFormed(ts) && WellFormed(t)
    ensures AllWellFormed(ts + [t])
    ensures Ports(ts + [t], l) == Ports(ts, l) + if t.kind == PortDecl && ListOf(DirectionOf(t)) == Some(l) then [PortOf(t)] else []
  {
    AppendLast(ts, t);
  }

  lemma InterfacesAppend(ts: seq<Token>, t: Token, b: Bucket)
    requires AllWellFormed(ts) && WellFormed(t)
    ensures AllWellFormed(ts + [t])
    ensures Interfaces(ts + [t], b) == Interfaces(ts, b)
      + if t.kind == PortDeclIntf && BucketOf(InterfacePortOf(t).modport) == b then [InterfacePortOf(t)] else []
  {
    AppendLast(ts, t);
  }

  /** Each list of the record after one more token: the list before it, and the token's entry if it belongs there. */
  lemma CollectStep(name: string, ts: seq<Token>, t: Token)
    requires AllWellFormed(ts) && WellFormed(t)
    ensures AllWellFormed(ts + [t])
    ensures var m := Collect(name, ts); var n := Collect(name, ts + [t]);
      && n.name == m.name
      && n.parameters == m.parameters + (if t.kind == ParameterDecl then [ParameterOf(t)] else [])
      && n.inputPorts == m.inputPorts + (if t.kind == PortDecl && ListOf(DirectionOf(t)) == Some(InputPorts) then [PortOf(t)] else [])
      && n.outputPorts == m.outputPorts + (if t.kind == PortDecl && ListOf(DirectionOf(t)) == Some(OutputPorts) then [PortOf(t)] else [])
      && n.inoutPorts == m.inoutPorts + (if t.kind == PortDecl && ListOf(DirectionOf(t)) == Some(InoutPorts) then [PortOf(t)] else [])
      && n.interfaces == m.interfaces
           + (if t.kind == PortDeclIntf && BucketOf(InterfacePortOf(t).modport) == Undirected then [InterfacePortOf(t)] else [])
      && n.incomingInterfaces == m.incomingInterfaces
           + (if t.kind == PortDeclIntf && BucketOf(InterfacePortOf(t).modport) == Incoming then [InterfacePortOf(t)] else [])
      && n.outgoingInterfaces == m.outgoingInterfaces
           + (if t.kind == PortDeclIntf && BucketOf(InterfacePortOf(t).modport) == Outgoing then [InterfacePortOf(t)] else [])
  {
    ParamsAppend(ts, t);
    PortsAppend(ts, t, InputPorts);
    PortsAppend(ts, t, OutputPorts);
    PortsAppend(ts, t, InoutPorts);
    InterfacesAppend(ts, t, Undirected);
    InterfacesAppend(ts, t, Incoming);
    InterfacesAppend(ts, t, Outgoing);
  }

  /** Appending a declaration to the tokens after the name extends exactly the list the builder appends it to. */
  lemma CollectAppend(name: string, ts: seq<Token>, t: Token)
    requires AllWellFormed(ts) && WellFormed(t)
    requires t.kind != ModuleName && TokenFault(t, true).None?
    ensures AllWellFormed(ts + [t])
    ensures Some(Collect(name, ts + [t])) == Apply(Some(Collect(name, ts)), t)
  {
    CollectStep(name, ts, t);
    var m := Collect(name, ts);
    var n := Collect(name, ts + [t]);
    if t.kind == ParameterDecl {
      assert n == m.(parameters := m.parameters + [ParameterOf(t)]);
    } else if t.kind == PortDecl {
      match ListOf(DirectionOf(t)).value
      case InputPorts =>
        assert n == m.(inputPorts := m.inputPorts + [PortOf(t)]);
      case OutputPorts =>
        assert n == m.(outputPorts := m.outputPorts + [PortOf(t)]);
      case InoutPorts =>
        assert n == m.(inoutPorts := m.inoutPorts + [PortOf(t)]);
    } else if t.kind == PortDeclIntf {
      match BucketOf(InterfacePortOf(t).modport)
      case Incoming =>
        assert n == m.(incomingInterfaces := m.incomingInterfaces + [InterfacePortOf(t)]);
      case Outgoing =>
        assert n == m.(outgoingInterfaces := m.outgoingInterfaces + [InterfacePortOf(t)]);
      case Undirected =>
        assert n == m.(interfaces := m.interfaces + [InterfacePortOf(t)]);
    } else {
      assert n == m;
    }
  }

  /** A module name token starts a fresh record, whatever came before. */
  lemma HoldsName(ts: seq<Token>, t: Token)
    requires AllWellFormed(ts) && WellFormed(t) && t.kind == ModuleName && Fault(ts).None?
    ensures AllWellFormed(ts + [t])
    ensures Holds(ts + [t], Some(Module(NameOf(t), [], [], [], [], [], [], [])))
  {
    FaultAppend(ts, t);
    LastNameAppend(ts, t);
    AppendLast(ts, t);
    assert (ts + [t])[|ts| + 1..] == [];
  }

  /** A declaration after a module name joins the record built since that name. */
  lemma HoldsDecl(ts: seq<Token>, m: Module, t: Token)
    requires AllWellFormed(ts) && WellFormed(t) && Holds(ts, Some(m))
    requires t.kind != ModuleName && TokenFault(t, true).None?
    ensures AllWellFormed(ts + [t])
    ensures Holds(ts + [t], Apply(Some(m), t))
  {
    var u := ts + [t];
    FaultAppend(ts, t);
    LastNameAppend(ts, t);
    AppendLast(ts, t);
    var j := LastName(ts).value;
    assert LastName(u) == Some(j);
    assert u[j + 1..] == ts[j + 1..] + [t];
    assert u[j] == ts[j];
    assert AllWellFormed(ts[j + 1..]);
    CollectAppend(NameOf(ts[j]), ts[j + 1..], t);
    assert Apply(Some(m), t).value == Collect(NameOf(u[j]), u[j + 1..]);
  }

  /** One token of the builder loop, as the reference sees it. */
  lemma HoldsStep(ts: seq<Token>, record: Option<Module>, t: Token)
    requires AllWellFormed(ts) && WellFormed(t) && Holds(ts, record)
    ensures AllWellFormed(ts + [t])
    ensures TokenFault(t, record.Some?).Some? ==> Fault(ts + [t]) == TokenFault(t, record.Some?)
    ensures TokenFault(t, record.Some?).None? ==> Holds(ts + [t], Apply(record, t))
  {
    FaultAppend(ts, t);
    if t.kind == ModuleName {
      HoldsName(ts, t);
    } else if TokenFault(t, record.Some?).None? {
      if record.Some? {
        HoldsDecl(ts, record.value, t);
      } else {
        LastNameAppend(ts, t);
        AppendLast(ts, t);
      }
    }
  }

  /** Once a token has failed, the tokens after it do not matter: the builder has already raised. */
  lemma {:induction false} FaultStops(ts: seq<Token>, n: nat)
    requires AllWellFormed(ts) && n <= |ts|
    requires AllWellFormed(ts[..n]) && Fault(ts[..n]).Some?
    ensures Interpretation(ts) == MissingKey(Fault(ts[..n]).value)
    decreases |ts| - n
  {
    if n == |ts| {
      assert ts[..n] == ts;
    } else {
      var init := ts[..|ts| - 1];
      assert init[..n] == ts[..n];
      FaultStops(init, n);
    }
  }

  /**
    One iteration of the builder loop: the key whose lookup fails, if one
    does, and otherwise the record with the token's entry appended.
   */
  method BuildStep(record: Option<Module>, t: Token) returns (fault: Option<string>, next: Option<Module>)
    requires WellFormed(t)
    ensures fault == TokenFault(t, record.Some?)
    ensures fault.None? ==> next == Apply(record, t)
  {
    fault, next := None, record;
    if t.kind == ModuleName {
      next := Some(Module(NameOf(t), [], [], [], [], [], [], []));
    } else if t.kind == ParameterDecl {
      if record.None? {
        return Some("parameters"), record;
      }
      var p := ParameterOf(t);
      next := Some(record.value.(parameters := record.value.parameters + [p]));
    } else if t.kind == PortDecl {
      var p := PortOf(t);
      var key := PortsKey(DirectionOf(t));
      ListOfKey(DirectionOf(t));
      if record.None? || key !in PortKeys {
        return Some(key), record;
      }
      var m := record.value;
      if key == "input_ports" {
        next := Some(m.(inputPorts := m.inputPorts + [p]));
      } else if key == "output_ports" {
        next := Some(m.(outputPorts := m.outputPorts + [p]));
      } else {
        next := Some(m.(inoutPorts := m.inoutPorts + [p]));
      }
    } else if t.kind == PortDeclIntf {
      var p := InterfacePortOf(t);
      var b := BucketOf(p.modport);
      if record.None? {
        return Some(BucketKey(b)), record;
      }
      var m := record.value;
      if b == Incoming {
        next := Some(m.(incomingInterfaces := m.incomingInterfaces + [p]));
      } else if b == Outgoing {
        next := Some(m.(outgoingInterfaces := m.outgoingInterfaces + [p]));
      } else {
        next := Some(m.(interfaces := m.interfaces + [p]));
      }
    }
  }

  /** `interpret_systemverilog`: one pass over the tokens, updating the record. */
  method Interpret(tokens: seq<Token>) returns (r: Outcome)
    requires AllWellFormed(tokens)
    ensures r == Interpretation(tokens)
  {
    var record: Option<Module> := None;
    for i := 0 to |tokens|
      invariant AllWellFormed(tokens[..i])
      invariant Holds(tokens[..i], record)
    {
      var t := tokens[i];
      assert tokens[..i + 1] == tokens[..i] + [t];
      HoldsStep(tokens[..i], record, t);
      var fault, next := BuildStep(record, t);
      if fault.Some? {
        FaultStops(tokens, i + 1);
        return MissingKey(fault.value);
      }
      record := next;
    }
    assert tokens[..|tokens|] == tokens;
    if record.None? {
      return NoModule;
    }
    return Built(record.value);
  }

  // ---------------------------------------------------------------------
  // Properties of the builder
  // ---------------------------------------------------------------------

  predicate IsDecl(k: Kind)
  {
    k == ParameterDecl || k == PortDecl || k == PortDeclIntf
  }

  /** The number of declaration tokens in `ts`. */
  function DeclCount(ts: seq<Token>): nat
  {
    if |ts| == 0 then 0 else DeclCount(ts[..|ts| - 1]) + if IsDecl(ts[|ts| - 1].kind) then 1 else 0
  }

  function Total(m: Module): nat
  {
    |m.parameters| + |m.inputPorts| + |m.outputPorts| + |m.inoutPorts|
      + |m.interfaces| + |m.incomingInterfaces| + |m.outgoingInterfaces|
  }

  /**
    When every lookup succeeds, each declaration lands in exactly one of the
    seven lists: together they hold as many entries as there are declarations.
   */
  lemma {:induction false} CollectPartition(name: string, ts: seq<Token>)
    requires AllWellFormed(ts)
    requires forall i :: 0 <= i < |ts| ==> TokenFault(ts[i], true).None?
    ensures Total(Collect(name, ts)) == DeclCount(ts)
  {
    if |ts| > 0 {
      var init := ts[..|ts| - 1];
      var t := ts[|ts| - 1];
      assert init + [t] == ts;
      assert AllWellFormed(init);
      CollectPartition(name, init);
      ParamsAppend(init, t);
      PortsAppend(init, t, InputPorts);
      PortsAppend(init, t, OutputPorts);
      PortsAppend(init, t, InoutPorts);
      InterfacesAppend(init, t, Undirected);
      InterfacesAppend(init, t, Incoming);
      InterfacesAppend(init, t, Outgoing);
      if t.kind == PortDecl {
        assert ListOf(DirectionOf(t)).Some?;
      }
    }
  }

  /** Interface ports are sorted by modport: incoming ones first, then outgoing, the rest undirected. */
  lemma {:induction false} InterfacesSorted(ts: seq<Token>)
    requires AllWellFormed(ts)
    ensures forall p :: p in Interfaces(ts, Incoming) ==> p.modport in IncomingModports
    ensures forall p :: p in Interfaces(ts, Outgoing) ==> p.modport !in IncomingModports && p.modport in OutgoingModports
    ensures forall p :: p in Interfaces(ts, Undirected) ==> p.modport !in IncomingModports && p.modport !in OutgoingModports
  {
    if |ts| > 0 {
      InterfacesSorted(ts[..|ts| - 1]);
    }
  }

  /** The first failing key comes from a token that fails while the tokens before it do not. */
  lemma {:induction false} FaultWitness(ts: seq<Token>)
    requires AllWellFormed(ts) && Fault(ts).Some?
    ensures exists i :: (0 <= i < |ts| && AllWellFormed(ts[..i]) && Fault(ts[..i]).None?
      && TokenFault(ts[i], LastName(ts[..i]).Some?) == Fault(ts))
  {
    var init := ts[..|ts| - 1];
    if Fault(init).Some? {
      FaultWitness(init);
      var i :| 0 <= i < |init| && AllWellFormed(init[..i]) && Fault(init[..i]).None?
        && TokenFault(init[i], LastName(init[..i]).Some?) == Fault(init);
      assert init[..i] == ts[..i];
    } else {
      var i := |ts| - 1;
      assert ts[..i] == init;
    }
  }

  /** The shape of a scanned token list: the keyword, then the one and only module name. */
  predicate HeaderShaped(ts: seq<Token>)
  {
    && AllWellFormed(ts) && |ts| >= 2
    && ts[0].kind == ModuleKeyword && ts[1].kind == ModuleName
    && forall i :: 0 <= i < |ts| && i != 1 ==> ts[i].kind != ModuleName
  }

  /**
    On a header-shaped token list the builder never returns the empty
    record: it either builds the record named by the second token, holding
    the declarations after it, or fails on a port whose direction is not
    input, output or inout.
   */
  lemma HeaderOutcome(ts: seq<Token>)
    requires HeaderShaped(ts)
    ensures !Interpretation(ts).NoModule?
    ensures Interpretation(ts).Built? ==> Interpretation(ts).record == Collect(NameOf(ts[1]), ts[2..])
    ensures Interpretation(ts).MissingKey? ==> exists i :: (2 <= i < |ts| && ts[i].kind == PortDecl
      && Interpretation(ts).key == PortsKey(DirectionOf(ts[i])) && Interpretation(ts).key !in PortKeys)
  {
    assert LastName(ts) == Some(1);
    if Fault(ts).Some? {
      FaultWitness(ts);
      var i :| 0 <= i < |ts| && AllWellFormed(ts[..i]) && Fault(ts[..i]).None?
        && TokenFault(ts[i], LastName(ts[..i]).Some?) == Fault(ts);
      if i >= 2 {
        assert ts[..i][1] == ts[1];
        assert LastName(ts[..i]).Some?;
        if ts[i].kind == PortDecl {
          ListOfKey(DirectionOf(ts[i]));
        }
      }
    }
  }

  /** What the builder makes of the tokens of a successful scan. */
  lemma ScannedOutcome(code: string)
    requires Scan(code, Root).Some?
    ensures HeaderShaped(Scan(code, Root).value)
    ensures !Interpretation(Scan(code, Root).value).NoModule?
  {
    ScanShape(code, Root);
    ScanFromRoot(code);
    HeaderOutcome(Scan(code, Root).value);
  }

  /** A port declared without a direction makes the builder look up `None_ports`, which the record does not have. */
  lemma NoDirectionFails()
    ensures var name := Token(ModuleName, [Some("m")]);
      var port := Token(PortDecl, [None, None, None, None, None, None, None, Some("x"), None]);
      Interpretation([name, port]) == MissingKey("None_ports")
  {
    var name := Token(ModuleName, [Some("m")]);
    var port := Token(PortDecl, [None, None, None, None, None, None, None, Some("x"), None]);
    var ts := [name, port];
    assert WellFormed(name) && WellFormed(port);
    assert ts[..1] == [name] && [name][..0] == [];
    assert LastName([name]) == Some(0);
    assert DirectionOf(port) == None;
    assert PortsKey(None) == "None_ports";
    assert Fault([name]) == None;
    assert TokenFault(port, true) == Some("None_ports");
    assert Fault(ts) == Some("None_ports");
  }
}
