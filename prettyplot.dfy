/**
  The pipeline of `sv_prettyplot`: collect the documentation comments, strip
  all comments, scan the header, build the module record and lay out its
  diagram. Reading the file and writing the images are not modelled: the
  source text comes in as a parameter and the diagram goes out as data.
 */
module Prettyplot {
  import opened Opt
  import opened Text
  import opened Comments
  import opened Scanner
  import opened Builder
  import opened Layout
  import opened Emitter

  /** The source text the scanner sees: line comments blanked, block comments removed. */
  function Cleaned(code: string): string
  {
    StripBlocks(BlankLineComments(code), false)
  }

  /** `tokenize_systemverilog`: the documentation comments of the raw text, and the scan of its cleaned text. */
  method TokenizeSystemverilog(code: string) returns (tokens: Option<seq<Token>>, longComments: seq<string>, shortComments: seq<string>)
    ensures tokens == Scan(Cleaned(code), Root)
    ensures longComments == LongBodies(Split(code, LongDelims), false)
    ensures shortComments == ShortBodies(Split(code, ShortDelims), false)
  {
    longComments, shortComments := GetRstComments(code);
    var clean := RemoveComments(code);
    tokens := TokenizeAndParse(clean);
  }

  /**
    How `sv_prettyplot` ends: the scan fails (the builder is then handed
    `None` and the source crashes), a dictionary lookup fails with the key
    named, or the diagram is drawn and the comments are returned.
   */
  datatype PlotOutcome =
    | ParseFailed
    | KeyMissing(key: string)
    | Plotted(diagram: Diagram, longComments: seq<string>, shortComments: seq<string>)

  /** The outcome of `sv_prettyplot` on a source text. */
  function PlotOf(code: string, alwaysCoprime: bool): PlotOutcome
  {
    var scanned := Scan(Cleaned(code), Root);
    if scanned.None? then ParseFailed
    else
      ScanShape(Cleaned(code), Root);
      match Interpretation(scanned.value)
      case MissingKey(key) => KeyMissing(key)
      case NoModule => KeyMissing("name")
      case Built(m) =>
        Plotted(DiagramOf(m, alwaysCoprime), LongBodies(Split(code, LongDelims), false), ShortBodies(Split(code, ShortDelims), false))
  }

  /** `sv_prettyplot` without the file and image I/O. */
  method SvPrettyplot(code: string, alwaysCoprime: bool) returns (outcome: PlotOutcome)
    ensures outcome == PlotOf(code, alwaysCoprime)
  {
    var tokens, longComments, shortComments := TokenizeSystemverilog(code);
    if tokens.None? {
      return ParseFailed;
    }
    ScanShape(Cleaned(code), Root);
    var built := Interpret(tokens.value);
    if built.MissingKey? {
      return KeyMissing(built.key);
    }
    if built.NoModule? {
      return KeyMissing("name");
    }
    var diagram := Draw(built.record, alwaysCoprime);
    return Plotted(diagram, longComments, shortComments);
  }

  /**
    Once a header scans, the only failure left is a port declared without
    one of the directions `input`, `output`, `inout`; otherwise the diagram
    is titled with the module name the scan found, and its record holds the
    declarations after that name.
   */
  lemma PlotAfterScan(code: string, alwaysCoprime: bool)
    requires Scan(Cleaned(code), Root).Some?
    ensures var ts := Scan(Cleaned(code), Root).value;
      && AllWellFormed(ts) && |ts| >= 2 && ts[1].kind == ModuleName
      && PlotOf(code, alwaysCoprime) != ParseFailed
      && (PlotOf(code, alwaysCoprime).Plotted? ==>
            PlotOf(code, alwaysCoprime).diagram == DiagramOf(Collect(NameOf(ts[1]), ts[2..]), alwaysCoprime))
      && (PlotOf(code, alwaysCoprime).KeyMissing? ==> exists i :: (2 <= i < |ts| && ts[i].kind == PortDecl
            && PlotOf(code, alwaysCoprime).key == PortsKey(DirectionOf(ts[i]))
            && PlotOf(code, alwaysCoprime).key !in PortKeys))
  {
    ScannedOutcome(Cleaned(code));
    HeaderOutcome(Scan(Cleaned(code), Root).value);
  }

  /** The record is never empty after a scan, so the lookup of the module name cannot fail. */
  lemma NameNeverMissing(code: string, alwaysCoprime: bool)
    ensures PlotOf(code, alwaysCoprime) != KeyMissing("name")
  {
    if Scan(Cleaned(code), Root).Some? {
      PlotAfterScan(code, alwaysCoprime);
      var ts := Scan(Cleaned(code), Root).value;
      if PlotOf(code, alwaysCoprime).KeyMissing? {
        var i :| 2 <= i < |ts| && ts[i].kind == PortDecl
          && PlotOf(code, alwaysCoprime).key == PortsKey(DirectionOf(ts[i]));
        var key := PortsKey(DirectionOf(ts[i]));
        assert key[|key| - 1] == 's';
      }
    }
  }
}
