/**
 * The Graphviz decay-chain viewer of decay_math/decay_chain_viewer.py: a chain of
 * isotopes is turned into node and edge statements, one edge per consecutive pair,
 * and saved under a file name derived from the isotope key.
 */
module DecayChainViewer {
  import opened Strings

  /** decay_chains */
  const DecayChains: map<string, seq<string>> := map[
    "U-238" := ["U-238", "Th-234", "Pa-234", "U-234", "Th-230", "Ra-226", "Rn-222"],
    "Th-232" := ["Th-232", "Ra-228", "Ac-228", "Th-228", "Ra-224", "Rn-220"],
    "Pu-239" := ["Pu-239", "U-235", "Th-231", "Pa-231"]
  ]

  /**
   * The part of graphviz.Digraph that draw_decay_chain uses: it records every node and
   * edge statement in the order they are issued (repeated node statements included;
   * Graphviz merges them into one node when it lays the graph out).
   */
  class Digraph {
    const comment: string
    var nodes: seq<string>
    var edges: seq<(string, string)>

    constructor (comment: string)
      ensures this.comment == comment && nodes == [] && edges == []
    {
      this.comment := comment;
      nodes := [];
      edges := [];
    }

    method Node(name: string)
      modifies this
      ensures nodes == old(nodes) + [name] && edges == old(edges)
    {
      nodes := nodes + [name];
    }

    method Edge(tail: string, head: string)
      modifies this
      ensures edges == old(edges) + [(tail, head)] && nodes == old(nodes)
    {
      edges := edges + [(tail, head)];
    }
  }

  /** What the graph holds when dot.render is called, and the file name it is given. */
  datatype Rendering = Rendering(comment: string, nodes: seq<string>, edges: seq<(string, string)>, filename: string)

  datatype DrawOutcome =
    | NotFound(message: string)     // the key is not in the table; nothing is built
    | Rendered(graph: Rendering)

  /** The node statements issued for a chain: both ends of every consecutive pair. */
  function NodeCalls(chain: seq<string>): seq<string> {
    if |chain| < 2 then []
    else NodeCalls(chain[..|chain| - 1]) + [chain[|chain| - 2], chain[|chain| - 1]]
  }

  /** The edge statements issued for a chain: one per consecutive pair. */
  function EdgeList(chain: seq<string>): seq<(string, string)> {
    if |chain| < 2 then []
    else EdgeList(chain[..|chain| - 1]) + [(chain[|chain| - 2], chain[|chain| - 1])]
  }

  /** `f"{isotope_name.replace('-', '_')}_decay_chain"` */
  function ChainFilename(isotopeName: string): string {
    ReplaceChar(isotopeName, '-', '_') + "_decay_chain"
  }

  /** What draw_decay_chain builds for a key (specification of DrawDecayChain). */
  function ChainDrawing(chains: map<string, seq<string>>, isotopeName: string): DrawOutcome {
    if isotopeName !in chains then NotFound("⚠️ Isotope '" + isotopeName + "' not found.")
    else
      var chain := chains[isotopeName];
      Rendered(Rendering("Decay Chain of " + isotopeName, NodeCalls(chain), EdgeList(chain),
                         ChainFilename(isotopeName)))
  }

  /** draw_decay_chain: the node and edge statements are issued one pair at a time. */
  method DrawDecayChain(chains: map<string, seq<string>>, isotopeName: string) returns (outcome: DrawOutcome)
    ensures outcome == ChainDrawing(chains, isotopeName)
  {
    if isotopeName !in chains {
      return NotFound("⚠️ Isotope '" + isotopeName + "' not found.");
    }
    var chain := chains[isotopeName];
    var dot := new Digraph("Decay Chain of " + isotopeName);
    var i := 0;
    while i < |chain| - 1
      invariant 0 <= i && (|chain| > 0 ==> i < |chain|)
      invariant dot.comment == "Decay Chain of " + isotopeName
      invariant |chain| > 0 ==> dot.nodes == NodeCalls(chain[..i + 1]) && dot.edges == EdgeList(chain[..i + 1])
      invariant |chain| == 0 ==> dot.nodes == [] && dot.edges == []
    {
      dot.Node(chain[i]);
      dot.Node(chain[i + 1]);
      dot.Edge(chain[i], chain[i + 1]);
      assert chain[..i + 2][..i + 1] == chain[..i + 1];
      i := i + 1;
    }
    if |chain| > 0 {
      assert chain[..i + 1] == chain;
    }
    var filename := ReplaceChar(isotopeName, '-', '_') + "_decay_chain";
    outcome := Rendered(Rendering(dot.comment, dot.nodes, dot.edges, filename));
  }

  /** A key that is not in the table returns before any graph is built. */
  lemma UnknownKeyNotFound(chains: map<string, seq<string>>, isotopeName: string)
    ensures ChainDrawing(chains, isotopeName).NotFound? <==> isotopeName !in chains
  {
  }

  /** A chain of n >= 1 isotopes yields n - 1 edges, edge i running from chain[i] to chain[i + 1]. */
  lemma {:induction false} EdgeListAt(chain: seq<string>)
    requires |chain| >= 1
    ensures |EdgeList(chain)| == |chain| - 1
    ensures forall i :: 0 <= i < |chain| - 1 ==> EdgeList(chain)[i] == (chain[i], chain[i + 1])
  {
    if |chain| >= 2 {
      EdgeListAt(chain[..|chain| - 1]);
    }
  }

  /** In a chain of two or more isotopes every isotope gets a node statement, and nothing else does. */
  lemma {:induction false} NodeCallsCoverChain(chain: seq<string>)
    requires |chain| >= 2
    ensures forall x :: x in NodeCalls(chain) <==> x in chain
  {
    var front := chain[..|chain| - 1];
    if |chain| > 2 {
      NodeCallsCoverChain(front);
    }
    assert forall x :: x in chain <==> x in front || x == chain[|chain| - 1];
  }

  /** A chain of a single isotope draws no node and no edge. */
  lemma SingleIsotopeDrawsNothing(chain: seq<string>)
    requires |chain| == 1
    ensures NodeCalls(chain) == [] && EdgeList(chain) == []
  {
  }

  /** The file name has no '-' left and ends in "_decay_chain". */
  lemma FilenameHasNoHyphen(isotopeName: string)
    ensures '-' !in ChainFilename(isotopeName)
    ensures |ChainFilename(isotopeName)| == |isotopeName| + 12
    ensures ChainFilename(isotopeName)[|isotopeName|..] == "_decay_chain"
  {
    var f := ChainFilename(isotopeName);
    forall i | 0 <= i < |f| ensures f[i] != '-' {
      if i >= |isotopeName| {
        assert f[i] == "_decay_chain"[i - |isotopeName|];
      }
    }
  }

  /** For instance, U-238 is drawn as six edges and saved as U_238_decay_chain. */
  lemma Uranium238Example()
    ensures ChainDrawing(DecayChains, "U-238").Rendered?
    ensures |ChainDrawing(DecayChains, "U-238").graph.edges| == 6
    ensures ChainDrawing(DecayChains, "U-238").graph.filename == "U_238_decay_chain"
  {
    var chain := DecayChains["U-238"];
    assert |chain| == 7;
    EdgeListAt(chain);
    assert ReplaceChar("U-238", '-', '_') == "U_238";
  }

  // ---------------------------------------------------------------- the input loop

  /** The command that ends decay_chain_viewer: "exit" in any letter case, after stripping. */
  predicate IsExit(line: string) {
    Lower(Strip(line)) == "exit"
  }

  /** The stripped lines read before the exit command: the keys the viewer draws. */
  function SessionKeys(lines: seq<string>): seq<string> {
    if |lines| == 0 || IsExit(lines[0]) then [] else [Strip(lines[0])] + SessionKeys(lines[1..])
  }

  /** What the viewer draws for a sequence of input lines (specification of RunViewer). */
  function ViewerSession(chains: map<string, seq<string>>, lines: seq<string>): (r: seq<DrawOutcome>)
    ensures |r| == |SessionKeys(lines)|
    ensures forall i :: 0 <= i < |r| ==> r[i] == ChainDrawing(chains, SessionKeys(lines)[i])
  {
    var keys := SessionKeys(lines);
    seq(|keys|, i requires 0 <= i < |keys| => ChainDrawing(chains, keys[i]))
  }

  /**
   * decay_chain_viewer: each stripped line is drawn until the exit command. The console
   * is the sequence `lines`; running out of lines ends the session as well.
   */
  method RunViewer(chains: map<string, seq<string>>, lines: seq<string>) returns (outcomes: seq<DrawOutcome>)
    ensures outcomes == ViewerSession(chains, lines)
  {
    outcomes := [];
    ghost var drawn: seq<string> := [];
    var k := 0;
    while k < |lines|
      invariant 0 <= k <= |lines|
      invariant SessionKeys(lines) == drawn + SessionKeys(lines[k..])
      invariant |outcomes| == |drawn|
      invariant forall i :: 0 <= i < |drawn| ==> outcomes[i] == ChainDrawing(chains, drawn[i])
    {
      KeysFrom(lines, k);
      var isotope := Strip(lines[k]);
      if Lower(isotope) == "exit" {
        break;
      }
      var outcome := DrawDecayChain(chains, isotope);
      assert drawn + ([isotope] + SessionKeys(lines[k + 1..])) == (drawn + [isotope]) + SessionKeys(lines[k + 1..]);
      outcomes := outcomes + [outcome];
      drawn := drawn + [isotope];
      k := k + 1;
    }
    assert SessionKeys(lines) == drawn;
  }

  /** One step of the session, from line k on. */
  lemma KeysFrom(lines: seq<string>, k: nat)
    requires k < |lines|
    ensures IsExit(lines[k]) ==> SessionKeys(lines[k..]) == []
    ensures !IsExit(lines[k]) ==> SessionKeys(lines[k..]) == [Strip(lines[k])] + SessionKeys(lines[k + 1..])
  {
    assert lines[k..][0] == lines[k];
    assert lines[k..][1..] == lines[k + 1..];
  }

  /** The session draws exactly the lines before the first exit command, in order. */
  lemma SessionStopsAtExit(chains: map<string, seq<string>>, lines: seq<string>, k: nat)
    requires k < |lines| && IsExit(lines[k])
    requires forall i :: 0 <= i < k ==> !IsExit(lines[i])
    ensures |ViewerSession(chains, lines)| == k
    ensures forall i :: 0 <= i < k ==> ViewerSession(chains, lines)[i] == ChainDrawing(chains, Strip(lines[i]))
  {
    KeysBeforeExit(lines, k);
  }

  lemma {:induction false} KeysBeforeExit(lines: seq<string>, k: nat)
    requires k < |lines| && IsExit(lines[k])
    requires forall i :: 0 <= i < k ==> !IsExit(lines[i])
    ensures SessionKeys(lines) == seq(k, i requires 0 <= i < k => Strip(lines[i]))
  {
    if k > 0 {
      var rest := lines[1..];
      assert !IsExit(lines[0]);
      assert forall i :: 0 <= i < k - 1 ==> rest[i] == lines[i + 1];
      KeysBeforeExit(rest, k - 1);
      assert seq(k, i requires 0 <= i < k => Strip(lines[i])) ==
        [Strip(lines[0])] + seq(k - 1, i requires 0 <= i < k - 1 => Strip(rest[i]));
    }
  }

  /** Letter case does not matter to the exit command. */
  lemma ExitIgnoresCase(l1: string, l2: string)
    requires Lower(l1) == Lower(l2)
    ensures IsExit(l1) <==> IsExit(l2)
  {
    LowerStrip(l1);
    LowerStrip(l2);
  }
}
