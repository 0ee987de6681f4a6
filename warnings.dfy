/** The warning records of the reStructuredText preview.

    A render returns, next to its HTML, the docutils `system_message` nodes it took out of the
    document. The editor turns each of them into a `DocUtilsWarning` (level, line, description).
    This module holds those records and that translation. */
module Warnings {

  /** A `system_message` node as far as the editor looks at it: its `level` and `line`
      attributes, and the text of the first paragraph among its children. */
  datatype WarningNode = WarningNode(level: int, line: int, text: string)

  /** The editor's warning record. */
  datatype DocUtilsWarning = DocUtilsWarning(level: int, line: int, description: string)

  /** What one call of a renderer returns: the HTML string and the warning nodes it removed,
      in document order. */
  datatype RenderResult = RenderResult(html: string, warningNodes: seq<WarningNode>)

  /** The record built for one node. */
  function ToWarning(node: WarningNode): (w: DocUtilsWarning)
  {
    DocUtilsWarning(node.level, node.line, node.text)
  }

  /** The translation as a map over the nodes: one warning per node, in the nodes' order, level
      and line from the node's attributes, description from its text. */
  function Translated(nodes: seq<WarningNode>): (ws: seq<DocUtilsWarning>)
    ensures |ws| == |nodes|
    ensures forall i :: 0 <= i < |nodes| ==>
      ws[i].level == nodes[i].level && ws[i].line == nodes[i].line && ws[i].description == nodes[i].text
  {
    if nodes == [] then [] else [ToWarning(nodes[0])] + Translated(nodes[1..])
  }

  /** The append loop that builds the `warnings` list when a render is published. */
  method CollectWarnings(nodes: seq<WarningNode>) returns (ws: seq<DocUtilsWarning>)
    ensures ws == Translated(nodes)
  {
    ws := [];
    var i := 0;
    while i < |nodes|
      invariant 0 <= i <= |nodes|
      invariant |ws| == i
      invariant forall k :: 0 <= k < i ==> ws[k] == ToWarning(nodes[k])
    {
      ws := ws + [ToWarning(nodes[i])];
      i := i + 1;
    }
  }
}
