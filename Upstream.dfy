/**
 * What the handlers send to the upstream GraphQL endpoint: the query texts,
 * laid out line by line as the handlers' triple-quoted templates are. The
 * HTTP transport itself is not modelled; each operation receives the
 * upstream's answer as a parameter.
 */
module Upstream {

  /** The token fields every token query selects, in the order it lists them. */
  const TokenFields: seq<string> := ["id", "name", "symbol", "totalLiquidity", "totalSupply",
                                     "tradeVolume", "tradeVolumeUSD", "txCount", "untrackedVolumeUSD"]

  function Spaces(n: nat): (s: string)
    ensures |s| == n && forall i :: 0 <= i < n ==> s[i] == ' '
  {
    seq(n, _ => ' ')
  }

  /** One template line: indentation, text, newline. */
  function Line(indent: nat, text: string): string {
    Spaces(indent) + text + "\n"
  }

  /** The selection block: each field name on its own line. */
  function FieldLines(indent: nat, fields: seq<string>): string {
    if fields == [] then "" else Line(indent, fields[0]) + FieldLines(indent, fields[1..])
  }

  /**
   * A token query whose template starts at column `indent`:
   * `{ tokens <arguments> { <fields> } }`, with `arguments` put in verbatim.
   */
  function TokensQuery(indent: nat, arguments: string): string {
    "\n"
    + Line(indent, "{")
    + Line(indent + 4, "tokens " + arguments + " {")
    + FieldLines(indent + 8, TokenFields)
    + Line(indent + 4, "}")
    + Line(indent, "}")
    + Spaces(indent)
  }

  /** The arguments can be read back from a token query. */
  lemma {:induction false} TokensQueryInjective(indent: nat, arguments: string, arguments': string)
    requires TokensQuery(indent, arguments) == TokensQuery(indent, arguments')
    ensures arguments == arguments'
  {
    var front := "\n" + Line(indent, "{") + Spaces(indent + 4) + "tokens ";
    var back := " {" + "\n" + FieldLines(indent + 8, TokenFields)
                + Line(indent + 4, "}") + Line(indent, "}") + Spaces(indent);
    assert TokensQuery(indent, arguments) == front + arguments + back;
    assert TokensQuery(indent, arguments') == front + arguments' + back;
    MiddleDetermined(front, arguments, arguments', back);
  }

  /** Texts with the same front and back and the same total agree in the middle. */
  lemma {:induction false} MiddleDetermined(front: string, mid: string, mid': string, back: string)
    requires front + mid + back == front + mid' + back
    ensures mid == mid'
  {
    var whole := front + mid + back;
    assert mid == whole[|front|..|front| + |mid|];
    assert mid' == (front + mid' + back)[|front|..|front| + |mid'|];
  }
}
