/** The five quantities a mandate can bound. The set is fixed by the protocol. */
module Dimensions {

  datatype Dimension = SpendBdt | ToolCalls | RowsRead | ExternalEmails | WallClockS

  const EVERY_DIMENSION: seq<Dimension> :=
    [SpendBdt, ToolCalls, RowsRead, ExternalEmails, WallClockS]

  lemma EveryDimensionListed(d: Dimension)
    ensures d in EVERY_DIMENSION
  {
  }

  lemma AllDimensionsListed()
    ensures forall d: Dimension :: d in EVERY_DIMENSION
  {
    forall d: Dimension
      ensures d in EVERY_DIMENSION
    {
      EveryDimensionListed(d);
    }
  }

  /** The name a dimension has on the wire and in a token. */
  function Name(d: Dimension): string {
    match d
    case SpendBdt => "spend_bdt"
    case ToolCalls => "tool_calls"
    case RowsRead => "rows_read"
    case ExternalEmails => "external_emails"
    case WallClockS => "wall_clock_s"
  }

  lemma NamesDiffer(d: Dimension, e: Dimension)
    requires Name(d) == Name(e)
    ensures d == e
  {
    var n, m := Name(d), Name(e);
    assert n[0] == m[0] && n[|n| - 1] == m[|m| - 1];
  }
}
