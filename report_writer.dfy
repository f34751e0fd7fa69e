/**
 * The two outputs of the program: the per-vertex attribute (label) file and
 * the landmark points file.
 */
module ReportWriter {
  import opened Geometry
  import opened Numerals

  /**
   * The label of vertex i, given the landmark indices in priority order
   * Left, Right, Inferior, Posterior, LeftAnterior, RightAnterior,
   * LeftSuperior, RightSuperior: the first landmark at i gives its position
   * (1-based) in that order, and a vertex that is no landmark gets 0.
   */
  function Label(i: int, order: seq<int>): (l: nat)
    requires |order| == 8
    ensures l <= 8
    ensures l == 0 <==> i !in order
    ensures l != 0 ==> order[l - 1] == i
    ensures forall p :: 0 <= p < l - 1 ==> order[p] != i
  {
    if i == order[0] then 1
    else if i == order[1] then 2
    else if i == order[2] then 3
    else if i == order[3] then 4
    else if i == order[4] then 5
    else if i == order[5] then 6
    else if i == order[6] then 7
    else if i == order[7] then 8
    else 0
  }

  /** The three header lines of the attribute file for n vertices. */
  function AttributeHeader(n: int): seq<string>
  {
    ["NUMBER_OF_POINTS=" + DecimalString(n), "DIMENSION=1", "TYPE=Scalar"]
  }

  /** The label lines of vertices 0 .. count-1. */
  function LabelLines(count: nat, order: seq<int>): (lines: seq<string>)
    requires |order| == 8
    ensures |lines| == count
  {
    seq(count, i requires 0 <= i < count => DecimalString(Label(i, order)))
  }

  /**
   * The attribute file: the header, then one label line per vertex index
   * 0 .. n-1 (none when the declared count is not positive).
   */
  function AttributeFile(n: int, order: seq<int>): (lines: seq<string>)
    requires |order| == 8
    ensures |lines| == 3 + (if n < 0 then 0 else n)
    ensures lines[..3] == AttributeHeader(n)
  {
    AttributeHeader(n) + LabelLines(if n < 0 then 0 else n, order)
  }

  /** The header's number reads back as the vertex count. */
  lemma AttributeHeaderReadsBack(n: int, order: seq<int>)
    requires |order| == 8
    ensures AttributeFile(n, order)[0][..17] == "NUMBER_OF_POINTS="
    ensures Atoi(AttributeFile(n, order)[0][17..]) == n
  {
    var line := AttributeFile(n, order)[0];
    assert line == "NUMBER_OF_POINTS=" + DecimalString(n);
    assert line[17..] == DecimalString(n);
    AtoiOfDecimal(n);
  }

  /**
   * Line 3 + i of the attribute file reads back as vertex i's label: a
   * number in 0..8 that is nonzero exactly at a landmark index.
   */
  lemma AttributeLabelReadsBack(n: int, order: seq<int>, i: int)
    requires |order| == 8
    requires 0 <= i < n
    ensures Atoi(AttributeFile(n, order)[3 + i]) == Label(i, order)
    ensures 0 <= Atoi(AttributeFile(n, order)[3 + i]) <= 8
    ensures Atoi(AttributeFile(n, order)[3 + i]) != 0 <==> i in order
  {
    var lines := AttributeFile(n, order);
    assert lines[3 + i] == LabelLines(n, order)[i];
    AtoiOfDecimal(Label(i, order));
  }
}
