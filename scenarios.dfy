/**
 * A worked mesh: three vertices (-1,0,0), (1,0,0), (0,-1,5). It shows the
 * first-occurrence tie-break (Posterior and Inferior both fall on vertex 0,
 * which ties vertex 1 in z and in y) and the exclusion of a vertex lying
 * exactly on the centre x from the second pass (vertex 2).
 */
module Scenarios {
  import opened Options
  import opened Geometry
  import opened ExtremaAnalyzer
  import opened Numerals
  import opened ReportWriter

  const ThreePoints := [Vertex(-1.0, 0.0, 0.0), Vertex(1.0, 0.0, 0.0), Vertex(0.0, -1.0, 5.0)]

  /** The first pass on the worked mesh, and its centre. */
  lemma ThreePointWholeMesh()
    ensures Pick(ThreePoints, LeftRule) == Some(0)
    ensures Pick(ThreePoints, RightRule) == Some(1)
    ensures Pick(ThreePoints, PosteriorRule) == Some(0)
    ensures Pick(ThreePoints, InferiorRule) == Some(0)
    ensures XCenter(ThreePoints) == 0.0
  {
    var vs := ThreePoints;
    LeftIsFirstLowestX(vs, 0);
    RightIsFirstHighestX(vs, 1);
    PosteriorIsFirstLowestZ(vs, 0);
    InferiorIsFirstHighestY(vs, 0);
  }

  /** The second pass on the worked mesh: vertex 2, at x = 0.0, is on neither side. */
  lemma ThreePointHalves()
    ensures Pick(ThreePoints, LeftSuperiorRule(0.0)) == Some(0)
    ensures Pick(ThreePoints, RightSuperiorRule(0.0)) == Some(1)
    ensures Pick(ThreePoints, LeftAnteriorRule(0.0)) == Some(0)
    ensures Pick(ThreePoints, RightAnteriorRule(0.0)) == Some(1)
  {
    var vs := ThreePoints;
    LeftSuperiorIsFirstLowestY(vs, 0.0, 0);
    RightSuperiorIsFirstLowestY(vs, 0.0, 1);
    LeftAnteriorIsFirstHighestZ(vs, 0.0, 0);
    RightAnteriorIsFirstHighestZ(vs, 0.0, 1);
  }

  /**
   * The labels of the worked mesh: vertex 0 is Left (and Posterior,
   * Inferior, LeftSuperior, LeftAnterior) and gets 1, vertex 1 is Right
   * (and RightSuperior, RightAnterior) and gets 2, vertex 2 gets 0.
   */
  lemma ThreePointLabels()
    ensures AttributeFile(3, [0, 1, 0, 0, 0, 1, 0, 1])
         == ["NUMBER_OF_POINTS=3", "DIMENSION=1", "TYPE=Scalar", "1", "2", "0"]
  {
    var order := [0, 1, 0, 0, 0, 1, 0, 1];
    var lines := AttributeFile(3, order);
    assert Label(0, order) == 1 && Label(1, order) == 2 && Label(2, order) == 0;
    assert DecimalString(0) == "0" && DecimalString(1) == "1";
    assert DecimalString(2) == "2" && DecimalString(3) == "3";
    assert lines[3..] == LabelLines(3, order) == ["1", "2", "0"];
    assert "NUMBER_OF_POINTS=" + DecimalString(3) == "NUMBER_OF_POINTS=3";
    assert lines[..3] == ["NUMBER_OF_POINTS=3", "DIMENSION=1", "TYPE=Scalar"];
    assert lines == lines[..3] + lines[3..];
  }

  /**
   * The worked mesh end to end: starting from zero-initialised landmarks,
   * the landmark indices the two passes leave, taken in label priority
   * order, give the attribute file with the labels 1, 2, 0.
   */
  lemma ThreePointAttributeFile()
    ensures var c := XCenter(ThreePoints);
      AttributeFile(3, [Chosen(ThreePoints, LeftRule, Unset).index,
                        Chosen(ThreePoints, RightRule, Unset).index,
                        Chosen(ThreePoints, InferiorRule, Unset).index,
                        Chosen(ThreePoints, PosteriorRule, Unset).index,
                        Chosen(ThreePoints, LeftAnteriorRule(c), Unset).index,
                        Chosen(ThreePoints, RightAnteriorRule(c), Unset).index,
                        Chosen(ThreePoints, LeftSuperiorRule(c), Unset).index,
                        Chosen(ThreePoints, RightSuperiorRule(c), Unset).index])
      == ["NUMBER_OF_POINTS=3", "DIMENSION=1", "TYPE=Scalar", "1", "2", "0"]
  {
    ThreePointWholeMesh();
    ThreePointHalves();
    ThreePointLabels();
  }
}
