/**
 * The program itself: its process-wide state (the vertex count, the vertex
 * list, and a vertex and an index per landmark) and the four procedures the
 * driver runs in turn, each updating that state in place.
 */
module MinMaxMeshReader {
  import opened Geometry
  import opened Numerals
  import opened MeshReader
  import opened ExtremaAnalyzer
  import opened ReportWriter

  class MeshState {
    var nbVertices: int
    var vertices: seq<Vertex>
    var left: Mark
    var right: Mark
    var posterior: Mark
    var inferior: Mark
    var leftSuperior: Mark
    var rightSuperior: Mark
    var leftAnterior: Mark
    var rightAnterior: Mark

    /** The vertex list holds exactly the declared number of vertices (none when that is negative). */
    ghost predicate Valid()
      reads this
    {
      |vertices| == if nbVertices < 0 then 0 else nbVertices
    }

    /** The landmark indices in the priority order of the attribute labels. */
    function LandmarkOrder(): (order: seq<int>)
      reads this
      ensures |order| == 8
    {
      [left.index, right.index, inferior.index, posterior.index,
       leftAnterior.index, rightAnterior.index, leftSuperior.index, rightSuperior.index]
    }

    /** Zero-initialised globals: no vertices, every landmark at the origin with index 0. */
    constructor ()
      ensures Valid()
      ensures nbVertices == 0 && vertices == []
      ensures left == Unset && right == Unset && posterior == Unset && inferior == Unset
      ensures leftSuperior == Unset && rightSuperior == Unset && leftAnterior == Unset && rightAnterior == Unset
    {
      nbVertices, vertices := 0, [];
      left, right, posterior, inferior := Unset, Unset, Unset, Unset;
      leftSuperior, rightSuperior, leftAnterior, rightAnterior := Unset, Unset, Unset, Unset;
    }

    /**
     * Reads a mesh: clears the vertex list, skips header lines up to the
     * first count line, takes the count from it, skips the line after it,
     * and appends the positions of that many records. `records` stands for
     * the records the stream extracts from the text after the skipped line.
     */
    method ReadMesh(lines: seq<string>, records: seq<Record>)
      requires Readable(lines)
      requires DeclaredCount(lines) <= |records|
      modifies this`nbVertices, this`vertices
      ensures Valid()
      ensures nbVertices == DeclaredCount(lines)
      ensures |vertices| <= |records| && vertices == Positions(records[..|vertices|])
    {
      vertices := [];
      var h := FindCountLine(lines);
      assert h == CountLineIndex(lines).value;
      nbVertices := LineCount(lines[h]);
      var i := 0;
      while i < nbVertices
        modifies this`vertices
        invariant 0 <= i <= |records|
        invariant i <= if nbVertices < 0 then 0 else nbVertices
        invariant |vertices| == i
        invariant forall j :: 0 <= j < i ==> vertices[j] == records[j].position
      {
        vertices := vertices + [records[i].position];
        i := i + 1;
      }
      assert vertices == Positions(records[..i]);
    }

    /**
     * The two-pass landmark scan. Each landmark ends as its scan's pick,
     * or keeps its previous value when its scan never updated; the second
     * pass splits the mesh at the centre x of the first pass.
     */
    method ComputeMinMax()
      requires Valid()
      modifies this`left, this`right, this`posterior, this`inferior
      modifies this`leftSuperior, this`rightSuperior, this`leftAnterior, this`rightAnterior
      ensures Valid()
      ensures left == Chosen(vertices, LeftRule, old(left))
      ensures right == Chosen(vertices, RightRule, old(right))
      ensures posterior == Chosen(vertices, PosteriorRule, old(posterior))
      ensures inferior == Chosen(vertices, InferiorRule, old(inferior))
      ensures leftSuperior == Chosen(vertices, LeftSuperiorRule(XCenter(vertices)), old(leftSuperior))
      ensures rightSuperior == Chosen(vertices, RightSuperiorRule(XCenter(vertices)), old(rightSuperior))
      ensures leftAnterior == Chosen(vertices, LeftAnteriorRule(XCenter(vertices)), old(leftAnterior))
      ensures rightAnterior == Chosen(vertices, RightAnteriorRule(XCenter(vertices)), old(rightAnterior))
    {
      var leftValue, rightValue := ScanWholeMesh();
      var xCenter := 0.5 * (leftValue + rightValue);
      ScanHalves(xCenter);
    }

    /**
     * The first pass: Left (lowest x), Right (highest x), Posterior (lowest z)
     * and Inferior (highest y) over all vertices. Returns the final Left and
     * Right running values, from which the centre is computed.
     */
    method ScanWholeMesh() returns (leftBest: real, rightBest: real)
      requires Valid()
      modifies this`left, this`right, this`posterior, this`inferior
      ensures Valid()
      ensures leftBest == Best(vertices, LeftRule) && rightBest == Best(vertices, RightRule)
      ensures left == Chosen(vertices, LeftRule, old(left))
      ensures right == Chosen(vertices, RightRule, old(right))
      ensures posterior == Chosen(vertices, PosteriorRule, old(posterior))
      ensures inferior == Chosen(vertices, InferiorRule, old(inferior))
    {
      var posteriorBest, inferiorBest;
      leftBest, posteriorBest := 1000.0, 1000.0;
      rightBest, inferiorBest := -1000.0, -1000.0;
      ghost var vs := vertices;
      var i := 0;
      while i < nbVertices
        invariant 0 <= i <= |vs|
        invariant leftBest == Best(vs[..i], LeftRule) && left == Chosen(vs[..i], LeftRule, old(left))
        invariant rightBest == Best(vs[..i], RightRule) && right == Chosen(vs[..i], RightRule, old(right))
        invariant posteriorBest == Best(vs[..i], PosteriorRule) && posterior == Chosen(vs[..i], PosteriorRule, old(posterior))
        invariant inferiorBest == Best(vs[..i], InferiorRule) && inferior == Chosen(vs[..i], InferiorRule, old(inferior))
      {
        var v := vertices[i];
        PickStep(vs, i, LeftRule, old(left), v.x < leftBest);
        PickStep(vs, i, RightRule, old(right), v.x > rightBest);
        PickStep(vs, i, PosteriorRule, old(posterior), v.z < posteriorBest);
        PickStep(vs, i, InferiorRule, old(inferior), v.y > inferiorBest);
        if v.x < leftBest {
          left := Mark(v, i);
          leftBest := v.x;
        }
        if v.x > rightBest {
          right := Mark(v, i);
          rightBest := v.x;
        }
        if v.z < posteriorBest {
          posterior := Mark(v, i);
          posteriorBest := v.z;
        }
        if v.y > inferiorBest {
          inferior := Mark(v, i);
          inferiorBest := v.y;
        }
        i := i + 1;
      }
      assert vs[..i] == vs;
    }

    /**
     * The second pass: LeftSuperior and RightSuperior (lowest y) and
     * LeftAnterior and RightAnterior (highest z), among the vertices strictly
     * left, respectively strictly right, of `xCenter`.
     */
    method ScanHalves(xCenter: real)
      requires Valid()
      modifies this`leftSuperior, this`rightSuperior, this`leftAnterior, this`rightAnterior
      ensures Valid()
      ensures leftSuperior == Chosen(vertices, LeftSuperiorRule(xCenter), old(leftSuperior))
      ensures rightSuperior == Chosen(vertices, RightSuperiorRule(xCenter), old(rightSuperior))
      ensures leftAnterior == Chosen(vertices, LeftAnteriorRule(xCenter), old(leftAnterior))
      ensures rightAnterior == Chosen(vertices, RightAnteriorRule(xCenter), old(rightAnterior))
    {
      var leftSuperiorBest, rightSuperiorBest := 1000.0, 1000.0;
      var leftAnteriorBest, rightAnteriorBest := -1000.0, -1000.0;
      ghost var vs := vertices;
      var i := 0;
      while i < nbVertices
        invariant 0 <= i <= |vs|
        invariant leftSuperiorBest == Best(vs[..i], LeftSuperiorRule(xCenter))
        invariant leftSuperior == Chosen(vs[..i], LeftSuperiorRule(xCenter), old(leftSuperior))
        invariant rightSuperiorBest == Best(vs[..i], RightSuperiorRule(xCenter))
        invariant rightSuperior == Chosen(vs[..i], RightSuperiorRule(xCenter), old(rightSuperior))
        invariant leftAnteriorBest == Best(vs[..i], LeftAnteriorRule(xCenter))
        invariant leftAnterior == Chosen(vs[..i], LeftAnteriorRule(xCenter), old(leftAnterior))
        invariant rightAnteriorBest == Best(vs[..i], RightAnteriorRule(xCenter))
        invariant rightAnterior == Chosen(vs[..i], RightAnteriorRule(xCenter), old(rightAnterior))
      {
        var v := vertices[i];
        PickStep(vs, i, LeftSuperiorRule(xCenter), old(leftSuperior), v.x < xCenter && v.y < leftSuperiorBest);
        PickStep(vs, i, RightSuperiorRule(xCenter), old(rightSuperior), v.x > xCenter && v.y < rightSuperiorBest);
        PickStep(vs, i, LeftAnteriorRule(xCenter), old(leftAnterior), v.x < xCenter && v.z > leftAnteriorBest);
        PickStep(vs, i, RightAnteriorRule(xCenter), old(rightAnterior), v.x > xCenter && v.z > rightAnteriorBest);
        if v.x < xCenter && v.y < leftSuperiorBest {
          leftSuperior := Mark(v, i);
          leftSuperiorBest := v.y;
        }
        if v.x > xCenter && v.y < rightSuperiorBest {
          rightSuperior := Mark(v, i);
          rightSuperiorBest := v.y;
        }
        if v.x < xCenter && v.z > leftAnteriorBest {
          leftAnterior := Mark(v, i);
          leftAnteriorBest := v.z;
        }
        if v.x > xCenter && v.z > rightAnteriorBest {
          rightAnterior := Mark(v, i);
          rightAnteriorBest := v.z;
        }
        i := i + 1;
      }
      assert vs[..i] == vs;
    }

    /** The attribute file: the three header lines, then one label per vertex index. */
    method WriteAttributeFile() returns (lines: seq<string>)
      ensures lines == AttributeFile(nbVertices, LandmarkOrder())
    {
      var order := LandmarkOrder();
      lines := AttributeHeader(nbVertices);
      var i := 0;
      while i < nbVertices
        invariant 0 <= i <= if nbVertices < 0 then 0 else nbVertices
        invariant lines == AttributeHeader(nbVertices) + LabelLines(i, order)
      {
        assert LabelLines(i + 1, order) == LabelLines(i, order) + [DecimalString(Label(i, order))];
        lines := lines + [DecimalString(Label(i, order))];
        i := i + 1;
      }
    }

    /** The points file: six landmark positions in fixed order, without Posterior and Inferior. */
    method WritePointsFile() returns (points: seq<Vertex>)
      ensures points == [left.vertex, right.vertex, leftAnterior.vertex, rightAnterior.vertex,
                         leftSuperior.vertex, rightSuperior.vertex]
    {
      points := [left.vertex, right.vertex];
      points := points + [leftAnterior.vertex, rightAnterior.vertex];
      points := points + [leftSuperior.vertex, rightSuperior.vertex];
    }

    /**
     * The driver with three arguments: read the mesh, compute the
     * landmarks, then produce the attribute file and the points file.
     */
    method Run(lines: seq<string>, records: seq<Record>) returns (attributes: seq<string>, points: seq<Vertex>)
      requires Readable(lines)
      requires DeclaredCount(lines) <= |records|
      modifies this
      ensures Valid()
      ensures nbVertices == DeclaredCount(lines)
      ensures |vertices| <= |records| && vertices == Positions(records[..|vertices|])
      ensures left == Chosen(vertices, LeftRule, old(left))
      ensures right == Chosen(vertices, RightRule, old(right))
      ensures posterior == Chosen(vertices, PosteriorRule, old(posterior))
      ensures inferior == Chosen(vertices, InferiorRule, old(inferior))
      ensures leftSuperior == Chosen(vertices, LeftSuperiorRule(XCenter(vertices)), old(leftSuperior))
      ensures rightSuperior == Chosen(vertices, RightSuperiorRule(XCenter(vertices)), old(rightSuperior))
      ensures leftAnterior == Chosen(vertices, LeftAnteriorRule(XCenter(vertices)), old(leftAnterior))
      ensures rightAnterior == Chosen(vertices, RightAnteriorRule(XCenter(vertices)), old(rightAnterior))
      ensures attributes == AttributeFile(nbVertices, LandmarkOrder())
      ensures points == [left.vertex, right.vertex, leftAnterior.vertex, rightAnterior.vertex,
                         leftSuperior.vertex, rightSuperior.vertex]
    {
      ReadMesh(lines, records);
      ComputeMinMax();
      attributes := WriteAttributeFile();
      points := WritePointsFile();
    }
  }
}
