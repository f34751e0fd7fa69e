/**
 * The landmark scans of the analysis, as pure specifications.
 *
 * Every landmark is found by the same kind of scan: walk the vertices in
 * order, keep a running extreme that starts at a sentinel (1000.0 for a
 * minimum, -1000.0 for a maximum), and take a vertex only when it lies on
 * the landmark's side of the mesh and strictly improves the running value.
 * `Pick` is the index such a scan ends with, or None when it never updated.
 */
module ExtremaAnalyzer {
  import opened Options
  import opened Geometry

  datatype Axis = X | Y | Z
  datatype Direction = Lowest | Highest

  /** Which vertices a scan considers: all, or those strictly left or right of a centre x. */
  datatype Side = Anywhere | LeftOfCenter(center: real) | RightOfCenter(center: real)

  datatype Rule = Rule(axis: Axis, direction: Direction, side: Side)

  function Coord(v: Vertex, a: Axis): real
  {
    match a
    case X => v.x
    case Y => v.y
    case Z => v.z
  }

  /** The starting value of a running extreme. */
  function Sentinel(d: Direction): real
  {
    match d
    case Lowest => 1000.0
    case Highest => -1000.0
  }

  /** The strict comparison of the scan: later equal values never replace. */
  predicate Improves(d: Direction, value: real, best: real)
  {
    match d
    case Lowest => value < best
    case Highest => value > best
  }

  predicate OnSide(v: Vertex, s: Side)
  {
    match s
    case Anywhere => true
    case LeftOfCenter(c) => v.x < c
    case RightOfCenter(c) => v.x > c
  }

  /** The test of one loop step: does `v` replace the running value `best`? */
  predicate Replaces(r: Rule, v: Vertex, best: real)
  {
    OnSide(v, r.side) && Improves(r.direction, Coord(v, r.axis), best)
  }

  /** The index a scan of `vs` under `r` ends with; None when it never updated. */
  function Pick(vs: seq<Vertex>, r: Rule): (p: Option<nat>)
    ensures p.Some? ==> p.value < |vs|
    decreases |vs|
  {
    if vs == [] then None
    else
      var i := |vs| - 1;
      var prev := Pick(vs[..i], r);
      var best := if prev.Some? then Coord(vs[prev.value], r.axis) else Sentinel(r.direction);
      if Replaces(r, vs[i], best) then Some(i) else prev
  }

  /** The running value after scanning `vs`: the picked vertex's coordinate, or the sentinel. */
  function Best(vs: seq<Vertex>, r: Rule): real
  {
    match Pick(vs, r)
    case None => Sentinel(r.direction)
    case Some(k) => Coord(vs[k], r.axis)
  }

  /**
   * The landmark a scan leaves behind when it starts from `initial`: the
   * picked vertex with its index, or `initial` unchanged.
   */
  function Chosen(vs: seq<Vertex>, r: Rule, initial: Mark): (m: Mark)
    ensures m == initial || (0 <= m.index < |vs| && m.vertex == vs[m.index])
    ensures Pick(vs, r).None? ==> m == initial
  {
    match Pick(vs, r)
    case None => initial
    case Some(k) => Mark(vs[k], k)
  }

  // The rules of the first pass.
  const LeftRule := Rule(X, Lowest, Anywhere)
  const RightRule := Rule(X, Highest, Anywhere)
  const PosteriorRule := Rule(Z, Lowest, Anywhere)
  const InferiorRule := Rule(Y, Highest, Anywhere)

  /** The centre that splits the second pass: half the sum of the first pass's Left and Right values. */
  function XCenter(vs: seq<Vertex>): real
  {
    0.5 * (Best(vs, LeftRule) + Best(vs, RightRule))
  }

  // The rules of the second pass, relative to the centre x.
  function LeftSuperiorRule(c: real): Rule { Rule(Y, Lowest, LeftOfCenter(c)) }
  function RightSuperiorRule(c: real): Rule { Rule(Y, Lowest, RightOfCenter(c)) }
  function LeftAnteriorRule(c: real): Rule { Rule(Z, Highest, LeftOfCenter(c)) }
  function RightAnteriorRule(c: real): Rule { Rule(Z, Highest, RightOfCenter(c)) }

  /**
   * One step of a scan: extending the scanned prefix by vertex i, which is
   * taken exactly when it replaces the running value. `taken` is that test,
   * `Replaces(r, vs[i], Best(vs[..i], r))`, passed in as the caller's own
   * branch condition so that a loop body calling this lemma four times per
   * vertex does not unfold `Replaces` for every rule; this keeps the scan
   * loops' proofs within the solver's resource budget.
   */
  lemma PickStep(vs: seq<Vertex>, i: nat, r: Rule, initial: Mark, taken: bool)
    requires i < |vs|
    requires taken == Replaces(r, vs[i], Best(vs[..i], r))
    ensures Pick(vs[..i + 1], r) == if taken then Some(i) else Pick(vs[..i], r)
    ensures Best(vs[..i + 1], r) == if taken then Coord(vs[i], r.axis) else Best(vs[..i], r)
    ensures Chosen(vs[..i + 1], r, initial) == if taken then Mark(vs[i], i) else Chosen(vs[..i], r, initial)
  {
    assert vs[..i + 1][..i] == vs[..i];
  }

  /** A vertex the scan may take at all: on the side, and beyond the sentinel. */
  ghost predicate Candidate(vs: seq<Vertex>, r: Rule, j: int)
  {
    0 <= j < |vs| && Replaces(r, vs[j], Sentinel(r.direction))
  }

  /**
   * The reference definition: k is a candidate, no candidate is strictly
   * better, and every earlier candidate is strictly worse (first occurrence).
   */
  ghost predicate IsFirstExtreme(vs: seq<Vertex>, r: Rule, k: int)
  {
    && Candidate(vs, r, k)
    && (forall j :: Candidate(vs, r, j) ==> !Improves(r.direction, Coord(vs[j], r.axis), Coord(vs[k], r.axis)))
    && (forall j :: 0 <= j < k && Candidate(vs, r, j) ==> Improves(r.direction, Coord(vs[k], r.axis), Coord(vs[j], r.axis)))
  }

  /** A scan picks the first extreme candidate, and picks nothing exactly when there is no candidate. */
  lemma {:induction false} PickFindsFirstExtreme(vs: seq<Vertex>, r: Rule)
    ensures Pick(vs, r).Some? ==> IsFirstExtreme(vs, r, Pick(vs, r).value)
    ensures Pick(vs, r).None? <==> forall j :: !Candidate(vs, r, j)
    decreases |vs|
  {
    if vs != [] {
      var i := |vs| - 1;
      var p := vs[..i];
      PickFindsFirstExtreme(p, r);
      assert forall j :: 0 <= j < i ==> vs[j] == p[j];
      assert forall j :: 0 <= j < i ==> (Candidate(vs, r, j) <==> Candidate(p, r, j));
      var prev := Pick(p, r);
      var best := if prev.Some? then Coord(vs[prev.value], r.axis) else Sentinel(r.direction);
      if Replaces(r, vs[i], best) {
        assert Pick(vs, r) == Some(i);
        assert Candidate(vs, r, i) by {
          if prev.Some? {
            assert Candidate(p, r, prev.value);
          }
        }
      } else {
        assert Pick(vs, r) == prev;
        if prev.Some? {
          assert Candidate(vs, r, prev.value);
        } else {
          assert !Candidate(vs, r, i);
        }
      }
    }
  }

  /** Two first extremes are the same index. */
  lemma FirstExtremeUnique(vs: seq<Vertex>, r: Rule, k: int, m: int)
    requires IsFirstExtreme(vs, r, k) && IsFirstExtreme(vs, r, m)
    ensures k == m
  {
  }

  /** The scan's result is exactly the reference definition's index. */
  lemma PickIsFirstExtreme(vs: seq<Vertex>, r: Rule, k: int)
    ensures Pick(vs, r) == Some(k) <==> IsFirstExtreme(vs, r, k)
  {
    PickFindsFirstExtreme(vs, r);
    if IsFirstExtreme(vs, r, k) {
      assert Candidate(vs, r, k);
      FirstExtremeUnique(vs, r, k, Pick(vs, r).value);
    }
  }

  /**
   * A minimum scan, in coordinates: it picks k exactly when k lies on the
   * side, its coordinate is below the sentinel, no vertex on the side is
   * lower, and every earlier vertex on the side is strictly higher.
   */
  lemma LowestCharacterized(vs: seq<Vertex>, a: Axis, s: Side, k: int)
    ensures Pick(vs, Rule(a, Lowest, s)) == Some(k) <==>
      && 0 <= k < |vs| && OnSide(vs[k], s) && Coord(vs[k], a) < 1000.0
      && (forall j :: 0 <= j < |vs| && OnSide(vs[j], s) ==> Coord(vs[k], a) <= Coord(vs[j], a))
      && (forall j :: 0 <= j < k && OnSide(vs[j], s) ==> Coord(vs[k], a) < Coord(vs[j], a))
  {
    PickIsFirstExtreme(vs, Rule(a, Lowest, s), k);
  }

  /** A maximum scan, in coordinates: the mirror image of LowestCharacterized, above -1000. */
  lemma HighestCharacterized(vs: seq<Vertex>, a: Axis, s: Side, k: int)
    ensures Pick(vs, Rule(a, Highest, s)) == Some(k) <==>
      && 0 <= k < |vs| && OnSide(vs[k], s) && Coord(vs[k], a) > -1000.0
      && (forall j :: 0 <= j < |vs| && OnSide(vs[j], s) ==> Coord(vs[k], a) >= Coord(vs[j], a))
      && (forall j :: 0 <= j < k && OnSide(vs[j], s) ==> Coord(vs[k], a) > Coord(vs[j], a))
  {
    PickIsFirstExtreme(vs, Rule(a, Highest, s), k);
  }

  /** Left is the first vertex of minimal x, provided that x is below 1000. */
  lemma LeftIsFirstLowestX(vs: seq<Vertex>, k: int)
    ensures Pick(vs, LeftRule) == Some(k) <==>
      && 0 <= k < |vs| && vs[k].x < 1000.0
      && (forall j :: 0 <= j < |vs| ==> vs[k].x <= vs[j].x)
      && (forall j :: 0 <= j < k ==> vs[k].x < vs[j].x)
  {
    LowestCharacterized(vs, X, Anywhere, k);
  }

  /** Right is the first vertex of maximal x, provided that x is above -1000. */
  lemma RightIsFirstHighestX(vs: seq<Vertex>, k: int)
    ensures Pick(vs, RightRule) == Some(k) <==>
      && 0 <= k < |vs| && vs[k].x > -1000.0
      && (forall j :: 0 <= j < |vs| ==> vs[k].x >= vs[j].x)
      && (forall j :: 0 <= j < k ==> vs[k].x > vs[j].x)
  {
    HighestCharacterized(vs, X, Anywhere, k);
  }

  /** Posterior is the first vertex of minimal z, provided that z is below 1000. */
  lemma PosteriorIsFirstLowestZ(vs: seq<Vertex>, k: int)
    ensures Pick(vs, PosteriorRule) == Some(k) <==>
      && 0 <= k < |vs| && vs[k].z < 1000.0
      && (forall j :: 0 <= j < |vs| ==> vs[k].z <= vs[j].z)
      && (forall j :: 0 <= j < k ==> vs[k].z < vs[j].z)
  {
    LowestCharacterized(vs, Z, Anywhere, k);
  }

  /** Inferior is the first vertex of MAXIMAL y (not minimal), provided that y is above -1000. */
  lemma InferiorIsFirstHighestY(vs: seq<Vertex>, k: int)
    ensures Pick(vs, InferiorRule) == Some(k) <==>
      && 0 <= k < |vs| && vs[k].y > -1000.0
      && (forall j :: 0 <= j < |vs| ==> vs[k].y >= vs[j].y)
      && (forall j :: 0 <= j < k ==> vs[k].y > vs[j].y)
  {
    HighestCharacterized(vs, Y, Anywhere, k);
  }

  /** LeftSuperior is the first vertex of minimal y among those with x < c, provided that y is below 1000. */
  lemma LeftSuperiorIsFirstLowestY(vs: seq<Vertex>, c: real, k: int)
    ensures Pick(vs, LeftSuperiorRule(c)) == Some(k) <==>
      && 0 <= k < |vs| && vs[k].x < c && vs[k].y < 1000.0
      && (forall j :: 0 <= j < |vs| && vs[j].x < c ==> vs[k].y <= vs[j].y)
      && (forall j :: 0 <= j < k && vs[j].x < c ==> vs[k].y < vs[j].y)
  {
    LowestCharacterized(vs, Y, LeftOfCenter(c), k);
  }

  /** RightSuperior is the first vertex of minimal y among those with x > c, provided that y is below 1000. */
  lemma RightSuperiorIsFirstLowestY(vs: seq<Vertex>, c: real, k: int)
    ensures Pick(vs, RightSuperiorRule(c)) == Some(k) <==>
      && 0 <= k < |vs| && vs[k].x > c && vs[k].y < 1000.0
      && (forall j :: 0 <= j < |vs| && vs[j].x > c ==> vs[k].y <= vs[j].y)
      && (forall j :: 0 <= j < k && vs[j].x > c ==> vs[k].y < vs[j].y)
  {
    LowestCharacterized(vs, Y, RightOfCenter(c), k);
  }

  /** LeftAnterior is the first vertex of maximal z among those with x < c, provided that z is above -1000. */
  lemma LeftAnteriorIsFirstHighestZ(vs: seq<Vertex>, c: real, k: int)
    ensures Pick(vs, LeftAnteriorRule(c)) == Some(k) <==>
      && 0 <= k < |vs| && vs[k].x < c && vs[k].z > -1000.0
      && (forall j :: 0 <= j < |vs| && vs[j].x < c ==> vs[k].z >= vs[j].z)
      && (forall j :: 0 <= j < k && vs[j].x < c ==> vs[k].z > vs[j].z)
  {
    HighestCharacterized(vs, Z, LeftOfCenter(c), k);
  }

  /** RightAnterior is the first vertex of maximal z among those with x > c, provided that z is above -1000. */
  lemma RightAnteriorIsFirstHighestZ(vs: seq<Vertex>, c: real, k: int)
    ensures Pick(vs, RightAnteriorRule(c)) == Some(k) <==>
      && 0 <= k < |vs| && vs[k].x > c && vs[k].z > -1000.0
      && (forall j :: 0 <= j < |vs| && vs[j].x > c ==> vs[k].z >= vs[j].z)
      && (forall j :: 0 <= j < k && vs[j].x > c ==> vs[k].z > vs[j].z)
  {
    HighestCharacterized(vs, Z, RightOfCenter(c), k);
  }

  /**
   * The second pass respects the split: a left landmark lies strictly left
   * of the centre, a right one strictly right, so a vertex exactly at the
   * centre is picked by none of the four.
   */
  lemma QuadrantsExcludeCenter(vs: seq<Vertex>, c: real)
    ensures Pick(vs, LeftSuperiorRule(c)).Some? ==> vs[Pick(vs, LeftSuperiorRule(c)).value].x < c
    ensures Pick(vs, LeftAnteriorRule(c)).Some? ==> vs[Pick(vs, LeftAnteriorRule(c)).value].x < c
    ensures Pick(vs, RightSuperiorRule(c)).Some? ==> vs[Pick(vs, RightSuperiorRule(c)).value].x > c
    ensures Pick(vs, RightAnteriorRule(c)).Some? ==> vs[Pick(vs, RightAnteriorRule(c)).value].x > c
  {
    PickFindsFirstExtreme(vs, LeftSuperiorRule(c));
    PickFindsFirstExtreme(vs, LeftAnteriorRule(c));
    PickFindsFirstExtreme(vs, RightSuperiorRule(c));
    PickFindsFirstExtreme(vs, RightAnteriorRule(c));
  }

  /**
   * When some vertex has -1000 < x < 1000, both first-pass x scans update,
   * and the centre is the exact midpoint of the Left and Right x values,
   * hence lies between them.
   */
  lemma XCenterIsMidpoint(vs: seq<Vertex>, i: int)
    requires 0 <= i < |vs| && -1000.0 < vs[i].x < 1000.0
    ensures Pick(vs, LeftRule).Some? && Pick(vs, RightRule).Some?
    ensures XCenter(vs) == 0.5 * (vs[Pick(vs, LeftRule).value].x + vs[Pick(vs, RightRule).value].x)
    ensures vs[Pick(vs, LeftRule).value].x <= XCenter(vs) <= vs[Pick(vs, RightRule).value].x
  {
    PickFindsFirstExtreme(vs, LeftRule);
    PickFindsFirstExtreme(vs, RightRule);
    assert Candidate(vs, LeftRule, i) && Candidate(vs, RightRule, i);
    var l := Pick(vs, LeftRule).value;
    assert vs[l].x <= vs[i].x by {
      assert !Improves(Lowest, vs[i].x, vs[l].x);
    }
    var r := Pick(vs, RightRule).value;
    assert vs[i].x <= vs[r].x by {
      assert !Improves(Highest, vs[i].x, vs[r].x);
    }
  }

  /**
   * The centre when a first-pass scan never beats its sentinel: the missing
   * side contributes its sentinel, so an empty mesh is split at x = 0.
   */
  lemma XCenterWithSentinels(vs: seq<Vertex>)
    ensures (forall k :: 0 <= k < |vs| ==> vs[k].x >= 1000.0) ==> XCenter(vs) == 0.5 * (1000.0 + Best(vs, RightRule))
    ensures (forall k :: 0 <= k < |vs| ==> vs[k].x <= -1000.0) ==> XCenter(vs) == 0.5 * (Best(vs, LeftRule) - 1000.0)
    ensures |vs| == 0 ==> XCenter(vs) == 0.0
  {
    PickFindsFirstExtreme(vs, LeftRule);
    PickFindsFirstExtreme(vs, RightRule);
  }
}
