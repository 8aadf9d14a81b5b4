/** Worked inputs: the triangle scenario and the out-of-range reference,
    as single face lines over tables holding three positions and one
    normal. */
module Scenarios {
  import opened Wrappers
  import opened Tokenizer
  import opened Decimal
  import opened ObjModel
  import opened LoaderLemmas

  lemma SmallIndices()
    ensures ParseUsize("1") == Some(1) && ParseUsize("2") == Some(2)
    ensures ParseUsize("3") == Some(3) && ParseUsize("99") == Some(99)
  {
    assert "99"[..1] == "9";
  }

  /** Three positions and one normal for the face examples. */
  function P0(): Vec3<real> { Vec3(0.0, 0.0, 0.0) }
  function P1(): Vec3<real> { Vec3(1.0, 0.0, 0.0) }
  function P2(): Vec3<real> { Vec3(0.0, 1.0, 0.0) }
  function N0(): Vec3<real> { Vec3(0.0, 0.0, 1.0) }

  /** Tables holding those positions and that normal, and no output yet. */
  function Tables(): ObjState<real>
  {
    ObjState([P0(), P1(), P2()], [N0()], [])
  }

  /** A group `i/t/j` of slash-free parts names position `i` and normal `j`. */
  lemma GroupIndices(g: string, i: string, t: string, j: string, a: nat, b: nat)
    requires g == i + "/" + t + "/" + j
    requires Free(i, Slash) && Free(t, Slash) && Free(j, Slash)
    requires ParseUsize(i) == Some(a) && ParseUsize(j) == Some(b)
    ensures IndicesOf(Some(g), a, b)
  {
    FaceGroupForms(i, t, j);
  }

  lemma TriangleIndices(g0: string, g1: string, g2: string)
    requires g0 == "1//1" && g1 == "2//1" && g2 == "3//1"
    ensures FaceIndices([Some(g0), Some(g1), Some(g2)]) == Ok(([1, 2, 3], [1, 1, 1]))
  {
    SmallIndices();
    GroupIndices(g0, "1", "", "1", 1, 1);
    GroupIndices(g1, "2", "", "1", 2, 1);
    GroupIndices(g2, "3", "", "1", 3, 1);
    FaceIndicesOf([Some(g0), Some(g1), Some(g2)], [1, 2, 3], [1, 1, 1]);
  }

  lemma TriangleResolves(ts: seq<Option<string>>)
    requires |ts| == 3 && FaceIndices(ts) == Ok(([1, 2, 3], [1, 1, 1]))
    ensures FaceStep(Tables(), ts) == Ok(Tables().(objects := [Vertex(P0(), N0()), Vertex(P1(), N0()), Vertex(P2(), N0())]))
  {
    var st := Tables();
    var vi, ni := [1, 2, 3], [1, 1, 1];
    assert |st.vertices| == 3 && |st.normals| == 1;
    assert FirstBadIndex(vi, ni, 3, 1, 0) == None;
    assert Resolvable(st, vi, ni);
    var want := [Vertex(P0(), N0()), Vertex(P1(), N0()), Vertex(P2(), N0())];
    assert Resolve(st, vi, ni) == want;
    assert FaceStep(st, ts) == Ok(st.(objects := st.objects + Resolve(st, vi, ni)));
    assert st.objects + Resolve(st, vi, ni) == want;
  }

  /** The face `f 1//1 2//1 3//1` over those tables is the triangle of the
      three positions, each paired with the one normal. */
  lemma TriangleFace(line: string, g0: string, g1: string, g2: string, parseFloat: string -> Option<real>)
    requires line == "f " + g0 + " " + g1 + " " + g2
    requires g0 == "1//1" && g1 == "2//1" && g2 == "3//1"
    ensures StepLine(Tables(), line, parseFloat)
      == Ok(Tables().(objects := [Vertex(P0(), N0()), Vertex(P1(), N0()), Vertex(P2(), N0())]))
  {
    FaceLineGroups(Tables(), line, g0, g1, g2, parseFloat);
    TriangleIndices(g0, g1, g2);
    TriangleResolves([Some(g0), Some(g1), Some(g2)]);
  }

  lemma OutOfRangeIndices(g0: string, g1: string, g2: string)
    requires g0 == "1/1/1" && g1 == "2/1/1" && g2 == "99/1/1"
    ensures FaceIndices([Some(g0), Some(g1), Some(g2)]) == Ok(([1, 2, 99], [1, 1, 1]))
  {
    SmallIndices();
    GroupIndices(g0, "1", "1", "1", 1, 1);
    GroupIndices(g1, "2", "1", "1", 2, 1);
    GroupIndices(g2, "99", "1", "1", 99, 1);
    FaceIndicesOf([Some(g0), Some(g1), Some(g2)], [1, 2, 99], [1, 1, 1]);
  }

  lemma OutOfRangeRejects(ts: seq<Option<string>>)
    requires |ts| == 3 && FaceIndices(ts) == Ok(([1, 2, 99], [1, 1, 1]))
    ensures FaceStep(Tables(), ts) == Err(IndexOutOfRange(Positions, 99, 3))
  {
    var st := Tables();
    assert |st.vertices| == 3 && |st.normals| == 1;
    assert FirstBadIndex([1, 2, 99], [1, 1, 1], 3, 1, 0) == Some(IndexOutOfRange(Positions, 99, 3));
  }

  /** The face `f 1/1/1 2/1/1 99/1/1` over those tables names a position
      past the end of the table; the normal of that group is checked first
      and passes. */
  lemma OutOfRangeFace(line: string, g0: string, g1: string, g2: string, parseFloat: string -> Option<real>)
    requires line == "f " + g0 + " " + g1 + " " + g2
    requires g0 == "1/1/1" && g1 == "2/1/1" && g2 == "99/1/1"
    ensures StepLine(Tables(), line, parseFloat) == Err(IndexOutOfRange(Positions, 99, 3))
  {
    FaceLineGroups(Tables(), line, g0, g1, g2, parseFloat);
    OutOfRangeIndices(g0, g1, g2);
    OutOfRangeRejects([Some(g0), Some(g1), Some(g2)]);
  }
}
