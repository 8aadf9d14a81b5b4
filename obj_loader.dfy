/** `ObjBuffer` of src/obj_loader.rs: tables and output list held in
    fields and updated in place, each method proved against the step
    functions of ObjModel. */
module ObjLoader {
  import opened Wrappers
  import opened Tokenizer
  import opened ObjModel

  class ObjBuffer<F> {
    var vertices: seq<Vec3<F>>
    var normals: seq<Vec3<F>>
    var objects: seq<Vertex<F>>

    /** The buffer's fields as a value. */
    function State(): ObjState<F>
      reads this
    {
      ObjState(vertices, normals, objects)
    }

    ghost predicate Valid()
      reads this
    {
      Wellformed(State())
    }

    /** `ObjBuffer::new`: all three lists empty. */
    constructor ()
      ensures Valid() && State() == Empty()
    {
      vertices := [];
      normals := [];
      objects := [];
    }

    /** `len`: the number of output vertices, always whole triangles. */
    function Len(): (n: nat)
      reads this
      requires Valid()
      ensures n == |State().objects| && n % 3 == 0
    {
      |objects|
    }

    /** `parse_vertex`: append one position, or fail on a missing or
        unparseable component. */
    method ParseVertex(v0: Option<string>, v1: Option<string>, v2: Option<string>, parseFloat: string -> Option<F>)
      returns (r: Outcome<Error>)
      requires Valid()
      modifies this
      ensures Valid()
      ensures match ParseTriple(PositionRecord, [v0, v1, v2], parseFloat)
        case Ok(p) => r == Pass && vertices == old(vertices) + [p] && normals == old(normals) && objects == old(objects)
        case Err(e) => r == Fail(e) && State() == old(State())
    {
      var vertex := ParseTriple(PositionRecord, [v0, v1, v2], parseFloat);
      if vertex.Err? {
        return Fail(vertex.error);
      }
      vertices := vertices + [vertex.value];
      return Pass;
    }

    /** `parse_normal`: append one normal, or fail on a missing or
        unparseable component. */
    method ParseNormal(n0: Option<string>, n1: Option<string>, n2: Option<string>, parseFloat: string -> Option<F>)
      returns (r: Outcome<Error>)
      requires Valid()
      modifies this
      ensures Valid()
      ensures match ParseTriple(NormalRecord, [n0, n1, n2], parseFloat)
        case Ok(n) => r == Pass && normals == old(normals) + [n] && vertices == old(vertices) && objects == old(objects)
        case Err(e) => r == Fail(e) && State() == old(State())
    {
      var normal := ParseTriple(NormalRecord, [n0, n1, n2], parseFloat);
      if normal.Err? {
        return Fail(normal.error);
      }
      normals := normals + [normal.value];
      return Pass;
    }

    /** `add_vertices`: for each of the three groups in order, copy the
        position and normal the 1-based indices name onto the output. */
    method AddVertices(vi: seq<nat>, ni: seq<nat>)
      requires Valid()
      requires |vi| == 3 && Resolvable(State(), vi, ni)
      modifies this
      ensures Valid()
      ensures vertices == old(vertices) && normals == old(normals)
      ensures objects == old(objects) + Resolve(old(State()), vi, ni)
    {
      ghost var added := Resolve(State(), vi, ni);
      for idx := 0 to 3
        invariant vertices == old(vertices) && normals == old(normals)
        invariant objects == old(objects) + added[..idx]
      {
        var normal := normals[ni[idx] - 1];
        var position := vertices[vi[idx] - 1];
        objects := objects + [Vertex(position, normal)];
        assert added[..idx + 1] == added[..idx] + [added[idx]];
      }
      assert added[..3] == added;
      AppendKeepsWellformed(old(State()), added);
    }

    /** `parse_face`: read the indices of the three groups, check them
        against the tables, and add the triangle. */
    method ParseFace(f0: Option<string>, f1: Option<string>, f2: Option<string>) returns (r: Outcome<Error>)
      requires Valid()
      modifies this
      ensures Valid()
      ensures match FaceStep(old(State()), [f0, f1, f2])
        case Ok(s) => r == Pass && State() == s
        case Err(e) => r == Fail(e) && State() == old(State())
    {
      var indices := FaceIndices([f0, f1, f2]);
      if indices.Err? {
        return Fail(indices.error);
      }
      var vertexIndex, normalIndex := indices.value.0, indices.value.1;
      var bad := FirstBadIndex(vertexIndex, normalIndex, |vertices|, |normals|, 0);
      if bad.Some? {
        return Fail(bad.value);
      }
      AddVertices(vertexIndex, normalIndex);
      return Pass;
    }

    /** `load`: feed every line, in order, to the parser its first token
        selects; the first failure ends the load with no buffer. */
    static method Load(lines: seq<string>, parseFloat: string -> Option<F>) returns (r: Result<ObjBuffer<F>, Error>)
      ensures match LoadLines(lines, parseFloat)
        case Ok(s) => r.Ok? && fresh(r.value) && r.value.Valid() && r.value.State() == s
        case Err(e) => r == Err(e)
    {
      var dat := new ObjBuffer<F>();
      for i := 0 to |lines|
        invariant fresh(dat) && dat.Valid()
        invariant LoadLines(lines[..i], parseFloat) == Ok(dat.State())
      {
        assert lines[..i + 1][..i] == lines[..i];
        var words := Words(lines[i]);
        var outcome := Pass;
        var keyword := Nth(words, 0);
        if keyword == Some("v") {
          outcome := dat.ParseVertex(Nth(words, 1), Nth(words, 2), Nth(words, 3), parseFloat);
        } else if keyword == Some("vn") {
          outcome := dat.ParseNormal(Nth(words, 1), Nth(words, 2), Nth(words, 3), parseFloat);
        } else if keyword == Some("f") {
          outcome := dat.ParseFace(Nth(words, 1), Nth(words, 2), Nth(words, 3));
        }
        if outcome.Fail? {
          assert LoadLines(lines[..i + 1], parseFloat) == Err(outcome.error);
          LoadFailsOnce(lines, parseFloat, i + 1);
          return Err(outcome.error);
        }
      }
      assert lines[..|lines|] == lines;
      return Ok(dat);
    }
  }
}
