/** Properties of the whole load: order preservation, index resolution
    against the tables as they stood at the face line, fail-fast on bad
    references, and indifference to lines that are not records. */
module LoaderLemmas {
  import opened Wrappers
  import opened Tokenizer
  import opened Decimal
  import opened ObjModel

  /** Every state a successful load passes through is a prefix of the
      final one: tables and output are append-only. */
  lemma {:induction false} LoadPrefix<F>(lines: seq<string>, parseFloat: string -> Option<F>, i: nat)
    requires i <= |lines| && LoadLines(lines, parseFloat).Ok?
    ensures LoadLines(lines[..i], parseFloat).Ok?
    ensures Grows(LoadLines(lines[..i], parseFloat).value, LoadLines(lines, parseFloat).value)
    decreases |lines|
  {
    if i == |lines| {
      assert lines[..i] == lines;
    } else {
      var front, last := lines[..|lines| - 1], lines[|lines| - 1];
      var r := LoadLines(front, parseFloat);
      LoadLast(lines, parseFloat);
      assert r.Ok?;
      StepLineEffect(r.value, last, parseFloat);
      assert front[..i] == lines[..i];
      LoadPrefix(front, parseFloat, i);
    }
  }

  /** A face line that was loaded appended the resolution of its indices
      against the tables as they stood before it. */
  lemma FaceLineLoaded<F>(lines: seq<string>, parseFloat: string -> Option<F>, i: nat)
    requires i < |lines| && IsFaceLine(lines[i])
    requires LoadLines(lines[..i], parseFloat).Ok? && LoadLines(lines[..i + 1], parseFloat).Ok?
    ensures var pre := LoadLines(lines[..i], parseFloat).value;
      var f := FaceIndices(Args(lines[i]));
      && f.Ok?
      && Resolvable(pre, f.value.0, f.value.1)
      && LoadLines(lines[..i + 1], parseFloat).value == pre.(objects := pre.objects + Resolve(pre, f.value.0, f.value.1))
  {
    var pre := LoadLines(lines[..i], parseFloat).value;
    LoadStepAt(lines, parseFloat, i);
    FaceLineStep(pre, lines[i], parseFloat);
    FaceStepAppends(pre, Args(lines[i]));
  }

  /** Output vertices `n`, `n + 1` and `n + 2` of `objects` are, in order,
      the entries of `positions` and `normals` named by the 1-based indices
      `vi` and `ni`. */
  ghost predicate TriangleAt<F>(objects: seq<Vertex<F>>, n: nat, positions: seq<Vec3<F>>, normals: seq<Vec3<F>>, vi: seq<nat>, ni: seq<nat>)
  {
    && |vi| == 3 && |ni| == 3 && n + 3 <= |objects|
    && (forall k :: 0 <= k < 3 ==> InTable(vi[k], |positions|) && InTable(ni[k], |normals|))
    && forall k :: 0 <= k < 3 ==> objects[n + k] == Vertex(positions[vi[k] - 1], normals[ni[k] - 1])
  }

  /** A triangle appended at some point survives, in place and still
      naming the same table entries, into every later state. */
  lemma AppendedStays<F>(pre: ObjState<F>, post: ObjState<F>, fin: ObjState<F>, vi: seq<nat>, ni: seq<nat>)
    requires Resolvable(pre, vi, ni) && |vi| == 3
    requires post == pre.(objects := pre.objects + Resolve(pre, vi, ni))
    requires Grows(post, fin)
    ensures Grows(pre, fin) && Resolvable(fin, vi, ni)
    ensures |pre.objects| + 3 <= |fin.objects|
    ensures forall k :: 0 <= k < 3 ==> fin.objects[|pre.objects| + k] == Vertex(fin.vertices[vi[k] - 1], fin.normals[ni[k] - 1])
  {
    var base := |pre.objects|;
    forall k | 0 <= k < 3
      ensures fin.objects[base + k] == Vertex(fin.vertices[vi[k] - 1], fin.normals[ni[k] - 1])
    {
      assert fin.objects[base + k] == post.objects[base + k];
      assert post.objects[base + k] == Resolve(pre, vi, ni)[k];
    }
  }

  /** The face on line `i` is the triangle numbered by the faces before
      it: its three output vertices sit consecutively at that place, in
      field order, each the position and normal its 1-based indices name;
      and those indices refer only to entries defined above line `i`. */
  lemma LoadFaceInOrder<F>(lines: seq<string>, parseFloat: string -> Option<F>, i: nat)
    requires i < |lines| && IsFaceLine(lines[i]) && LoadLines(lines, parseFloat).Ok?
    ensures var pre := LoadLines(lines[..i], parseFloat);
      var fin := LoadLines(lines, parseFloat).value;
      var f := FaceIndices(Args(lines[i]));
      && pre.Ok? && f.Ok?
      && Resolvable(pre.value, f.value.0, f.value.1)
      && Grows(pre.value, fin)
      && TriangleAt(fin.objects, 3 * FaceCount(lines[..i]), fin.vertices, fin.normals, f.value.0, f.value.1)
  {
    LoadPrefix(lines, parseFloat, i);
    LoadPrefix(lines, parseFloat, i + 1);
    FaceLineLoaded(lines, parseFloat, i);
    FaceAppendedAt(LoadLines(lines[..i], parseFloat).value, LoadLines(lines[..i + 1], parseFloat).value,
      LoadLines(lines, parseFloat).value, FaceIndices(Args(lines[i])), 3 * FaceCount(lines[..i]));
  }

  /** `AppendedStays` for a face whose indices parsed, with the triangle's
      place `n` given separately. */
  lemma FaceAppendedAt<F>(pre: ObjState<F>, post: ObjState<F>, fin: ObjState<F>, f: Result<(seq<nat>, seq<nat>), Error>, n: nat)
    requires f.Ok? && |f.value.0| == 3 && Resolvable(pre, f.value.0, f.value.1)
    requires post == pre.(objects := pre.objects + Resolve(pre, f.value.0, f.value.1))
    requires Grows(post, fin) && n == |pre.objects|
    ensures Grows(pre, fin) && TriangleAt(fin.objects, n, fin.vertices, fin.normals, f.value.0, f.value.1)
  {
    AppendedStays(pre, post, fin, f.value.0, f.value.1);
  }

  /** A triangle that names entries of longer tables names the same
      entries of any prefixes of them that still hold its indices. */
  lemma TriangleAtPrefix<F>(objects: seq<Vertex<F>>, n: nat, positions: seq<Vec3<F>>, normals: seq<Vec3<F>>,
                            ps: seq<Vec3<F>>, ns: seq<Vec3<F>>, vi: seq<nat>, ni: seq<nat>)
    requires TriangleAt(objects, n, positions, normals, vi, ni) && ps <= positions && ns <= normals
    requires forall k :: 0 <= k < 3 ==> InTable(vi[k], |ps|) && InTable(ni[k], |ns|)
    ensures TriangleAt(objects, n, ps, ns, vi, ni)
  {
    forall k | 0 <= k < 3
      ensures objects[n + k] == Vertex(ps[vi[k] - 1], ns[ni[k] - 1])
    {
      assert ps[vi[k] - 1] == positions[vi[k] - 1];
      assert ns[ni[k] - 1] == normals[ni[k] - 1];
    }
  }

  /** A face field `i//j` on line `l` stands for the `i`-th `v` line and the
      `j`-th `vn` line above `l`: the face's three output vertices, at
      3 × (faces before it), are the triples parsed from those lines. */
  lemma LoadFaceNamesLines<F>(lines: seq<string>, parseFloat: string -> Option<F>, i: nat)
    requires i < |lines| && IsFaceLine(lines[i]) && LoadLines(lines, parseFloat).Ok?
    ensures var f := FaceIndices(Args(lines[i]));
      && f.Ok?
      && TriangleAt(LoadLines(lines, parseFloat).value.objects, 3 * FaceCount(lines[..i]),
           TableOf(lines[..i], "v", PositionRecord, parseFloat), TableOf(lines[..i], "vn", NormalRecord, parseFloat),
           f.value.0, f.value.1)
  {
    LoadFaceInOrder(lines, parseFloat, i);
    LoadTables(lines[..i], parseFloat);
    var fin := LoadLines(lines, parseFloat).value;
    var pre := LoadLines(lines[..i], parseFloat).value;
    var f := FaceIndices(Args(lines[i])).value;
    TriangleAtPrefix(fin.objects, 3 * FaceCount(lines[..i]), fin.vertices, fin.normals, pre.vertices, pre.normals, f.0, f.1);
  }

  /** A face index of 0, or one past the end of its table as it stands
      when the face is read, makes the whole load fail with a reference
      error. */
  lemma LoadRejectsBadIndex<F>(lines: seq<string>, parseFloat: string -> Option<F>, i: nat)
    requires i < |lines| && IsFaceLine(lines[i])
    requires LoadLines(lines[..i], parseFloat).Ok? && FaceIndices(Args(lines[i])).Ok?
    requires !Resolvable(LoadLines(lines[..i], parseFloat).value, FaceIndices(Args(lines[i])).value.0, FaceIndices(Args(lines[i])).value.1)
    ensures LoadLines(lines, parseFloat).Err?
    ensures LoadLines(lines, parseFloat).error.IndexOutOfRange?
  {
    var pre := LoadLines(lines[..i], parseFloat).value;
    LoadStepAt(lines, parseFloat, i);
    FaceLineStep(pre, lines[i], parseFloat);
    FaceStepRejects(pre, Args(lines[i]));
    LoadFailsOnce(lines, parseFloat, i + 1);
  }

  /** The lines `load` does not ignore. */
  function RecordLines(lines: seq<string>): (r: seq<string>)
    ensures |r| <= |lines|
    ensures forall k :: 0 <= k < |r| ==> IsRecordLine(r[k])
    ensures forall l :: l in r <==> l in lines && IsRecordLine(l)
  {
    if lines == [] then []
    else
      assert lines == lines[..|lines| - 1] + [lines[|lines| - 1]];
      RecordLines(lines[..|lines| - 1]) + (if IsRecordLine(lines[|lines| - 1]) then [lines[|lines| - 1]] else [])
  }

  /** Selecting the record lines commutes with concatenating inputs, so
      the record lines keep their relative order. */
  lemma {:induction false} RecordLinesAppend(a: seq<string>, b: seq<string>)
    ensures RecordLines(a + b) == RecordLines(a) + RecordLines(b)
  {
    if b == [] {
      assert a + b == a;
    } else {
      var front, last := b[..|b| - 1], b[|b| - 1];
      assert (a + b)[..|a + b| - 1] == a + front;
      assert (a + b)[|a + b| - 1] == last;
      RecordLinesAppend(a, front);
    }
  }

  /** Blank lines, comments and every other unrecognised line have no
      effect: dropping them all gives the same load. */
  lemma {:induction false} LoadIgnoresOtherLines<F>(lines: seq<string>, parseFloat: string -> Option<F>)
    ensures LoadLines(RecordLines(lines), parseFloat) == LoadLines(lines, parseFloat)
  {
    if lines != [] {
      var front, last := lines[..|lines| - 1], lines[|lines| - 1];
      LoadIgnoresOtherLines(front, parseFloat);
      LoadLast(lines, parseFloat);
      var rs := RecordLines(front);
      var r := LoadLines(front, parseFloat);
      if IsRecordLine(last) {
        assert RecordLines(lines) == rs + [last];
        assert (rs + [last])[..|rs|] == rs;
        LoadLast(rs + [last], parseFloat);
      } else {
        assert RecordLines(lines) == rs;
        if r.Ok? {
          StepLineEffect(r.value, last, parseFloat);
        }
      }
    }
  }

  /** Input without face lines counts no faces. */
  lemma {:induction false} NoFaceLines(lines: seq<string>)
    requires forall i :: 0 <= i < |lines| ==> !IsFaceLine(lines[i])
    ensures FaceCount(lines) == 0
  {
    if lines != [] {
      var front := lines[..|lines| - 1];
      assert forall i :: 0 <= i < |front| ==> front[i] == lines[i];
      NoFaceLines(front);
    }
  }

  /** A successful load of input without face lines outputs nothing, so
      `len()` is 0. */
  lemma NoFacesNoOutput<F>(lines: seq<string>, parseFloat: string -> Option<F>)
    requires forall i :: 0 <= i < |lines| ==> !IsFaceLine(lines[i])
    requires LoadLines(lines, parseFloat).Ok?
    ensures LoadLines(lines, parseFloat).value.objects == []
  {
    NoFaceLines(lines);
  }

  /** Only the first three tokens after the keyword are read. */
  lemma ExtraTokensIgnored<F>(st: ObjState<F>, line: string, longer: string, parseFloat: string -> Option<F>)
    requires |Words(line)| >= 4 && Words(line) <= Words(longer)
    ensures StepLine(st, longer, parseFloat) == StepLine(st, line, parseFloat)
  {
    assert Args(longer) == Args(line);
  }

  /** A line's step depends only on its tokens, so tabs, repeated spaces
      and leading or trailing whitespace make no difference. */
  lemma SameWordsSameStep<F>(st: ObjState<F>, l1: string, l2: string, parseFloat: string -> Option<F>)
    requires Words(l1) == Words(l2)
    ensures StepLine(st, l1, parseFloat) == StepLine(st, l2, parseFloat)
  {
  }

  /** Which sub-fields a face group yields: `i//j` and `i/t/j` both give
      position `i` and normal `j`, while `i/j` and `i` have no normal
      sub-field, because one sub-field is always skipped. */
  lemma FaceGroupForms(i: string, t: string, j: string)
    requires Free(i, Slash) && Free(t, Slash) && Free(j, Slash)
    ensures PositionField(i + "//" + j) == Some(i) && NormalField(i + "//" + j) == Some(j)
    ensures PositionField(i + "/" + t + "/" + j) == Some(i) && NormalField(i + "/" + t + "/" + j) == Some(j)
    ensures PositionField(i + "/" + j) == Some(i) && NormalField(i + "/" + j) == None
    ensures PositionField(i) == Some(i) && NormalField(i) == None
  {
    JoinThree(i, "", j, '/');
    assert i + "/" + "" + "/" + j == i + "//" + j;
    SplitJoin([i, "", j], '/', Slash);
    assert Split(i + "//" + j, Slash) == [i, "", j];
    JoinThree(i, t, j, '/');
    SplitJoin([i, t, j], '/', Slash);
    assert Split(i + "/" + t + "/" + j, Slash) == [i, t, j];
    assert Join([i, j], '/') == i + "/" + j;
    SplitJoin([i, j], '/', Slash);
    assert Join([i], '/') == i;
    SplitJoin([i], '/', Slash);
  }

  lemma JoinThree(a: string, b: string, c: string, glue: char)
    ensures Join([a, b, c], glue) == a + [glue] + b + [glue] + c
  {
    assert [a, b, c][1..] == [b, c];
    assert [b, c][1..] == [c];
    assert Join([b, c], glue) == b + [glue] + c;
  }

  lemma JoinFour(a: string, b: string, c: string, d: string, glue: char)
    ensures Join([a, b, c, d], glue) == a + [glue] + b + [glue] + c + [glue] + d
  {
    assert [a, b, c, d][1..] == [b, c, d];
    JoinThree(b, c, d, glue);
  }

  // ---------------------------------------------------------------------
  // Single records

  /** A `v` line of three tokens is a position record with exactly those
      tokens, and a `vn` line a normal record. */
  lemma PositionLineTokens<F>(st: ObjState<F>, line: string, x: string, y: string, z: string, parseFloat: string -> Option<F>)
    requires line == "v " + x + " " + y + " " + z
    requires x != [] && y != [] && z != []
    requires Free(x, Whitespace) && Free(y, Whitespace) && Free(z, Whitespace)
    ensures StepLine(st, line, parseFloat)
      == match ParseTriple(PositionRecord, [Some(x), Some(y), Some(z)], parseFloat)
         case Ok(p) => Ok(st.(vertices := st.vertices + [p]))
         case Err(e) => Err(e)
  {
    JoinFour("v", x, y, z, ' ');
    assert "v " + x + " " + y + " " + z == "v" + [' '] + x + [' '] + y + [' '] + z;
    WordsJoin(["v", x, y, z]);
    assert Keyword(line) == Some("v");
    assert Args(line) == [Some(x), Some(y), Some(z)];
  }

  lemma NormalLineTokens<F>(st: ObjState<F>, line: string, x: string, y: string, z: string, parseFloat: string -> Option<F>)
    requires line == "vn " + x + " " + y + " " + z
    requires x != [] && y != [] && z != []
    requires Free(x, Whitespace) && Free(y, Whitespace) && Free(z, Whitespace)
    ensures StepLine(st, line, parseFloat)
      == match ParseTriple(NormalRecord, [Some(x), Some(y), Some(z)], parseFloat)
         case Ok(n) => Ok(st.(normals := st.normals + [n]))
         case Err(e) => Err(e)
  {
    JoinFour("vn", x, y, z, ' ');
    assert "vn " + x + " " + y + " " + z == "vn" + [' '] + x + [' '] + y + [' '] + z;
    WordsJoin(["vn", x, y, z]);
    assert Keyword(line) == Some("vn");
    assert Args(line) == [Some(x), Some(y), Some(z)];
  }

  /** An `f` line of three space-separated groups is handed to the face
      resolver with exactly those groups. */
  lemma FaceLineGroups<F>(st: ObjState<F>, line: string, g0: string, g1: string, g2: string, parseFloat: string -> Option<F>)
    requires line == "f " + g0 + " " + g1 + " " + g2
    requires g0 != [] && g1 != [] && g2 != []
    requires Free(g0, Whitespace) && Free(g1, Whitespace) && Free(g2, Whitespace)
    ensures StepLine(st, line, parseFloat) == FaceStep(st, [Some(g0), Some(g1), Some(g2)])
  {
    JoinFour("f", g0, g1, g2, ' ');
    assert "f " + g0 + " " + g1 + " " + g2 == "f" + [' '] + g0 + [' '] + g1 + [' '] + g2;
    WordsJoin(["f", g0, g1, g2]);
    assert Keyword(line) == Some("f");
    assert Args(line) == [Some(g0), Some(g1), Some(g2)];
  }
}
