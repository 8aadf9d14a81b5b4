/** The OBJ-subset loader of src/obj_loader.rs as functions over the
    loader's state: one step per input line, and the whole load as the
    sequence of those steps. The class in obj_loader.dfy performs the same
    steps in place and is proved against these functions. */
module ObjModel {
  import opened Wrappers
  import opened Tokenizer
  import opened Decimal

  /** A `[f32; 3]` of the source; the component type `F` is left open. */
  datatype Vec3<F> = Vec3(x: F, y: F, z: F)

  /** `Vertex`: a position and a normal, copied by value from the tables. */
  datatype Vertex<F> = Vertex(position: Vec3<F>, normal: Vec3<F>)

  /** The record a line declares, by its first token. */
  datatype Record = PositionRecord | NormalRecord | FaceRecord

  datatype Table = Positions | Normals

  /** The conditions under which the source panics, one per panic site. */
  datatype Error =
    | MissingToken(record: Record, found: seq<Option<string>>)
    | BadFloat(record: Record, tokens: seq<string>)
    | MissingSubField(groups: seq<string>)
    | BadNormalIndex(tokens: seq<string>)
    | BadPositionIndex(tokens: seq<string>)
    | IndexOutOfRange(table: Table, index: nat, length: nat)

  /** The fields of an `ObjBuffer`: the two append-only tables and the
      flat output triangle list. */
  datatype ObjState<F> = ObjState(vertices: seq<Vec3<F>>, normals: seq<Vec3<F>>, objects: seq<Vertex<F>>)

  /** `ObjBuffer::new`. */
  function Empty<F>(): (r: ObjState<F>)
    ensures Wellformed(r)
  {
    ObjState([], [], [])
  }

  /** What every reachable state satisfies: whole triangles only, and every
      output vertex copied from the tables. */
  ghost predicate Wellformed<F>(st: ObjState<F>)
  {
    && |st.objects| % 3 == 0
    && forall o :: o in st.objects ==> o.position in st.vertices && o.normal in st.normals
  }

  /** `t` is `st` with entries only appended, never changed or removed. */
  ghost predicate Grows<F>(st: ObjState<F>, t: ObjState<F>)
  {
    st.vertices <= t.vertices && st.normals <= t.normals && st.objects <= t.objects
  }

  // ---------------------------------------------------------------------
  // Record parsers

  /** The three components of a `v` or `vn` record. The float-literal
      parser of the source is the parameter `parseFloat`. */
  function ParseTriple<F>(record: Record, ts: seq<Option<string>>, parseFloat: string -> Option<F>): (r: Result<Vec3<F>, Error>)
    requires |ts| == 3
    ensures r.Ok? <==> forall k :: 0 <= k < 3 ==> ts[k].Some? && parseFloat(ts[k].value).Some?
    ensures r.Ok? ==> r.value == Vec3(parseFloat(ts[0].value).value, parseFloat(ts[1].value).value, parseFloat(ts[2].value).value)
    ensures !AllSome(ts) ==> r == Err(MissingToken(record, ts))
    ensures AllSome(ts) && r.Err? ==> r == Err(BadFloat(record, Values(ts)))
  {
    if !AllSome(ts) then Err(MissingToken(record, ts))
    else
      var vs := [parseFloat(ts[0].value), parseFloat(ts[1].value), parseFloat(ts[2].value)];
      if !AllSome(vs) then Err(BadFloat(record, Values(ts)))
      else Ok(Vec3(vs[0].value, vs[1].value, vs[2].value))
  }

  // ---------------------------------------------------------------------
  // Face resolver

  /** The position sub-field of a face group: the first `/`-separated piece. */
  function PositionField(g: string): (r: Option<string>)
    ensures r.Some? && Free(r.value, Slash)
  {
    SplitPiecesFree(g, Slash);
    Nth(Split(g, Slash), 0)
  }

  /** The normal sub-field of a face group: after the first piece, exactly
      one piece (the texture slot) is skipped. */
  function NormalField(g: string): (r: Option<string>)
    ensures r.Some? ==> Free(r.value, Slash)
  {
    SplitPiecesFree(g, Slash);
    Nth(Split(g, Slash), 2)
  }

  /** A face group the resolver accepts: it has a normal sub-field, and
      both index sub-fields parse as `usize`. */
  predicate GroupParses(t: Option<string>)
  {
    && t.Some?
    && PositionField(t.value).Some? && NormalField(t.value).Some?
    && ParseUsize(PositionField(t.value).value).Some?
    && ParseUsize(NormalField(t.value).value).Some?
  }

  /** Group `g` has a normal sub-field and it parses as `usize`. */
  predicate GroupNormalParses(g: string)
  {
    NormalField(g).Some? && ParseUsize(NormalField(g).value).Some?
  }

  /** `i` and `n` are the position and normal indices group `t` spells. */
  predicate IndicesOf(t: Option<string>, i: nat, n: nat)
  {
    && t.Some? && PositionField(t.value).Some? && NormalField(t.value).Some?
    && ParseUsize(PositionField(t.value).value) == Some(i)
    && ParseUsize(NormalField(t.value).value) == Some(n)
  }

  /** The position and normal indices of a face record, still 1-based.
      Sub-fields are checked first, then the three normal indices are
      parsed, then the three position indices. */
  function FaceIndices(ts: seq<Option<string>>): (r: Result<(seq<nat>, seq<nat>), Error>)
    requires |ts| == 3
    ensures r.Ok? ==> |r.value.0| == 3 && |r.value.1| == 3
  {
    if !(ts[0].Some? && ts[1].Some? && ts[2].Some?) then Err(MissingToken(FaceRecord, ts))
    else
      var g0, g1, g2 := ts[0].value, ts[1].value, ts[2].value;
      var p0, p1, p2 := PositionField(g0), PositionField(g1), PositionField(g2);
      var n0, n1, n2 := NormalField(g0), NormalField(g1), NormalField(g2);
      if !(n0.Some? && n1.Some? && n2.Some? && p0.Some? && p1.Some? && p2.Some?) then
        Err(MissingSubField([g0, g1, g2]))
      else
        var a0, a1, a2 := ParseUsize(n0.value), ParseUsize(n1.value), ParseUsize(n2.value);
        if !(a0.Some? && a1.Some? && a2.Some?) then
          Err(BadNormalIndex([n0.value, n1.value, n2.value]))
        else
          var b0, b1, b2 := ParseUsize(p0.value), ParseUsize(p1.value), ParseUsize(p2.value);
          if !(b0.Some? && b1.Some? && b2.Some?) then
            Err(BadPositionIndex([p0.value, p1.value, p2.value]))
          else
            Ok(([b0.value, b1.value, b2.value], [a0.value, a1.value, a2.value]))
  }

  /** A face record resolves to indices exactly when each of its three
      groups is present, has a normal sub-field and both of its index
      sub-fields parse; the indices are then the ones the groups spell, and
      a missing group is reported as a missing token. */
  lemma FaceIndicesAccepts(ts: seq<Option<string>>)
    requires |ts| == 3
    ensures FaceIndices(ts).Ok? <==> GroupParses(ts[0]) && GroupParses(ts[1]) && GroupParses(ts[2])
    ensures FaceIndices(ts).Ok? ==> forall k :: 0 <= k < 3 ==> IndicesOf(ts[k], FaceIndices(ts).value.0[k], FaceIndices(ts).value.1[k])
    ensures !AllSome(ts) ==> FaceIndices(ts) == Err(MissingToken(FaceRecord, ts))
    ensures FaceIndices(ts).Err? ==> !FaceIndices(ts).error.IndexOutOfRange?
    ensures AllSome(ts) && (exists k :: 0 <= k < 3 && NormalField(ts[k].value).None?) ==>
      FaceIndices(ts) == Err(MissingSubField(Values(ts)))
    ensures (&& AllSome(ts) && (forall k :: 0 <= k < 3 ==> NormalField(ts[k].value).Some?)
             && (exists k :: 0 <= k < 3 && ParseUsize(NormalField(ts[k].value).value).None?)) ==>
      FaceIndices(ts) == Err(BadNormalIndex([NormalField(ts[0].value).value, NormalField(ts[1].value).value, NormalField(ts[2].value).value]))
    ensures (&& AllSome(ts) && (forall k :: 0 <= k < 3 ==> GroupNormalParses(ts[k].value))
             && (exists k :: 0 <= k < 3 && ParseUsize(PositionField(ts[k].value).value).None?)) ==>
      FaceIndices(ts) == Err(BadPositionIndex([PositionField(ts[0].value).value, PositionField(ts[1].value).value, PositionField(ts[2].value).value]))
  {
    if AllSome(ts) {
      assert Values(ts) == [ts[0].value, ts[1].value, ts[2].value];
    }
  }

  /** Groups that spell indices `vi` and `ni` resolve to exactly those. */
  lemma FaceIndicesOf(ts: seq<Option<string>>, vi: seq<nat>, ni: seq<nat>)
    requires |ts| == 3 && |vi| == 3 && |ni| == 3
    requires forall k :: 0 <= k < 3 ==> IndicesOf(ts[k], vi[k], ni[k])
    ensures FaceIndices(ts) == Ok((vi, ni))
  {
    assert IndicesOf(ts[0], vi[0], ni[0]) && IndicesOf(ts[1], vi[1], ni[1]) && IndicesOf(ts[2], vi[2], ni[2]);
    assert vi == [vi[0], vi[1], vi[2]] && ni == [ni[0], ni[1], ni[2]];
  }

  /** A 1-based index that names an entry of a table of length `len`. */
  predicate InTable(i: nat, len: nat)
  {
    1 <= i <= len
  }

  /** The first index, from group `k` on, that `add_vertices` would fail on:
      per group the normal is looked up before the position. An index of 0
      underflows and one past the end is out of bounds. */
  function FirstBadIndex(vi: seq<nat>, ni: seq<nat>, nv: nat, nn: nat, k: nat): (r: Option<Error>)
    requires |vi| == |ni| && k <= |vi|
    decreases |vi| - k
    ensures r.None? <==> forall j :: k <= j < |vi| ==> InTable(ni[j], nn) && InTable(vi[j], nv)
    ensures r.Some? ==> r.value.IndexOutOfRange? && !InTable(r.value.index, r.value.length)
    ensures r.Some? && r.value.table == Normals ==> r.value.length == nn && r.value.index in ni[k..]
    ensures r.Some? && r.value.table == Positions ==> r.value.length == nv && r.value.index in vi[k..]
  {
    if k == |vi| then None
    else if !InTable(ni[k], nn) then Some(IndexOutOfRange(Normals, ni[k], nn))
    else if !InTable(vi[k], nv) then Some(IndexOutOfRange(Positions, vi[k], nv))
    else
      var r := FirstBadIndex(vi, ni, nv, nn, k + 1);
      assert r.Some? ==> r.value.index in ni[k + 1..] || r.value.index in vi[k + 1..];
      assert ni[k + 1..] <= ni[k..][1..] && vi[k + 1..] <= vi[k..][1..];
      r
  }

  /** The error reported is that of the earliest group with a bad index,
      and within that group the normal is checked before the position. */
  lemma {:induction false} FirstBadIndexIsFirst(vi: seq<nat>, ni: seq<nat>, nv: nat, nn: nat, k: nat, j: nat)
    requires |vi| == |ni| && k <= j < |vi|
    requires forall m :: k <= m < j ==> InTable(ni[m], nn) && InTable(vi[m], nv)
    requires !InTable(ni[j], nn) || !InTable(vi[j], nv)
    ensures FirstBadIndex(vi, ni, nv, nn, k)
      == if !InTable(ni[j], nn) then Some(IndexOutOfRange(Normals, ni[j], nn))
         else Some(IndexOutOfRange(Positions, vi[j], nv))
    decreases j - k
  {
    if k < j {
      FirstBadIndexIsFirst(vi, ni, nv, nn, k + 1, j);
    }
  }

  /** Indices every one of which names an entry of the current tables. */
  predicate Resolvable<F>(st: ObjState<F>, vi: seq<nat>, ni: seq<nat>)
  {
    |vi| == |ni| && forall k :: 0 <= k < |vi| ==> InTable(vi[k], |st.vertices|) && InTable(ni[k], |st.normals|)
  }

  /** The output vertices of a face, in field order: each 1-based index
      shifted to a 0-based offset and its entry copied. */
  function Resolve<F>(st: ObjState<F>, vi: seq<nat>, ni: seq<nat>): (r: seq<Vertex<F>>)
    requires Resolvable(st, vi, ni)
    ensures |r| == |vi|
    ensures forall k :: 0 <= k < |r| ==> r[k] == Vertex(st.vertices[vi[k] - 1], st.normals[ni[k] - 1])
  {
    seq(|vi|, k requires 0 <= k < |vi| => Vertex(st.vertices[vi[k] - 1], st.normals[ni[k] - 1]))
  }

  /** `parse_face` followed by `add_vertices`. */
  function FaceStep<F>(st: ObjState<F>, ts: seq<Option<string>>): (r: Result<ObjState<F>, Error>)
    requires |ts| == 3
    ensures r.Ok? ==> r.value.vertices == st.vertices && r.value.normals == st.normals
    ensures r.Ok? ==> st.objects <= r.value.objects && |r.value.objects| == |st.objects| + 3
    ensures r.Err? && FaceIndices(ts).Ok? ==> r.error.IndexOutOfRange?
  {
    match FaceIndices(ts)
    case Err(e) => Err(e)
    case Ok((vi, ni)) =>
      match FirstBadIndex(vi, ni, |st.vertices|, |st.normals|, 0)
      case Some(e) => Err(e)
      case None => Ok(st.(objects := st.objects + Resolve(st, vi, ni)))
  }

  // ---------------------------------------------------------------------
  // Loader driver

  /** The first token of a line, which selects its record kind. */
  function Keyword(line: string): (r: Option<string>)
    ensures r.None? <==> forall i :: 0 <= i < |line| ==> IsWhitespace(line[i])
    ensures r.Some? ==> r.value != []
  {
    NoWords(line);
    Nth(Words(line), 0)
  }

  /** The three tokens after the keyword; any further ones are never read. */
  function Args(line: string): (r: seq<Option<string>>)
    ensures |r| == 3
  {
    var ws := Words(line);
    [Nth(ws, 1), Nth(ws, 2), Nth(ws, 3)]
  }

  predicate IsFaceLine(line: string)
  {
    Keyword(line) == Some("f")
  }

  /** A line that `load` routes to one of the record parsers. */
  predicate IsRecordLine(line: string)
  {
    Keyword(line) in {Some("v"), Some("vn"), Some("f")}
  }

  /** One iteration of the loop in `load`. */
  function StepLine<F>(st: ObjState<F>, line: string, parseFloat: string -> Option<F>): (r: Result<ObjState<F>, Error>)
    ensures r.Ok? ==> Grows(st, r.value)
  {
    var kw := Keyword(line);
    if kw == Some("v") then
      match ParseTriple(PositionRecord, Args(line), parseFloat)
      case Ok(p) => Ok(st.(vertices := st.vertices + [p]))
      case Err(e) => Err(e)
    else if kw == Some("vn") then
      match ParseTriple(NormalRecord, Args(line), parseFloat)
      case Ok(n) => Ok(st.(normals := st.normals + [n]))
      case Err(e) => Err(e)
    else if kw == Some("f") then
      FaceStep(st, Args(line))
    else
      Ok(st)
  }

  /** Appending whole triangles copied from the tables keeps the invariant. */
  lemma AppendKeepsWellformed<F>(st: ObjState<F>, added: seq<Vertex<F>>)
    requires Wellformed(st) && |added| == 3
    requires forall k :: 0 <= k < 3 ==> added[k].position in st.vertices && added[k].normal in st.normals
    ensures Wellformed(st.(objects := st.objects + added))
  {
    var t := st.(objects := st.objects + added);
    forall o | o in t.objects
      ensures o.position in t.vertices && o.normal in t.normals
    {
      if o !in st.objects {
        var k :| 0 <= k < |added| && added[k] == o;
      }
    }
  }

  /** A face step appends exactly the face's three resolved vertices. */
  lemma FaceStepAppends<F>(st: ObjState<F>, ts: seq<Option<string>>)
    requires |ts| == 3
    ensures var r := FaceStep(st, ts); var f := FaceIndices(ts);
      r.Ok? ==>
        && f.Ok?
        && Resolvable(st, f.value.0, f.value.1)
        && r.value == st.(objects := st.objects + Resolve(st, f.value.0, f.value.1))
        && (Wellformed(st) ==> Wellformed(r.value))
    ensures var f := FaceIndices(ts);
      f.Ok? && Resolvable(st, f.value.0, f.value.1) ==>
        FaceStep(st, ts) == Ok(st.(objects := st.objects + Resolve(st, f.value.0, f.value.1)))
  {
    var f := FaceIndices(ts);
    if f.Ok? {
      var vi, ni := f.value.0, f.value.1;
      if FirstBadIndex(vi, ni, |st.vertices|, |st.normals|, 0).None? {
        var added := Resolve(st, vi, ni);
        var t := st.(objects := st.objects + added);
        assert FaceStep(st, ts) == Ok(t);
        if Wellformed(st) {
          AppendKeepsWellformed(st, added);
        }
      }
    }
  }

  /** A face step fails with a reference error when the indices parse but
      one of them does not name a table entry. */
  lemma FaceStepRejects<F>(st: ObjState<F>, ts: seq<Option<string>>)
    requires |ts| == 3 && FaceIndices(ts).Ok?
    requires !Resolvable(st, FaceIndices(ts).value.0, FaceIndices(ts).value.1)
    ensures FaceStep(st, ts).Err? && FaceStep(st, ts).error.IndexOutOfRange?
  {
  }

  /** An `f` line is handed to the face resolver with its three arguments. */
  lemma FaceLineStep<F>(st: ObjState<F>, line: string, parseFloat: string -> Option<F>)
    requires IsFaceLine(line)
    ensures StepLine(st, line, parseFloat) == FaceStep(st, Args(line))
  {
  }

  /** What one line does to the state: a line that is not a record leaves
      it alone; a `v` line appends one position, a `vn` line one normal, an
      `f` line three output vertices; nothing is ever removed, and the
      invariant is kept. */
  lemma StepLineEffect<F>(st: ObjState<F>, line: string, parseFloat: string -> Option<F>)
    ensures !IsRecordLine(line) ==> StepLine(st, line, parseFloat) == Ok(st)
    ensures var r := StepLine(st, line, parseFloat);
      r.Ok? ==>
        && Grows(st, r.value)
        && |r.value.objects| == |st.objects| + (if IsFaceLine(line) then 3 else 0)
        && (Keyword(line) == Some("v") ==>
              |r.value.vertices| == |st.vertices| + 1 && r.value.normals == st.normals && r.value.objects == st.objects)
        && (Keyword(line) == Some("vn") ==>
              |r.value.normals| == |st.normals| + 1 && r.value.vertices == st.vertices && r.value.objects == st.objects)
        && (Wellformed(st) ==> Wellformed(r.value))
  {
    if IsFaceLine(line) {
      FaceStepAppends(st, Args(line));
    }
  }

  /** The number of face lines. */
  function FaceCount(lines: seq<string>): nat
  {
    if lines == [] then 0
    else FaceCount(lines[..|lines| - 1]) + (if IsFaceLine(lines[|lines| - 1]) then 1 else 0)
  }

  /** The number of lines whose keyword is `kw`. */
  function KeywordCount(lines: seq<string>, kw: string): nat
  {
    if lines == [] then 0
    else KeywordCount(lines[..|lines| - 1], kw) + (if Keyword(lines[|lines| - 1]) == Some(kw) then 1 else 0)
  }

  /** The table that the `kw` lines of `lines` define, in file order: the
      parsed triple of each such line (lines whose triple does not parse
      contribute nothing). */
  function TableOf<F>(lines: seq<string>, kw: string, record: Record, parseFloat: string -> Option<F>): (r: seq<Vec3<F>>)
    ensures |r| <= KeywordCount(lines, kw)
  {
    if lines == [] then []
    else
      var last := lines[|lines| - 1];
      var t := ParseTriple(record, Args(last), parseFloat);
      TableOf(lines[..|lines| - 1], kw, record, parseFloat) + (if Keyword(last) == Some(kw) && t.Ok? then [t.value] else [])
  }

  /** `load`: the lines in order, starting from the empty buffer; the first
      failing line ends the load. */
  function LoadLines<F>(lines: seq<string>, parseFloat: string -> Option<F>): (r: Result<ObjState<F>, Error>)
    ensures r.Ok? ==> Wellformed(r.value)
    ensures r.Ok? ==> |r.value.objects| == 3 * FaceCount(lines)
  {
    if lines == [] then Ok(Empty())
    else
      match LoadLines(lines[..|lines| - 1], parseFloat)
      case Err(e) => Err(e)
      case Ok(st) =>
        StepLineEffect(st, lines[|lines| - 1], parseFloat);
        StepLine(st, lines[|lines| - 1], parseFloat)
  }

  /** Fail fast: once a prefix of the input fails, the whole load fails
      with that same error and no buffer is produced. */
  lemma {:induction false} LoadFailsOnce<F>(lines: seq<string>, parseFloat: string -> Option<F>, i: nat)
    requires i <= |lines| && LoadLines(lines[..i], parseFloat).Err?
    ensures LoadLines(lines, parseFloat) == LoadLines(lines[..i], parseFloat)
    decreases |lines|
  {
    if i < |lines| {
      var front := lines[..|lines| - 1];
      assert front[..i] == lines[..i];
      LoadFailsOnce(front, parseFloat, i);
    } else {
      assert lines[..i] == lines;
    }
  }

  /** The load of the first `i + 1` lines is line `i`'s step from the load
      of the first `i`. */
  lemma LoadStepAt<F>(lines: seq<string>, parseFloat: string -> Option<F>, i: nat)
    requires i < |lines| && LoadLines(lines[..i], parseFloat).Ok?
    ensures LoadLines(lines[..i + 1], parseFloat) == StepLine(LoadLines(lines[..i], parseFloat).value, lines[i], parseFloat)
  {
    var upto := lines[..i + 1];
    assert upto[..|upto| - 1] == lines[..i];
    assert upto[|upto| - 1] == lines[i];
    LoadLast(upto, parseFloat);
  }

  /** After a successful load the position table holds the triple of
      every `v` line and the normal table that of every `vn` line, one
      entry per line, in file order. */
  lemma {:induction false} LoadTables<F>(lines: seq<string>, parseFloat: string -> Option<F>)
    requires LoadLines(lines, parseFloat).Ok?
    ensures var st := LoadLines(lines, parseFloat).value;
      && st.vertices == TableOf(lines, "v", PositionRecord, parseFloat)
      && st.normals == TableOf(lines, "vn", NormalRecord, parseFloat)
      && |st.vertices| == KeywordCount(lines, "v")
      && |st.normals| == KeywordCount(lines, "vn")
  {
    if lines != [] {
      var front, last := lines[..|lines| - 1], lines[|lines| - 1];
      LoadLast(lines, parseFloat);
      LoadTables(front, parseFloat);
      StepLineTables(LoadLines(front, parseFloat).value, last, parseFloat);
    }
  }

  /** A successful step adds the line's parsed triple to the table its
      keyword selects, and to no other table. */
  lemma StepLineTables<F>(st: ObjState<F>, line: string, parseFloat: string -> Option<F>)
    requires StepLine(st, line, parseFloat).Ok?
    ensures var r := StepLine(st, line, parseFloat).value;
      var p := ParseTriple(PositionRecord, Args(line), parseFloat);
      var n := ParseTriple(NormalRecord, Args(line), parseFloat);
      && (Keyword(line) == Some("v") ==> p.Ok?)
      && (Keyword(line) == Some("vn") ==> n.Ok?)
      && r.vertices == st.vertices + (if Keyword(line) == Some("v") && p.Ok? then [p.value] else [])
      && r.normals == st.normals + (if Keyword(line) == Some("vn") && n.Ok? then [n.value] else [])
  {
    if IsFaceLine(line) {
      FaceLineStep(st, line, parseFloat);
    }
  }

  /** The load of a non-empty input is its last line's step from the load
      of the lines before it, or that load's error. */
  lemma LoadLast<F>(lines: seq<string>, parseFloat: string -> Option<F>)
    requires lines != []
    ensures var front := LoadLines(lines[..|lines| - 1], parseFloat);
      LoadLines(lines, parseFloat) == if front.Err? then front else StepLine(front.value, lines[|lines| - 1], parseFloat)
  {
  }
}
