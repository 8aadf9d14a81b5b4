# OBJ-subset mesh loader

This project models the Wavefront-OBJ-subset loader in `src/obj_loader.rs`
in Dafny and proves properties about the model. The loader reads text
lines and builds two append-only tables: vertex positions from `v` lines
and normals from `vn` lines. Each `f` line names three (position, normal)
pairs by 1-based index. Resolving those pairs appends three `Vertex`
values to a flat, non-indexed triangle list.

The model has these parts:

- `wrappers.dfy` (`Wrappers`): `Option`, `Result` and `Outcome`.
  `Nth(xs, k)` stands for `Iterator::next`/`nth` on a token or sub-field
  iterator.
- `tokenizer.dfy` (`Tokenizer`): `str::split` on a character class, as
  `Split`, and `words` itself, as `Words`. `Words` splits on Unicode
  White_Space, which is what `char::is_whitespace` tests, and drops empty
  pieces.
- `decimal.dfy` (`Decimal`): `usize::from_str`, as `ParseUsize`. It
  accepts an optional `+` followed by one or more ASCII digits, with a
  value of at most 2^64 − 1.
- `obj_model.dfy` (`ObjModel`): the loader as pure functions over an
  `ObjState` value (the three lists of `ObjBuffer`):
  - `ParseTriple` for `parse_vertex` and `parse_normal`;
  - `FaceIndices`, `FirstBadIndex` and `Resolve` for `parse_face` and
    `add_vertices`;
  - `StepLine`, one iteration of the loop in `load`;
  - `LoadLines`, the whole load.
- `obj_loader.dfy` (`ObjLoader`): the class `ObjBuffer` with the three
  lists as `seq` fields and methods that update them in place. The
  methods are `ParseVertex`, `ParseNormal`, `AddVertices` (the
  `for idx in 0..3` loop), `ParseFace`, `Load` (the loop over lines) and
  `Len`. Each method is proved against the matching `ObjModel` function.
- `loader_lemmas.dfy` (`LoaderLemmas`): properties of whole loads and of
  single record lines.
- `scenarios.dfy` (`Scenarios`): the triangle face `f 1//1 2//1 3//1`
  and the out-of-range face `f 1/1/1 2/1/1 99/1/1`, each over tables of
  three positions and one normal.

Each `panic!` of the source becomes an `Error` value:

| panic site | error |
|---|---|
| a missing token | `MissingToken` |
| an unparseable float | `BadFloat` |
| a face group without a third sub-field | `MissingSubField` |
| an unparseable normal index | `BadNormalIndex` |
| an unparseable position index | `BadPositionIndex` |
| an index of 0 or past the end of its table | `IndexOutOfRange` |

The first failing line ends the load, and no buffer is produced.

The checks run in the order of the source (`FaceIndicesAccepts`,
`FirstBadIndexIsFirst`):

1. the three face tokens are present;
2. every group has sub-fields 0 and 2;
3. the three normal indices parse;
4. the three position indices parse;
5. the indices are bounds-checked group by group, normal before position,
   as `add_vertices` reads `normals[ni[idx]-1]` before
   `vertices[vi[idx]-1]`.

`Vertex::new` is the datatype constructor `Vertex(position, normal)`.
The float type is the type parameter `F`. The literal parser `f32::from_str`
is the parameter `parseFloat: string -> Option<F>`.

Two behaviours of the code are worth naming:

- A record line is read only as far as its first three tokens after the
  keyword; any further tokens are ignored (`ExtraTokensIgnored`). Fewer
  than three tokens is a `MissingToken` error.
- A face group always takes sub-field 2 as its normal, so a bare `p` or a
  `p/n` group has no normal sub-field (`FaceGroupForms`), and a face
  with such a group fails with `MissingSubField` (`FaceIndicesAccepts`).

## Model

| member | source | states |
|---|---|---|
| Tokenizer.Split | src/obj_loader.rs:20 | `split` always yields at least one piece; its other properties are stated by `SplitConcat`, `SplitJoin`, `JoinSplitSlash` and `SplitAtSeparator` |
| Tokenizer.SplitAtSeparator | src/obj_loader.rs:20 | a separator character between two strings splits exactly there: the pieces are those of the left part followed by those of the right part |
| Tokenizer.Words | src/obj_loader.rs:13-21 | no token is empty; `WordsAreTokens`, `NoWords`, `WordsJoin`, `WordsAtWhitespace` and `WordsOfToken` state the rest |
| Tokenizer.WordsAtWhitespace | src/obj_loader.rs:13-21 | a whitespace character ends a token: the tokens of `a + [c] + b` are those of `a` followed by those of `b` |
| Tokenizer.WordsOfToken | src/obj_loader.rs:13-21 | a non-empty string without whitespace is exactly one token, so tokens are maximal runs of non-whitespace characters |
| Tokenizer.IsWhitespace | src/obj_loader.rs:17 | `char::is_whitespace` as the Unicode White_Space set; among ASCII characters exactly space, tab, line feed, vertical tab, form feed and carriage return, and never `/`; `WordsAreTokens` and `NoWords` state what it does to a line |
| Tokenizer.NonEmpty | src/obj_loader.rs:14-20 | the `is_not_empty` filter keeps no empty piece and never adds one; `WordsAreTokens` and `NoWords` state its effect on a line |
| Tokenizer.WordsAreTokens | src/obj_loader.rs:13-21 | every token of `words` is non-empty and free of whitespace; the tokens concatenated in order equal the line with its whitespace removed |
| Tokenizer.NoWords | src/obj_loader.rs:13-21 | a line yields no token if and only if every character of it is whitespace, which includes the empty line |
| Tokenizer.WordsJoin | src/obj_loader.rs:13-21 | tokenizing non-empty, whitespace-free tokens joined by single spaces gives back exactly those tokens |
| Tokenizer.SplitConcat | src/obj_loader.rs:20 | the pieces of `split` concatenated in order are the input with the separator characters removed |
| Tokenizer.SplitJoin | src/obj_loader.rs:88 | splitting separator-free pieces joined by a separator gives back exactly those pieces, empty pieces included |
| Tokenizer.JoinSplitSlash | src/obj_loader.rs:88 | joining the `/`-pieces of a group with `/` gives back the group |
| Decimal.ParseUsize | src/obj_loader.rs:97-105 | a parsed index is at most `usize::MAX`; `ParseUsizeAccepts` states exactly which strings parse, and `ShowDigits`, `ParseShowNat`, `ParseLeadingZero` and `ParseRejectsMinus` state to what |
| Decimal.ShowDigits | src/obj_loader.rs:97-105 | a digit string without leading zeros parses to the number whose canonical decimal spelling it is, so `ShowNat` and `DigitsValue` are inverse on canonical strings |
| Decimal.ParseUsizeAccepts | src/obj_loader.rs:97-105 | an index string parses if and only if it is a non-empty run of ASCII digits, optionally after one `+`, with a value of at most `usize::MAX` |
| Decimal.ParseShowNat | src/obj_loader.rs:97-105 | a number written in decimal parses back to itself when it is at most `usize::MAX` and fails above it; a leading `+` changes nothing |
| Decimal.ParseRejectsMinus | src/obj_loader.rs:97-105 | no string starting with `-` parses as an index |
| Decimal.ParseLeadingZero | src/obj_loader.rs:97-105 | a leading zero does not change the index a digit string denotes |
| ObjModel.Empty | src/obj_loader.rs:44-50 | the empty buffer satisfies the state invariant: no partial triangle and no vertex that is not copied from the tables |
| ObjModel.ParseTriple | src/obj_loader.rs:51-72 | succeeds if and only if all three tokens are present and each parses; the result is the three parsed components in order; a missing token gives `MissingToken`, otherwise a failure is `BadFloat` |
| ObjModel.PositionField | src/obj_loader.rs:89 | `g.next()` on the `/`-split of a group is always present and holds no `/`; `FaceGroupForms` states which piece it is |
| ObjModel.NormalField | src/obj_loader.rs:90 | `g.nth(1)` after `next()`, skipping one sub-field; when present it holds no `/`; `FaceGroupForms` states which groups have one |
| ObjModel.FaceIndices | src/obj_loader.rs:83-105 | the indices read from a face are three position and three normal indices; `FaceIndicesAccepts` and `FaceIndicesOf` state when they are read and which they are |
| ObjModel.FaceIndicesAccepts | src/obj_loader.rs:83-105 | a face's indices are read if and only if each of the three groups has sub-fields 0 and 2 and both parse; the results are exactly those indices; the errors come in source order: a missing token gives `MissingToken`, else a group without a normal sub-field gives `MissingSubField` of the groups, else an unparseable normal gives `BadNormalIndex` of the normal sub-fields, else an unparseable position gives `BadPositionIndex` of the position sub-fields; it never reports `IndexOutOfRange` |
| ObjModel.FaceIndicesOf | src/obj_loader.rs:88-105 | three groups spelling position indices `vi` and normal indices `ni` yield exactly `(vi, ni)` |
| ObjModel.FirstBadIndex | src/obj_loader.rs:75-77 | no error if and only if every index is in `[1, table length]`; otherwise an `IndexOutOfRange` naming an out-of-range index that occurs in the face, its table and that table's length |
| ObjModel.FirstBadIndexIsFirst | src/obj_loader.rs:75-77 | the error reported is that of the earliest group with a bad index, the normal index before the position index within the group, as the loop reads them |
| ObjModel.Resolve | src/obj_loader.rs:75-80 | three output vertices, the k-th pairing position `vi[k]-1` with normal `ni[k]-1` |
| ObjModel.FaceStep | src/obj_loader.rs:82-108 | a face that succeeds leaves both tables unchanged and appends exactly three output vertices after the old ones; once the indices are read, the only error is `IndexOutOfRange`; `FaceStepAppends` and `FaceStepRejects` state the rest |
| ObjModel.FaceStepAppends | src/obj_loader.rs:82-108 | a face succeeds if and only if its indices are readable and in range, and then it appends exactly their resolution, keeping the state invariant |
| ObjModel.FaceStepRejects | src/obj_loader.rs:75-77 | readable indices that are out of range make the face fail with `IndexOutOfRange` |
| ObjModel.Keyword | src/obj_loader.rs:116 | a line has no keyword if and only if it is empty or all whitespace; a keyword is never empty |
| ObjModel.Args | src/obj_loader.rs:117-119 | exactly three argument slots are read after the keyword, whatever the line holds; `ExtraTokensIgnored` states that the rest is never read |
| ObjModel.StepLine | src/obj_loader.rs:116-121 | a successful line only appends to the three lists; `StepLineEffect` states what each kind of line appends |
| ObjModel.StepLineEffect | src/obj_loader.rs:116-121 | a line that is not `v`/`vn`/`f` leaves the state unchanged; a `v` line adds one position and a `vn` line one normal, changing nothing else; an `f` line adds exactly three output vertices; a step only appends, and it keeps the invariant |
| ObjModel.LoadLines | src/obj_loader.rs:109-124 | a successful load satisfies the invariant (whole triangles, every vertex copied from the tables) and outputs exactly three vertices per `f` line; `LoadTables` states the tables |
| ObjModel.TableOf | src/obj_loader.rs:117-118 | the triples of the lines with a given keyword, in file order, never more entries than such lines |
| ObjModel.StepLineTables | src/obj_loader.rs:116-121 | a successful step appends the parsed triple of a `v` line to the positions and of a `vn` line to the normals, and to no other table |
| ObjModel.LoadTables | src/obj_loader.rs:109-124 | after a successful load the positions are the triples of the `v` lines and the normals those of the `vn` lines, in file order, one entry per line |
| ObjModel.LoadFailsOnce | src/obj_loader.rs:109-124 | once a prefix of the input fails, the whole load fails with that same error |
| ObjModel.LoadStepAt | src/obj_loader.rs:111-121 | loading one more line is one loop iteration applied to the state after the earlier lines |
| ObjLoader.ObjBuffer.constructor | src/obj_loader.rs:44-50 | all three lists start empty |
| ObjLoader.ObjBuffer.Len | src/obj_loader.rs:147-149 | the length of the output list, always a multiple of 3 |
| ObjLoader.ObjBuffer.ParseVertex | src/obj_loader.rs:51-61 | with three parseable tokens it appends exactly one position and leaves normals and output unchanged; otherwise it reports the error and changes nothing |
| ObjLoader.ObjBuffer.ParseNormal | src/obj_loader.rs:62-72 | with three parseable tokens it appends exactly one normal and leaves positions and output unchanged; otherwise it reports the error and changes nothing |
| ObjLoader.ObjBuffer.AddVertices | src/obj_loader.rs:74-81 | given indices in range, the tables are unchanged and the output grows by the three resolved vertices, in field order |
| ObjLoader.ObjBuffer.ParseFace | src/obj_loader.rs:82-108 | the new state and the outcome are those of the face step: indices read and range-checked, then the triangle added, or the error reported with nothing changed |
| ObjLoader.ObjBuffer.Load | src/obj_loader.rs:109-124 | a successful load returns a fresh buffer whose lists are the load of all lines; a failing load returns the first line's error |
| LoaderLemmas.LoadPrefix | src/obj_loader.rs:109-124 | every state a successful load passes through is a prefix of the final one in all three lists |
| LoaderLemmas.FaceLineLoaded | src/obj_loader.rs:119 | a face line that loaded appended the resolution of its indices against the tables as they stood before it |
| LoaderLemmas.AppendedStays | src/obj_loader.rs:79 | a triangle once appended stays in place in every later state and still names the same table entries |
| LoaderLemmas.LoadFaceInOrder | src/obj_loader.rs:74-81 | in a successful load, the face on line `i` refers only to entries defined above it, and its three vertices sit at position 3 × (faces before it), in field order, each the named position and normal (`TriangleAt`) |
| LoaderLemmas.TriangleAtPrefix | src/obj_loader.rs:76-77 | a triangle that names entries of tables names the same entries of any prefixes of them that still hold its indices |
| LoaderLemmas.LoadFaceNamesLines | src/obj_loader.rs:74-81 | in a successful load, a face's field `i//j` stands for the triple of the `i`-th `v` line and of the `j`-th `vn` line above it, and its three vertices, at 3 × (faces before it), are those triples |
| LoaderLemmas.LoadRejectsBadIndex | src/obj_loader.rs:76-77 | a face index of 0, or past the end of its table when the face is read, fails the whole load with `IndexOutOfRange` |
| LoaderLemmas.RecordLines | src/obj_loader.rs:116-121 | a line is kept if and only if it occurs in the input and `load` routes it to a parser; no more lines than the input has |
| LoaderLemmas.RecordLinesAppend | src/obj_loader.rs:111-121 | selecting record lines commutes with concatenating inputs, so the kept lines stay in input order |
| LoaderLemmas.LoadIgnoresOtherLines | src/obj_loader.rs:120 | dropping every line whose first token is not `v`, `vn` or `f` (blank lines included) gives the same load |
| LoaderLemmas.NoFaceLines | src/obj_loader.rs:119 | input without `f` lines counts no faces |
| LoaderLemmas.NoFacesNoOutput | src/obj_loader.rs:147-149 | a successful load of input without `f` lines outputs nothing, so `len()` is 0 |
| LoaderLemmas.ExtraTokensIgnored | src/obj_loader.rs:117-119 | tokens after the third argument do not change what a line does |
| LoaderLemmas.SameWordsSameStep | src/obj_loader.rs:112-121 | two lines with the same tokens step alike, so tabs, repeated spaces and surrounding whitespace make no difference |
| LoaderLemmas.FaceGroupForms | src/obj_loader.rs:88-90 | `i//j` and `i/t/j` both give position `i` and normal `j`; `i/j` and `i` have no normal sub-field |
| LoaderLemmas.PositionLineTokens | src/obj_loader.rs:117 | a `v` line of three tokens appends the parsed triple of exactly those tokens, or fails as the triple does |
| LoaderLemmas.NormalLineTokens | src/obj_loader.rs:118 | a `vn` line of three tokens appends the parsed triple of exactly those tokens, or fails as the triple does |
| LoaderLemmas.FaceLineGroups | src/obj_loader.rs:119 | an `f` line of three groups is resolved with exactly those groups |
| Scenarios.TriangleFace | src/obj_loader.rs:82-108 | over positions (0,0,0), (1,0,0), (0,1,0) and normal (0,0,1), `f 1//1 2//1 3//1` outputs exactly those three positions in order, each with that normal |
| Scenarios.OutOfRangeFace | src/obj_loader.rs:74-81 | over the same tables, `f 1/1/1 2/1/1 99/1/1` fails with the reference error for index 99 against a position table of length 3 |

## Left out

- `to_vertex_buffer` (src/obj_loader.rs:144-146) is left out. It uploads the output list to the GPU through glium, a foreign library.
- `load_std` (src/obj_loader.rs:125-143) is not modelled separately. Apart from reading stdin, its loop is the loop of `load`, so `ObjBuffer.Load` covers it.
- Reading lines and their I/O errors (src/obj_loader.rs:111-115) are left out. The input is a `seq<string>` of lines with the line endings already removed.
- Float-literal parsing (`f32::from_str`) is the parameter `parseFloat`. `f32` values are the type parameter `F`. No floating-point behaviour is modelled.
- `usize` is taken to be 64 bits wide, so `usize::MAX` is 2^64 − 1.
- The text of each panic message is not modelled. The `Error` values carry the offending tokens. `MissingSubField` carries the three groups rather than the six sub-fields its message prints. `IndexOutOfRange` carries the 1-based index, its table and that table's length; Rust's own bounds message shows the 0-based offset, and its subtraction-overflow message shows no value.
- A panic ends the program in the source. In the model a failing step returns its error and leaves the buffer unchanged, and `Load` returns no buffer after the first error.
- An index of 0 underflows in `ni[idx] - 1`. A debug build panics on the subtraction; a release build wraps and then panics on the out-of-bounds index. Both are `IndexOutOfRange` in the model.
- `Scenarios` states each worked face line over fixed tables of three positions and one normal; no whole-file load is stated.
- The camera, light, color, timing and window code (src/camera.rs, src/light.rs, src/color.rs, src/support.rs, src/main.rs) is not part of this model.
