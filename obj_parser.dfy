/**
 * The Wavefront OBJ reader (obj_parser.rs): vertex (`v`), vertex normal
 * (`vn`), face (`f`) and group (`g`) records, read line by line into 1-based
 * vertex and normal lists, named groups of triangles and a count of the
 * lines it could not use. Polygons are split into a fan of triangles.
 */
module ObjFiles {
  import opened Options
  import opened Strings
  import opened Tuples
  import opened Externals
  import opened Materials
  import opened Objects

  /** The group faces go to until the first `g` record. */
  const DEFAULT_GROUP: string := "__DefaultGroup__"

  // ---------------------------------------------------------------------------
  // Numbers and face references
  // ---------------------------------------------------------------------------

  /**
   * Every argument read as a float, or nothing if any of them is not a number
   * (`map(parse).collect::<Option<Vec<_>>>()`).
   */
  function Numbers(parseFloat: string -> Option<real>, args: seq<string>): (r: Option<seq<real>>)
    ensures r.Some? <==> forall i :: 0 <= i < |args| ==> parseFloat(args[i]).Some?
    ensures r.Some? ==> |r.value| == |args| && forall i :: 0 <= i < |args| ==> r.value[i] == parseFloat(args[i]).value
  {
    if |args| == 0 then Some([])
    else
      var init := Numbers(parseFloat, args[..|args| - 1]);
      var last := parseFloat(args[|args| - 1]);
      if init.Some? && last.Some? then Some(init.value + [last.value]) else None
  }

  /** The three coordinates of a `v` or `vn` record, when it has exactly three numbers. */
  function Coordinates(parseFloat: string -> Option<real>, args: seq<string>): Option<(real, real, real)>
  {
    var numbers := Numbers(parseFloat, args);
    if numbers.Some? && |numbers.value| == 3 then Some((numbers.value[0], numbers.value[1], numbers.value[2]))
    else None
  }

  /** A record is read exactly when it has three arguments and each is a number. */
  lemma CoordinatesAccepted(parseFloat: string -> Option<real>, args: seq<string>)
    ensures Coordinates(parseFloat, args).Some? <==>
              |args| == 3 && parseFloat(args[0]).Some? && parseFloat(args[1]).Some? && parseFloat(args[2]).Some?
    ensures Coordinates(parseFloat, args).Some? ==>
              Coordinates(parseFloat, args).value
                == (parseFloat(args[0]).value, parseFloat(args[1]).value, parseFloat(args[2]).value)
  {
  }

  predicate IsSlash(c: char)
  {
    c == '/'
  }

  /** What one face argument refers to: `v`, or `v/vt/vn` with any middle field. */
  datatype Reference = VertexRef(v: nat) | VertexNormalRef(v: nat, n: nat) | NoRef

  function ParseReference(arg: string): Reference
  {
    var fields := SplitOn(arg, IsSlash);
    if |fields| == 1 && ParseUsize(fields[0]).Some? then VertexRef(ParseUsize(fields[0]).value)
    else if |fields| == 3 && ParseUsize(fields[0]).Some? && ParseUsize(fields[2]).Some? then
      VertexNormalRef(ParseUsize(fields[0]).value, ParseUsize(fields[2]).value)
    else NoRef
  }

  /** One field is a vertex reference exactly when it is a number. */
  lemma ParseReferenceOneField(d: string)
    requires forall i :: 0 <= i < |d| ==> !IsSlash(d[i])
    ensures ParseReference(d) == if ParseUsize(d).Some? then VertexRef(ParseUsize(d).value) else NoRef
  {
    SplitOnNoSeparator(d, IsSlash);
  }

  /**
   * Three fields are a vertex and normal reference exactly when the first and
   * the last are numbers, whatever the middle one is (`1//3` and `1/0/3` alike).
   */
  lemma ParseReferenceThreeFields(x: string, t: string, y: string)
    requires forall i :: 0 <= i < |x| ==> !IsSlash(x[i])
    requires forall i :: 0 <= i < |t| ==> !IsSlash(t[i])
    requires forall i :: 0 <= i < |y| ==> !IsSlash(y[i])
    ensures ParseReference(x + "/" + t + "/" + y)
              == if ParseUsize(x).Some? && ParseUsize(y).Some? then VertexNormalRef(ParseUsize(x).value, ParseUsize(y).value)
                 else NoRef
  {
    SplitOnNoSeparator(x, IsSlash);
    SplitOnNoSeparator(t, IsSlash);
    SplitOnNoSeparator(y, IsSlash);
    assert x + "/" + t + "/" + y == x + ['/'] + (t + ['/'] + y);
    SplitOnAppend(t, '/', y, IsSlash);
    SplitOnAppend(x, '/', t + ['/'] + y, IsSlash);
  }

  /** Two fields refer to nothing. */
  lemma ParseReferenceTwoFields(a: string, b: string)
    requires forall i :: 0 <= i < |a| ==> !IsSlash(a[i])
    requires forall i :: 0 <= i < |b| ==> !IsSlash(b[i])
    ensures ParseReference(a + "/" + b) == NoRef
  {
    SplitOnNoSeparator(a, IsSlash);
    SplitOnNoSeparator(b, IsSlash);
    assert a + "/" + b == a + ['/'] + b;
    SplitOnAppend(a, '/', b, IsSlash);
  }

  /** A written index `v` and a written `v/t/n` read back as the indices they name. */
  lemma ParseReferenceOfIndices(v: nat, t: string, n: nat)
    requires forall i :: 0 <= i < |t| ==> !IsSlash(t[i])
    ensures ParseReference(NatToString(v)) == VertexRef(v)
    ensures ParseReference(NatToString(v) + "/" + t + "/" + NatToString(n)) == VertexNormalRef(v, n)
  {
    ParseUsizeOfNatToString(v);
    ParseUsizeOfNatToString(n);
    ParseReferenceOneField(NatToString(v));
    ParseReferenceThreeFields(NatToString(v), t, NatToString(n));
  }

  /** A face corner: a vertex and, for `v/vt/vn` references, its normal. */
  datatype Face = Face(vertex: Tuple, normal: Option<Tuple>)

  /**
   * The corner a reference names, if its indices are in range (`Vec::get`):
   * a listed vertex, with a listed normal exactly when the reference names one.
   */
  function Resolve(ref: Reference, vertices: seq<Tuple>, normals: seq<Tuple>): (r: Option<Face>)
    ensures ref.NoRef? ==> r.None?
    ensures r.Some? <==> !ref.NoRef? && ref.v < |vertices| && (ref.VertexNormalRef? ==> ref.n < |normals|)
    ensures r.Some? ==> r.value.vertex == vertices[ref.v]
    ensures r.Some? ==> (r.value.normal.Some? <==> ref.VertexNormalRef?)
    ensures r.Some? && ref.VertexNormalRef? ==> r.value.normal == Some(normals[ref.n])
  {
    match ref
    case VertexNormalRef(v, n) =>
      if v < |vertices| && n < |normals| then Some(Face(vertices[v], Some(normals[n]))) else None
    case VertexRef(v) =>
      if v < |vertices| then Some(Face(vertices[v], None)) else None
    case NoRef => None
  }

  /** Index 0 names the placeholder entries in front of the 1-based lists. */
  lemma ResolveZero(vertices: seq<Tuple>, normals: seq<Tuple>)
    requires |vertices| >= 1 && vertices[0] == EMPTY_POINT && |normals| >= 1 && normals[0] == EMPTY_VECTOR
    ensures Resolve(VertexRef(0), vertices, normals) == Some(Face(EMPTY_POINT, None))
    ensures Resolve(VertexNormalRef(0, 0), vertices, normals) == Some(Face(EMPTY_POINT, Some(EMPTY_VECTOR)))
  {
  }

  /** What each argument of a face names, in order. */
  function CornersOf(args: seq<string>, vertices: seq<Tuple>, normals: seq<Tuple>): (corners: seq<Option<Face>>)
    ensures |corners| == |args|
  {
    seq(|args|, i requires 0 <= i < |args| => Resolve(ParseReference(args[i]), vertices, normals))
  }

  /** The corners that are present, in order. */
  function Present(corners: seq<Option<Face>>): (faces: seq<Face>)
    ensures |faces| <= |corners|
  {
    if |corners| == 0 then []
    else
      var last := corners[|corners| - 1];
      Present(corners[..|corners| - 1]) + (if last.Some? then [last.value] else [])
  }

  /** The corners of a face's arguments, those that resolve, in order. */
  function ResolveFaces(args: seq<string>, vertices: seq<Tuple>, normals: seq<Tuple>): (faces: seq<Face>)
    ensures |faces| <= |args|
  {
    Present(CornersOf(args, vertices, normals))
  }

  lemma {:induction false} PresentAppend(a: seq<Option<Face>>, b: seq<Option<Face>>)
    ensures Present(a + b) == Present(a) + Present(b)
  {
    if |b| == 0 {
      assert a + b == a;
    } else {
      assert (a + b)[..|a + b| - 1] == a + b[..|b| - 1];
      PresentAppend(a, b[..|b| - 1]);
    }
  }

  lemma {:induction false} PresentNone(corners: seq<Option<Face>>)
    requires forall i :: 0 <= i < |corners| ==> corners[i].None?
    ensures Present(corners) == []
  {
    if |corners| > 0 {
      PresentNone(corners[..|corners| - 1]);
    }
  }

  lemma {:induction false} PresentAll(corners: seq<Option<Face>>)
    requires forall i :: 0 <= i < |corners| ==> corners[i].Some?
    ensures |Present(corners)| == |corners|
    ensures forall i :: 0 <= i < |corners| ==> Some(Present(corners)[i]) == corners[i]
  {
    if |corners| > 0 {
      var init := corners[..|corners| - 1];
      PresentAll(init);
      assert Present(corners) == Present(init) + [corners[|corners| - 1].value];
    }
  }

  lemma CornersOfAppend(a: seq<string>, b: seq<string>, vertices: seq<Tuple>, normals: seq<Tuple>)
    ensures CornersOf(a + b, vertices, normals) == CornersOf(a, vertices, normals) + CornersOf(b, vertices, normals)
  {
    assert forall i :: 0 <= i < |a + b| ==> (a + b)[i] == if i < |a| then a[i] else b[i - |a|];
  }

  /** One more argument adds its corner at the end, if it resolves. */
  lemma ResolveFacesSnoc(init: seq<string>, arg: string, vertices: seq<Tuple>, normals: seq<Tuple>)
    ensures var corner := Resolve(ParseReference(arg), vertices, normals);
      ResolveFaces(init + [arg], vertices, normals)
        == ResolveFaces(init, vertices, normals) + (if corner.Some? then [corner.value] else [])
  {
    CornersOfAppend(init, [arg], vertices, normals);
    PresentAppend(CornersOf(init, vertices, normals), CornersOf([arg], vertices, normals));
    assert CornersOf([arg], vertices, normals)[..0] == [];
  }

  /** An argument that does not resolve is skipped without a trace. */
  lemma ResolveFacesSkips(args: seq<string>, i: nat, vertices: seq<Tuple>, normals: seq<Tuple>)
    requires i < |args| && Resolve(ParseReference(args[i]), vertices, normals).None?
    ensures ResolveFaces(args, vertices, normals) == ResolveFaces(args[..i] + args[i + 1..], vertices, normals)
  {
    assert args == (args[..i] + [args[i]]) + args[i + 1..];
    CornersOfAppend(args[..i] + [args[i]], args[i + 1..], vertices, normals);
    PresentAppend(CornersOf(args[..i] + [args[i]], vertices, normals), CornersOf(args[i + 1..], vertices, normals));
    ResolveFacesSnoc(args[..i], args[i], vertices, normals);
    CornersOfAppend(args[..i], args[i + 1..], vertices, normals);
    PresentAppend(CornersOf(args[..i], vertices, normals), CornersOf(args[i + 1..], vertices, normals));
  }

  /** When no argument resolves there are no corners. */
  lemma ResolveFacesNone(args: seq<string>, vertices: seq<Tuple>, normals: seq<Tuple>)
    requires forall i :: 0 <= i < |args| ==> Resolve(ParseReference(args[i]), vertices, normals).None?
    ensures ResolveFaces(args, vertices, normals) == []
  {
    PresentNone(CornersOf(args, vertices, normals));
  }

  /** When every argument resolves, the corners are exactly the resolved arguments. */
  lemma ResolveFacesAll(args: seq<string>, vertices: seq<Tuple>, normals: seq<Tuple>)
    requires forall i :: 0 <= i < |args| ==> Resolve(ParseReference(args[i]), vertices, normals).Some?
    ensures |ResolveFaces(args, vertices, normals)| == |args|
    ensures forall i :: 0 <= i < |args| ==>
              Some(ResolveFaces(args, vertices, normals)[i]) == Resolve(ParseReference(args[i]), vertices, normals)
  {
    PresentAll(CornersOf(args, vertices, normals));
  }

  // ---------------------------------------------------------------------------
  // Fan triangulation
  // ---------------------------------------------------------------------------

  /** The triangle of three corners: smooth when all three carry a normal, flat otherwise. */
  function FanTriangle(num: Numerics, a: Face, b: Face, c: Face, material: Material): Object
  {
    if a.normal.Some? && b.normal.Some? && c.normal.Some? then
      NewSmoothTriangle(num, a.vertex, b.vertex, c.vertex, a.normal.value, b.normal.value, c.normal.value,
                        IDENTITY, material)
    else NewTriangle(num, a.vertex, b.vertex, c.vertex, IDENTITY, material)
  }

  /** The corners of a triangle object. */
  function Corners(o: Object): Option<(Tuple, Tuple, Tuple)>
  {
    match o.shape
    case Triangle(t) => Some((t.p1, t.p2, t.p3))
    case SmoothTriangle(t) => Some((t.p1, t.p2, t.p3))
    case _ => None
  }

  /** Corners a, b, c in that order, smooth exactly when all three have normals. */
  lemma FanTriangleShape(num: Numerics, a: Face, b: Face, c: Face, material: Material)
    ensures var t := FanTriangle(num, a, b, c, material);
      && Corners(t) == Some((a.vertex, b.vertex, c.vertex))
      && (t.shape.SmoothTriangle? <==> a.normal.Some? && b.normal.Some? && c.normal.Some?)
      && (t.shape.SmoothTriangle? ==>
            t.shape.smooth.n1 == a.normal.value && t.shape.smooth.n2 == b.normal.value && t.shape.smooth.n3 == c.normal.value)
      && (t.shape.Triangle? || t.shape.SmoothTriangle?)
      && t.transform == IDENTITY && t.material == material && t.parent == None
  {
  }

  /**
   * The fan of a polygon with k corners: for k >= 3 the k - 2 triangles
   * (c0, c1, c2), (c0, c2, c3), ..., none for fewer corners.
   */
  function Fan(num: Numerics, faces: seq<Face>, material: Material): (tris: seq<Object>)
  {
    if |faces| < 3 then []
    else seq(|faces| - 2, i requires 0 <= i < |faces| - 2 => FanTriangle(num, faces[0], faces[i + 1], faces[i + 2], material))
  }

  lemma FanShape(num: Numerics, faces: seq<Face>, material: Material)
    ensures |Fan(num, faces, material)| == if |faces| >= 2 then |faces| - 2 else 0
    ensures forall i :: 0 <= i < |Fan(num, faces, material)| ==>
              Corners(Fan(num, faces, material)[i]) == Some((faces[0].vertex, faces[i + 1].vertex, faces[i + 2].vertex))
              && (Fan(num, faces, material)[i].shape.SmoothTriangle? <==>
                    faces[0].normal.Some? && faces[i + 1].normal.Some? && faces[i + 2].normal.Some?)
  {
    forall i | 0 <= i < |Fan(num, faces, material)|
      ensures Corners(Fan(num, faces, material)[i]) == Some((faces[0].vertex, faces[i + 1].vertex, faces[i + 2].vertex))
      ensures Fan(num, faces, material)[i].shape.SmoothTriangle? <==>
                faces[0].normal.Some? && faces[i + 1].normal.Some? && faces[i + 2].normal.Some?
    {
      FanTriangleShape(num, faces[0], faces[i + 1], faces[i + 2], material);
    }
  }

  /** The corner after the first `index + 1` adds the triangle (c0, c_index, c_index+1) to their fan. */
  lemma FanExtends(num: Numerics, faces: seq<Face>, index: nat, material: Material)
    requires 1 <= index < |faces| - 1
    ensures Fan(num, faces[..index + 2], material)
              == Fan(num, faces[..index + 1], material) + [FanTriangle(num, faces[0], faces[index], faces[index + 1], material)]
  {
    var longer := Fan(num, faces[..index + 2], material);
    var shorter := Fan(num, faces[..index + 1], material);
    assert |longer| == |shorter| + 1;
    assert forall i :: 0 <= i < |shorter| ==> longer[i] == shorter[i];
  }

  /**
   * The fan as written: the triangles for indices 1 .. len - 1, where
   * `len - 1` is computed in `usize`, so no corners at all is an arithmetic
   * overflow (a panic), shown as no value.
   */
  function AsWrittenFan(num: Numerics, faces: seq<Face>, material: Material): Option<seq<Object>>
  {
    if |faces| == 0 then None
    else Some(seq(if |faces| >= 2 then |faces| - 2 else 0,
                  i requires 0 <= i < |faces| - 2 => FanTriangle(num, faces[0], faces[i + 1], faces[i + 2], material)))
  }

  /** As written, the fan agrees with `Fan` whenever at least one corner resolved. */
  lemma AsWrittenFanAgrees(num: Numerics, faces: seq<Face>, material: Material)
    requires |faces| >= 1
    ensures AsWrittenFan(num, faces, material) == Some(Fan(num, faces, material))
  {
    var written := AsWrittenFan(num, faces, material).value;
    if |faces| < 3 {
      assert |written| == 0;
    } else {
      assert |written| == |Fan(num, faces, material)|;
      assert forall i :: 0 <= i < |written| ==> written[i] == Fan(num, faces, material)[i];
    }
  }

  /**
   * The face "f 1/1 2/2 3/3" has three arguments, none of them a reference
   * (each has two fields), so it resolves to no corner: as written the fan
   * then panics, while `Fan` adds nothing.
   */
  lemma AsWrittenFanPanics(num: Numerics, vertices: seq<Tuple>, normals: seq<Tuple>, material: Material)
    ensures ResolveFaces(["1/1", "2/2", "3/3"], vertices, normals) == []
    ensures AsWrittenFan(num, ResolveFaces(["1/1", "2/2", "3/3"], vertices, normals), material).None?
    ensures Fan(num, ResolveFaces(["1/1", "2/2", "3/3"], vertices, normals), material) == []
  {
    assert "1" + "/" + "1" == "1/1";
    assert "2" + "/" + "2" == "2/2";
    assert "3" + "/" + "3" == "3/3";
    ParseReferenceTwoFields("1", "1");
    ParseReferenceTwoFields("2", "2");
    ParseReferenceTwoFields("3", "3");
    NoCornersPanics(num, ["1/1", "2/2", "3/3"], vertices, normals, material);
  }

  /** A face of three or more arguments, none of which resolves: as written, a panic. */
  lemma NoCornersPanics(num: Numerics, args: seq<string>, vertices: seq<Tuple>, normals: seq<Tuple>, material: Material)
    requires forall i :: 0 <= i < |args| ==> ParseReference(args[i]) == NoRef
    ensures ResolveFaces(args, vertices, normals) == []
    ensures AsWrittenFan(num, ResolveFaces(args, vertices, normals), material).None?
    ensures Fan(num, ResolveFaces(args, vertices, normals), material) == []
  {
    ResolveFacesNone(args, vertices, normals);
  }

  // ---------------------------------------------------------------------------
  // The parser state and what each record does to it
  // ---------------------------------------------------------------------------

  datatype ParserState = ParserState(
    ignored: nat,
    vertices: seq<Tuple>,
    normals: seq<Tuple>,
    groups: map<string, Object>,
    latestGroup: string)

  /** The float reader, the numerics and the material given to every triangle. */
  datatype Settings = Settings(num: Numerics, parseFloat: string -> Option<real>, material: Material)

  /** A placeholder in front of each list, a default group, and faces going to it. */
  function InitialState(num: Numerics): ParserState
  {
    ParserState(0, [EMPTY_POINT], [EMPTY_VECTOR], map[DEFAULT_GROUP := NewGroup(num, IDENTITY, DEFAULT_MATERIAL)], DEFAULT_GROUP)
  }

  /** What the parser keeps true: the placeholders, the default and the current group present, every group a group. */
  predicate WellFormed(st: ParserState)
  {
    && |st.vertices| >= 1 && st.vertices[0] == EMPTY_POINT
    && |st.normals| >= 1 && st.normals[0] == EMPTY_VECTOR
    && DEFAULT_GROUP in st.groups && st.latestGroup in st.groups
    && forall name :: name in st.groups ==> st.groups[name].shape.Group?
  }

  lemma InitialStateWellFormed(num: Numerics)
    ensures WellFormed(InitialState(num))
    ensures InitialState(num).groups[DEFAULT_GROUP].shape == Group([])
  {
  }

  function Ignore(st: ParserState): ParserState
  {
    st.(ignored := st.ignored + 1)
  }

  /** A `v` record: one more vertex, or one more ignored line. */
  function VertexLine(st: ParserState, parseFloat: string -> Option<real>, args: seq<string>): ParserState
  {
    match Coordinates(parseFloat, args)
    case Some((x, y, z)) => st.(vertices := st.vertices + [Point(x, y, z)])
    case None => Ignore(st)
  }

  /** A `vn` record: one more normal, or one more ignored line. */
  function NormalLine(st: ParserState, parseFloat: string -> Option<real>, args: seq<string>): ParserState
  {
    match Coordinates(parseFloat, args)
    case Some((x, y, z)) => st.(normals := st.normals + [Vector(x, y, z)])
    case None => Ignore(st)
  }

  /**
   * An accepted `v` or `vn` record appends exactly one entry and changes
   * nothing else; a rejected one only counts as ignored.
   */
  lemma CoordinateLines(st: ParserState, parseFloat: string -> Option<real>, args: seq<string>)
    ensures var p := parseFloat;
      if |args| == 3 && p(args[0]).Some? && p(args[1]).Some? && p(args[2]).Some? then
        && VertexLine(st, p, args) == st.(vertices := st.vertices + [Point(p(args[0]).value, p(args[1]).value, p(args[2]).value)])
        && NormalLine(st, p, args) == st.(normals := st.normals + [Vector(p(args[0]).value, p(args[1]).value, p(args[2]).value)])
      else
        VertexLine(st, p, args) == Ignore(st) && NormalLine(st, p, args) == Ignore(st)
  {
    CoordinatesAccepted(parseFloat, args);
  }

  /**
   * A `g` record: the named group is created if it is new (an existing one
   * is kept with its triangles) and becomes the current group; with no name
   * the line is ignored.
   */
  function GroupLine(st: ParserState, num: Numerics, args: seq<string>): ParserState
  {
    if |args| == 0 then Ignore(st)
    else
      var name := args[0];
      st.(groups := if name in st.groups then st.groups else st.groups[name := NewGroup(num, IDENTITY, DEFAULT_MATERIAL)],
          latestGroup := name)
  }

  lemma GroupLineEffect(st: ParserState, num: Numerics, args: seq<string>)
    ensures |args| == 0 ==> GroupLine(st, num, args) == Ignore(st)
    ensures |args| > 0 ==>
      var r := GroupLine(st, num, args);
      && r.latestGroup == args[0] && args[0] in r.groups
      && r.ignored == st.ignored && r.vertices == st.vertices && r.normals == st.normals
      && r.groups.Keys == st.groups.Keys + {args[0]}
      && (forall name :: name in st.groups ==> r.groups[name] == st.groups[name])
      && (args[0] !in st.groups ==> r.groups[args[0]].shape == Group([]))
  {
  }

  /** `add_face`: the triangle joins the current group, as its child. */
  function AddedFace(st: ParserState, tri: Object): (r: ParserState)
    requires WellFormed(st)
    ensures WellFormed(r)
  {
    var group := AddChild(st.groups[st.latestGroup], tri).0;
    st.(groups := st.groups[st.latestGroup := group])
  }

  function AddedFaces(st: ParserState, tris: seq<Object>): (r: ParserState)
    requires WellFormed(st)
    ensures WellFormed(r)
  {
    if |tris| == 0 then st else AddedFace(AddedFaces(st, tris[..|tris| - 1]), tris[|tris| - 1])
  }

  /**
   * The triangles of a face are appended, in order, to the current group's
   * children (each with that group as parent); no other group, list or count changes.
   */
  lemma {:induction false} AddedFacesEffect(st: ParserState, tris: seq<Object>)
    requires WellFormed(st)
    ensures var r := AddedFaces(st, tris);
      var before := st.groups[st.latestGroup].shape.children;
      var after := r.groups[r.latestGroup].shape.children;
      && r.ignored == st.ignored && r.vertices == st.vertices && r.normals == st.normals
      && r.latestGroup == st.latestGroup && r.groups.Keys == st.groups.Keys
      && (forall name :: name in st.groups && name != st.latestGroup ==> r.groups[name] == st.groups[name])
      && |after| == |before| + |tris| && after[..|before|] == before
      && (forall i :: 0 <= i < |tris| ==> SameObject(after[|before| + i], tris[i]))
  {
    if |tris| > 0 {
      var init := tris[..|tris| - 1];
      AddedFacesEffect(st, init);
      var mid := AddedFaces(st, init);
      var last := tris[|tris| - 1];
      var before := st.groups[st.latestGroup].shape.children;
      var midChildren := mid.groups[st.latestGroup].shape.children;
      var added := AddChild(mid.groups[st.latestGroup], last);
      var after := midChildren + [added.1];
      assert AddedFaces(st, tris).groups[st.latestGroup].shape.children == after;
      assert after[..|before|] == midChildren[..|before|];
      forall i | 0 <= i < |tris|
        ensures SameObject(after[|before| + i], tris[i])
      {
        if i < |tris| - 1 {
          assert after[|before| + i] == midChildren[|before| + i];
          assert tris[i] == init[i];
        }
      }
    }
  }

  /** An `f` record: fewer than three arguments is ignored, otherwise the fan of the resolved corners is added. */
  function FaceLine(st: ParserState, settings: Settings, args: seq<string>): (r: ParserState)
    requires WellFormed(st)
    ensures WellFormed(r)
  {
    if |args| >= 3 then AddedFaces(st, Fan(settings.num, ResolveFaces(args, st.vertices, st.normals), settings.material))
    else Ignore(st)
  }

  /** The children a list of triangles adds to the current group, each one the triangle it was given. */
  function AddedChildren(st: ParserState, tris: seq<Object>): seq<Object>
    requires WellFormed(st)
  {
    var before := st.groups[st.latestGroup].shape.children;
    var after := AddedFaces(st, tris).groups[AddedFaces(st, tris).latestGroup].shape.children;
    if |after| >= |before| then after[|before|..] else []
  }

  lemma AddedChildrenCorners(st: ParserState, tris: seq<Object>)
    requires WellFormed(st)
    requires forall i :: 0 <= i < |tris| ==> !tris[i].shape.Group?
    ensures |AddedChildren(st, tris)| == |tris|
    ensures forall i :: 0 <= i < |tris| ==> Corners(AddedChildren(st, tris)[i]) == Corners(tris[i])
  {
    AddedFacesEffect(st, tris);
    var added := AddedChildren(st, tris);
    forall i | 0 <= i < |tris|
      ensures Corners(added[i]) == Corners(tris[i])
    {
      SameObjectIgnoresParent(added[i], tris[i], tris[i], None);
    }
  }

  /**
   * A face whose k >= 3 arguments all resolve adds k - 2 triangles to the
   * current group, the i-th with corners 0, i + 1 and i + 2 of the face.
   */
  lemma FaceLineTriangles(st: ParserState, settings: Settings, args: seq<string>)
    requires WellFormed(st) && |args| >= 3
    requires forall i :: 0 <= i < |args| ==> Resolve(ParseReference(args[i]), st.vertices, st.normals).Some?
    ensures var faces := ResolveFaces(args, st.vertices, st.normals);
      var added := AddedChildren(st, Fan(settings.num, faces, settings.material));
      && |faces| == |args| && |added| == |args| - 2
      && FaceLine(st, settings, args) == AddedFaces(st, Fan(settings.num, faces, settings.material))
      && forall i :: 0 <= i < |added| ==> Corners(added[i]) == Some((faces[0].vertex, faces[i + 1].vertex, faces[i + 2].vertex))
  {
    var faces := ResolveFaces(args, st.vertices, st.normals);
    ResolveFacesAll(args, st.vertices, st.normals);
    var tris := Fan(settings.num, faces, settings.material);
    FanShape(settings.num, faces, settings.material);
    forall i | 0 <= i < |tris|
      ensures !tris[i].shape.Group?
    {
      FanTriangleShape(settings.num, faces[0], faces[i + 1], faces[i + 2], settings.material);
    }
    AddedChildrenCorners(st, tris);
  }

  /** One line: its first word picks the record, anything else (a blank line too) is ignored. */
  function ReadLine(st: ParserState, settings: Settings, line: string): (r: ParserState)
    requires WellFormed(st)
    ensures WellFormed(r)
  {
    var words := Words(line);
    if |words| == 0 then Ignore(st)
    else if words[0] == "v" then VertexLine(st, settings.parseFloat, words[1..])
    else if words[0] == "f" then FaceLine(st, settings, words[1..])
    else if words[0] == "g" then GroupLine(st, settings.num, words[1..])
    else if words[0] == "vn" then NormalLine(st, settings.parseFloat, words[1..])
    else Ignore(st)
  }

  /** A line that is not a record. */
  predicate Unrecognised(line: string)
  {
    var words := Words(line);
    |words| == 0 || (words[0] != "v" && words[0] != "f" && words[0] != "g" && words[0] != "vn")
  }

  function ReadLines(st: ParserState, settings: Settings, lines: seq<string>): (r: ParserState)
    requires WellFormed(st)
    ensures WellFormed(r)
  {
    if |lines| == 0 then st else ReadLine(ReadLines(st, settings, lines[..|lines| - 1]), settings, lines[|lines| - 1])
  }

  /** Lines that are not records only count: n of them add n to `ignored` and change nothing else. */
  lemma {:induction false} ReadLinesUnrecognised(st: ParserState, settings: Settings, lines: seq<string>)
    requires WellFormed(st)
    requires forall i :: 0 <= i < |lines| ==> Unrecognised(lines[i])
    ensures ReadLines(st, settings, lines) == st.(ignored := st.ignored + |lines|)
  {
    if |lines| > 0 {
      ReadLinesUnrecognised(st, settings, lines[..|lines| - 1]);
    }
  }

  /** A face with fewer than three arguments adds no triangle and is ignored. */
  lemma ShortFaceIgnored(st: ParserState, settings: Settings, line: string)
    requires WellFormed(st)
    requires |Words(line)| >= 1 && Words(line)[0] == "f" && |Words(line)| < 4
    ensures ReadLine(st, settings, line) == Ignore(st)
  {
  }

  /** `later` has every vertex and normal of `earlier`, at the same index, and no fewer ignored lines. */
  predicate Extends(earlier: ParserState, later: ParserState)
  {
    && |later.vertices| >= |earlier.vertices| && later.vertices[..|earlier.vertices|] == earlier.vertices
    && |later.normals| >= |earlier.normals| && later.normals[..|earlier.normals|] == earlier.normals
    && later.ignored >= earlier.ignored
  }

  lemma ExtendsTransitive(a: ParserState, b: ParserState, c: ParserState)
    requires Extends(a, b) && Extends(b, c)
    ensures Extends(a, c)
  {
    assert c.vertices[..|a.vertices|] == c.vertices[..|b.vertices|][..|a.vertices|];
    assert c.normals[..|a.normals|] == c.normals[..|b.normals|][..|a.normals|];
  }

  lemma ReadLineExtends(st: ParserState, settings: Settings, line: string)
    requires WellFormed(st)
    ensures Extends(st, ReadLine(st, settings, line))
  {
    var words := Words(line);
    if |words| > 0 && words[0] == "f" && |words[1..]| >= 3 {
      AddedFacesEffect(st, Fan(settings.num, ResolveFaces(words[1..], st.vertices, st.normals), settings.material));
    }
  }

  /** Reading lines never removes or moves a vertex or normal, so index 0 stays the placeholder. */
  lemma {:induction false} ReadLinesExtends(st: ParserState, settings: Settings, lines: seq<string>)
    requires WellFormed(st)
    ensures Extends(st, ReadLines(st, settings, lines))
  {
    if |lines| > 0 {
      var init := lines[..|lines| - 1];
      ReadLinesExtends(st, settings, init);
      var mid := ReadLines(st, settings, init);
      ReadLineExtends(mid, settings, lines[|lines| - 1]);
      ExtendsTransitive(st, mid, ReadLines(st, settings, lines));
    }
  }

  /** The group made of every parsed group, in the map's iteration order. */
  function GroupsInOrder(groups: map<string, Object>, order: seq<string>): seq<Object>
    requires forall i :: 0 <= i < |order| ==> order[i] in groups
  {
    seq(|order|, i requires 0 <= i < |order| => groups[order[i]])
  }

  /** The order a map's iteration visits its keys in: each once. */
  predicate IsIterationOrder(groups: map<string, Object>, order: seq<string>)
  {
    && (forall i :: 0 <= i < |order| ==> order[i] in groups)
    && (forall name :: name in groups ==> name in order)
    && (forall i, j :: 0 <= i < j < |order| ==> order[i] != order[j])
  }

  // ---------------------------------------------------------------------------
  // The parser
  // ---------------------------------------------------------------------------

  class ObjParser {
    const content: string
    const num: Numerics
    /** Rust's `str::parse::<f32>`, not modelled: its result is taken as given. */
    const parseFloat: string -> Option<real>
    var ignored: nat
    var vertices: seq<Tuple>
    var groups: map<string, Object>
    var normals: seq<Tuple>
    var material: Material
    var latestGroup: string

    function State(): ParserState
      reads this
    {
      ParserState(ignored, vertices, normals, groups, latestGroup)
    }

    function CurrentSettings(): Settings
      reads this
    {
      Settings(num, parseFloat, material)
    }

    ghost predicate Valid()
      reads this
    {
      WellFormed(State())
    }

    /** `ObjParser::new`: placeholders, the default group, the default material. */
    constructor(num: Numerics, parseFloat: string -> Option<real>, content: string)
      ensures State() == InitialState(num) && Valid()
      ensures this.num == num && this.parseFloat == parseFloat && this.content == content
      ensures material == DEFAULT_MATERIAL
    {
      this.content := content;
      this.num := num;
      this.parseFloat := parseFloat;
      ignored := 0;
      vertices := [EMPTY_POINT];
      groups := map[DEFAULT_GROUP := NewGroup(num, IDENTITY, DEFAULT_MATERIAL)];
      normals := [EMPTY_VECTOR];
      material := DEFAULT_MATERIAL;
      latestGroup := DEFAULT_GROUP;
    }

    method SetMaterial(m: Material)
      modifies this
      ensures material == m && State() == old(State())
    {
      material := m;
    }

    /** `parse`: every line of the content, in order. */
    method Parse()
      requires Valid()
      modifies this
      ensures Valid() && material == old(material)
      ensures State() == ReadLines(old(State()), CurrentSettings(), Lines(content))
    {
      var lines := Lines(content);
      ghost var start := State();
      for i := 0 to |lines|
        invariant Valid() && material == old(material)
        invariant State() == ReadLines(start, CurrentSettings(), lines[..i])
      {
        ParseLine(lines[i]);
        assert lines[..i + 1][..i] == lines[..i];
      }
      assert lines[..|lines|] == lines;
    }

    /** The default group, always present. */
    method DefaultGroup() returns (g: Option<Object>)
      requires Valid()
      ensures g.Some? && g.value == groups[DEFAULT_GROUP] && g.value.shape.Group?
    {
      g := if DEFAULT_GROUP in groups then Some(groups[DEFAULT_GROUP]) else None;
    }

    /**
     * `obj_to_group`: a new group holding a copy of every parsed group, in the
     * order the map is iterated (which the caller supplies).
     */
    method ObjToGroup(order: seq<string>) returns (g: Object)
      requires IsIterationOrder(groups, order)
      ensures g == AddChildren(NewGroup(num, IDENTITY, DEFAULT_MATERIAL), GroupsInOrder(groups, order))
      ensures g.shape.Group? && |g.shape.children| == |order|
      ensures forall name :: name in groups ==>
                exists i :: 0 <= i < |g.shape.children| && SameObject(g.shape.children[i], groups[name])
    {
      g := NewGroupOf(num, IDENTITY, GroupsInOrder(groups, order));
      forall name | name in groups
        ensures exists i :: 0 <= i < |g.shape.children| && SameObject(g.shape.children[i], groups[name])
      {
        var i :| 0 <= i < |order| && order[i] == name;
        assert SameObject(g.shape.children[i], GroupsInOrder(groups, order)[i]);
      }
    }

    method ParseLine(line: string)
      requires Valid()
      modifies this
      ensures Valid() && material == old(material)
      ensures State() == ReadLine(old(State()), CurrentSettings(), line)
    {
      var values := Words(line);
      if |values| == 0 {
        ignored := ignored + 1;
      } else if values[0] == "v" {
        ParseVertice(values[1..]);
      } else if values[0] == "f" {
        ParseFace(values[1..]);
      } else if values[0] == "g" {
        CreateGroup(values[1..]);
      } else if values[0] == "vn" {
        ParseNormal(values[1..]);
      } else {
        ignored := ignored + 1;
      }
    }

    method ParseVertice(arguments: seq<string>)
      modifies this
      ensures material == old(material)
      ensures State() == VertexLine(old(State()), parseFloat, arguments)
    {
      var numbers := Numbers(parseFloat, arguments);
      if numbers.Some? && |numbers.value| == 3 {
        vertices := vertices + [Point(numbers.value[0], numbers.value[1], numbers.value[2])];
        return;
      }
      ignored := ignored + 1;
    }

    method ParseNormal(arguments: seq<string>)
      modifies this
      ensures material == old(material)
      ensures State() == NormalLine(old(State()), parseFloat, arguments)
    {
      var numbers := Numbers(parseFloat, arguments);
      if numbers.Some? && |numbers.value| == 3 {
        normals := normals + [Vector(numbers.value[0], numbers.value[1], numbers.value[2])];
        return;
      }
      ignored := ignored + 1;
    }

    method CreateGroup(arguments: seq<string>)
      modifies this
      ensures material == old(material)
      ensures State() == GroupLine(old(State()), num, arguments)
    {
      if |arguments| > 0 {
        var name := arguments[0];
        if name !in groups {
          groups := groups[name := NewGroup(num, IDENTITY, DEFAULT_MATERIAL)];
        }
        latestGroup := name;
      } else {
        ignored := ignored + 1;
      }
    }

    method ParseFace(arguments: seq<string>)
      requires Valid()
      modifies this
      ensures material == old(material)
      ensures State() == FaceLine(old(State()), CurrentSettings(), arguments)
    {
      if |arguments| >= 3 {
        var faces := ResolveArguments(arguments);
        var triangles := FanTriangulation(faces);
        ghost var start := State();
        for k := 0 to |triangles|
          invariant Valid() && material == old(material)
          invariant State() == AddedFaces(start, triangles[..k])
        {
          AddFace(triangles[k]);
          assert triangles[..k + 1][..k] == triangles[..k];
        }
        assert triangles[..|triangles|] == triangles;
      } else {
        ignored := ignored + 1;
      }
    }

    /** The corners of a face's arguments (the `filter_map` over `vertices.get` and `normals.get`). */
    method ResolveArguments(arguments: seq<string>) returns (faces: seq<Face>)
      ensures faces == ResolveFaces(arguments, vertices, normals)
    {
      faces := [];
      for i := 0 to |arguments|
        invariant faces == ResolveFaces(arguments[..i], vertices, normals)
      {
        var corner := Resolve(ParseReference(arguments[i]), vertices, normals);
        if corner.Some? {
          faces := faces + [corner.value];
        }
        assert arguments[..i + 1] == arguments[..i] + [arguments[i]];
        ResolveFacesSnoc(arguments[..i], arguments[i], vertices, normals);
      }
      assert arguments[..|arguments|] == arguments;
    }

    method AddFace(face: Object)
      requires Valid()
      modifies this
      ensures Valid() && material == old(material)
      ensures State() == AddedFace(old(State()), face)
    {
      if latestGroup in groups {
        var added := AddChild(groups[latestGroup], face);
        groups := groups[latestGroup := added.0];
      }
    }

    /** The fan over the resolved corners, with the parser's material. */
    method FanTriangulation(faces: seq<Face>) returns (triangles: seq<Object>)
      ensures triangles == Fan(num, faces, material)
    {
      triangles := [];
      if |faces| < 2 {
        return;
      }
      for index := 1 to |faces| - 1
        invariant triangles == Fan(num, faces[..index + 1], material)
      {
        triangles := triangles + [FanTriangle(num, faces[0], faces[index], faces[index + 1], material)];
        FanExtends(num, faces, index, material);
      }
      assert faces[..|faces|] == faces;
    }
  }

  /** `parse_obj_file`: a new parser that has read the whole content. */
  method ParseObjFile(num: Numerics, parseFloat: string -> Option<real>, content: string) returns (parser: ObjParser)
    ensures fresh(parser) && parser.Valid() && parser.material == DEFAULT_MATERIAL
    ensures parser.State() == ReadLines(InitialState(num), Settings(num, parseFloat, DEFAULT_MATERIAL), Lines(content))
  {
    parser := new ObjParser(num, parseFloat, content);
    parser.Parse();
  }
}
