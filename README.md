# A verified model of the macroquad ray tracer's core

This project models the discrete core of a small Rust ray tracer. The parts
that are exact over the reals are stated and proved here:

- the Wavefront OBJ reader, which turns `v`, `vn`, `f` and `g` records into
  groups of fan-triangulated faces;
- the canvas and its plain-PPM ("P3") writer;
- colour arithmetic;
- the sorted intersection lists, with the hit rule and the refractive-index
  container stack of `prepare_computations`;
- the scene graph of objects, groups and their bounding boxes;
- the world's bounded recursion through shadows, reflection and refraction;
- point lights and the branch structure of Phong lighting;
- the exact geometry of cubes, planes, triangles and patterns.

Floats are modelled as `real`. Operations the core only calls are fields of
one `Externals.Numerics` value that every dependent computation receives:
`sqrt`, `powf`, `normalize`, `magnitude`, matrix `inverse`, the sphere,
cylinder, cone and smooth-triangle geometry, the per-axis box test and the
transformation of boxes. Every statement proved here therefore holds for
every choice of them.

Where the source depends on IEEE infinities it is modelled with the
extended-real datatype `Floats.Ext`. This covers the cube's parallel slabs
and the `min`/`max` of slab bounds.

Layout, one module per file:

- `tuples.dfy`: points, vectors, matrices and rays.
- `floats.dfy`: EPSILON, Rust's float `%`, and `Ext` with IEEE `min`/`max`.
- `strings.dfy`: `to_string`, `parse::<usize>`, `split`, `split_whitespace`
  and `lines`.
- `options.dfy`: the `Option` type.
- `externals.dfy`: the `Numerics` oracle.
- `color.dfy`, `canvas.dfy`.
- `intersection.dfy`, `computations.dfy` (`prepare_computations`, `schlick`).
- `bounds.dfy`, `cube.dfy`, `plane.dfy`, `triangle.dfy`, `pattern.dfy`.
- `material.dfy`, `light.dfy`.
- `objects.dfy`: `object.rs`, `shape.rs` and `group.rs`.
- `world.dfy`, `obj_parser.dfy`.

The parts of the source that update state in place are modelled imperatively:

- `Canvases.Canvas` keeps its pixels in an `array`. `Fill` is the nested loop,
  and `AsPpm` is the token loop that grows `output` and `line`.
- `Worlds.World` updates `lights`. Its `IntersectAll` and `ShadeHitAll` are
  the source's accumulating loops.
- `ObjFiles.ObjParser` has the parser's fields and one method per `parse_*`
  function. `ParseFace` and `FanTriangulation` are loops.
- `prepare_computations` has its containers loop (`Computations.ContainersLoop`).
- A group's `local_intersect` and `bounding_box` are loops
  (`Objects.GroupIntersectLoop`, `Objects.GroupBoxLoop`).

Each method is proved equal to a specification function, and the properties
are proved about those functions.

Objects are values. A group holds copies of its children, and each copy
holds a copy of its parent taken when it was added (the source's
`Arc<Object>`). Object equality (`Objects.SameObject`) ignores the parent and
the cached inverse, as `PartialEq for Object` ignores the parent.

## Model

| member | source | states |
|---|---|---|
| Tuples.DotNeg | src/intersection.rs:31-34 | negating a vector negates its dot product, which is what makes the inside flip face the eye |
| Floats.FloatEqualsReflexiveSymmetric | src/float.rs:10-12 | the EPSILON comparison is reflexive and symmetric |
| Floats.FloatEqualsNotTransitive | src/float.rs:10-12 | the EPSILON comparison is not transitive: 0 ≈ ε/2 and ε/2 ≈ ε but not 0 ≈ ε |
| Floats.Trunc | src/pattern.rs:15 | the quotient of Rust's float `%` rounds toward zero: within 1 of the value, between zero and the value |
| Floats.RustRem | src/pattern.rs:15 | Rust's float `%` with truncated quotient: smaller than the divisor in magnitude, and never of the opposite sign to the dividend |
| Floats.RemTwoZeroIffEven | src/pattern.rs:15 | for an integral value n, `n % 2.0 == 0.0` exactly when n is even, negative n included |
| Floats.ExtMax | src/cube.rs:17 | IEEE `max`: one of its operands, not below either when neither is NaN, NaN only when both are |
| Floats.ExtMin | src/cube.rs:18 | IEEE `min`: one of its operands, not above either when neither is NaN, NaN only when both are |
| Floats.TimesInfinity | src/cube.rs:45-48 | `a * INFINITY` is +∞ for positive a, −∞ for negative a and NaN for zero, each case both ways |
| Externals.Divide | src/intersection.rs:66 | a float quotient with a non-zero divisor multiplies back to the dividend |
| Strings.NatToString | src/color.rs:35 | `to_string` of an unsigned integer: at least one decimal digit, a single digit exactly below 10, no leading zero |
| Strings.DigitsValueOfNatToString | src/color.rs:35 | the digits of `to_string(n)` denote n |
| Strings.NatToStringLength | src/color.rs:35 | a number below 1000 (below 100) renders in at most three (two) characters, and conversely |
| Strings.NatToStringNoWhitespace | src/color.rs:35 | a rendered number contains no whitespace |
| Strings.ParseUsize | src/obj_parser.rs:117 | `parse::<usize>` accepts exactly the non-empty digit strings, optionally after one leading '+' |
| Strings.ParseUsizeOfNatToString | src/obj_parser.rs:117 | every rendered number parses back to itself |
| Strings.ParseUsizeSign | src/obj_parser.rs:117 | a first character that is neither '+' nor a digit is rejected, and "+n" reads as n |
| Strings.ParseUsizeRejects | src/obj_parser.rs:117 | empty text, a lone '+' and text with a non-digit after the first character are rejected |
| Strings.SplitOn | src/obj_parser.rs:113-115 | `split` yields at least one field, and no field contains the separator |
| Strings.SplitOnAppend | src/obj_parser.rs:113-115 | splitting at a separator splits the two sides independently |
| Strings.SplitOnNoSeparator | src/obj_parser.rs:113-115 | text without a separator is its own single field |
| Strings.Words | src/obj_parser.rs:81 | `split_whitespace` yields only non-empty words without whitespace |
| Strings.WordsAppend | src/obj_parser.rs:81 | a whitespace character separates the words on its two sides |
| Strings.WordsOfJoinSpace | src/canvas.rs:63-64 | joining tokens with single spaces and splitting on whitespace gives the tokens back |
| Strings.Lines | src/obj_parser.rs:63 | `lines` yields lines without line feeds |
| Strings.LinesOfEmpty | src/obj_parser.rs:63 | empty content has no lines |
| Colors.AddLaws | src/color.rs:100-154 | `+` and `-` are component-wise: subtraction undoes addition, addition is commutative and associative, BLACK is neutral |
| Colors.ScaleLaws | src/color.rs:76-98 | colour×scalar distributes over `+`, ×1 is identity, ×0 is BLACK; colour×colour has WHITE as unit and commutes |
| Colors.AddAssign | src/color.rs:120-126 | `+=` gives the same colour as `+`, and subtracting the right operand restores the old value |
| Colors.LightenOnlyBlendIsJoin | src/color.rs:50-56 | the blend is the component-wise maximum: an upper bound of both colours and the least one, commutative and idempotent, and its red channel is one of the operands' red channels |
| Colors.ColorEqualsProperties | src/color.rs:68-74 | colour equality is per channel within EPSILON: reflexive and symmetric, but not transitive |
| Colors.Round | src/color.rs:32 | `round` is within one half of its argument, and halves round away from zero |
| Colors.ChannelByte | src/color.rs:32-34 | a channel byte is at most 255: 0 when c·255 ≤ 0, 255 when c·255 ≥ 255, and otherwise c·255 rounded half away from zero |
| Colors.AsByteStrings | src/color.rs:31-36 | a pixel gives exactly three strings |
| Colors.AsByteStringsReadBack | src/color.rs:31-36 | the three strings parse back to the red, green and blue channel bytes, in that order |
| Colors.ChannelStringMeaning | src/color.rs:31-36 | a channel string is 1-3 digits that parse back to the byte; c·255 ≤ 0 gives 0 and c·255 ≥ 255 gives 255; below −0.5/255 it is 0, above 255.5/255 it is 255, and in range it is within one half of c·255 |
| Colors.AsByteStringsAreWords | src/color.rs:31-36 | each of the three strings is a 1-3 character word without whitespace |
| Canvases.PpmHeaderReadsBack | src/canvas.rs:45-49 | the header is the three lines "P3", "w h", "255", and its words parse back to the width and height |
| Canvases.PpmTokens | src/canvas.rs:52-56 | the body has exactly three tokens per pixel |
| Canvases.PpmTokensAt | src/canvas.rs:52-56 | token 3i+j is channel j of pixel i, in pixel order red, green, blue, none dropped or repeated |
| Canvases.PpmTokensAreTokens | src/canvas.rs:52-56 | every token is a 1-3 character word without whitespace |
| Canvases.WrapStepShape | src/canvas.rs:58-73 | one serialiser step keeps every line at most 70 characters without line feeds, and leaves the pending line empty exactly at a row end |
| Canvases.WrapStateWellWrapped | src/canvas.rs:52-74 | after n tokens the text written holds exactly those n tokens as its words, in lines of at most 70 characters |
| Canvases.PpmBodyWellFormed | src/canvas.rs:52-76 | the whole body's words are exactly the tokens, and no line exceeds 70 characters |
| Canvases.AsWrittenGrows | src/canvas.rs:58-73 | the as-written serialiser only appends: its text after n tokens is a prefix of its text after m ≥ n |
| Canvases.AsWrittenStepShort | src/canvas.rs:58-73 | one iteration of the source's loop keeps the pending line and every finished line at most 70 characters, without line feeds |
| Canvases.AsWrittenStateShort | src/canvas.rs:52-73 | after any number of tokens the source's loop holds only lines of at most 70 characters |
| Canvases.SplitFlushed | src/canvas.rs:60-74 | finished lines, each followed by a line feed, then the pending line, split at line feeds back into exactly those lines |
| Canvases.AsWrittenBodyShort | src/canvas.rs:52-76 | no line of the body the source's loop writes is longer than 70 characters, for any token list of 1-3 character words |
| Canvases.AsWrittenPpmBodyShort | src/canvas.rs:52-76 | no line of the pixel body `as_ppm` writes as written is longer than 70 characters, for any canvas |
| Canvases.AsWrittenWhiteRun | src/canvas.rs:58-73 | for all-"255" tokens and 18 per row, the first 17 tokens stay on one line of 67 characters |
| Canvases.WhiteTokens | src/canvas.rs:52-56 | twelve white pixels give 36 tokens "255" |
| Canvases.AsWrittenRowEnd | src/canvas.rs:58-73 | after 20 white tokens the as-written text is the first 17 on a line, then "255255 255": the 18th token wraps and the 19th is glued to it |
| Canvases.GluesWhiteRows | src/canvas.rs:58-73 | for 36 tokens "255" in rows of 18 the as-written body's 18th word is "255255", so its words differ from the tokens |
| Canvases.AsWrittenGluesRows | src/canvas.rs:58-61 | for a 6×2 white canvas the as-written body glues two tokens into "255255", while the corrected body keeps every token |
| Canvases.Canvas.constructor | src/canvas.rs:16-23 | a new canvas has the given width and height and width·height pixels, all black |
| Canvases.Canvas.WritePixel | src/canvas.rs:25-27 | pixel y·width+x becomes the colour and every other pixel is unchanged; the index must be in range |
| Canvases.Canvas.PixelAt | src/canvas.rs:29-31 | reads pixel y·width+x; the index must be in range |
| Canvases.Canvas.Fill | src/canvas.rs:33-39 | after the column-by-column loop every pixel equals the colour |
| Canvases.Canvas.AsPpm | src/canvas.rs:41-77 | the text is the header followed by the wrapped body with every row ending a line (the corrected serialiser) |
| Canvases.Canvas.AsPpmAsWritten | src/canvas.rs:41-77 | the text is the header followed by the body exactly as the source's loop builds it; that body's lines are at most 70 characters (Canvases.AsWrittenPpmBodyShort) |
| Canvases.PushToken | src/canvas.rs:58-73 | one iteration of the corrected loop advances `output` and `line` by one serialiser step |
| Canvases.PushTokenAsWritten | src/canvas.rs:58-73 | one iteration of the source's loop advances `output` and `line` by one as-written step |
| Canvases.RowMajorValue | src/canvas.rs:26 | pixel (x, y) is stored at y·width + x |
| Canvases.RowMajorInRange | src/canvas.rs:26 | every in-canvas (x, y) indexes inside the width·height buffer |
| Canvases.RowMajorInjective | src/canvas.rs:26 | distinct in-row coordinates never share a buffer slot |
| Canvases.RowMajorCovers | src/canvas.rs:33-39 | every buffer slot is the index of some in-canvas (x, y), so the fill reaches all of them |
| Intersections.InsertByT | src/intersection.rs:102-105 | inserting into a sorted list keeps it sorted and adds exactly that element |
| Intersections.Sort | src/intersection.rs:102-105 | `Intersections::new` returns a permutation of its input sorted ascending by t |
| Intersections.SortSorted | src/intersection.rs:102-105 | sorting a sorted list changes nothing |
| Intersections.InsertLast | src/intersection.rs:102-105 | an element no earlier than all others goes at the end |
| Intersections.Tag | src/intersection.rs:109-112 | one intersection per distance, all naming the given object, in input order |
| Intersections.FromObject | src/intersection.rs:107-114 | `from_object` gives one intersection per input t, each naming the object, sorted, a permutation of the tagged list |
| Intersections.Combine | src/group.rs:24 | adding two intersection lists keeps all of both, sorted |
| Intersections.Len | src/intersection.rs:120-122 | `len` is the number of intersections |
| Intersections.Hit | src/intersection.rs:124-126 | `hit` is None exactly when no t is positive, and otherwise the first element with t > 0 (t = 0 is not a hit) |
| Intersections.EmptyHasNoHit | src/intersection.rs:128-130 | `is_empty` holds exactly for the empty list, which has no hit |
| Intersections.HitIsNearestPositive | src/intersection.rs:124-126 | on a sorted list the hit has the smallest positive t |
| Computations.RemoveAll | src/intersection.rs:53 | `retain` removes every copy of the object and keeps every other container |
| Computations.Toggle | src/intersection.rs:52-56 | processing an object flips its membership in the containers; a new one is pushed at the end |
| Computations.RemoveAllKeepsNoDuplicates | src/intersection.rs:53 | removing an object keeps the containers free of duplicates |
| Computations.ToggleKeepsNoDuplicates | src/intersection.rs:52-56 | toggling keeps the containers free of duplicates |
| Computations.ContainersHaveNoDuplicates | src/intersection.rs:43-65 | after any prefix of the list the containers never hold the same object twice |
| Computations.FirstSame | src/intersection.rs:45 | the loop stops at the first intersection equal to the hit, or runs out when there is none |
| Computations.RefractiveIndices | src/intersection.rs:40-65 | both indices are 1.0 for an empty list |
| Computations.EnteringAndLeaving | src/intersection.rs:46-63 | n1 is the innermost container's index before the hit; entering an object makes n2 its own index, and leaving one makes n2 the index once it is removed |
| Computations.SingleEntry | src/intersection.rs:40-65 | a single intersection from outside gives n1 = 1.0 and n2 = the object's index |
| Computations.FacingNormal | src/intersection.rs:31-34 | a normal pointing away from the eye is negated, otherwise kept, so the result faces the eye |
| Computations.SurfaceOffsets | src/intersection.rs:35-36 | the over and under points lie one EPSILON·normal either side of the hit point |
| Computations.Prepare | src/intersection.rs:23-85 | point, eye vector, `inside` iff normal·eye < 0, normal facing the eye, over and under points, n1/n2 from the container stack, and n_ratio·n2 = n1 when n2 ≠ 0 |
| Computations.ContainersLoop | src/intersection.rs:40-65 | the containers loop with its early break yields the n1/n2 of the container-stack specification |
| Computations.PrepareComputations | src/intersection.rs:23-85 | the statement-by-statement computation equals the specification `Prepare` |
| Computations.Schlick | src/intersection.rs:160-177 | exactly 1.0 under total internal reflection (n1 > n2, sin²t > 1); otherwise the formula with cos_i, or with √(1−sin²t) when n1 > n2 |
| Bounds.NewBox | src/bounds.rs:128-130 | `bounding_box(min, max)` keeps both corners |
| Bounds.AddPointIsLeastCover | src/bounds.rs:103-120 | box + point contains the point and the box, lies inside every box that contains both, and adding the point again changes nothing |
| Bounds.AddBoxIsLeastCover | src/bounds.rs:95-101 | box + box contains both boxes, and lies inside every box containing both when the added box is well formed |
| Bounds.ContainsBoxTransitive | src/bounds.rs:95-101 | box containment is transitive |
| Bounds.SumBoxesIsLeastCover | src/bounds.rs:122-126 | the fold from the empty box contains the origin and every summand, and lies inside every box containing the origin and the well-formed summands |
| Bounds.Intersects | src/bounds.rs:29-56 | a box counts as hit only when the nearest exit is not behind the ray's origin |
| Cubes.CheckAxis | src/cube.rs:39-55 | the pair is ordered; for |d| ≥ EPSILON it is (−1−o)/d and (1−o)/d in order; a parallel ray starting inside the slab gives (−∞, +∞) |
| Cubes.LocalIntersect | src/cube.rs:13-26 | empty exactly when the latest entry is after the earliest exit, otherwise exactly [tmin, tmax] |
| Cubes.LocalIntersectNonParallel | src/cube.rs:13-26 | for a ray not parallel to any axis the hits are the finite max of the entries and min of the exits, with tmin ≤ tmax |
| Cubes.FiniteSlabs | src/cube.rs:17-20 | on finite slab bounds the IEEE min/max and comparison agree with the real ones |
| Cubes.RayAlongXHitsCube | src/cube.rs:74 | the ray from (5, 0.5, 0) along −x meets the cube at t = 4 and t = 6 |
| Cubes.LocalNormalAt | src/cube.rs:28-37 | the normal keeps only the component of largest magnitude, with ties going to x, then y |
| Planes.LocalIntersect | src/plane.rs:16-24 | no hit exactly when |direction.y| < EPSILON; otherwise one t, at which the ray is on y = 0 |
| Planes.LocalNormalAt | src/plane.rs:12-14 | the normal is (0, 1, 0) everywhere |
| Triangles.NewTriangle | src/triangle.rs:16-28 | the corners are kept, p1 + e1 = p2, p1 + e2 = p3, and the normal is normalize(e2 × e1) |
| Triangles.LocalIntersect | src/triangle.rs:30-52 | at most one hit; none when det = 0; a hit exactly when 0 ≤ u ≤ 1, v ≥ 0 and u + v ≤ 1, at t |
| Triangles.LocalNormalAt | src/triangle.rs:54-56 | the stored normal at every point |
| Triangles.BoundingBoxContainsCorners | src/triangle.rs:59-63 | the box grown from the empty box contains all three corners and the origin |
| Patterns.FloorIsEvenIff | src/pattern.rs:15 | `floor(v) % 2.0 == 0.0` exactly when floor(v) is even |
| Patterns.TextureColorAt | src/pattern.rs:12-43 | stripes, rings and checkers give one of their two colours; the gradient gives every channel between the two colours' channels |
| Patterns.StripedByParity | src/pattern.rs:14-20 | stripes give a iff floor(x) is even; they ignore y and z and repeat every 2 in x |
| Patterns.CheckersByParity | src/pattern.rs:33-39 | checkers give a iff floor(x)+floor(y)+floor(z) is even |
| Patterns.GradientFraction | src/pattern.rs:21-25 | the gradient is a + (b−a)·(x − floor x), with the fraction in [0, 1), and is a at integral x |
| Patterns.RingByParity | src/pattern.rs:26-32 | rings give a iff floor of the distance from the y axis is even, and the origin gives a whenever √0 = 0 and 0² = 0 |
| Patterns.NewPattern | src/pattern.rs:51-53 | `Pattern::new` keeps the transform and the texture |
| Patterns.StripePattern | src/pattern.rs:70-75 | identity transform, striped texture of the two colours |
| Patterns.GradientPattern | src/pattern.rs:77-82 | identity transform, gradient texture of the two colours |
| Patterns.RingPattern | src/pattern.rs:84-86 | identity transform, ring texture of the two colours |
| Patterns.CheckersPattern | src/pattern.rs:88-93 | identity transform, checkers texture of the two colours |
| Patterns.SetTransform | src/pattern.rs:55-57 | changes the transform and keeps the texture |
| Patterns.SetTexture | src/pattern.rs:59-61 | changes the texture and keeps the transform |
| Patterns.PatternAtObject | src/pattern.rs:63-67 | for a texture other than the gradient the colour is one of the texture's two colours, whatever the transforms |
| Patterns.PatternAtObjectIdentity | src/pattern.rs:63-67 | with identity transforms the colour at the object point is the texture's colour at that point |
| Materials.NewMaterial | src/material.rs:35-57 | `Material::new` keeps all nine fields |
| Materials.DefaultMaterial | src/material.rs:125-139 | the default material is white with ambient 0.1, diffuse 0.9, specular 0.9, shininess 200, not reflective, opaque, refractive index 1 and no pattern, so its surface colour is white everywhere |
| Materials.SetPattern | src/material.rs:59-61 | the pattern becomes Some(p) and every other field is unchanged |
| Materials.SurfaceColor | src/material.rs:73-77 | the pattern's colour at the point when there is a pattern, otherwise the plain colour |
| Materials.Lighting | src/material.rs:63-122 | light intensity 0 gives exactly the ambient term; light behind the surface gives the ambient term alone; light reflecting away from the eye has no specular term; otherwise ambient + diffuse·intensity + specular·intensity |
| Lights.NewLight | src/light.rs:14-19 | keeps the position and the intensity |
| Lights.PointLight | src/light.rs:3-5 | keeps the position and the intensity |
| Lights.IntensityAt | src/light.rs:21-27 | 0.0 exactly when the shadow test holds, 1.0 exactly when it does not, nothing else |
| Objects.SameObjectIgnoresParent | src/object.rs:227-234 | equality ignores the parent and the cached inverse, compares transform, material and shape, and is an equivalence |
| Objects.NewObject | src/object.rs:26-91 | a new object keeps the shape, transform and material, caches the inverse and has no parent |
| Objects.NewTriangle | src/object.rs:93-108 | a triangle object built from the three corners, with no parent |
| Objects.NewSmoothTriangle | src/object.rs:110-128 | a smooth triangle of the corners and normals, with no parent |
| Objects.NewGroup | src/object.rs:130-139 | an empty group with the transform and material, with no parent |
| Objects.UpdateParents | src/shape.rs:52-57 | leaves a non-group unchanged, and gives a group's children, in order, the new parent |
| Objects.SetTransform | src/object.rs:141-146 | stores the transform and its inverse, keeps material and parent, and re-parents a group's children |
| Objects.SetMaterial | src/object.rs:148-151 | stores the material, keeps transform and parent, and re-parents a group's children |
| Objects.AddChild | src/object.rs:187-190 | defined for groups only: the child gets the group as parent and is appended after the existing children, equal to the child given |
| Objects.InverseChain | src/object.rs:168-175 | the chain of inverses ends with the object's own |
| Objects.WorldToObjectIsChain | src/object.rs:168-175 | `world_to_object` applies the inverse transforms from the outermost ancestor down to the object |
| Objects.NormalToWorld | src/object.rs:177-185 | the last step is always a normalisation, at every level of the parent chain |
| Objects.NormalAt | src/object.rs:162-166 | the world normal is a normalised vector; for a plane it is the plane's (0, 1, 0) and for a triangle its stored normal, carried to world space |
| Objects.ExtsToReals | src/cube.rs:24-25 | finite cube distances are kept exactly, one per distance |
| Objects.LocalNormalAt | src/shape.rs:19-30 | dispatch to the variant: the plane's, cube's and triangle's own normals; never called on a group |
| Objects.LeafDistances | src/shape.rs:32-43 | dispatch to the variant's own intersection: the plane's and the triangle's distances |
| Objects.Intersect | src/object.rs:157-160 | sorted, and every intersection names a leaf object |
| Objects.LocalIntersect | src/shape.rs:32-43 | sorted, all leaves, and for a leaf shape every intersection names the object itself |
| Objects.GroupLocalIntersect | src/group.rs:17-27 | empty without visiting any child when the ray misses the group's box; otherwise sorted leaves |
| Objects.IntersectChildren | src/group.rs:22-26 | the combined intersections of the first k children are sorted and name leaves |
| Objects.IntersectChildrenCollects | src/group.rs:22-26 | the first k children's combination holds exactly their intersections, and its length is the sum of their counts |
| Objects.GroupHitCombinesChildren | src/group.rs:17-27 | when the box is hit the group's intersections are exactly its children's, and the count is the sum of theirs |
| Objects.EmptyGroupNoIntersections | src/group.rs:13-27 | an empty group yields no intersections |
| Objects.BoundingBoxOf | src/shape.rs:59-70 | spheres and cubes get the default box (−1,−1,−1)..(1,1,1) |
| Objects.ChildBoxes | src/group.rs:44-47 | one parent-space box per child, in order |
| Objects.GroupBoundingBox | src/group.rs:40-51 | the fold starts from the empty box |
| Objects.GroupBoundingBoxIsSum | src/group.rs:40-51 | the group's loop equals the `Sum` of its children's parent-space boxes |
| Objects.GroupBoxContainsChildren | src/group.rs:40-51 | the group's box contains each child's parent-space box, and the origin |
| Objects.AddChildren | src/group.rs:57-71 | the children are appended in order, equal to those given, the existing children and the group's fields unchanged |
| Objects.NewGroupOf | src/group.rs:65-71 | `group(transform, children)`: a group with exactly the given children in order, the default material and no parent |
| Objects.GroupIntersectLoop | src/group.rs:17-27 | the accumulating loop over the children equals the group's intersection specification |
| Objects.CombineChild | src/group.rs:24 | one iteration adds the next child's intersections |
| Objects.GroupBoxLoop | src/group.rs:41-50 | the accumulating loop equals the group's bounding box |
| Worlds.AllIntersectionsCount | src/world.rs:82-89 | the concatenated list has the sum of the objects' counts |
| Worlds.IntersectWorld | src/world.rs:82-89 | sorted by t, a permutation of all objects' intersections, its count the sum of theirs; empty for an empty world |
| Worlds.IsShadowed | src/world.rs:129-138 | never shadowed in an empty world; shadowed only if the shadow ray has a hit |
| Worlds.IntensityInWorld | src/light.rs:21-27 | a light's intensity is 0.0 exactly when the world's shadow test holds, and 1.0 in an empty world |
| Worlds.ShadowRay | src/world.rs:130-133 | the shadow ray starts at the point |
| Worlds.ShadeHitLights | src/world.rs:91-116 | the loop starts from BLACK |
| Worlds.ShadeHit | src/world.rs:91-116 | no lights gives BLACK |
| Worlds.ColorAt | src/world.rs:118-127 | BLACK when the ray has no hit with positive t, in particular in an empty world |
| Worlds.ReflectedColor | src/world.rs:140-148 | BLACK when remaining < 1 or the object is not reflective |
| Worlds.RefractedColor | src/world.rs:150-170 | BLACK when remaining = 0, when `is_transparent` holds (transparency 0), or when sin²t > 1 |
| Worlds.ContributionWithoutBudget | src/world.rs:103-112 | with no bounces left a light contributes its surface colour only |
| Worlds.ShadeHitWithoutBudget | src/world.rs:91-116 | with no bounces left `shade_hit` is the sum of the lights' surface colours |
| Worlds.RepeatedIsScale | src/world.rs:93-113 | adding a colour k times is scaling it by k |
| Worlds.ContributionUnblended | src/world.rs:111-113 | without Schlick blending a light adds its surface colour plus the reflected and refracted colours |
| Worlds.OneMoreBounce | src/world.rs:93-114 | if k − 1 lights gave their direct lighting plus k − 1 bounces, adding one light's surface colour and bounce gives the direct lighting plus k bounces |
| Worlds.UnblendedStep | src/world.rs:93-114 | without Schlick blending, one more light adds its surface colour plus the reflected and refracted colours to the sum, and its surface colour alone to the direct lighting |
| Worlds.ShadeHitCountsBouncesPerLight | src/world.rs:93-114 | without Schlick blending, `shade_hit` over k lights is the direct lighting plus the reflected and refracted colour counted k times, once per light |
| Worlds.World.constructor | src/world.rs:63-68 | a new world has no objects and no lights |
| Worlds.World.SetLights | src/world.rs:70-72 | replaces the light list and keeps the objects |
| Worlds.World.AddLight | src/world.rs:74-76 | appends the light at the end and keeps the objects |
| Worlds.World.IntersectAll | src/world.rs:82-89 | the appending loop equals the world's intersection specification |
| Worlds.World.ShadeHitAll | src/world.rs:91-116 | the accumulating loop over the lights equals `shade_hit`'s specification with the world's own shadow test |
| Worlds.AddLightContribution | src/world.rs:94-113 | one iteration adds the next light's contribution |
| ObjFiles.Numbers | src/obj_parser.rs:96-97 | the numbers are present exactly when every argument parses, and are then the parsed values in order |
| ObjFiles.CoordinatesAccepted | src/obj_parser.rs:96-103 | a coordinate record is accepted exactly when there are three arguments and all parse |
| ObjFiles.ParseReferenceOneField | src/obj_parser.rs:130-136 | a reference without '/' is a vertex index when it parses as usize, and nothing otherwise |
| ObjFiles.ParseReferenceThreeFields | src/obj_parser.rs:119-128 | `v/vt/vn` uses only the first and third fields, and only when both parse |
| ObjFiles.ParseReferenceTwoFields | src/obj_parser.rs:137 | a `v/vt` reference with two fields refers to nothing |
| ObjFiles.ParseReferenceOfIndices | src/obj_parser.rs:113-136 | a rendered index, alone or as `v/anything/n`, reads back as that reference |
| ObjFiles.Resolve | src/obj_parser.rs:119-136 | a reference resolves exactly when its vertex index, and for `v/vt/vn` its normal index, is in range; the corner is that vertex, with that normal exactly for `v/vt/vn` |
| ObjFiles.ResolveZero | src/obj_parser.rs:47-52 | index 0 resolves to the placeholder point and vector |
| ObjFiles.CornersOf | src/obj_parser.rs:111-139 | one resolution per argument |
| ObjFiles.ResolveFaces | src/obj_parser.rs:110-139 | no more corners than arguments |
| ObjFiles.ResolveFacesSnoc | src/obj_parser.rs:111-139 | resolving arguments one by one appends the corner when it resolves and nothing otherwise |
| ObjFiles.ResolveFacesSkips | src/obj_parser.rs:122-137 | an argument that does not resolve (out of range, or malformed) is silently skipped |
| ObjFiles.ResolveFacesNone | src/obj_parser.rs:110-139 | when no argument resolves there are no corners |
| ObjFiles.ResolveFacesAll | src/obj_parser.rs:110-139 | when every argument resolves there is one corner per argument, in order |
| ObjFiles.FanTriangleShape | src/obj_parser.rs:186-204 | the triangle has the three corners; it is smooth exactly when all three carry normals, then with those normals; identity transform, the parser's material, no parent |
| ObjFiles.FanShape | src/obj_parser.rs:183-208 | k ≥ 2 corners give k−2 triangles, the i-th on corners 0, i+1, i+2, smooth exactly when all three carry normals |
| ObjFiles.FanExtends | src/obj_parser.rs:185-206 | one more corner adds exactly one triangle at the end |
| ObjFiles.AsWrittenFanAgrees | src/obj_parser.rs:183-208 | for at least one corner the as-written fan equals the corrected one |
| ObjFiles.NoCornersPanics | src/obj_parser.rs:185 | a face of ≥ 3 arguments none of which is a reference reaches the underflow, where the corrected fan gives no triangles |
| ObjFiles.AsWrittenFanPanics | src/obj_parser.rs:185 | "f 1/1 2/2 3/3" resolves no corner, so the as-written fan panics while the corrected fan is empty |
| ObjFiles.InitialStateWellFormed | src/obj_parser.rs:43-56 | the new parser has the placeholder vertex and normal, an empty default group, and faces going to it |
| ObjFiles.CoordinateLines | src/obj_parser.rs:94-105 | an accepted `v`/`vn` appends exactly one point/vector and changes nothing else; a rejected one only counts as ignored |
| ObjFiles.GroupLineEffect | src/obj_parser.rs:150-162 | `g name` inserts an empty group only if the name is absent, keeps every existing group, and makes the name current; `g` alone is ignored |
| ObjFiles.AddedFace | src/obj_parser.rs:177-181 | adding a face keeps the parser's invariants |
| ObjFiles.AddedFaces | src/obj_parser.rs:141-144 | adding faces keeps the parser's invariants |
| ObjFiles.AddedFacesEffect | src/obj_parser.rs:141-144 | the triangles are appended, in order, to the current group only; lists, counter and other groups unchanged |
| ObjFiles.FaceLine | src/obj_parser.rs:107-148 | a face record keeps the parser's invariants |
| ObjFiles.AddedChildrenCorners | src/obj_parser.rs:177-181 | the children added keep the triangles' corners |
| ObjFiles.FaceLineTriangles | src/obj_parser.rs:107-148 | a face of k ≥ 3 resolvable references adds k−2 triangles to the current group, the i-th on corners 0, i+1, i+2 |
| ObjFiles.ReadLine | src/obj_parser.rs:80-92 | every line keeps the parser's invariants |
| ObjFiles.ReadLines | src/obj_parser.rs:62-64 | reading lines keeps the parser's invariants |
| ObjFiles.ReadLinesUnrecognised | src/obj_parser.rs:80-92 | each line that is not a `v`/`f`/`g`/`vn` record adds exactly 1 to `ignored` and nothing else (five gibberish lines give 5) |
| ObjFiles.ShortFaceIgnored | src/obj_parser.rs:109 | a face with fewer than 3 arguments adds nothing and counts as ignored |
| ObjFiles.ExtendsTransitive | src/obj_parser.rs:62-64 | growth of the parser's lists and counter is transitive |
| ObjFiles.ReadLineExtends | src/obj_parser.rs:80-92 | a line never removes or moves a vertex or normal, and never decreases `ignored` |
| ObjFiles.ReadLinesExtends | src/obj_parser.rs:62-64 | parsing never removes or moves a vertex or normal, so index 0 stays the placeholder |
| ObjFiles.ObjParser.constructor | src/obj_parser.rs:43-56 | the initial state: no ignored lines, placeholder lists, the default group current, the default material |
| ObjFiles.ObjParser.SetMaterial | src/obj_parser.rs:58-60 | changes the material and nothing else |
| ObjFiles.ObjParser.Parse | src/obj_parser.rs:62-64 | the loop over the content's lines reaches the state of reading them in order |
| ObjFiles.ObjParser.DefaultGroup | src/obj_parser.rs:66-68 | the default group is always present and is a group |
| ObjFiles.ObjParser.ObjToGroup | src/obj_parser.rs:70-78 | one child per parsed group in the map's iteration order, and every group appears among the children |
| ObjFiles.ObjParser.ParseLine | src/obj_parser.rs:80-92 | dispatches on the first word to the record's effect, and counts anything else as ignored |
| ObjFiles.ObjParser.ParseVertice | src/obj_parser.rs:94-105 | the state after a `v` record is its specified effect |
| ObjFiles.ObjParser.ParseNormal | src/obj_parser.rs:164-175 | the state after a `vn` record is its specified effect |
| ObjFiles.ObjParser.CreateGroup | src/obj_parser.rs:150-162 | the state after a `g` record is its specified effect |
| ObjFiles.ObjParser.ParseFace | src/obj_parser.rs:107-148 | the state after an `f` record is its specified effect |
| ObjFiles.ObjParser.ResolveArguments | src/obj_parser.rs:110-139 | the loop over the arguments collects exactly the resolvable corners, in order |
| ObjFiles.ObjParser.AddFace | src/obj_parser.rs:177-181 | the face becomes the last child of the current group |
| ObjFiles.ObjParser.FanTriangulation | src/obj_parser.rs:183-208 | the loop yields the corrected fan |
| ObjFiles.ParseObjFile | src/obj_parser.rs:227-231 | a new parser with every line of the content read from the initial state |

## Left out

- Floating point: `f32`/`f64` are `real`. Rounding and overflow are not modelled, and NaN only where `Floats.Ext` is used.
- Rust `sort_by(partial_cmp().unwrap())` panics on a NaN distance; that panic is not modelled.
- `Float` is `f32` in src/float.rs but several files call `f64` functions. Both are `real` here.
- Equality of colours, tuples and matrices: the source's EPSILON comparison is `Floats.FloatEquals` and `Colors.ColorEquals`, whose non-transitivity is proved. Elsewhere, such as `Intersection ==` in the containers loop and `PartialEq for Object`, the model compares exactly.
- Not defined here, received through `Externals.Numerics`, because they are float numerics built on `sqrt`, `powf` and `normalize` or are not among the core files:
  - square roots, powers, normalisation, magnitude and matrix inversion;
  - src/sphere.rs, src/cylinder.rs, src/cone.rs and the smooth triangle;
  - the `CylinderIntersection` trait at src/intersection.rs:180-251;
  - the per-axis test of the `Axis` trait used by `BoundingBox::intersects`;
  - `BoundingBox * Matrix` and `transform`;
  - the plane's infinite box.
- IEEE division by zero (`n1 / n2` with n2 = 0, a plane or cube distance) is the `divideByZero` oracle. Infinite or NaN distances read back as reals through `nonFinite`.
- src/camera.rs, `render`, src/macroquad.rs, `Canvas::as_image`, `Color::as_color`, src/app_options.rs, src/projectile.rs, src/main.rs and src/lib.rs: float camera maths, parallel rendering, windowing and CLI code outside the core.
- src/matrix.rs and the tuple algebra are not part of this model beyond the operations used here.
- `Result` errors, mainly the failure of `transform.inverse()?`: only the success path is modelled, since the shown files mix revisions with and without `Result`.
- `has_shadow` is not defined in the shown object.rs. It is a parameter (`hasShadow`).
- `Group::update_parents` is not in the shown group.rs. `Objects.UpdateParents` gives the direct children the new parent, one level deep.
- Aliasing: `Arc` parents and the clones taken by `add_child`/`obj_to_group` are modelled as values. A later change to a group is not visible through the parent copies its children hold, which matches the clone semantics of the source.
- `Intersections::new` sorts in place with the library's stable sort. It is modelled as a stable insertion sort on a sequence (`Intersections.Sort`), not as an in-place array algorithm.
- Intersections.Combine: the `+` of two intersection lists is not defined in the files of this model. It is modelled as a merge that keeps the result sorted, because the group test at src/group.rs:114-134 expects the children's hits in order of distance.
- `Colors.AddAssign`: `+=` updates a `Copy` value in place. It is modelled as a method returning the updated colour.
- `str::parse::<f32>` is not modelled. It is the parameter `parseFloat`, a partial function.
- `usize` limits are not modelled: the `parse::<usize>` overflow bound and the overflow of `ignored` and of `width * height`.
- `HashMap` iteration order in `obj_to_group` is a parameter (`order`), required to list every group once.
- `World::contains`, `Intersections::empty`/`inner`/`index`, `Object::transformed_ray`, `Object::lighting` and the free wrappers (`world()`, `intersection()`, `hit()`, `material()`, `lighting()`, `cube()`, `plane()`, `triangle()`, `empty_group()`, `canvas()`, the `*_texture` constructors) are one-line delegations. They are covered through what they delegate to.
- `Object::empty`/`Object::new` build a sphere with the default material. They are `Objects.NewObject` with `Sphere`.
- Strings.Lines: does not strip a carriage return before a line feed as `str::lines` does. The OBJ reader splits each line on whitespace, which includes '\r', so no record reads differently.
- Worlds.IsShadowed: the contract states the empty-world and no-hit cases only. The comparison of the hit's distance with the light's, and the `has_shadow` test, are in its definition and are not restated.
- Bounds.Intersects: the contract states only that a hit needs the nearest exit in front of the ray. The entry/exit comparison stays in the definition because the per-axis values are an oracle.
- Materials.Lighting: the diffuse and specular values are stated through the uninterpreted `normalize`, `reflect`·eye and `powf`. Only the branch structure is exact.
- Worlds.ReflectedColor: beyond its BLACK cases, the value is the recursive colour scaled by `reflective`, stated by its definition only.
- Worlds.RefractedColor: likewise, scaled by `transparency`.

## Findings

| source | as written | input that shows it | evidently intended | confidence | as-written member | corrected member |
|---|---|---|---|---|---|---|
| src/canvas.rs:58-61 | A token that would make the line reach 70 characters starts a new line, and the row-end test is skipped for it. The next row's first token (index % (3·width) == 0, so no leading space) is then appended to it with no separator. | A 6×2 all-white canvas: 18 tokens "255" per row. The first 17 fill a 67-character line, the 18th wraps, and the 19th is glued to it as "255255". | Every row ends its line, so every channel value stays a separate token of the P3 body. | not executed | Canvases.AsWrittenGluesRows | Canvases.PpmBodyWellFormed |
| src/obj_parser.rs:185 | `1..vertices.len() - 1` underflows `usize` when no corner of a face resolves. That panics in every build: in debug builds on the subtraction, in release builds because the wrapped bound lets the loop reach `vertices[0]` at obj_parser.rs:186, out of bounds on an empty vector. | The face record "f 1/1 2/2 3/3": two-field `v/vt` references match neither accepted form, so no corner resolves. | A face without resolvable corners adds no triangles. | not executed | ObjFiles.AsWrittenFanPanics | ObjFiles.FanShape |
