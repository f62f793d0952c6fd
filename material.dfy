/** Surface materials and Phong lighting (material.rs); only the branch structure is exact. */
module Materials {
  import opened Options
  import opened Tuples
  import opened Colors
  import opened Patterns
  import opened Lights
  import opened Externals

  /** The number of reflection or refraction bounces a render starts with. */
  const MAX_REFLECTIVE_DEPTH: nat := 4

  datatype Material = Material(
    color: Color,
    ambient: real,
    diffuse: real,
    specular: real,
    shininess: real,
    reflective: real,
    transparency: real,
    refractiveIndex: real,
    pattern: Option<Pattern>)

  /** `Material::new`. */
  function NewMaterial(color: Color, ambient: real, diffuse: real, specular: real, shininess: real,
                       reflective: real, transparency: real, refractiveIndex: real,
                       pattern: Option<Pattern>): (m: Material)
    ensures m.color == color && m.ambient == ambient && m.diffuse == diffuse && m.specular == specular
    ensures m.shininess == shininess && m.reflective == reflective && m.transparency == transparency
    ensures m.refractiveIndex == refractiveIndex && m.pattern == pattern
  {
    Material(color, ambient, diffuse, specular, shininess, reflective, transparency, refractiveIndex, pattern)
  }

  /** `Material::default()`: white, matte, opaque, refractive index of vacuum, no pattern. */
  const DEFAULT_MATERIAL: Material := Material(WHITE, 0.1, 0.9, 0.9, 200.0, 0.0, 0.0, 1.0, None)

  /**
   * The default is `Material::new` with the listed constants; without a
   * pattern its surface is plain white everywhere.
   */
  lemma DefaultMaterial(num: Numerics, objectTransform: Matrix, point: Tuple)
    ensures DEFAULT_MATERIAL == NewMaterial(WHITE, 0.1, 0.9, 0.9, 200.0, 0.0, 0.0, 1.0, None)
    ensures DEFAULT_MATERIAL.reflective == 0.0 && DEFAULT_MATERIAL.transparency == 0.0
    ensures DEFAULT_MATERIAL.refractiveIndex == 1.0
    ensures SurfaceColor(num, DEFAULT_MATERIAL, objectTransform, point) == WHITE
  {
  }

  /** `Material::set_pattern`: installs the pattern and leaves every other field as it was. */
  function SetPattern(m: Material, p: Pattern): (r: Material)
    ensures r.pattern == Some(p)
    ensures r.(pattern := m.pattern) == m
  {
    m.(pattern := Some(p))
  }

  /** The colour of the surface at `point`: the pattern's when there is one, else the plain colour. */
  function SurfaceColor(num: Numerics, m: Material, objectTransform: Matrix, point: Tuple): (c: Color)
    ensures m.pattern.None? ==> c == m.color
    ensures m.pattern.Some? ==> c == PatternAtObject(num, m.pattern.value, objectTransform, point)
  {
    match m.pattern
    case Some(p) => PatternAtObject(num, p, objectTransform, point)
    case None => m.color
  }

  function EffectiveColor(num: Numerics, m: Material, objectTransform: Matrix, l: Light, point: Tuple): Color
  {
    Colors.Mul(SurfaceColor(num, m, objectTransform, point), l.intensity)
  }

  function Ambient(num: Numerics, m: Material, objectTransform: Matrix, l: Light, point: Tuple): Color
  {
    Colors.Scale(EffectiveColor(num, m, objectTransform, l, point), m.ambient)
  }

  /** The unit vector towards the light. */
  function LightVector(num: Numerics, l: Light, point: Tuple): Tuple
  {
    num.normalize(Tuples.Sub(l.position, point))
  }

  /** The cosine between the light vector and the normal; negative when the light is behind the surface. */
  function LightDotNormal(num: Numerics, l: Light, point: Tuple, normalv: Tuple): real
  {
    Dot(LightVector(num, l, point), normalv)
  }

  /** The cosine between the reflected light and the eye; at most zero when it reflects away from the eye. */
  function ReflectDotEye(num: Numerics, l: Light, point: Tuple, eyev: Tuple, normalv: Tuple): real
  {
    Dot(Reflect(Neg(LightVector(num, l, point)), normalv), eyev)
  }

  function Diffuse(num: Numerics, m: Material, objectTransform: Matrix, l: Light, point: Tuple, normalv: Tuple): Color
  {
    if LightDotNormal(num, l, point, normalv) < 0.0 then BLACK
    else Colors.Scale(Colors.Scale(EffectiveColor(num, m, objectTransform, l, point), m.diffuse),
                      LightDotNormal(num, l, point, normalv))
  }

  function Specular(num: Numerics, m: Material, l: Light, point: Tuple, eyev: Tuple, normalv: Tuple): Color
  {
    if LightDotNormal(num, l, point, normalv) < 0.0 then BLACK
    else if ReflectDotEye(num, l, point, eyev, normalv) <= 0.0 then BLACK
    else Colors.Scale(Colors.Scale(l.intensity, m.specular),
                      num.powf(ReflectDotEye(num, l, point, eyev, normalv), m.shininess))
  }

  /**
   * `Material::lighting`. A point the light does not reach (intensity 0) or
   * a surface facing away from the light gets the ambient term alone; a
   * reflection pointing away from the eye gets no specular highlight;
   * otherwise ambient + diffuse * intensity + specular * intensity.
   */
  function Lighting(num: Numerics, m: Material, objectTransform: Matrix, l: Light, point: Tuple,
                    eyev: Tuple, normalv: Tuple, lightIntensity: real): (c: Color)
    ensures lightIntensity == 0.0 ==>
              c == Colors.Scale(Colors.Mul(SurfaceColor(num, m, objectTransform, point), l.intensity), m.ambient)
    ensures LightDotNormal(num, l, point, normalv) < 0.0 ==> c == Ambient(num, m, objectTransform, l, point)
    ensures lightIntensity != 0.0 && LightDotNormal(num, l, point, normalv) >= 0.0
            && ReflectDotEye(num, l, point, eyev, normalv) <= 0.0 ==>
              c == Colors.Add(Ambient(num, m, objectTransform, l, point),
                              Colors.Scale(Diffuse(num, m, objectTransform, l, point, normalv), lightIntensity))
    ensures lightIntensity != 0.0 ==>
              c == Colors.Add(Colors.Add(Ambient(num, m, objectTransform, l, point),
                                         Colors.Scale(Diffuse(num, m, objectTransform, l, point, normalv), lightIntensity)),
                              Colors.Scale(Specular(num, m, l, point, eyev, normalv), lightIntensity))
  {
    var ambient := Ambient(num, m, objectTransform, l, point);
    if lightIntensity == 0.0 then ambient
    else
      var diffuse := Diffuse(num, m, objectTransform, l, point, normalv);
      var specular := Specular(num, m, l, point, eyev, normalv);
      Colors.Add(Colors.Add(ambient, Colors.Scale(diffuse, lightIntensity)), Colors.Scale(specular, lightIntensity))
  }
}
