/** Point lights (light.rs). */
module Lights {
  import opened Tuples
  import opened Colors

  datatype Light = Light(position: Tuple, intensity: Color)

  /** `Light::new`. */
  function NewLight(position: Tuple, intensity: Color): (l: Light)
    ensures l.position == position && l.intensity == intensity
  {
    Light(position, intensity)
  }

  /** `point_light`: stores the position and intensity unchanged. */
  function PointLight(position: Tuple, intensity: Color): (l: Light)
    ensures l.position == position && l.intensity == intensity
  {
    NewLight(position, intensity)
  }

  /**
   * `Light::intensity_at`: the fraction of the light reaching `p`, given the
   * world's shadow test (light position, point): 0.0 in shadow, 1.0 otherwise.
   */
  function IntensityAt(l: Light, p: Tuple, isShadowed: (Tuple, Tuple) -> bool): (r: real)
    ensures r == 0.0 <==> isShadowed(l.position, p)
    ensures r == 1.0 <==> !isShadowed(l.position, p)
    ensures r == 0.0 || r == 1.0
  {
    if isShadowed(l.position, p) then 0.0 else 1.0
  }
}
