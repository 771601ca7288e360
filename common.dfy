/** Values shared by the two API routes, the session store and the detect page. */
module Common {

  datatype Option<+T> = None | Some(value: T)

  /** The classification a prediction carries: `"Fake" | "Genuine"`. */
  datatype Label = Fake | Genuine

  /** A value of `Math.random()`: a real in [0, 1). */
  predicate IsUniform(r: real) {
    0.0 <= r < 1.0
  }

  /** `Math.random() > 0.5 ? "Fake" : "Genuine"`. */
  function LabelOf(r: real): Label
  {
    if r > 0.5 then Fake else Genuine
  }

  /** `Math.floor(Math.random() * 30) + 70`: always an integer in [70, 99]. */
  function ConfidenceOf(r: real): (c: int)
    requires IsUniform(r)
    ensures 70 <= c <= 99
    ensures (c - 70) as real <= r * 30.0 < (c - 69) as real
  {
    (r * 30.0).Floor + 70
  }
}
