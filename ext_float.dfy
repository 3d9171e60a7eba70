/** The scalar values the emitted kernel computes with.
    GLSL floats are modelled by integers extended with the two infinities
    that the kernel uses as neutral elements for min and max
    (`1.0 / 0.0` and `-1.0 / 0.0`). */
module ExtFloat {

  datatype Ext = NegInf | Fin(v: int) | PosInf

  /** The order of the extended integers: -inf below every value, +inf above. */
  predicate Le(a: Ext, b: Ext) {
    match (a, b)
    case (NegInf, _) => true
    case (_, PosInf) => true
    case (Fin(x), Fin(y)) => x <= y
    case _ => false
  }

  predicate Lt(a: Ext, b: Ext) {
    Le(a, b) && a != b
  }

  /** GLSL `min(x, y)`: y when y < x, otherwise x. */
  function GlslMin(x: Ext, y: Ext): (r: Ext)
    ensures Le(r, x) && Le(r, y)
    ensures r == x || r == y
  {
    if Lt(y, x) then y else x
  }

  /** GLSL `max(x, y)`: y when x < y, otherwise x. */
  function GlslMax(x: Ext, y: Ext): (r: Ext)
    ensures Le(x, r) && Le(y, r)
    ensures r == x || r == y
  {
    if Lt(x, y) then y else x
  }

  /** Addition. Finite values add as integers; an infinite operand absorbs,
      +inf taking precedence over -inf (IEEE gives NaN for +inf + -inf, which
      the model never meets, because its rows are finite integers and sum's
      padding is 0). */
  function Add(a: Ext, b: Ext): (r: Ext)
    ensures a.Fin? && b.Fin? ==> r == Fin(a.v + b.v)
    ensures a == PosInf || b == PosInf ==> r == PosInf
  {
    if a == PosInf || b == PosInf then PosInf
    else if a == NegInf || b == NegInf then NegInf
    else Fin(a.v + b.v)
  }

  /** The float-to-bool conversion of GLSL: nonzero is true. */
  predicate Truthy(a: Ext) {
    a != Fin(0)
  }

  lemma AddAssoc(a: Ext, b: Ext, c: Ext)
    ensures Add(Add(a, b), c) == Add(a, Add(b, c))
  {
  }

  /** Folding in `g` last or right after `a` gives the same minimum. */
  lemma MinRotate(a: Ext, b: Ext, g: Ext)
    ensures GlslMin(GlslMin(a, b), g) == GlslMin(GlslMin(a, g), b)
    ensures GlslMin(a, GlslMin(g, b)) == GlslMin(GlslMin(a, b), g)
    ensures GlslMin(g, a) == GlslMin(a, g)
  {
  }

  lemma MaxRotate(a: Ext, b: Ext, g: Ext)
    ensures GlslMax(GlslMax(a, b), g) == GlslMax(GlslMax(a, g), b)
    ensures GlslMax(a, GlslMax(g, b)) == GlslMax(GlslMax(a, b), g)
    ensures GlslMax(g, a) == GlslMax(a, g)
  {
  }
}
