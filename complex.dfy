/** Complex scalars as pairs of reals, with the field operations numpy uses. */
module ComplexNumbers {

  datatype Complex = Complex(re: real, im: real)

  const Zero: Complex := Complex(0.0, 0.0)
  const One: Complex := Complex(1.0, 0.0)

  function FromReal(x: real): Complex { Complex(x, 0.0) }

  function Add(a: Complex, b: Complex): Complex { Complex(a.re + b.re, a.im + b.im) }

  function Sub(a: Complex, b: Complex): Complex { Complex(a.re - b.re, a.im - b.im) }

  function Neg(a: Complex): Complex { Complex(-a.re, -a.im) }

  function Mul(a: Complex, b: Complex): Complex {
    Complex(a.re * b.re - a.im * b.im, a.re * b.im + a.im * b.re)
  }

  /** Multiplication by a real scalar. */
  function Scale(r: real, a: Complex): Complex { Complex(r * a.re, r * a.im) }

  function Conj(a: Complex): Complex { Complex(a.re, -a.im) }

  /** |a|^2 */
  function NormSq(a: Complex): real { a.re * a.re + a.im * a.im }

  lemma MulAssoc(a: Complex, b: Complex, c: Complex)
    ensures Mul(Mul(a, b), c) == Mul(a, Mul(b, c))
  {
  }

  lemma MulAddLeft(a: Complex, b: Complex, c: Complex)
    ensures Mul(a, Add(b, c)) == Add(Mul(a, b), Mul(a, c))
  {
  }

  lemma MulAddRight(a: Complex, b: Complex, c: Complex)
    ensures Mul(Add(a, b), c) == Add(Mul(a, c), Mul(b, c))
  {
  }

  lemma MulSubLeft(a: Complex, b: Complex, c: Complex)
    ensures Mul(a, Sub(b, c)) == Sub(Mul(a, b), Mul(a, c))
  {
  }

  lemma MulSubRight(a: Complex, b: Complex, c: Complex)
    ensures Mul(Sub(a, b), c) == Sub(Mul(a, c), Mul(b, c))
  {
  }

  lemma ScaleSub(x: real, y: real, a: Complex)
    ensures Sub(Scale(x, a), Scale(y, a)) == Scale(x - y, a)
  {
  }

  lemma MulImagScale(s: real, d: real, a: Complex)
    ensures Mul(Complex(0.0, s), Scale(d, a)) == Mul(Complex(0.0, s * d), a)
  {
  }

  lemma MulOneZero(a: Complex)
    ensures Mul(One, a) == a && Mul(a, One) == a
    ensures Mul(Zero, a) == Zero && Mul(a, Zero) == Zero
  {
  }

  lemma ConjTimesSelf(a: Complex)
    ensures Mul(Conj(a), a) == FromReal(NormSq(a))
    ensures NormSq(a) >= 0.0
  {
  }
}
