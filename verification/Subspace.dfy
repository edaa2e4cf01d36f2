/**
 project_gradient and shift_energies of verl/utils/alpha_stabler.py over the reals: a matrix is a sequence of
 rows, a basis the sequence of its column vectors.
 */
module Subspace {
  import opened Reals

  type Vector = seq<real>
  type Basis = seq<Vector>

  function Dot(x: Vector, y: Vector): real {
    if x == [] || y == [] then 0.0 else Product(x[0], y[0]) + Dot(x[1..], y[1..])
  }

  function Plus(x: Vector, y: Vector): (r: Vector)
    requires |x| == |y|
    ensures |r| == |x|
  {
    seq(|x|, i requires 0 <= i < |x| => x[i] + y[i])
  }

  function Minus(x: Vector, y: Vector): (r: Vector)
    requires |x| == |y|
    ensures |r| == |x|
  {
    seq(|x|, i requires 0 <= i < |x| => x[i] - y[i])
  }

  function Times(c: real, x: Vector): (r: Vector)
    ensures |r| == |x|
  {
    seq(|x|, i requires 0 <= i < |x| => Product(c, x[i]))
  }

  function Zero(n: nat): (r: Vector)
    ensures |r| == n
  {
    seq(n, _ => 0.0)
  }

  predicate OfWidth(b: Basis, n: nat) {
    forall j | 0 <= j < |b| :: |b[j]| == n
  }

  /** The columns are orthonormal. */
  ghost predicate Orthonormal(b: Basis, n: nat) {
    && OfWidth(b, n)
    && forall i, j | 0 <= i < |b| && 0 <= j < |b| :: Dot(b[i], b[j]) == if i == j then 1.0 else 0.0
  }

  /** One row of gradient @ basis. */
  function Coefficients(x: Vector, b: Basis): (r: seq<real>)
    ensures |r| == |b|
  {
    seq(|b|, j requires 0 <= j < |b| => Dot(x, b[j]))
  }

  /** One row of coefficients @ basis.T: the combination of the columns. */
  function Combine(c: seq<real>, b: Basis, n: nat): (r: Vector)
    requires |c| == |b| && OfWidth(b, n)
    ensures |r| == n
  {
    if b == [] then Zero(n) else Plus(Times(c[0], b[0]), Combine(c[1..], b[1..], n))
  }

  /** One row of project_gradient. */
  function Project(x: Vector, b: Basis): (r: Vector)
    requires OfWidth(b, |x|)
    ensures |r| == |x|
  {
    Minus(x, Combine(Coefficients(x, b), b, |x|))
  }

  // ---------------------------------------------------------------- linearity

  lemma {:induction false} DotCommutes(x: Vector, y: Vector)
    ensures Dot(x, y) == Dot(y, x)
  {
    if x != [] && y != [] {
      ProductCommutes(x[0], y[0]);
      DotCommutes(x[1..], y[1..]);
    }
  }

  lemma {:induction false} DotPlus(x: Vector, y: Vector, z: Vector)
    requires |x| == |y|
    ensures Dot(Plus(x, y), z) == Dot(x, z) + Dot(y, z)
  {
    if x != [] && z != [] {
      hide Product;
      ProductDistributes(z[0], x[0], y[0]);
      DotPlus(x[1..], y[1..], z[1..]);
      assert Plus(x, y)[1..] == Plus(x[1..], y[1..]);
    }
  }

  lemma {:induction false} DotMinus(x: Vector, y: Vector, z: Vector)
    requires |x| == |y|
    ensures Dot(Minus(x, y), z) == Dot(x, z) - Dot(y, z)
  {
    if x != [] && z != [] {
      hide Product;
      ProductDistributes(z[0], x[0], y[0]);
      DotMinus(x[1..], y[1..], z[1..]);
      assert Minus(x, y)[1..] == Minus(x[1..], y[1..]);
    }
  }

  lemma {:induction false} DotTimes(c: real, x: Vector, z: Vector)
    ensures Dot(Times(c, x), z) == Product(c, Dot(x, z))
  {
    hide Product;
    ProductOfOne(c);
    if x != [] && z != [] {
      ProductAssociates(c, x[0], z[0]);
      ProductDistributes(c, Product(x[0], z[0]), Dot(x[1..], z[1..]));
      DotTimes(c, x[1..], z[1..]);
      assert Times(c, x)[1..] == Times(c, x[1..]);
    }
  }

  lemma {:induction false} DotZero(n: nat, z: Vector)
    ensures Dot(Zero(n), z) == 0.0
  {
    if n > 0 && z != [] {
      ProductOfOne(z[0]);
      DotZero(n - 1, z[1..]);
      assert Zero(n)[1..] == Zero(n - 1);
    }
  }

  /** The inner product with a combination is the combination of the inner products. */
  lemma {:induction false} DotCombine(c: seq<real>, b: Basis, n: nat, z: Vector)
    requires |c| == |b| && OfWidth(b, n)
    ensures Dot(Combine(c, b, n), z) == Dot(c, Coefficients(z, b))
  {
    hide Product;
    if b == [] {
      DotZero(n, z);
    } else {
      DotCombine(c[1..], b[1..], n, z);
      DotPlus(Times(c[0], b[0]), Combine(c[1..], b[1..], n), z);
      DotTimes(c[0], b[0], z);
      DotCommutes(b[0], z);
      assert Coefficients(z, b)[1..] == Coefficients(z, b[1..]);
    }
  }

  // ---------------------------------------------------------------- orthonormal bases

  function Unit(n: nat, j: nat): (r: Vector)
    ensures |r| == n
  {
    seq(n, i => if i == j then 1.0 else 0.0)
  }

  lemma {:induction false} DotUnit(c: seq<real>, j: nat)
    requires j < |c|
    ensures Dot(c, Unit(|c|, j)) == c[j]
  {
    ProductOfOne(c[0]);
    hide Product;
    if j == 0 {
      assert Unit(|c|, 0)[1..] == Zero(|c| - 1);
      DotZero(|c| - 1, c[1..]);
      DotCommutes(c[1..], Zero(|c| - 1));
    } else {
      DotUnit(c[1..], j - 1);
      assert Unit(|c|, j)[1..] == Unit(|c| - 1, j - 1);
    }
  }

  /** A combination of an orthonormal basis has the given coefficients. */
  lemma CoefficientOfCombination(c: seq<real>, b: Basis, n: nat, j: nat)
    requires |c| == |b| && Orthonormal(b, n) && j < |b|
    ensures Dot(Combine(c, b, n), b[j]) == c[j]
  {
    DotCombine(c, b, n, b[j]);
    assert Coefficients(b[j], b) == Unit(|b|, j);
    DotUnit(c, j);
  }

  /** The projected row is orthogonal to every basis vector. */
  lemma ProjectedIsOrthogonal(x: Vector, b: Basis, j: nat)
    requires Orthonormal(b, |x|) && j < |b|
    ensures Dot(Project(x, b), b[j]) == 0.0
  {
    var c := Coefficients(x, b);
    DotMinus(x, Combine(c, b, |x|), b[j]);
    CoefficientOfCombination(c, b, |x|, j);
  }

  lemma {:induction false} CombineZero(b: Basis, n: nat)
    requires OfWidth(b, n)
    ensures Combine(Zero(|b|), b, n) == Zero(n)
  {
    if b != [] {
      CombineZero(b[1..], n);
      assert Zero(|b|)[1..] == Zero(|b| - 1);
    }
  }

  /** Rows that are already orthogonal to the basis are left alone. */
  lemma OrthogonalIsUnchanged(x: Vector, b: Basis)
    requires OfWidth(b, |x|) && forall j | 0 <= j < |b| :: Dot(x, b[j]) == 0.0
    ensures Project(x, b) == x
  {
    assert Coefficients(x, b) == Zero(|b|);
    CombineZero(b, |x|);
  }

  lemma ProjectIsIdempotent(x: Vector, b: Basis)
    requires Orthonormal(b, |x|)
    ensures Project(Project(x, b), b) == Project(x, b)
  {
    forall j | 0 <= j < |b|
      ensures Dot(Project(x, b), b[j]) == 0.0
    {
      ProjectedIsOrthogonal(x, b, j);
    }
    OrthogonalIsUnchanged(Project(x, b), b);
  }

  lemma MinusUndoesPlus(x: Vector, y: Vector, z: Vector)
    requires |x| == |y| == |z| && x == Plus(y, z)
    ensures Minus(x, z) == y
  {
  }

  lemma CoefficientsAreUnique(x: Vector, b: Basis, y: Vector, c: seq<real>)
    requires Orthonormal(b, |x|) && |y| == |x| && |c| == |b|
    requires x == Plus(y, Combine(c, b, |x|)) && forall j | 0 <= j < |b| :: Dot(y, b[j]) == 0.0
    ensures c == Coefficients(x, b)
  {
    forall j | 0 <= j < |b|
      ensures c[j] == Dot(x, b[j])
    {
      DotPlus(y, Combine(c, b, |x|), b[j]);
      CoefficientOfCombination(c, b, |x|, j);
    }
  }

  /**
   Only the component in the span is removed: the projection is the one vector that is orthogonal to the
   basis and differs from the row by a combination of it.
   */
  lemma ProjectionIsUnique(x: Vector, b: Basis, y: Vector, c: seq<real>)
    requires Orthonormal(b, |x|) && |y| == |x| && |c| == |b|
    requires x == Plus(y, Combine(c, b, |x|)) && forall j | 0 <= j < |b| :: Dot(y, b[j]) == 0.0
    ensures y == Project(x, b)
  {
    CoefficientsAreUnique(x, b, y, c);
    MinusUndoesPlus(x, y, Combine(c, b, |x|));
  }

  /** Pythagoras: the energy of a row is the energy in the span plus the energy of its projection. */
  lemma EnergySplits(x: Vector, b: Basis)
    requires Orthonormal(b, |x|)
    ensures Dot(x, x) == Dot(Coefficients(x, b), Coefficients(x, b)) + Dot(Project(x, b), Project(x, b))
  {
    var c, p := Coefficients(x, b), Project(x, b);
    var z := Combine(c, b, |x|);
    // p . x == x . x - z . x and z . x == c . c
    DotMinus(x, z, x);
    DotCombine(c, b, |x|, x);
    // p . p == x . p - z . p and z . p == 0
    DotMinus(x, z, p);
    DotCombine(c, b, |x|, p);
    forall j | 0 <= j < |b|
      ensures Coefficients(p, b)[j] == 0.0
    {
      ProjectedIsOrthogonal(x, b, j);
    }
    assert Coefficients(p, b) == Zero(|b|);
    DotZero(|b|, c);
    DotCommutes(c, Zero(|b|));
    DotCommutes(x, p);
  }

  lemma {:induction false} SquareIsNonNegative(x: Vector)
    ensures Dot(x, x) >= 0.0
  {
    if x != [] {
      SquareNonNegative(x[0]);
      SquareIsNonNegative(x[1..]);
    }
  }

  // ---------------------------------------------------------------- energies

  /** Principal energy, total energy and number of rows. */
  datatype Energy = Energy(principal: real, total: real, rows: nat) {
    function Add(e: Energy): Energy {
      Energy(principal + e.principal, total + e.total, rows + e.rows)
    }

    /** The principal part is a part of the total. */
    ghost predicate Proper() {
      0.0 <= principal <= total
    }
  }

  const NO_ENERGY := Energy(0.0, 0.0, 0)

  function RowEnergy(x: Vector, b: Basis): Energy {
    Energy(Dot(Coefficients(x, b), Coefficients(x, b)), Dot(x, x), 1)
  }

  /** The energies of a shift: the sums over its rows. */
  function ShiftEnergies(shift: seq<Vector>, b: Basis): Energy {
    if shift == [] then NO_ENERGY else RowEnergy(shift[0], b).Add(ShiftEnergies(shift[1..], b))
  }

  /** The principal-subspace intrusion of an energy. */
  function Psi(e: Energy, epsilon: real): real
    requires e.total + epsilon > 0.0
  {
    e.principal / (e.total + epsilon)
  }

  lemma AddAssociates(x: Energy, y: Energy, z: Energy)
    ensures x.Add(y).Add(z) == x.Add(y.Add(z))
  {
  }

  lemma FirstOfConcat<T>(a: seq<T>, b: seq<T>)
    requires a != []
    ensures a + b == [a[0]] + (a[1..] + b)
  {
  }

  lemma RowIsProper(x: Vector, b: Basis)
    requires Orthonormal(b, |x|)
    ensures RowEnergy(x, b).Proper()
  {
    EnergySplits(x, b);
    SquareIsNonNegative(Coefficients(x, b));
    SquareIsNonNegative(Project(x, b));
  }

  lemma {:induction false} EnergiesAreProper(shift: seq<Vector>, b: Basis, n: nat)
    requires Orthonormal(b, n) && OfWidth(shift, n)
    ensures ShiftEnergies(shift, b).Proper()
  {
    if shift != [] {
      hide Orthonormal;
      RowIsProper(shift[0], b);
      EnergiesAreProper(shift[1..], b, n);
    }
  }

  lemma FirstEnergy(x: Vector, shift: seq<Vector>, b: Basis)
    ensures ShiftEnergies([x] + shift, b) == RowEnergy(x, b).Add(ShiftEnergies(shift, b))
  {
    assert ([x] + shift)[1..] == shift;
  }

  /** Energies of rows that are split over ranks add up to the energies of all rows. */
  lemma {:induction false} EnergiesOfConcat(a: seq<Vector>, c: seq<Vector>, b: Basis)
    ensures ShiftEnergies(a + c, b) == ShiftEnergies(a, b).Add(ShiftEnergies(c, b))
  {
    hide RowEnergy;
    if a == [] {
      assert a + c == c;
    } else {
      EnergiesOfConcat(a[1..], c, b);
      FirstOfConcat(a, c);
      FirstEnergy(a[0], a[1..] + c, b);
      AddAssociates(RowEnergy(a[0], b), ShiftEnergies(a[1..], b), ShiftEnergies(c, b));
    }
  }

  lemma PsiInRange(e: Energy, epsilon: real)
    requires e.Proper() && epsilon > 0.0
    ensures 0.0 <= Psi(e, epsilon) < 1.0
  {
    QuotientInRange(e.principal, e.total + epsilon);
  }
}
