/** The cosine distance between embeddings. */
module Cosine {
  /** The distance between two embeddings, with the square root left abstract. */
  function Dot(a: seq<real>, b: seq<real>): real
    requires |a| == |b|
  {
    if a == [] then 0.0 else a[0] * b[0] + Dot(a[1..], b[1..])
  }

  function CosineDistance(a: seq<real>, b: seq<real>, sqrt: real -> real): real
  {
    if |a| != |b| || a == [] then 1.0 else DistanceAt(Dot(a, b), sqrt(Dot(a, a)), sqrt(Dot(b, b)))
  }

  function DistanceAt(dot: real, normA: real, normB: real): real {
    if normA == 0.0 || normB == 0.0 then 1.0 else 1.0 - dot / (normA * normB)
  }

  lemma {:induction false} DotCommutes(a: seq<real>, b: seq<real>)
    requires |a| == |b|
    ensures Dot(a, b) == Dot(b, a)
  {
    if a != [] {
      DotCommutes(a[1..], b[1..]);
    }
  }

  /** The distance does not depend on the order of its arguments, whatever the square root returns. */
  lemma {:induction false} CosineDistanceSymmetric(a: seq<real>, b: seq<real>, sqrt: real -> real)
    ensures CosineDistance(a, b, sqrt) == CosineDistance(b, a, sqrt)
  {
    if |a| == |b| {
      DotCommutes(a, b);
    }
  }

  // ---- What the distance measures --------------------------------------------------------------

  ghost predicate IsSquareRoot(sqrt: real -> real) {
    forall x: real :: x >= 0.0 ==> sqrt(x) >= 0.0 && sqrt(x) * sqrt(x) == x
  }

  lemma {:induction false} Positive(x: real, y: real, p: real)
    requires x > 0.0 && y > 0.0 && p == x * y
    ensures p > 0.0
  {
  }

  lemma {:induction false} SquareSign(x: real, s: real)
    requires s == x * x
    ensures s >= 0.0 && (s == 0.0 <==> x == 0.0)
  {
    if x > 0.0 {
      Positive(x, x, s);
    } else if x < 0.0 {
      Positive(-x, -x, s);
    }
  }

  lemma {:induction false} LargerSquare(x: real, y: real, p: real, q: real)
    requires 0.0 <= x < y && p == x * x && q == y * y
    ensures p < q
  {
    Positive(y - x, y, (y - x) * y);
    assert q - p == (y - x) * y + (y - x) * x;
    assert (y - x) * x >= 0.0;
  }

  lemma {:induction false} SquaresAddUp(a: seq<real>)
    ensures Dot(a, a) >= 0.0
  {
    if a != [] {
      SquaresAddUp(a[1..]);
      SquareSign(a[0], a[0] * a[0]);
    }
  }

  /** The square of x + t * y from the squares of x and y and their product. */
  function SquareAt(p: real, q: real, s: real, t: real): real {
    p + 2.0 * t * q + t * t * s
  }

  lemma {:induction false} SquareExpands(x: real, y: real, t: real)
    ensures SquareAt(x * x, x * y, y * y, t) >= 0.0
  {
    SquareSign(x + t * y, SquareAt(x * x, x * y, y * y, t));
  }

  lemma {:induction false} SquaresSum(x: real, y: real, t: real, p: real, q: real, s: real)
    requires SquareAt(p, q, s, t) >= 0.0
    ensures SquareAt(x * x + p, x * y + q, y * y + s, t) >= 0.0
  {
    SquareExpands(x, y, t);
    var xx, xy, yy := x * x, x * y, y * y;
    assert SquareAt(xx + p, xy + q, yy + s, t) == SquareAt(xx, xy, yy, t) + SquareAt(p, q, s, t);
  }

  /** The squared length of a + t * b is not negative. */
  lemma {:induction false} SquareOfSum(a: seq<real>, b: seq<real>, t: real)
    requires |a| == |b|
    ensures SquareAt(Dot(a, a), Dot(a, b), Dot(b, b), t) >= 0.0
  {
    if a != [] {
      SquareOfSum(a[1..], b[1..], t);
      SquaresSum(a[0], b[0], t, Dot(a[1..], a[1..]), Dot(a[1..], b[1..]), Dot(b[1..], b[1..]));
    } else {
      assert SquareAt(0.0, 0.0, 0.0, t) == 0.0;
    }
  }

  lemma {:induction false} Discriminant(p: real, q: real, s: real, t: real)
    requires s > 0.0 && t == -q / s && p + 2.0 * t * q + t * t * s >= 0.0
    ensures q * q <= p * s
  {
    assert t * s == -q;
    assert t * t * s == t * (t * s) == -(t * q);
    assert p + t * q >= 0.0;
    assert (p + t * q) * s == p * s + (t * s) * q;
  }

  lemma {:induction false} NoSlope(p: real, q: real, t: real)
    requires q != 0.0 && t == -(p + 1.0) / (2.0 * q)
    ensures SquareAt(p, q, 0.0, t) < 0.0
  {
    assert t * (2.0 * q) == -(p + 1.0);
  }

  /** The inequality of Cauchy and Schwarz. */
  lemma {:induction false} DotBounded(a: seq<real>, b: seq<real>)
    requires |a| == |b|
    ensures Dot(a, b) * Dot(a, b) <= Dot(a, a) * Dot(b, b)
  {
    var p, q, s := Dot(a, a), Dot(a, b), Dot(b, b);
    SquaresAddUp(b);
    if s > 0.0 {
      SquareOfSum(a, b, -q / s);
      Discriminant(p, q, s, -q / s);
    } else if q != 0.0 {
      var t := -(p + 1.0) / (2.0 * q);
      NoSlope(p, q, t);
      SquareOfSum(a, b, t);
    } else {
      assert q * q == 0.0 && p * s == 0.0;
    }
  }

  /** Vectors that have an angle between them. */
  predicate Angled(a: seq<real>, b: seq<real>) {
    |a| == |b| && Dot(a, a) != 0.0 && Dot(b, b) != 0.0
  }

  lemma {:induction false} Norms(a: seq<real>, sqrt: real -> real)
    requires IsSquareRoot(sqrt)
    ensures sqrt(Dot(a, a)) >= 0.0 && sqrt(Dot(a, a)) * sqrt(Dot(a, a)) == Dot(a, a)
    ensures sqrt(Dot(a, a)) == 0.0 <==> Dot(a, a) == 0.0
  {
    SquaresAddUp(a);
    SquareSign(sqrt(Dot(a, a)), Dot(a, a));
  }

  lemma {:induction false} QuotientExactly(dot: real, x: real, y: real)
    requires x > 0.0 && y > 0.0
    ensures var c := dot / (x * y); c * c * ((x * x) * (y * y)) == dot * dot && c * dot >= 0.0
  {
    var n := x * y;
    var c := dot / n;
    assert n > 0.0 && c * n == dot;
    assert (x * x) * (y * y) == n * n;
    assert c * c * (n * n) == (c * n) * (c * n);
    if c < 0.0 {
      assert c * n < 0.0;
    } else {
      assert c * n >= 0.0;
    }
  }

  lemma {:induction false} LongerThanOne(c: real, cc: real, whole: real)
    requires c > 1.0 && whole > 0.0 && cc == c * c
    ensures cc * whole > whole
  {
    LargerSquare(1.0, c, 1.0, cc);
    Positive(cc - 1.0, whole, cc * whole - whole);
  }

  lemma {:induction false} SquareBounded(c: real, cc: real, whole: real, part: real)
    requires cc == c * c && cc * whole == part <= whole && whole > 0.0
    ensures -1.0 <= c <= 1.0
  {
    if c > 1.0 {
      LongerThanOne(c, cc, whole);
    } else if c < -1.0 {
      LongerThanOne(-c, cc, whole);
    }
  }

  /** The distance of vectors that have an angle between them. */
  lemma {:induction false} AngledDistance(a: seq<real>, b: seq<real>, sqrt: real -> real)
    requires IsSquareRoot(sqrt) && Angled(a, b)
    ensures sqrt(Dot(a, a)) > 0.0 && sqrt(Dot(b, b)) > 0.0
    ensures CosineDistance(a, b, sqrt) == 1.0 - Dot(a, b) / (sqrt(Dot(a, a)) * sqrt(Dot(b, b)))
  {
    Norms(a, sqrt);
    Norms(b, sqrt);
  }

  lemma {:induction false} Unangled(a: seq<real>, b: seq<real>, sqrt: real -> real)
    requires IsSquareRoot(sqrt) && !Angled(a, b)
    ensures CosineDistance(a, b, sqrt) == 1.0
  {
    Norms(a, sqrt);
    Norms(b, sqrt);
  }

  lemma {:induction false} CosineBounded(a: seq<real>, b: seq<real>, c: real)
    requires Angled(a, b) && c * c * (Dot(a, a) * Dot(b, b)) == Dot(a, b) * Dot(a, b)
    ensures -1.0 <= c <= 1.0
  {
    DotBounded(a, b);
    SquaresAddUp(a);
    SquaresAddUp(b);
    var whole, part, cc := Dot(a, a) * Dot(b, b), Dot(a, b) * Dot(a, b), c * c;
    Positive(Dot(a, a), Dot(b, b), whole);
    SquareBounded(c, cc, whole, part);
  }

  /** One minus the distance is the cosine: its square is the squared dot product over the two squared lengths, and it
      has the sign of the dot product. Without an angle the distance is 1. It always is between 0 and 2. */
  lemma {:induction false} CosineDistanceExactly(a: seq<real>, b: seq<real>, sqrt: real -> real)
    requires IsSquareRoot(sqrt)
    ensures !Angled(a, b) ==> CosineDistance(a, b, sqrt) == 1.0
    ensures Angled(a, b) ==>
              var cosine := 1.0 - CosineDistance(a, b, sqrt);
              && cosine * cosine * (Dot(a, a) * Dot(b, b)) == Dot(a, b) * Dot(a, b)
              && cosine * Dot(a, b) >= 0.0
    ensures 0.0 <= CosineDistance(a, b, sqrt) <= 2.0
  {
    if Angled(a, b) {
      Norms(a, sqrt);
      Norms(b, sqrt);
      AngledDistance(a, b, sqrt);
      QuotientExactly(Dot(a, b), sqrt(Dot(a, a)), sqrt(Dot(b, b)));
      CosineBounded(a, b, 1.0 - CosineDistance(a, b, sqrt));
    } else {
      Unangled(a, b, sqrt);
    }
  }

  function Scaled(k: real, a: seq<real>): (scaled: seq<real>)
    ensures |scaled| == |a|
  {
    if a == [] then [] else [k * a[0]] + Scaled(k, a[1..])
  }

  lemma {:induction false} Factor(k: real, x: real, y: real, rest: real)
    ensures (k * x) * y + k * rest == k * (x * y + rest)
  {
  }

  lemma {:induction false} DotScaled(k: real, a: seq<real>, b: seq<real>)
    requires |a| == |b|
    ensures Dot(Scaled(k, a), b) == k * Dot(a, b)
  {
    if a != [] {
      DotScaled(k, a[1..], b[1..]);
      assert Scaled(k, a)[1..] == Scaled(k, a[1..]);
      Factor(k, a[0], b[0], Dot(a[1..], b[1..]));
    }
  }

  lemma {:induction false} SameRoot(x: real, y: real)
    requires x >= 0.0 && y >= 0.0 && x * x == y * y
    ensures x == y
  {
    if x < y {
      LargerSquare(x, y, x * x, y * y);
    } else if y < x {
      LargerSquare(y, x, y * y, x * x);
    }
  }

  lemma {:induction false} NormScaled(k: real, a: seq<real>, sqrt: real -> real)
    requires IsSquareRoot(sqrt) && k > 0.0
    ensures var s := Scaled(k, a); Dot(s, s) == k * k * Dot(a, a) && sqrt(Dot(s, s)) == k * sqrt(Dot(a, a))
  {
    var s := Scaled(k, a);
    DotScaled(k, a, s);
    DotCommutes(a, s);
    DotScaled(k, a, a);
    Norms(a, sqrt);
    Norms(s, sqrt);
    var x, y := sqrt(Dot(s, s)), k * sqrt(Dot(a, a));
    assert y * y == k * k * (sqrt(Dot(a, a)) * sqrt(Dot(a, a)));
    SameRoot(x, y);
  }

  lemma {:induction false} Shorten(k: real, dot: real, n: real)
    requires k > 0.0 && n != 0.0
    ensures (k * dot) / (k * n) == dot / n
  {
    var q := dot / n;
    assert q * n == dot && q * (k * n) == k * dot;
  }

  lemma {:induction false} StillAngled(k: real, a: seq<real>, b: seq<real>, sqrt: real -> real)
    requires IsSquareRoot(sqrt) && k > 0.0
    ensures Angled(Scaled(k, a), b) <==> Angled(a, b)
  {
    NormScaled(k, a, sqrt);
    ScaledSign(k, k * k, Dot(a, a));
  }

  lemma {:induction false} ScaledSign(k: real, kk: real, x: real)
    requires k > 0.0 && kk == k * k
    ensures kk * x == 0.0 <==> x == 0.0
  {
    Positive(k, k, kk);
    if x > 0.0 {
      Positive(kk, x, kk * x);
    } else if x < 0.0 {
      Positive(kk, -x, -(kk * x));
    }
  }

  /** The distance only depends on the direction of a vector. */
  lemma {:induction false} DirectionDecides(k: real, a: seq<real>, b: seq<real>, sqrt: real -> real)
    requires IsSquareRoot(sqrt) && k > 0.0
    ensures CosineDistance(Scaled(k, a), b, sqrt) == CosineDistance(a, b, sqrt)
  {
    StillAngled(k, a, b, sqrt);
    if Angled(a, b) {
      var x, y := sqrt(Dot(a, a)), sqrt(Dot(b, b));
      AngledDistance(a, b, sqrt);
      AngledDistance(Scaled(k, a), b, sqrt);
      NormScaled(k, a, sqrt);
      DotScaled(k, a, b);
      assert (k * x) * y == k * (x * y);
      Shorten(k, Dot(a, b), x * y);
    } else {
      Unangled(a, b, sqrt);
      Unangled(Scaled(k, a), b, sqrt);
    }
  }

  /** It is 0 for vectors of one direction. */
  lemma {:induction false} OneDirection(k: real, a: seq<real>, sqrt: real -> real)
    requires IsSquareRoot(sqrt) && k > 0.0 && Dot(a, a) != 0.0
    ensures CosineDistance(Scaled(k, a), a, sqrt) == 0.0
  {
    DirectionDecides(k, a, a, sqrt);
    Norms(a, sqrt);
    AngledDistance(a, a, sqrt);
  }
}
