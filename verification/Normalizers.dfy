/**
 * The normalizers of packages/core/src/scoring/normalizers.ts, over the reals.
 * The logistic and logarithmic curves are any function of the raw value: what
 * the scoring needs of them is that they are clamped, and which way they run.
 */
module Normalizers {
  import opened Wrappers
  import opened Rounding

  datatype Normalizer =
    | Linear(min: real, max: real)
    | Curve(name: string, f: real -> real)
    | Threshold(at: real)
    | Unit
    | Invert(inner: Normalizer)

  /** The name that a normalizer goes by; its parameters are not in it. */
  function Kind(n: Normalizer): string {
    match n
    case Linear(_, _) => "linear"
    case Curve(name, _) => name
    case Threshold(_) => "threshold"
    case Unit => "unit"
    case Invert(inner) => "inverted:" + Kind(inner)
  }

  function Clamp01(n: real): (r: real)
    ensures 0.0 <= r <= 1.0
  {
    if n < 0.0 then 0.0 else if n > 1.0 then 1.0 else n
  }

  /** A line needs two different ends; what is made maps the first to 0 and the second to 1. */
  function MakeLinear(min: real, max: real): (made: Result<Normalizer>)
    ensures made.Ok? <==> min != max
    ensures made.Ok? ==> Built(made.value) && Normalize(made.value, min) == 0.0 && Normalize(made.value, max) == 1.0
  {
    if max == min then Err("linear normalizer requires max !== min")
    else
      SelfQuotient(max - min);
      Ok(Linear(min, max))
  }

  /** A normalizer that its maker did not refuse. */
  predicate Built(n: Normalizer) {
    match n
    case Linear(min, max) => max != min
    case Invert(inner) => Built(inner)
    case _ => true
  }

  function Normalize(n: Normalizer, raw: real): (r: real)
    requires Built(n)
    ensures 0.0 <= r <= 1.0
  {
    match n
    case Linear(min, max) => Clamp01((raw - min) / (max - min))
    case Curve(_, f) => Clamp01(f(raw))
    case Threshold(at) => if raw >= at then 1.0 else 0.0
    case Unit => Clamp01(raw)
    case Invert(inner) => Clamp01(1.0 - Normalize(inner, raw))
  }

  /** Within 0 to 1 unchanged, below and above pinned to the edge. */
  predicate IsPinned(r: real, t: real) {
    (0.0 <= t <= 1.0 ==> r == t) && (t < 0.0 ==> r == 0.0) && (t > 1.0 ==> r == 1.0)
  }

  /** A line maps the point at the fraction `t` of the way between its ends to `t`, wherever it is between them. */
  lemma LineIsStraight(min: real, max: real, raw: real, t: real)
    requires min != max && raw == min + t * (max - min)
    ensures IsPinned(Normalize(Linear(min, max), raw), t)
  {
    var d := max - min;
    assert raw - min == t * d;
    FractionOf(t, d);
    assert Normalize(Linear(min, max), raw) == Clamp01(t);
  }

  lemma FractionOf(t: real, d: real)
    requires d != 0.0
    ensures (t * d) / d == t
  {
  }

  /** Ratios and curves that already run from 0 to 1 are passed on, a step goes up at its mark, an inverse mirrors. */
  lemma OthersAreWhatTheySay(n: Normalizer, raw: real)
    requires Built(n)
    ensures n.Unit? ==> IsPinned(Normalize(n, raw), raw)
    ensures n.Curve? ==> IsPinned(Normalize(n, raw), n.f(raw))
    ensures n.Threshold? ==> Normalize(n, raw) == if raw < n.at then 0.0 else 1.0
    ensures n.Invert? ==> Normalize(n, raw) + Normalize(n.inner, raw) == 1.0
  {
  }

  /** The same constructors, and the same names of curves. */
  predicate SameShape(m: Normalizer, n: Normalizer) {
    match m
    case Linear(_, _) => n.Linear?
    case Curve(name, _) => n.Curve? && n.name == name
    case Threshold(_) => n.Threshold?
    case Unit => n.Unit?
    case Invert(inner) => n.Invert? && SameShape(inner, n.inner)
  }

  /** The two curves there are. */
  predicate CurvesAreNamed(n: Normalizer) {
    match n
    case Curve(name, _) => name == "logistic" || name == "log"
    case Invert(inner) => CurvesAreNamed(inner)
    case _ => true
  }

  /** Kinds tell the shapes apart, and nothing else. */
  lemma {:induction false} KindTellsShape(m: Normalizer, n: Normalizer)
    requires CurvesAreNamed(m) && CurvesAreNamed(n)
    ensures Kind(m) == Kind(n) <==> SameShape(m, n)
  {
    InvertedOrNot(m);
    InvertedOrNot(n);
    if m.Invert? && n.Invert? {
      KindTellsShape(m.inner, n.inner);
      assert Kind(m)[|"inverted:"|..] == Kind(m.inner) && Kind(n)[|"inverted:"|..] == Kind(n.inner);
    }
  }

  lemma InvertedOrNot(n: Normalizer)
    requires CurvesAreNamed(n)
    ensures n.Invert? <==> |Kind(n)| > 0 && Kind(n)[0] == 'i'
    ensures !n.Invert? ==> Kind(n) == match n
                             case Linear(_, _) => "linear" case Curve(name, _) => name
                             case Threshold(_) => "threshold" case _ => "unit"
    ensures "linear" != "logistic" && "linear" != "log" && "linear" != "threshold" && "linear" != "unit"
    ensures "logistic" != "log" && "logistic" != "threshold" && "logistic" != "unit"
    ensures "log" != "threshold" && "log" != "unit" && "threshold" != "unit"
  {
    assert "linear"[1] == 'i' && "logistic"[1] == 'o' && "log"[1] == 'o';
    assert |"logistic"| == 8 && |"log"| == 3;
    assert "threshold"[0] == 't' && "unit"[0] == 'u';
  }

  datatype Direction = Rising | Falling

  function Opposite(d: Direction): Direction {
    if d.Rising? then Falling else Rising
  }

  ghost predicate Runs(f: real -> real, d: Direction) {
    forall x, y :: x <= y ==> if d.Rising? then f(x) <= f(y) else f(y) <= f(x)
  }

  /** The direction that the shape of a normalizer shows: a line by its ends, an inverse by what it inverts. */
  ghost predicate Shows(n: Normalizer, d: Direction) {
    match n
    case Linear(min, max) => if d.Rising? then min < max else max < min
    case Curve(_, f) => Runs(f, d)
    case Threshold(_) => d.Rising?
    case Unit => d.Rising?
    case Invert(inner) => Shows(inner, Opposite(d))
  }

  lemma LinesAreMonotone(min: real, max: real, x: real, y: real)
    requires x <= y && min != max
    ensures min < max ==> (x - min) / (max - min) <= (y - min) / (max - min)
    ensures max < min ==> (y - min) / (max - min) <= (x - min) / (max - min)
  {
    if min < max {
      PositiveQuotientsKeepOrder(x - min, y - min, max - min);
    } else {
      PositiveQuotientsKeepOrder(min - y, min - x, min - max);
      assert (x - min) / (max - min) == (min - x) / (min - max);
      assert (y - min) / (max - min) == (min - y) / (min - max);
    }
  }

  /** A normalizer never runs against the direction that it shows. */
  lemma {:induction false} NormalizersAreMonotone(n: Normalizer, d: Direction, x: real, y: real)
    requires Built(n) && Shows(n, d) && x <= y
    ensures if d.Rising? then Normalize(n, x) <= Normalize(n, y) else Normalize(n, y) <= Normalize(n, x)
  {
    match n
    case Linear(min, max) => LinesAreMonotone(min, max, x, y);
    case Curve(_, f) =>
    case Threshold(_) =>
    case Unit =>
    case Invert(inner) => NormalizersAreMonotone(inner, Opposite(d), x, y);
  }
}
