/** The testimonial carousel of the portfolio page: an index into the list of
    testimonials, moved by the next and previous buttons (which wrap around) and
    set directly by the row of dot buttons. */
module Carousel {

  /** The page's testimonial list has four entries. */
  const TestimonialCount: nat := 4

  /** JavaScript's `%` for a positive divisor: division truncates toward zero,
      so the remainder takes the sign of the dividend. On a non-negative
      dividend it agrees with Dafny's `%`, whose remainder is never negative. */
  function JsRem(a: int, n: int): (r: int)
    requires n > 0
    ensures a >= 0 ==> r == a % n && 0 <= r < n
    ensures a < 0 ==> -n < r <= 0 && (a - r) % n == 0
  {
    if a >= 0 then a % n
    else
      var q := (-a) / n;
      assert -a == q * n + (-a) % n;
      ModUnique(a + (-a) % n, -q, 0, n);
      -((-a) % n)
  }

  /** `nextTestimonial`: `(prev + 1) % testimonials.length`. */
  function Next(i: int, n: int): (r: int)
    requires n > 0
    ensures i >= 0 ==> 0 <= r < n
    ensures 0 <= i < n - 1 ==> r == i + 1
    ensures i == n - 1 ==> r == 0
  {
    JsRem(i + 1, n)
  }

  /** `prevTestimonial`: `(prev - 1 + testimonials.length) % testimonials.length`. */
  function Prev(i: int, n: int): (r: int)
    requires n > 0
    ensures i >= 0 ==> 0 <= r < n
    ensures 0 < i < n ==> r == i - 1
    ensures i == 0 ==> r == n - 1
  {
    JsRem(i - 1 + n, n)
  }

  /** Next and previous undo each other on every valid index. */
  lemma NextPrevInverse(i: int, n: int)
    requires n > 0 && 0 <= i < n
    ensures Prev(Next(i, n), n) == i
    ensures Next(Prev(i, n), n) == i
  {
  }

  /** `k` presses of the next button. */
  function NextTimes(i: int, n: int, k: nat): (r: int)
    requires n > 0
    decreases k
  {
    if k == 0 then i else Next(NextTimes(i, n, k - 1), n)
  }

  /** Pressing next `k` times advances the index by `k` modulo the list length,
      so `n` presses return to the starting testimonial. */
  lemma {:induction false} NextTimesIsRotation(i: int, n: int, k: nat)
    requires n > 0 && 0 <= i < n
    ensures NextTimes(i, n, k) == (i + k) % n
    decreases k
  {
    if k > 0 {
      NextTimesIsRotation(i, n, k - 1);
      var j := (i + k - 1) % n;
      assert 0 <= j < n;
      ModSucc(i + k - 1, n);
    }
  }

  /** The remainder is determined by any decomposition x == q * n + r with
      0 <= r < n. */
  lemma ModUnique(x: int, q: int, r: int, n: int)
    requires n > 0 && 0 <= r < n && x == q * n + r
    ensures x % n == r
  {
    var d := q - x / n;
    assert x == (x / n) * n + x % n;
    assert d * n == x % n - r;
    assert -n < d * n < n;
  }

  /** ((a % n) + 1) % n == (a + 1) % n for non-negative `a`. */
  lemma ModSucc(a: int, n: int)
    requires n > 0 && a >= 0
    ensures (a % n + 1) % n == (a + 1) % n
  {
    var q := a / n;
    var r := a % n;
    assert a == q * n + r;
    if r + 1 == n {
      ModUnique(a + 1, q + 1, 0, n);
      ModUnique(r + 1, 1, 0, n);
    } else {
      ModUnique(a + 1, q, r + 1, n);
      ModUnique(r + 1, 0, r + 1, n);
    }
  }

  /** The controls under the carousel. A dot button sets the index it was
      rendered for. */
  datatype Control = NextButton | PrevButton | Dot(index: int)

  /** The dots are rendered one per testimonial, so a dot names a valid index. */
  predicate ValidControl(c: Control, n: int) {
    c.Dot? ==> 0 <= c.index < n
  }

  /** One press: the arrows step with wrap-around, a dot selects its own index. */
  function Press(i: int, n: int, c: Control): (r: int)
    requires n > 0
    ensures ValidControl(c, n) && i >= 0 ==> 0 <= r < n
    ensures c.NextButton? ==> r == Next(i, n)
    ensures c.PrevButton? ==> r == Prev(i, n)
    ensures c.Dot? ==> r == c.index
  {
    match c
    case NextButton => Next(i, n)
    case PrevButton => Prev(i, n)
    case Dot(k) => k
  }

  /** The index after a sequence of presses, starting from `i`. */
  function Presses(i: int, n: int, cs: seq<Control>): (r: int)
    requires n > 0
    decreases |cs|
  {
    if cs == [] then i else Presses(Press(i, n, cs[0]), n, cs[1..])
  }

  /** From any index in the testimonial list (the page starts at 0), no
      sequence of presses ever selects an index outside it. */
  lemma {:induction false} PressesStayInRange(i: int, n: int, cs: seq<Control>)
    requires n > 0 && 0 <= i < n
    requires forall k :: 0 <= k < |cs| ==> ValidControl(cs[k], n)
    ensures 0 <= Presses(i, n, cs) < n
    decreases |cs|
  {
    if cs != [] {
      assert ValidControl(cs[0], n);
      PressesStayInRange(Press(i, n, cs[0]), n, cs[1..]);
    }
  }

  /** On the page's four testimonials, previous from the first shows the last. */
  lemma PageExamples()
    ensures Prev(0, TestimonialCount) == 3
    ensures Next(3, TestimonialCount) == 0
  {
  }
}
