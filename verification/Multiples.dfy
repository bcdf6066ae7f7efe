/** Multiples of an interval. */
module Multiples {
  lemma MultipleAbove(i: int, a: int, b: int)
    requires i > 0 && a < b
    ensures i * a + i <= i * b
  {
    var d := b - a - 1;
    assert i * d >= 0;
    assert i * b == i * (a + 1 + d) == i * a + i + i * d;
  }

  lemma MultiplesInOrder(i: int, a: int, b: int)
    requires i > 0
    ensures i * a < i * b <==> a < b
    ensures i * a == i * b <==> a == b
  {
  }

  lemma MultipleOf(w: int, p: int)
    requires w > 0
    ensures (w * p) % w == 0
  {
    var r := (w * p) % w;
    assert w * p == w * ((w * p) / w) + r;
    assert r == w * (p - (w * p) / w);
    MultiplesInOrder(w, p - (w * p) / w, 1);
    MultiplesInOrder(w, -1, p - (w * p) / w);
  }

  lemma ShiftedRemainder(w: int, t: int)
    requires w > 0
    ensures (t + w) % w == t % w
  {
    var d := (t + w) / w - t / w - 1;
    assert t == w * (t / w) + t % w && t + w == w * ((t + w) / w) + (t + w) % w;
    assert w * d == t % w - (t + w) % w;
    MultiplesInOrder(w, d, 1);
    MultiplesInOrder(w, -1, d);
  }

  lemma BoundariesApart(w: int, time: int, start: int, end: int)
    requires w > 0 && time % w == 0 && start % w == 0
    requires time != start && time < end <= start + w
    ensures time + w <= start
  {
    var r, p := time / w, start / w;
    assert time == w * r && start == w * p;
    MultiplesInOrder(w, r, p + 1);
    MultiplesInOrder(w, p, r + 1);
  }
}
