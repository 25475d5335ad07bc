/**
 * `calculateTimeLeft` of hooks/useCountdown.tsx: a millisecond difference
 * split into days, hours, minutes and seconds. For a non-negative integer
 * difference `d`, `Math.floor((d / k) % m)` equals `(d / k) % m` on integers.
 */
module Countdown {

  const MS_PER_SECOND := 1000
  const MS_PER_MINUTE := 1000 * 60
  const MS_PER_HOUR := 1000 * 60 * 60
  const MS_PER_DAY := 1000 * 60 * 60 * 24

  datatype TimeLeft = TimeLeft(days: int, hours: int, minutes: int, seconds: int)

  /** `calculateTimeLeft` for the difference `target - now` in milliseconds. */
  function CalculateTimeLeft(difference: int): (t: TimeLeft)
    ensures t.days >= 0 && t.hours >= 0 && t.minutes >= 0 && t.seconds >= 0
    ensures t.hours < 24 && t.minutes < 60 && t.seconds < 60
  {
    if difference <= 0 then TimeLeft(0, 0, 0, 0)
    else TimeLeft(difference / MS_PER_DAY,
                  (difference / MS_PER_HOUR) % 24,
                  (difference / MS_PER_MINUTE) % 60,
                  (difference / MS_PER_SECOND) % 60)
  }

  /** The whole seconds in `t`. */
  function TotalSeconds(t: TimeLeft): int {
    t.days * 86400 + t.hours * 3600 + t.minutes * 60 + t.seconds
  }

  /** A target in the past or now shows all zeros. */
  lemma ElapsedShowsZero(difference: int)
    requires difference <= 0
    ensures CalculateTimeLeft(difference) == TimeLeft(0, 0, 0, 0)
    ensures TotalSeconds(CalculateTimeLeft(difference)) == 0
  {
  }

  lemma {:induction false} MulAtLeast(k: int, d: int)
    requires k >= 1 && d > 0
    ensures k * d >= d
  {
    if k > 1 {
      MulAtLeast(k - 1, d);
      assert k * d == (k - 1) * d + d;
    }
  }

  /** Euclidean division is determined by quotient and remainder. */
  lemma DivUnique(a: int, d: int, q: int, r: int)
    requires d > 0 && 0 <= r < d && a == q * d + r
    ensures a / d == q
  {
    var q0, r0 := a / d, a % d;
    assert a == q0 * d + r0;
    if q0 < q {
      var k := q - q0;
      assert q * d == q0 * d + k * d;
      MulAtLeast(k, d);
    } else if q0 > q {
      var k := q0 - q;
      assert q0 * d == q * d + k * d;
      MulAtLeast(k, d);
    }
  }

  /** `(a / b) / c == a / (b * c)` for non-negative `a` and positive `b`, `c`. */
  lemma DivDiv(a: int, b: int, c: int)
    requires a >= 0 && b > 0 && c > 0
    ensures (a / b) / c == a / (b * c)
  {
    var q := a / b;
    var q2, m := q / c, q % c;
    assert a == q * b + a % b;
    assert q == q2 * c + m;
    assert q * b == q2 * (b * c) + m * b by {
      Regroup(q2, c, m, b);
    }
    assert m * b + a % b < b * c by {
      MulAtMost(m, c - 1, b);
      assert (c - 1) * b + b == b * c;
    }
    DivUnique(a, b * c, q2, m * b + a % b);
  }

  lemma Regroup(x: int, c: int, m: int, b: int)
    ensures (x * c + m) * b == x * (b * c) + m * b
  {
  }

  lemma MulAtMost(x: int, y: int, b: int)
    requires x <= y && b >= 0
    ensures x * b <= y * b
  {
  }

  /** For a positive difference the four fields recompose the whole seconds left. */
  lemma Recompose(difference: int)
    requires difference > 0
    ensures TotalSeconds(CalculateTimeLeft(difference)) == difference / 1000
  {
    var s := difference / 1000;
    DivDiv(difference, 1000, 60);
    DivDiv(difference, 1000, 3600);
    DivDiv(difference, 1000, 86400);
    var m := s / 60;
    var h := s / 3600;
    DivDiv(s, 60, 60);
    DivDiv(s, 3600, 24);
    assert s == m * 60 + s % 60;
    assert m == (m / 60) * 60 + m % 60;
    assert m / 60 == h;
    assert h == (h / 24) * 24 + h % 24;
    assert h / 24 == s / 86400;
  }

  /** A larger difference never shows fewer days. */
  lemma DaysMonotone(d1: int, d2: int)
    requires d1 <= d2
    ensures CalculateTimeLeft(d1).days <= CalculateTimeLeft(d2).days
  {
    if d1 > 0 {
      assert d1 / MS_PER_DAY <= d2 / MS_PER_DAY by {
        var q1, q2 := d1 / MS_PER_DAY, d2 / MS_PER_DAY;
        assert q1 * MS_PER_DAY <= d1 <= d2 < (q2 + 1) * MS_PER_DAY;
      }
    }
  }
}
