/**
 * The pure time arithmetic of `Game`: the clamp on a frame's delta, the
 * contact damage that grows with game time, and `getFormattedTime`, the
 * `H:MM:SS` / `M:SS` clock, together with a reader for that clock so that
 * the display can be shown to read back as the elapsed whole seconds.
 */
module GameTime {

  /** The largest frame delta `animate` passes on, in seconds. */
  const MaxDelta: real := 0.1

  /** `animate`'s clamp: above 0.1 s becomes 0.1 s, below zero becomes zero. */
  function ClampDelta(d: real): (r: real)
    ensures 0.0 <= r <= MaxDelta
    ensures 0.0 <= d <= MaxDelta ==> r == d
    ensures d > MaxDelta ==> r == MaxDelta
    ensures d < 0.0 ==> r == 0.0
  {
    var capped := if d > MaxDelta then MaxDelta else d;
    if capped < 0.0 then 0.0 else capped
  }

  /** The damage of one contact with a mob: `floor(5 * (1 + gameTime / 60))`. */
  function ContactDamage(gameTime: real): (d: int)
    ensures gameTime >= 0.0 ==> d >= 5
  {
    (5.0 * (1.0 + gameTime / 60.0)).Floor
  }

  /** Contact damage only grows as the game goes on. */
  lemma ContactDamageMonotone(g1: real, g2: real)
    requires g1 <= g2
    ensures ContactDamage(g1) <= ContactDamage(g2)
  {
    var x, y := 5.0 * (1.0 + g1 / 60.0), 5.0 * (1.0 + g2 / 60.0);
    assert x <= y;
    assert x.Floor as real <= x <= y;
  }

  /** Five at the start, one more every twelve seconds: 10 after a minute, 12 after ninety seconds. */
  lemma ContactDamageExamples()
    ensures ContactDamage(0.0) == 5
    ensures ContactDamage(60.0) == 10
    ensures ContactDamage(90.0) == 12
  {
    assert 5.0 * (1.0 + 90.0 / 60.0) == 12.5;
  }

  // ---------------------------------------------------------------------
  // getFormattedTime

  /** JavaScript's conversion toward zero. */
  function Trunc(x: real): int {
    if x >= 0.0 then x.Floor else -((-x).Floor)
  }

  /** JavaScript's `%` on numbers: the remainder of the division truncated toward zero. */
  function JsRem(a: real, b: real): real
    requires b != 0.0
  {
    a - b * Trunc(a / b) as real
  }

  function Hours(t: real): int {
    (t / 3600.0).Floor
  }

  function Minutes(t: real): int {
    (JsRem(t, 3600.0) / 60.0).Floor
  }

  function Seconds(t: real): int {
    JsRem(t, 60.0).Floor
  }

  /** `floor(t / d) == floor(t) div d` for non-negative `t`. */
  lemma FloorOfQuotient(t: real, d: int)
    requires t >= 0.0 && d > 0
    ensures (t / d as real).Floor == t.Floor / d
  {
    var f := t.Floor;
    var q, r := f / d, f % d;
    assert f == q * d + r && 0 <= r < d;
    assert (q * d) as real == q as real * d as real;
    assert q as real * d as real <= t;
    assert q as real <= t / d as real;
    assert t < (f + 1) as real <= ((q + 1) * d) as real;
    assert ((q + 1) * d) as real == (q + 1) as real * d as real;
    assert t / d as real < (q + 1) as real;
  }

  /** Removing whole multiples moves the floor by exactly that many. */
  lemma FloorShift(x: real, n: int)
    ensures (x - n as real).Floor == x.Floor - n
  {
  }

  /** The remainder, on non-negative times, is the remainder of the whole seconds. */
  lemma RemOfWholeSeconds(t: real, d: int)
    requires t >= 0.0 && d > 0
    ensures JsRem(t, d as real) >= 0.0
    ensures JsRem(t, d as real).Floor == t.Floor % d
  {
    FloorOfQuotient(t, d);
    var q := t.Floor / d;
    assert Trunc(t / d as real) == q;
    assert (d as real) * (q as real) == (d * q) as real;
    FloorShift(t, d * q);
    assert t.Floor == d * q + t.Floor % d;
  }

  /**
   * The three fields of the clock: hours without bound, minutes and
   * seconds below sixty, adding up to the elapsed whole seconds.
   */
  lemma ClockParts(t: real)
    requires t >= 0.0
    ensures Hours(t) >= 0 && 0 <= Minutes(t) < 60 && 0 <= Seconds(t) < 60
    ensures Hours(t) * 3600 + Minutes(t) * 60 + Seconds(t) == t.Floor
  {
    var f := t.Floor;
    FloorOfQuotient(t, 3600);
    MinutesOfWholeSeconds(t);
    RemOfWholeSeconds(t, 60);
    SplitSeconds(f);
  }

  /** The minutes field is the whole minutes within the current hour. */
  lemma MinutesOfWholeSeconds(t: real)
    requires t >= 0.0
    ensures Minutes(t) == (t.Floor % 3600) / 60
  {
    RemOfWholeSeconds(t, 3600);
    FloorOfQuotient(JsRem(t, 3600.0), 60);
  }

  /** Whole seconds split into hours, minutes below sixty and seconds below sixty. */
  lemma SplitSeconds(f: int)
    requires f >= 0
    ensures f / 3600 >= 0 && 0 <= (f % 3600) / 60 < 60 && 0 <= f % 60 < 60
    ensures (f / 3600) * 3600 + ((f % 3600) / 60) * 60 + f % 60 == f
  {
    var r := f % 3600;
    assert f == 3600 * (f / 3600) + r;
    assert r == 60 * (r / 60) + r % 60;
    assert f % 60 == r % 60 by {
      assert f == 60 * (60 * (f / 3600) + r / 60) + r % 60;
    }
  }

  predicate IsDigit(c: char) {
    '0' <= c <= '9'
  }

  /** A string made of decimal digits only (so without a colon). */
  predicate AllDigits(s: string) {
    forall i :: 0 <= i < |s| ==> IsDigit(s[i])
  }

  function DigitChar(d: int): (c: char)
    requires 0 <= d < 10
    ensures IsDigit(c)
  {
    ('0' as int + d) as char
  }

  /** The decimal digits of `n`, most significant first, as `toString` writes them. */
  function ShowNat(n: nat): (s: string)
    ensures |s| >= 1 && AllDigits(s)
    ensures |s| == 1 <==> n < 10
    ensures n < 100 ==> |s| <= 2
  {
    if n < 10 then [DigitChar(n)] else ShowNat(n / 10) + [DigitChar(n % 10)]
  }

  /** `toString` of an integer. */
  function ShowInt(n: int): string {
    if n < 0 then "-" + ShowNat(-n) else ShowNat(n)
  }

  /** `padStart(2, '0')`. */
  function Pad2(s: string): (r: string)
    ensures |s| < 2 ==> |r| == 2
    ensures |s| >= 2 ==> r == s
  {
    if |s| == 0 then "00" else if |s| == 1 then "0" + s else s
  }

  /** `getFormattedTime` of a game time in seconds. */
  function FormatTime(t: real): string {
    var h, m, s := Hours(t), Minutes(t), Seconds(t);
    if h > 0 then ShowInt(h) + ":" + Pad2(ShowInt(m)) + ":" + Pad2(ShowInt(s))
    else ShowInt(m) + ":" + Pad2(ShowInt(s))
  }

  // ---------------------------------------------------------------------
  // Reading a clock back

  /** The value of a run of decimal digits. */
  function ParseDigits(s: string): int {
    if s == [] then 0 else ParseDigits(s[..|s| - 1]) * 10 + (s[|s| - 1] as int - '0' as int)
  }

  /** The colon-separated fields of `s`, in order (`s.split(':')`). */
  function Fields(s: string): (fs: seq<string>)
    ensures |fs| >= 1
    decreases |s|
  {
    if s == [] then [""]
    else if s[0] == ':' then [""] + Fields(s[1..])
    else var fs := Fields(s[1..]); [[s[0]] + fs[0]] + fs[1..]
  }

  /** Reading fields as base-sixty digits, most significant first. */
  function Sexagesimal(fs: seq<string>): int {
    if fs == [] then 0 else Sexagesimal(fs[..|fs| - 1]) * 60 + ParseDigits(fs[|fs| - 1])
  }

  /** The number of seconds a clock string such as `1:02:03` or `2:03` shows. */
  function ParseClock(s: string): int {
    Sexagesimal(Fields(s))
  }

  /** Digits read back as the number they were written from. */
  lemma {:induction false} ShowNatReadsBack(n: nat)
    ensures ParseDigits(ShowNat(n)) == n
  {
    if n >= 10 {
      ShowNatReadsBack(n / 10);
      var s := ShowNat(n);
      assert s[..|s| - 1] == ShowNat(n / 10);
    }
  }

  /** Leading zeros do not change the value. */
  lemma {:induction false} ZeroPrefixReadsSame(s: string)
    ensures ParseDigits("0" + s) == ParseDigits(s)
  {
    if s != [] {
      var z := "0" + s;
      assert z[..|z| - 1] == "0" + s[..|s| - 1];
      ZeroPrefixReadsSame(s[..|s| - 1]);
    }
  }

  lemma Pad2ReadsSame(s: string)
    ensures ParseDigits(Pad2(s)) == ParseDigits(s)
  {
    if |s| == 0 {
      assert "00"[..1] == "0" && "0"[..0] == [];
    } else if |s| == 1 {
      ZeroPrefixReadsSame(s);
    }
  }

  lemma Pad2KeepsDigits(s: string)
    requires AllDigits(s)
    ensures AllDigits(Pad2(s))
  {
  }

  /** A string without a colon is one field. */
  lemma {:induction false} OneField(x: string)
    requires AllDigits(x)
    ensures Fields(x) == [x]
  {
    if x != [] {
      assert AllDigits(x[1..]) by {
        forall i | 0 <= i < |x[1..]| ensures IsDigit(x[1..][i]) {
          assert x[1..][i] == x[i + 1];
        }
      }
      OneField(x[1..]);
      assert [x[0]] + x[1..] == x;
    }
  }

  /** A colon after a colon-free prefix separates the first field from the rest. */
  lemma {:induction false} SplitAtColon(x: string, rest: string)
    requires AllDigits(x)
    ensures Fields(x + ":" + rest) == [x] + Fields(rest)
  {
    var s := x + ":" + rest;
    if x == [] {
      assert s[0] == ':' && s[1..] == rest;
    } else {
      assert AllDigits(x[1..]) by {
        forall i | 0 <= i < |x[1..]| ensures IsDigit(x[1..][i]) {
          assert x[1..][i] == x[i + 1];
        }
      }
      SplitAtColon(x[1..], rest);
      assert s[0] == x[0] && IsDigit(x[0]);
      assert s[1..] == x[1..] + ":" + rest;
      assert [x[0]] + x[1..] == x;
    }
  }

  /** A number below a hundred, padded: two digits that read back as the number. */
  lemma PaddedReadsBack(n: nat)
    requires n < 100
    ensures var p := Pad2(ShowNat(n));
      |p| == 2 && AllDigits(p) && ParseDigits(p) == n
  {
    ShowNatReadsBack(n);
    Pad2ReadsSame(ShowNat(n));
    Pad2KeepsDigits(ShowNat(n));
  }

  lemma SexagesimalOfTwo(a: string, b: string)
    ensures Sexagesimal([a, b]) == ParseDigits(a) * 60 + ParseDigits(b)
  {
    assert [a, b][..1] == [a] && [a][..0] == [];
    assert Sexagesimal([a]) == ParseDigits(a);
  }

  lemma SexagesimalOfThree(a: string, b: string, c: string)
    ensures Sexagesimal([a, b, c]) == (ParseDigits(a) * 60 + ParseDigits(b)) * 60 + ParseDigits(c)
  {
    assert [a, b, c][..2] == [a, b];
    SexagesimalOfTwo(a, b);
  }

  /** Two runs of digits joined by a colon split back into those two fields. */
  lemma TwoFields(a: string, b: string)
    requires AllDigits(a)
    requires AllDigits(b)
    ensures Fields(a + ":" + b) == [a, b]
  {
    OneField(b);
    SplitAtColon(a, b);
  }

  lemma ThreeFields(a: string, b: string, c: string)
    requires AllDigits(a)
    requires AllDigits(b)
    requires AllDigits(c)
    ensures Fields(a + ":" + b + ":" + c) == [a, b, c]
  {
    var rest := b + ":" + c;
    TwoFields(b, c);
    SplitAtColon(a, rest);
    assert a + ":" + b + ":" + c == a + ":" + rest;
    assert [a] + [b, c] == [a, b, c];
  }

  /** `H:MM:SS` reads back as `h * 3600 + m * 60 + s`, in three fields. */
  lemma LongClockReadsBack(h: nat, m: nat, s: nat)
    requires m < 60 && s < 60
    ensures var fs := Fields(ShowNat(h) + ":" + Pad2(ShowNat(m)) + ":" + Pad2(ShowNat(s)));
      |fs| == 3 && |fs[1]| == |fs[2]| == 2 && Sexagesimal(fs) == h * 3600 + m * 60 + s
  {
    ShowNatReadsBack(h);
    PaddedReadsBack(m);
    PaddedReadsBack(s);
    ThreeFields(ShowNat(h), Pad2(ShowNat(m)), Pad2(ShowNat(s)));
    SexagesimalOfThree(ShowNat(h), Pad2(ShowNat(m)), Pad2(ShowNat(s)));
  }

  /** `M:SS` reads back as `m * 60 + s`, in two fields. */
  lemma ShortClockReadsBack(m: nat, s: nat)
    requires s < 60
    ensures var fs := Fields(ShowNat(m) + ":" + Pad2(ShowNat(s)));
      |fs| == 2 && |fs[1]| == 2 && Sexagesimal(fs) == m * 60 + s
  {
    ShowNatReadsBack(m);
    PaddedReadsBack(s);
    TwoFields(ShowNat(m), Pad2(ShowNat(s)));
    SexagesimalOfTwo(ShowNat(m), Pad2(ShowNat(s)));
  }

  /**
   * `getFormattedTime` reads back as the elapsed whole seconds, and it has
   * an hours field exactly from the first hour on; minutes and seconds are
   * always two digits after a colon.
   */
  lemma FormatTimeReadsBack(t: real)
    requires t >= 0.0
    ensures ParseClock(FormatTime(t)) == t.Floor
    ensures |Fields(FormatTime(t))| == (if t >= 3600.0 then 3 else 2)
    ensures forall i :: 1 <= i < |Fields(FormatTime(t))| ==> |Fields(FormatTime(t))[i]| == 2
  {
    ClockParts(t);
    FloorOfQuotient(t, 3600);
    var h, m, s := Hours(t), Minutes(t), Seconds(t);
    assert h > 0 <==> t >= 3600.0;
    if h > 0 {
      LongClockReadsBack(h, m, s);
    } else {
      ShortClockReadsBack(m, s);
    }
  }
}
