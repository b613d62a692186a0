/** The ten-second frequency value: whole cycles between crossings, and the
    nearest integer to rate * cycles / duration. */
module FrequencyValue {
  import opened Words
  import D = FrequencyDecoder

  // ---- Rounding -----------------------------------------------------------

  // The nearest integer to n/d, the even one of two equally near.
  ghost predicate NearestEven(n: nat, d: nat, r: nat) {
    && 2 * Abs(n - r * d) <= d
    && (2 * Abs(n - r * d) == d ==> r % 2 == 0)
  }

  // The remainder is compared with its complement, so nothing is doubled; the
  // last branch of the source, a quotient with no successor, cannot round up.
  method RoundedDivideTiesToEven(numerator: u64, denominator: u64) returns (r: u64, error: bool)
    ensures error <==> denominator == 0
    ensures !error ==> NearestEven(numerator, denominator, r)
  {
    hide NearestEven;
    if denominator == 0 {
      return 0, true;
    }
    RoundingCases(numerator, denominator);
    var quotient, remainder := numerator / denominator, numerator % denominator;
    var complement := denominator - remainder;
    r, error := quotient, false;
    if remainder > complement || (remainder == complement && quotient % 2 != 0) {
      error := quotient == U64_MAX;
      r := Min(quotient + 1, U64_MAX);
    }
  }

  lemma RoundingCases(n: u64, d: nat)
    requires d > 0
    ensures var q, rest := n / d, n % d;
            && 0 <= q <= n && 0 <= rest < d
            && (rest > d - rest ==> NearestEven(n, d, q + 1) && q < U64_MAX)
            && (rest < d - rest ==> NearestEven(n, d, q))
            && (rest == d - rest ==>
                if q % 2 == 0 then NearestEven(n, d, q) else NearestEven(n, d, q + 1) && q < U64_MAX)
  {
    var q, rest := n / d, n % d;
    assert n == q * d + rest;
    assert (q + 1) * d == q * d + d;
    MulLe(1, d, q);
    if d >= 2 { MulLe(2, d, q); }
  }

  // Two multiples of `d`, a*d and b*d, equally near to n.
  lemma NotBelow(n: int, d: int, a: int, b: int, ad: int, bd: int)
    requires d > 0 && 2 * Abs(n - ad) <= d && 2 * Abs(n - bd) <= d
    requires 2 * Abs(n - ad) == d ==> a % 2 == 0
    requires 2 * Abs(n - bd) == d ==> b % 2 == 0
    requires b == a + 1 ==> bd == ad + d
    requires b >= a + 2 ==> bd >= ad + 2 * d
    ensures a >= b
  {
  }

  lemma NearestNotBelow(n: nat, d: nat, a: nat, b: nat)
    requires d > 0 && NearestEven(n, d, a) && NearestEven(n, d, b)
    ensures a >= b
  {
    var ad, bd := a * d, b * d;
    assert (a + 2) * d == ad + 2 * d;
    if b >= a + 2 { MulLe(a + 2, b, d); }
    if b == a + 1 { assert (a + 1) * d == ad + d; }
    NotBelow(n, d, a, b, ad, bd);
  }

  lemma NearestUnique(n: nat, d: nat, a: nat, b: nat)
    requires d > 0 && NearestEven(n, d, a) && NearestEven(n, d, b)
    ensures a == b
  {
    NearestNotBelow(n, d, a, b);
    NearestNotBelow(n, d, b, a);
  }

  lemma NearestBetween(n: nat, d: nat, r: nat, low: nat, high: nat)
    requires d > 0 && NearestEven(n, d, r) && low * d <= n <= high * d
    ensures low <= r <= high
  {
    if r < low { MulLe(r + 1, low, d); }
    if r > high { MulLe(high + 1, r, d); }
  }

  // ---- Whole cycles between crossings ----------------------------------------

  function MinimumMillihertz(nominal: u8): nat { if nominal == 50 then 42500 else 51000 }
  function MaximumMillihertz(nominal: u8): nat { if nominal == 50 then 57500 else 69000 }

  // Both products are 64-bit.
  predicate CycleInRange(duration: u64, rate: u32, nominal: u8) {
    var scaled := rate * B16;
    duration * MaximumMillihertz(nominal) % B64 >= scaled && duration * MinimumMillihertz(nominal) % B64 <= scaled
  }

  predicate Inside(c: i64, limit: u64) { 0 <= c <= limit }

  // The crossings the interval includes.
  function Included(cs: seq<i64>, limit: u64): seq<int> {
    if cs == [] then []
    else
      var init := Included(cs[..|cs| - 1], limit);
      if Inside(cs[|cs| - 1], limit) then init + [cs[|cs| - 1]] else init
  }

  // The durations between neighbouring crossings.
  function Durations(s: seq<int>): (d: seq<int>)
    ensures |d| == if s == [] then 0 else |s| - 1
  {
    if |s| < 2 then [] else Durations(s[..|s| - 1]) + [s[|s| - 1] - s[|s| - 2]]
  }

  function Rejected(durations: seq<int>, rate: u32, nominal: u8): nat {
    if durations == [] then 0
    else
      var last := durations[|durations| - 1];
      Rejected(durations[..|durations| - 1], rate, nominal) +
      if last % B64 == 0 || !CycleInRange(last % B64, rate, nominal) then 1 else 0
  }

  lemma SumOfNone()
    ensures Sum([]) == 0
  {
  }

  lemma {:induction false} DurationsTelescope(s: seq<int>)
    requires s != []
    ensures Sum(Durations(s)) == s[|s| - 1] - s[0]
  {
    hide Sum;
    if |s| == 1 {
      SumOfNone();
    } else {
      var init := s[..|s| - 1];
      DurationsTelescope(init);
      assert init[0] == s[0] && init[|init| - 1] == s[|s| - 2];
      SumAppend(Durations(init), s[|s| - 1] - s[|s| - 2]);
    }
  }

  datatype Cycles = Cycles(first: i64, last: i64, included: nat, rejected: nat)

  method CountCycles(cs: seq<i64>, limit: u64, rate: u32, nominal: u8) returns (c: Cycles)
    ensures var s := Included(cs, limit);
            && c.included == |s|
            && (if s == [] then c.first == c.last == 0 else c.first == s[0] && c.last == s[|s| - 1])
            && c.rejected == Rejected(Durations(s), rate, nominal)
  {
    hide CycleInRange, Inside;
    var haveCrossing := false;
    c := Cycles(0, 0, 0, 0);
    var previous: i64 := 0;
    for index := 0 to |cs|
      invariant var s := Included(cs[..index], limit);
                && haveCrossing == (s != []) && c.included == |s|
                && (if s == [] then c.first == c.last == 0 else c.first == s[0] && c.last == previous == s[|s| - 1])
                && c.rejected == Rejected(Durations(s), rate, nominal)
    {
      var crossing := cs[index];
      ghost var s := Included(cs[..index], limit);
      IncludedStep(cs, index, limit);
      if Inside(crossing, limit) {
        if !haveCrossing {
          haveCrossing := true;
          c := Cycles(crossing, crossing, 1, 0);
        } else {
          RejectedStep(s, crossing, rate, nominal);
          var elapsed: int := crossing;
          var duration: u64 := (elapsed - previous) % B64;
          var bad := duration == 0 || !CycleInRange(duration, rate, nominal);
          c := c.(last := crossing, included := c.included + 1,
                  rejected := if bad then c.rejected + 1 else c.rejected);
        }
        previous := crossing;
      }
    }
    assert cs[..|cs|] == cs;
  }

  lemma IncludedStep(cs: seq<i64>, k: nat, limit: u64)
    requires k < |cs|
    ensures Included(cs[..k + 1], limit)
         == if Inside(cs[k], limit) then Included(cs[..k], limit) + [cs[k]] else Included(cs[..k], limit)
  {
    assert cs[..k + 1][..k] == cs[..k];
  }

  lemma RejectedStep(s: seq<int>, crossing: int, rate: u32, nominal: u8)
    requires s != []
    ensures var duration := (crossing - s[|s| - 1]) % B64;
            Rejected(Durations(s + [crossing]), rate, nominal) ==
            Rejected(Durations(s), rate, nominal) +
            if duration == 0 || !CycleInRange(duration, rate, nominal) then 1 else 0
  {
    hide Durations, Rejected, CycleInRange;
    var t := s + [crossing];
    AppendedEnd(s, crossing);
    LastDuration(t);
    RejectedAppend(Durations(t[..|t| - 1]), t[|t| - 1] - t[|t| - 2], rate, nominal);
  }

  lemma AppendedEnd(s: seq<int>, x: int)
    requires |s| > 0
    ensures var t := s + [x];
            t[..|t| - 1] == s && t[|t| - 1] == x && t[|t| - 2] == s[|s| - 1]
  {
  }

  lemma LastDuration(s: seq<int>)
    requires |s| >= 2
    ensures Durations(s) == Durations(s[..|s| - 1]) + [s[|s| - 1] - s[|s| - 2]]
  {
  }

  lemma RejectedAppend(durations: seq<int>, d: int, rate: u32, nominal: u8)
    ensures Rejected(durations + [d], rate, nominal) ==
            Rejected(durations, rate, nominal) +
            if d % B64 == 0 || !CycleInRange(d % B64, rate, nominal) then 1 else 0
  {
    hide CycleInRange;
    assert (durations + [d])[..|durations|] == durations;
  }

  // ---- The value --------------------------------------------------------------

  datatype Value = Value(
    cycles: nat, duration: u64, included: nat, rejected: nat, frequency: u64,
    insufficient: bool, cycleGeometry: bool, arithmetic: bool, outOfRange: bool)

  function Limit(span: u64): u64 { if span <= U64_MAX / B16 then span * B16 else 0 }

  // The product rate * cycles leaves 64 bits.
  predicate Overflows(rate: u32, cycles: nat) { cycles != 0 && rate * B16 > U64_MAX / cycles }

  ghost predicate Evaluated(cs: seq<i64>, span: u64, rate: u32, nominal: u8, v: Value) {
    var s := Included(cs, Limit(span));
    && v.included == |s|
    && v.cycles == (if s == [] then 0 else |s| - 1)
    && v.duration == (if |s| < 2 then 0 else (s[|s| - 1] - s[0]) % B64)
    && v.rejected == Rejected(Durations(s), rate, nominal)
    && (v.insufficient <==> v.cycles == 0 || v.duration == 0)
    && (v.cycleGeometry <==> v.rejected != 0)
    && (if v.insufficient || Overflows(rate, v.cycles) then v.frequency == 0
        else NearestEven(rate * B16 * v.cycles, v.duration, v.frequency))
    && (v.arithmetic <==> (!v.insufficient && Overflows(rate, v.cycles)) || v.frequency >= B32)
    && (v.outOfRange <==>
        v.frequency != 0 &&
        !(MinimumMillihertz(nominal) <= v.frequency <= MaximumMillihertz(nominal)))
  }

  method Evaluate(cs: seq<i64>, span: u64, rate: u32, nominal: u8) returns (v: Value)
    ensures Evaluated(cs, span, rate, nominal, v)
  {
    hide Included, Rejected, NearestEven;
    var c := CountCycles(cs, Limit(span), rate, nominal);
    var cycles := if c.included > 0 then c.included - 1 else 0;
    var last: int := c.last;
    var duration: u64 := if c.included >= 2 then (last - c.first) % B64 else 0;
    var insufficient := cycles == 0 || duration == 0;
    var error, frequency: u64 := false, 0;
    if !insufficient {
      if Overflows(rate, cycles) {
        error := true;
      } else {
        ProductFits(rate * B16, cycles);
        frequency, error := RoundedDivideTiesToEven(rate * B16 * cycles, duration);
      }
    }
    var outOfRange := frequency != 0 &&
      (frequency < MinimumMillihertz(nominal) || frequency > MaximumMillihertz(nominal));
    v := Value(cycles, duration, c.included, c.rejected, frequency,
               insufficient, c.rejected != 0, error || frequency >= B32, outOfRange);
  }

  lemma ProductFits(scaled: nat, cycles: nat)
    requires cycles > 0 && scaled <= U64_MAX / cycles
    ensures scaled * cycles <= U64_MAX
  {
    MulLe(scaled, U64_MAX / cycles, cycles);
  }

  // ---- What decoder-accepted input guarantees ------------------------------------

  ghost predicate Increasing(s: seq<int>) {
    forall j, k :: 0 <= j < k < |s| ==> s[j] < s[k]
  }

  ghost predicate Within(s: seq<int>, limit: int) {
    forall k :: 0 <= k < |s| ==> 0 <= s[k] <= limit
  }

  lemma {:induction false} IncludedKeeps(cs: seq<i64>, limit: u64)
    requires Increasing(cs)
    ensures Increasing(Included(cs, limit)) && Within(Included(cs, limit), limit)
    ensures |Included(cs, limit)| <= |cs|
    ensures cs != [] && Included(cs, limit) != [] ==>
      Included(cs, limit)[|Included(cs, limit)| - 1] <= cs[|cs| - 1]
  {
    if cs != [] {
      var init := cs[..|cs| - 1];
      assert forall j, k :: 0 <= j < k < |init| ==> init[j] == cs[j] && init[k] == cs[k];
      IncludedKeeps(init, limit);
    }
  }

  // The exact meaning of an accepted cycle: its frequency is in range.
  ghost predicate ExactlyInRange(d: int, rate: u32, nominal: u8) {
    d > 0 && d * MaximumMillihertz(nominal) >= rate * B16 && d * MinimumMillihertz(nominal) <= rate * B16
  }

  ghost predicate AllInRange(durations: seq<int>, rate: u32, nominal: u8) {
    forall k :: 0 <= k < |durations| ==> ExactlyInRange(durations[k], rate, nominal)
  }

  lemma SumStep(sum: int, last: int, n: int, scaled: int, high: int, low: int)
    requires low * sum <= scaled * n <= high * sum
    requires last * low <= scaled <= last * high
    ensures low * (sum + last) <= scaled * (n + 1) <= high * (sum + last)
  {
  }

  // Rates add up: if each cycle is in range, so is their mean.
  lemma {:induction false} SumInRange(durations: seq<int>, rate: u32, nominal: u8)
    requires AllInRange(durations, rate, nominal)
    ensures MinimumMillihertz(nominal) * Sum(durations) <= rate * B16 * |durations|
         <= MaximumMillihertz(nominal) * Sum(durations)
    ensures Sum(durations) >= |durations|
  {
    hide MaximumMillihertz, MinimumMillihertz;
    if durations != [] {
      var init, last := durations[..|durations| - 1], durations[|durations| - 1];
      SumInRange(init, rate, nominal);
      assert ExactlyInRange(last, rate, nominal);
      SumStep(Sum(init), last, |init|, rate * B16, MaximumMillihertz(nominal), MinimumMillihertz(nominal));
    }
  }

  ghost predicate Small(durations: seq<int>) {
    forall k :: 0 <= k < |durations| ==> 0 < durations[k] < 0x1_0000_0000_0000
  }

  lemma {:induction false} NoneRejected(durations: seq<int>, rate: u32, nominal: u8)
    requires Small(durations)
    ensures Rejected(durations, rate, nominal) == 0 <==> AllInRange(durations, rate, nominal)
  {
    hide CycleInRange, ExactlyInRange;
    if durations != [] {
      var init, last := durations[..|durations| - 1], durations[|durations| - 1];
      assert 0 < last < 0x1_0000_0000_0000;
      NoneRejected(init, rate, nominal);
      assert last % B64 == last;
      InRangeExact(last, rate, nominal);
      assert forall k :: 0 <= k < |init| ==> init[k] == durations[k];
    }
  }

  lemma InRangeExact(d: u64, rate: u32, nominal: u8)
    requires 0 < d < 0x1_0000_0000_0000
    ensures CycleInRange(d, rate, nominal) <==> ExactlyInRange(d, rate, nominal)
  {
  }

  lemma {:induction false} DurationsSmall(s: seq<int>, limit: int)
    requires Increasing(s) && Within(s, limit) && limit < 0x1_0000_0000_0000
    ensures Small(Durations(s))
  {
    if |s| > 1 {
      var init := s[..|s| - 1];
      assert forall j, k :: 0 <= j < k < |init| ==> init[j] == s[j] && init[k] == s[k];
      assert Within(init, limit);
      DurationsSmall(init, limit);
      assert s[|s| - 2] < s[|s| - 1];
    }
  }

  // The crossings of an accepted frame.
  ghost function Crossings(p: D.Payload): seq<i64>
    requires D.Facts(p)
  {
    seq(p[19], k requires 0 <= k < p[19] => D.Crossing(p, k))
  }

  ghost function Span(p: D.Payload): u64
    requires D.Facts(p)
  {
    D.End(p) - D.Start(p)
  }

  lemma AcceptedCrossings(p: D.Payload)
    requires D.Facts(p)
    ensures var s := Included(Crossings(p), Limit(Span(p)));
            && Limit(Span(p)) == Span(p) * B16 < 0x1_0000_0000_0000
            && Increasing(s) && Within(s, Limit(Span(p))) && |s| <= 1024
            && Small(Durations(s))
  {
    hide D.Crossing, Included, Durations, Small;
    IncludedKeeps(Crossings(p), Limit(Span(p)));
    DurationsSmall(Included(Crossings(p), Limit(Span(p))), Limit(Span(p)));
  }

  lemma ExactDuration(s: seq<int>, limit: int)
    requires s != [] && Increasing(s) && Within(s, limit) && limit < 0x1_0000_0000_0000
    ensures Sum(Durations(s)) == (if |s| < 2 then 0 else (s[|s| - 1] - s[0]) % B64)
    ensures |s| >= 2 ==> Sum(Durations(s)) > 0
  {
    hide Sum, Durations;
    DurationsTelescope(s);
    var x := s[|s| - 1] - s[0];
    if |s| >= 2 { assert s[0] < s[|s| - 1]; }
    assert 0 <= x <= limit;
    hide Increasing, Within;
    SmallModulo(x);
  }

  lemma SmallModulo(x: nat)
    requires x < B64
    ensures x % B64 == x
  {
  }

  lemma NoOverflow(rate: u32, cycles: nat)
    requires rate <= 200_000_000 && cycles <= 1023
    ensures !Overflows(rate, cycles)
  {
    if cycles != 0 {
      var q := U64_MAX / cycles;
      assert (q + 1) * cycles > U64_MAX;
      MulLe(cycles, 1023, q + 1);
    }
  }

  // Every cycle in range puts the rounded mean in range.
  lemma ValueInRange(s: seq<int>, rate: u32, nominal: u8, r: nat)
    requires |s| >= 2 && AllInRange(Durations(s), rate, nominal)
    requires Sum(Durations(s)) > 0 && NearestEven(rate * B16 * (|s| - 1), Sum(Durations(s)), r)
    ensures MinimumMillihertz(nominal) <= r <= MaximumMillihertz(nominal)
  {
    hide Sum, NearestEven, Durations, MinimumMillihertz, MaximumMillihertz, AllInRange;
    SumInRange(Durations(s), rate, nominal);
    NearestBetween(rate * B16 * (|s| - 1), Sum(Durations(s)), r,
                   MinimumMillihertz(nominal), MaximumMillihertz(nominal));
  }

  // For decoder-accepted input the duration is the exact sum of the included
  // cycles, the product never overflows, and a value out of range never appears
  // without a rejected cycle.
  lemma AcceptedValue(p: D.Payload, v: Value)
    requires D.Facts(p) && Evaluated(Crossings(p), Span(p), p[3], p[4], v)
    ensures var s := Included(Crossings(p), Limit(Span(p)));
            && (s != [] ==> v.duration == Sum(Durations(s)))
            && v.cycles <= 1023 && !Overflows(p[3], v.cycles)
            && (v.rejected == 0 <==> AllInRange(Durations(s), p[3], p[4]))
    ensures !v.insufficient ==> NearestEven(p[3] * B16 * v.cycles, v.duration, v.frequency)
    ensures !v.insufficient && !v.cycleGeometry ==>
      MinimumMillihertz(p[4]) <= v.frequency <= MaximumMillihertz(p[4]) && !v.arithmetic
    ensures v.outOfRange ==> v.cycleGeometry
  {
    hide Included, Rejected, Small, Increasing, Within, Crossings, Overflows, NearestEven, Limit, Sum, AllInRange;
    var s := Included(Crossings(p), Limit(Span(p)));
    AcceptedCrossings(p);
    NoneRejected(Durations(s), p[3], p[4]);
    if s != [] { ExactDuration(s, Limit(Span(p))); }
    NoOverflow(p[3], v.cycles);
    if !v.insufficient && !v.cycleGeometry { ValueInRange(s, p[3], p[4], v.frequency); }
  }
}
