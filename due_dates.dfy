/** `calcular_datas_entrega`: the due date of every truck. For each forklift the truck's
    operations that have a processing time on it are summed; the positive sums give a
    minimum, a maximum and a mean; the due date is the mean, or in random mode a value drawn
    between minimum and maximum, scaled by a factor drawn for the truck and rounded. A truck
    with no positive sum raises. Trucks are taken in the order of `operacoes_por_caminhao`,
    and truck t's date sits at position t - 1. */
module DueDates {
  import opened Wrappers
  import opened Seqs
  import opened Dicts
  import opened Numbers
  import opened ProcessingTime

  /** `{'minimo': ..., 'maximo': ..., 'media': ...}`. */
  datatype Summary = Summary(minimum: int, maximum: int, mean: real)

  /** `alfa_caminhao[c]`: with every truck early, a factor in [0.1, 0.9]; otherwise, with
      every truck late, one in [1.1, 2]; and otherwise one in [0.1, 2]. Early wins when both
      flags are set. */
  function Alpha(late: bool, early: bool, f: Unit): (r: real)
    ensures early ==> 0.1 <= r <= 0.9
    ensures !early && late ==> 1.1 <= r <= 2.0
    ensures !early && !late ==> 0.1 <= r <= 2.0
  {
    if early then Uniform(0.1, 0.9, f)
    else if late then Uniform(1.1, 2.0, f)
    else Uniform(0.1, 2.0, f)
  }

  /** `tempo_total_maquina`: the times of the operations the table holds, an operation listed
      twice counting twice. */
  function MachineTotal(table: Dict<int, Timing>, ops: seq<int>): int
  {
    if |ops| == 0 then 0
    else
      var t := Lookup(table, ops[|ops| - 1]);
      MachineTotal(table, ops[..|ops| - 1]) + if t.Some? then t.value.time else 0
  }

  /** The total is additive over the operation list, and operations the table does not hold
      add nothing. */
  lemma {:induction false} MachineTotalConcat(table: Dict<int, Timing>, a: seq<int>, b: seq<int>)
    ensures MachineTotal(table, a + b) == MachineTotal(table, a) + MachineTotal(table, b)
    decreases |b|
  {
    if |b| == 0 {
      assert a + b == a;
    } else {
      var n := |b| - 1;
      assert (a + b)[..|a| + n] == a + b[..n];
      MachineTotalConcat(table, a, b[..n]);
    }
  }

  lemma {:induction false} MachineTotalAbsent(table: Dict<int, Timing>, ops: seq<int>)
    requires forall i :: 0 <= i < |ops| ==> !HasKey(table, ops[i])
    ensures MachineTotal(table, ops) == 0
  {
    if |ops| > 0 {
      var n := |ops| - 1;
      assert forall i :: 0 <= i < n ==> ops[..n][i] == ops[i];
      MachineTotalAbsent(table, ops[..n]);
    }
  }

  /** The truck's total on every forklift, in forklift order. */
  function Totals(tables: seq<Dict<int, Timing>>, ops: seq<int>): (r: seq<int>)
    ensures |r| == |tables|
    ensures forall i :: 0 <= i < |tables| ==> r[i] == MachineTotal(tables[i], ops)
  {
    seq(|tables|, i requires 0 <= i < |tables| => MachineTotal(tables[i], ops))
  }

  /** `soma_dos_tempos`: the positive totals, in order. */
  function Positives(s: seq<int>): (r: seq<int>)
    ensures forall x :: x in r <==> x in s && x > 0
    ensures |r| <= |s|
  {
    if |s| == 0 then []
    else
      var x := s[|s| - 1];
      assert s == s[..|s| - 1] + [x];
      Positives(s[..|s| - 1]) + if x > 0 then [x] else []
  }

  /** The summary of the positive totals. */
  function Summarize(kept: seq<int>): Summary
    requires |kept| > 0
  {
    Summary(MinOf(kept), MaxOf(kept), Mean(kept))
  }

  /** `soma / len(soma_dos_tempos)`. */
  function Mean(kept: seq<int>): real
    requires |kept| > 0
  {
    Sum(kept) as real / |kept| as real
  }

  lemma {:induction false} SumBetween(s: seq<int>, lo: int, hi: int)
    requires forall i :: 0 <= i < |s| ==> lo <= s[i] <= hi
    ensures |s| * lo <= Sum(s) <= |s| * hi
  {
    if |s| > 0 {
      var n := |s| - 1;
      var front := s[..n];
      assert forall i :: 0 <= i < n ==> front[i] == s[i];
      SumBetween(front, lo, hi);
      SumAppend(front, s[n]);
      assert s == front + [s[n]];
      MulSucc(n, lo);
      MulSucc(n, hi);
    }
  }

  lemma MulSucc(n: int, x: int)
    ensures (n + 1) * x == n * x + x
  {
  }

  /** The mean lies between the smallest and the largest positive total. */
  lemma SummaryBounds(kept: seq<int>)
    requires |kept| > 0 && forall i :: 0 <= i < |kept| ==> kept[i] > 0
    ensures var s := Summarize(kept);
      0 < s.minimum && s.minimum as real <= s.mean <= s.maximum as real
  {
    var s := Summarize(kept);
    assert s.minimum in kept;
    SumBetween(kept, s.minimum, s.maximum);
    MeanBetween(Sum(kept), |kept|, s.minimum, s.maximum);
  }

  /** A total between n * lo and n * hi has its mean between lo and hi. */
  lemma MeanBetween(total: int, n: int, lo: int, hi: int)
    requires n > 0 && n * lo <= total <= n * hi
    ensures lo as real <= total as real / n as real <= hi as real
  {
    var q := total as real / n as real;
    assert q * n as real == total as real;
    assert (n * lo) as real == lo as real * n as real;
    assert (n * hi) as real == hi as real * n as real;
    if q < lo as real {
      ScaleStrict(q, lo as real, n as real);
    }
    if q > hi as real {
      ScaleStrict(hi as real, q, n as real);
    }
  }

  lemma ScaleStrict(x: real, y: real, a: real)
    requires x < y && a > 0.0
    ensures x * a < y * a
  {
    assert y * a - x * a == (y - x) * a;
  }

  /** The processing time the date scales: the mean in deterministic mode, and otherwise
      `random.uniform(minimo, maximo)` made with the fraction f. */
  function Spread(s: Summary, deterministic: bool, f: Unit): (r: real)
    ensures s.minimum as real <= s.mean <= s.maximum as real ==> s.minimum as real <= r <= s.maximum as real
  {
    if deterministic then s.mean else Uniform(s.minimum as real, s.maximum as real, f)
  }

  /** `round(u * alfa)`. */
  function Scaled(u: real, alpha: real): int
  {
    Round(u * alpha)
  }

  lemma ScaledMonotone(x: real, y: real, alpha: real)
    requires x <= y && alpha >= 0.0
    ensures Scaled(x, alpha) <= Scaled(y, alpha)
  {
    var a, b := x * alpha, y * alpha;
    MulNonNegative(y - x, alpha);
    assert a <= b;
    RoundMonotone(a, b);
  }

  /** The due date of a truck, given its summary, its factor alpha and the fraction of the
      random processing time. */
  function DateOf(s: Summary, deterministic: bool, alpha: real, f: Unit): int
  {
    Scaled(Spread(s, deterministic, f), alpha)
  }

  /** Given a mean between minimum and maximum, the date lies between the rounded scaled
      minimum and maximum, and in deterministic mode is the rounded scaled mean. */
  lemma DateBounds(s: Summary, deterministic: bool, alpha: real, f: Unit)
    requires s.minimum as real <= s.mean <= s.maximum as real
    requires alpha >= 0.0
    ensures Scaled(s.minimum as real, alpha) <= DateOf(s, deterministic, alpha, f) <= Scaled(s.maximum as real, alpha)
    ensures deterministic ==> DateOf(s, deterministic, alpha, f) == Scaled(s.mean, alpha)
  {
    var u := Spread(s, deterministic, f);
    ScaledMonotone(s.minimum as real, u, alpha);
    ScaledMonotone(u, s.maximum as real, alpha);
  }

  /** The summary of a truck, or None when it has no positive total. */
  function TruckSummary(tables: seq<Dict<int, Timing>>, ops: seq<int>): Option<Summary>
  {
    var kept := Positives(Totals(tables, ops));
    if |kept| == 0 then None else Some(Summarize(kept))
  }

  /** The date rule of a run: truck t with summary s gets `date(t, s)`. */
  type DateRule = (int, Summary) -> int

  function Dating(deterministic: bool, late: bool, early: bool, alphas: int -> Unit, spreads: int -> Unit): DateRule
  {
    (t: int, s: Summary) => DateOf(s, deterministic, Alpha(late, early, alphas(t)), spreads(t))
  }

  /** The summary rule of a run: a truck with operations ops has `summary(ops)`. */
  type SummaryRule = seq<int> -> Option<Summary>

  function Summaries(tables: seq<Dict<int, Timing>>): SummaryRule
  {
    (ops: seq<int>) => TruckSummary(tables, ops)
  }

  /** The summaries of the trucks in turn; the first truck with no summary raises. */
  function SummariesOf(trucks: seq<seq<int>>, summary: SummaryRule): Result<seq<Summary>>
  {
    if |trucks| == 0 then Success([])
    else
      var n := |trucks| - 1;
      var front := SummariesOf(trucks[..n], summary);
      var s := summary(trucks[n]);
      if front.Failure? then front
      else if s.None? then Failure(NoPositiveProcessingTime(n + 1))
      else Success(front.value + [s.value])
  }

  /** The due dates: the summaries first, then one date per summary. */
  function DueDatesOf(trucks: seq<seq<int>>, summary: SummaryRule, date: DateRule): Result<seq<int>>
  {
    var ss := SummariesOf(trucks, summary);
    if ss.Failure? then Failure(ss.error)
    else Success(seq(|ss.value|, t requires 0 <= t < |ss.value| => date(t + 1, ss.value[t])))
  }

  /** No positive total for truck t. */
  predicate Unserved(tables: seq<Dict<int, Timing>>, trucks: seq<seq<int>>, t: int)
  {
    0 <= t < |trucks| && forall i :: 0 <= i < |tables| ==> MachineTotal(tables[i], trucks[t]) <= 0
  }

  /** A truck has no summary exactly when it has no positive total. */
  lemma UnservedNone(tables: seq<Dict<int, Timing>>, trucks: seq<seq<int>>, t: int)
    requires 0 <= t < |trucks|
    ensures Unserved(tables, trucks, t) <==> Summaries(tables)(trucks[t]).None?
  {
    var totals := Totals(tables, trucks[t]);
    var kept := Positives(totals);
    assert |kept| > 0 ==> kept[0] in kept;
    if !Unserved(tables, trucks, t) {
      var i :| 0 <= i < |tables| && MachineTotal(tables[i], trucks[t]) > 0;
      assert totals[i] in totals;
    } else {
      assert forall x :: x in totals ==> x <= 0;
    }
  }

  /** A summary's mean lies between its minimum and its maximum. */
  lemma SummaryRuleBounds(tables: seq<Dict<int, Timing>>, ops: seq<int>)
    requires Summaries(tables)(ops).Some?
    ensures var s := Summaries(tables)(ops).value;
      0 < s.minimum && s.minimum as real <= s.mean <= s.maximum as real
  {
    var kept := Positives(Totals(tables, ops));
    assert forall i :: 0 <= i < |kept| ==> kept[i] in kept;
    SummaryBounds(kept);
  }

  /** The summaries fail exactly when some truck has no summary, naming the first such
      truck; otherwise they are the trucks' summaries in order. */
  lemma {:induction false} SummariesShape(trucks: seq<seq<int>>, summary: SummaryRule)
    ensures var r := SummariesOf(trucks, summary);
      && (r.Failure? <==> exists t :: 0 <= t < |trucks| && summary(trucks[t]).None?)
      && (r.Failure? ==> exists t :: 0 <= t < |trucks| && summary(trucks[t]).None? && r.error == NoPositiveProcessingTime(t + 1)
                           && forall u :: 0 <= u < t ==> summary(trucks[u]).Some?)
      && (r.Success? ==> |r.value| == |trucks| && forall t :: 0 <= t < |trucks| ==> summary(trucks[t]) == Some(r.value[t]))
  {
    if |trucks| > 0 {
      var n := |trucks| - 1;
      var front := trucks[..n];
      SummariesShape(front, summary);
      assert forall t :: 0 <= t < n ==> front[t] == trucks[t];
    }
  }

  /** The dates fail exactly when some truck has no summary, naming the first such truck;
      otherwise every truck gets the date of its own summary. */
  lemma DueDatesShape(trucks: seq<seq<int>>, summary: SummaryRule, date: DateRule)
    ensures var r := DueDatesOf(trucks, summary, date);
      && (r.Failure? <==> exists t :: 0 <= t < |trucks| && summary(trucks[t]).None?)
      && (r.Failure? ==> exists t :: 0 <= t < |trucks| && summary(trucks[t]).None? && r.error == NoPositiveProcessingTime(t + 1)
                           && forall u :: 0 <= u < t ==> summary(trucks[u]).Some?)
      && (r.Success? ==> |r.value| == |trucks| && forall t :: 0 <= t < |trucks| ==>
            && summary(trucks[t]).Some?
            && r.value[t] == date(t + 1, summary(trucks[t]).value))
  {
    SummariesShape(trucks, summary);
  }

  /** A date that lies between the rounded scaled minimum and maximum of its summary, and in
      deterministic mode is the rounded scaled mean. */
  predicate DateWithin(s: Summary, alpha: real, deterministic: bool, d: int)
  {
    && Scaled(s.minimum as real, alpha) <= d <= Scaled(s.maximum as real, alpha)
    && (deterministic ==> d == Scaled(s.mean, alpha))
  }

  /** The due dates in the terms of the source: they fail exactly when some truck has no
      positive total on any forklift, naming the first; otherwise every truck's date lies
      between its rounded scaled minimum and maximum total, and in deterministic mode is its
      rounded scaled mean. */
  lemma DueDatesMeaning(tables: seq<Dict<int, Timing>>, trucks: seq<seq<int>>, deterministic: bool,
                        late: bool, early: bool, alphas: int -> Unit, spreads: int -> Unit)
    ensures var r := DueDatesOf(trucks, Summaries(tables), Dating(deterministic, late, early, alphas, spreads));
      && (r.Failure? <==> exists t :: Unserved(tables, trucks, t))
      && (r.Failure? ==> exists t :: Unserved(tables, trucks, t) && r.error == NoPositiveProcessingTime(t + 1)
                           && forall u :: 0 <= u < t ==> !Unserved(tables, trucks, u))
      && (r.Success? ==> |r.value| == |trucks| && forall t :: 0 <= t < |trucks| ==>
            && TruckSummary(tables, trucks[t]).Some?
            && DateWithin(TruckSummary(tables, trucks[t]).value, Alpha(late, early, alphas(t + 1)), deterministic, r.value[t]))
  {
    var summary := Summaries(tables);
    var date := Dating(deterministic, late, early, alphas, spreads);
    DueDatesShape(trucks, summary, date);
    forall t | 0 <= t < |trucks|
      ensures Unserved(tables, trucks, t) <==> summary(trucks[t]).None?
    {
      UnservedNone(tables, trucks, t);
    }
    var r := DueDatesOf(trucks, summary, date);
    if r.Success? {
      forall t | 0 <= t < |trucks|
        ensures DateWithin(TruckSummary(tables, trucks[t]).value, Alpha(late, early, alphas(t + 1)), deterministic, r.value[t])
      {
        SummaryRuleBounds(tables, trucks[t]);
        DateBounds(summary(trucks[t]).value, deterministic, Alpha(late, early, alphas(t + 1)), spreads(t + 1));
      }
    }
  }

  /** `tempo_total_maquina` for one forklift. */
  method MachineTotalLoop(table: Dict<int, Timing>, ops: seq<int>) returns (total: int)
    ensures total == MachineTotal(table, ops)
  {
    total := 0;
    var k := 0;
    while k < |ops|
      invariant k <= |ops|
      invariant total == MachineTotal(table, ops[..k])
    {
      assert ops[..k + 1][..k] == ops[..k];
      var t := Lookup(table, ops[k]);
      if t.Some? {
        total := total + t.value.time;
      }
      k := k + 1;
    }
    assert ops[..k] == ops;
  }

  lemma PositivesSnoc(tables: seq<Dict<int, Timing>>, ops: seq<int>, i: nat)
    requires i < |tables|
    ensures var x := MachineTotal(tables[i], ops);
      Positives(Totals(tables[..i + 1], ops)) == Positives(Totals(tables[..i], ops)) + if x > 0 then [x] else []
  {
    var s := Totals(tables[..i + 1], ops);
    assert s[..i] == Totals(tables[..i], ops);
  }

  /** lo and hi are the running minimum and maximum of the totals kept so far, with the
      minimum at infinity (None) and the maximum at 0 while nothing is kept. */
  predicate Extremes(kept: seq<int>, lo: Option<int>, hi: int)
  {
    && (|kept| == 0 ==> lo.None? && hi == 0)
    && (|kept| > 0 ==> lo == Some(MinOf(kept)) && hi == MaxOf(kept))
  }

  /** One forklift's total: kept, and folded into the minimum and the maximum, when it is
      positive. */
  method KeepTotal(kept: seq<int>, lo: Option<int>, hi: int, total: int)
      returns (kept': seq<int>, lo': Option<int>, hi': int)
    requires Extremes(kept, lo, hi)
    ensures kept' == kept + if total > 0 then [total] else []
    ensures Extremes(kept', lo', hi')
  {
    kept', lo', hi' := kept, lo, hi;
    if total > 0 {
      assert (kept + [total])[..|kept|] == kept;
      kept' := kept + [total];
      lo' := Some(if lo.None? || total < lo.value then total else lo.value);
      hi' := Max(hi, total);
    }
  }

  /** The loop over the forklifts for one truck: the positive totals, with `tempo_min_total`
      starting at infinity (None) and `tempo_max_total` at 0. */
  method TruckTotals(tables: seq<Dict<int, Timing>>, ops: seq<int>)
      returns (kept: seq<int>, lo: Option<int>, hi: int)
    ensures kept == Positives(Totals(tables, ops))
    ensures |kept| == 0 ==> lo.None? && hi == 0
    ensures |kept| > 0 ==> lo == Some(MinOf(kept)) && hi == MaxOf(kept)
  {
    kept := [];
    lo := None;
    hi := 0;
    var i := 0;
    while i < |tables|
      invariant i <= |tables|
      invariant kept == Positives(Totals(tables[..i], ops))
      invariant Extremes(kept, lo, hi)
    {
      PositivesSnoc(tables, ops, i);
      var total := MachineTotalLoop(tables[i], ops);
      kept, lo, hi := KeepTotal(kept, lo, hi, total);
      i := i + 1;
    }
    assert tables[..i] == tables;
  }

  /** One truck's summary from its forklift loop. */
  method TruckSummaryLoop(tables: seq<Dict<int, Timing>>, ops: seq<int>) returns (s: Option<Summary>)
    ensures s == TruckSummary(tables, ops)
  {
    var kept, lo, hi := TruckTotals(tables, ops);
    if |kept| == 0 {
      return None;
    }
    return Some(Summary(lo.value, hi, Mean(kept)));
  }

  lemma SummariesSnoc(trucks: seq<seq<int>>, summary: SummaryRule, t: nat)
    requires t < |trucks|
    ensures SummariesOf(trucks[..t + 1], summary) ==
      var front := SummariesOf(trucks[..t], summary);
      var s := summary(trucks[t]);
      if front.Failure? then front
      else if s.None? then Failure(NoPositiveProcessingTime(t + 1))
      else Success(front.value + [s.value])
  {
    assert trucks[..t + 1][..t] == trucks[..t];
  }

  /** Once a prefix of the trucks raises, so do all the trucks, with the same error. */
  lemma {:induction false} SummariesFailure(trucks: seq<seq<int>>, summary: SummaryRule, k: nat)
    requires k <= |trucks| && SummariesOf(trucks[..k], summary).Failure?
    ensures SummariesOf(trucks, summary) == SummariesOf(trucks[..k], summary)
    decreases |trucks| - k
  {
    if k < |trucks| {
      SummariesSnoc(trucks, summary, k);
      SummariesFailure(trucks, summary, k + 1);
    } else {
      assert trucks[..k] == trucks;
    }
  }

  /** The loop over the trucks that summarises each one, raising at the first truck with
      no positive total. */
  method SummaryLoop(tables: seq<Dict<int, Timing>>, trucks: seq<seq<int>>) returns (r: Result<seq<Summary>>)
    ensures r == SummariesOf(trucks, Summaries(tables))
    ensures r.Success? ==> |r.value| == |trucks|
  {
    ghost var summary := Summaries(tables);
    var summaries: seq<Summary> := [];
    var t := 0;
    while t < |trucks|
      invariant t <= |trucks|
      invariant SummariesOf(trucks[..t], summary) == Success(summaries)
      invariant |summaries| == t
    {
      SummariesSnoc(trucks, summary, t);
      var s := TruckSummaryLoop(tables, trucks[t]);
      if s.None? {
        SummariesFailure(trucks, summary, t + 1);
        return Failure(NoPositiveProcessingTime(t + 1));
      }
      summaries := summaries + [s.value];
      t := t + 1;
    }
    assert trucks[..t] == trucks;
    return Success(summaries);
  }

  lemma DueDatesOfSuccess(trucks: seq<seq<int>>, summary: SummaryRule, date: DateRule)
    requires SummariesOf(trucks, summary).Success?
    ensures var ss := SummariesOf(trucks, summary).value;
      var r := DueDatesOf(trucks, summary, date);
      && r.Success? && |r.value| == |ss|
      && forall u :: 0 <= u < |ss| ==> r.value[u] == date(u + 1, ss[u])
  {
  }

  /** The loop that draws `alfa_caminhao` for trucks 1 to n. */
  method Factors(n: nat, late: bool, early: bool, alphas: int -> Unit) returns (factors: seq<real>)
    ensures |factors| == n
    ensures forall u :: 0 <= u < n ==> factors[u] == Alpha(late, early, alphas(u + 1))
  {
    factors := [];
    var t := 0;
    while t < n
      invariant t <= n && |factors| == t
      invariant forall u :: 0 <= u < t ==> factors[u] == Alpha(late, early, alphas(u + 1))
    {
      factors := factors + [Alpha(late, early, alphas(t + 1))];
      t := t + 1;
    }
  }

  /** The loop that dates each summary with its truck's factor. */
  method Dates(summaries: seq<Summary>, factors: seq<real>, deterministic: bool, spreads: int -> Unit)
      returns (dates: seq<int>)
    requires |factors| == |summaries|
    ensures |dates| == |summaries|
    ensures forall u :: 0 <= u < |summaries| ==>
      dates[u] == DateOf(summaries[u], deterministic, factors[u], spreads(u + 1))
  {
    dates := [];
    var t := 0;
    while t < |summaries|
      invariant t <= |summaries| && |dates| == t
      invariant forall u :: 0 <= u < t ==> dates[u] == DateOf(summaries[u], deterministic, factors[u], spreads(u + 1))
    {
      dates := dates + [DateOf(summaries[t], deterministic, factors[t], spreads(t + 1))];
      t := t + 1;
    }
  }

  /** `calcular_datas_entrega`: first the factors, then the summaries, then the dates. */
  method DueDates(tables: seq<Dict<int, Timing>>, trucks: seq<seq<int>>, deterministic: bool,
                  late: bool, early: bool, alphas: int -> Unit, spreads: int -> Unit)
      returns (r: Result<seq<int>>)
    ensures r == DueDatesOf(trucks, Summaries(tables), Dating(deterministic, late, early, alphas, spreads))
  {
    ghost var date := Dating(deterministic, late, early, alphas, spreads);
    var factors := Factors(|trucks|, late, early, alphas);
    var summaries := SummaryLoop(tables, trucks);
    if summaries.Failure? {
      return Failure(summaries.error);
    }
    var ss := summaries.value;
    var dates := Dates(ss, factors, deterministic, spreads);
    ghost var want := DueDatesOf(trucks, Summaries(tables), date);
    DueDatesOfSuccess(trucks, Summaries(tables), date);
    forall u | 0 <= u < |ss|
      ensures dates[u] == want.value[u]
    {
      assert date(u + 1, ss[u]) == DateOf(ss[u], deterministic, Alpha(late, early, alphas(u + 1)), spreads(u + 1));
    }
    assert dates == want.value;
    return Success(dates);
  }
}
