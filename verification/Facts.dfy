/**
 Canonical facts and the comparability rules every engine pass shares. Doubles
 are reals, days and timestamps are integers, flag words are sets of flags.
 */
module Facts {
  datatype MetricKind = UnknownKind | Flow | Instant | PerShareFlow | Ratio | DerivedKind
  datatype Semantics =
    | UnknownPeriod | FiscalQuarter | FiscalYtd | FiscalYear | Ttm | InstantPeriod | Stub | Transition | IrregularPeriod
  datatype Status = UnknownStatus | Selected | DerivedFact | Rejected | Superseded
  datatype Quality =
    | ExtensionTag | UnitConverted | AmendedFiling | Restatement | FiscalChange | MissingComparable | Stale
    | LowConfidence | PeriodYtd | PeriodFiscalYear | PeriodStub | PeriodIrregular | DurationMismatch
    | DurationNormalized | Derived | BasisTransition | DimensionalFact | AmbiguousCandidates | LowPrecision

  const REVENUE: int := 1
  const NET_INCOME: int := 2
  const EPS_DILUTED: int := 3
  const DILUTED_SHARES: int := 4
  const OPERATING_CASH_FLOW: int := 5
  const CAPEX: int := 6
  const CASH: int := 7
  const DEBT: int := 8
  const GROSS_PROFIT: int := 9
  const OPERATING_INCOME: int := 10
  const RESEARCH_AND_DEVELOPMENT: int := 11
  const STOCK_BASED_COMPENSATION: int := 12
  const INTEREST_EXPENSE: int := 13
  const BUYBACKS: int := 14

  datatype Fact = Fact(
    security: nat,
    metric: int,
    value: real,
    start: int,
    end: int,
    available: int,
    flags: set<Quality>,
    kind: MetricKind,
    semantics: Semantics,
    basis: int,
    status: Status,
    duration: nat,
    dimensions: int)

  datatype Security = Security(id: nat, investable: bool, price: real, adv: real)

  const MAX_SECURITIES: nat := 20000
  const MAX_FACTS: nat := 5000000

  ghost predicate ValidSecurities(ss: seq<Security>) {
    |ss| <= MAX_SECURITIES && forall s :: s in ss ==> s.id != 0
  }

  method CheckSecurities(ss: seq<Security>) returns (ok: bool)
    ensures ok <==> ValidSecurities(ss)
  {
    if |ss| > MAX_SECURITIES {
      return false;
    }
    for i := 0 to |ss|
      invariant forall k :: 0 <= k < i ==> ss[k].id != 0
    {
      if ss[i].id == 0 {
        assert ss[i] in ss;
        return false;
      }
    }
    ok := true;
  }

  predicate StatusUsable(s: Status) { s.Selected? || s.DerivedFact? }

  predicate RequiresDuration(metric: int) {
    metric in {REVENUE, NET_INCOME, EPS_DILUTED, OPERATING_CASH_FLOW, CAPEX, GROSS_PROFIT, OPERATING_INCOME,
               RESEARCH_AND_DEVELOPMENT, STOCK_BASED_COMPENSATION, INTEREST_EXPENSE, BUYBACKS}
  }

  predicate QuarterLike(days: nat) { 70 <= days <= 110 }

  predicate FlowKind(k: MetricKind) { k.Flow? || k.PerShareFlow? }

  predicate ModelComparable(f: Fact, metric: int) {
    && StatusUsable(f.status)
    && AmbiguousCandidates !in f.flags
    && if RequiresDuration(metric) then FlowKind(f.kind) && f.semantics.FiscalQuarter? && QuarterLike(f.duration)
       else f.kind.Instant? && f.semantics.InstantPeriod?
  }

  function Apart(a: int, b: int): int { if a > b then a - b else b - a }

  predicate Close(a: int, b: int, tolerance: int) { Apart(a, b) <= tolerance }

  predicate PeriodsComparable(a: Fact, b: Fact) {
    && a.kind == b.kind && a.semantics == b.semantics && a.basis == b.basis && a.dimensions == b.dimensions
    && a.duration != 0 && b.duration != 0 && Close(a.duration, b.duration, 7)
  }

  predicate FlowIdentity(a: Fact, b: Fact) {
    a.metric == b.metric && a.kind == b.kind && a.basis == b.basis && a.dimensions == b.dimensions
  }

  function Abs(x: real): real { if x < 0.0 then -x else x }

  function Clamp(x: real, low: real, high: real): real {
    if x < low then low else if x > high then high else x
  }

  const TINY: real := 0.000000000001

  /** The clock and the age limit of one engine call; a nonpositive limit or clock switches the limit off. */
  datatype Clock = Clock(now: int, maxAge: int)

  predicate TooOld(c: Clock, available: int) {
    c.maxAge > 0 && c.now > 0 && c.now - available > c.maxAge
  }
}

/**
 One-pass selection: scanning a sequence and replacing the candidate only when
 the new element is strictly newer keeps the first of the maxima.
 */
module Selection {
  import opened Wrappers
  import opened Ordering

  /** The element a scan of `xs` ends with when it replaces its candidate by every newer eligible element. */
  function Latest<T>(xs: seq<T>, ok: T -> bool, newer: (T, T) -> bool): Option<T> {
    if xs == [] then None
    else
      var x, r := xs[|xs| - 1], Latest(xs[..|xs| - 1], ok, newer);
      if ok(x) && (r.None? || newer(x, r.value)) then Some(x) else r
  }

  /** `newer` compares a key: it is irreflexive, and "not newer" is total and transitive. */
  ghost predicate Ranks<T(!new)>(newer: (T, T) -> bool) {
    && (forall x, y :: newer(x, y) ==> !newer(y, x))
    && (forall x, y, z :: newer(x, y) && !newer(z, y) ==> newer(x, z))
  }

  /** Position `i` is eligible, nothing eligible is newer, and everything eligible before it is older. */
  ghost predicate FirstMaximum<T(!new)>(xs: seq<T>, ok: T -> bool, newer: (T, T) -> bool, i: nat) {
    && i < |xs| && ok(xs[i])
    && (forall j :: 0 <= j < |xs| && ok(xs[j]) ==> !newer(xs[j], xs[i]))
    && (forall j :: 0 <= j < i && ok(xs[j]) ==> newer(xs[i], xs[j]))
  }

  /** The scan's answer, declaratively. */
  ghost predicate IsLatest<T(!new)>(xs: seq<T>, ok: T -> bool, newer: (T, T) -> bool, r: Option<T>) {
    match r
    case None => forall x :: x in xs ==> !ok(x)
    case Some(v) => exists i: nat :: FirstMaximum(xs, ok, newer, i) && xs[i] == v
  }

  lemma {:induction false} LatestIsFirstMaximum<T(!new)>(xs: seq<T>, ok: T -> bool, newer: (T, T) -> bool)
    requires Ranks(newer)
    ensures IsLatest(xs, ok, newer, Latest(xs, ok, newer))
  {
    if xs != [] {
      var n := |xs| - 1;
      var x, r := xs[n], Latest(xs[..n], ok, newer);
      LatestIsFirstMaximum(xs[..n], ok, newer);
      assert xs == xs[..n] + [x];
      if ok(x) && r.None? {
        assert forall j :: 0 <= j < n ==> xs[j] in xs[..n];
        assert FirstMaximum(xs, ok, newer, n);
      } else if r.Some? {
        var i: nat :| FirstMaximum(xs[..n], ok, newer, i) && xs[..n][i] == r.value;
        assert forall j :: 0 <= j < n ==> xs[..n][j] == xs[j];
        assert FirstMaximum(xs, ok, newer, if ok(x) && newer(x, r.value) then n else i);
      }
    }
  }

  lemma LatestStep<T>(xs: seq<T>, i: nat, ok: T -> bool, newer: (T, T) -> bool)
    requires i < |xs|
    ensures var r := Latest(xs[..i], ok, newer);
            Latest(xs[..i + 1], ok, newer) == if ok(xs[i]) && (r.None? || newer(xs[i], r.value)) then Some(xs[i]) else r
  {
    assert xs[..i + 1][..i] == xs[..i];
  }

  /** Only the elements of `xs` matter to which predicate decides. */
  lemma {:induction false} LatestCongruent<T>(xs: seq<T>, ok: T -> bool, ok': T -> bool, newer: (T, T) -> bool)
    requires forall x :: x in xs ==> ok(x) == ok'(x)
    ensures Latest(xs, ok, newer) == Latest(xs, ok', newer)
  {
    if xs != [] {
      var n := |xs| - 1;
      assert xs == xs[..n] + [xs[n]];
      assert forall x :: x in xs[..n] ==> x in xs;
      LatestCongruent(xs[..n], ok, ok', newer);
    }
  }

  /** The answer is an eligible element that no eligible element is newer than. */
  lemma LatestMember<T(!new)>(xs: seq<T>, ok: T -> bool, newer: (T, T) -> bool)
    requires Ranks(newer)
    ensures var r := Latest(xs, ok, newer);
            && (r.Some? ==> r.value in xs && ok(r.value))
            && (forall x :: x in xs && ok(x) ==> r.Some? && !newer(x, r.value))
  {
    LatestIsFirstMaximum(xs, ok, newer);
  }

  /** Without ties the answer does not depend on the scan order. */
  lemma LatestOrderFree<T(!new)>(xs: seq<T>, ys: seq<T>, ok: T -> bool, newer: (T, T) -> bool)
    requires Ranks(newer)
    requires forall x :: x in xs <==> x in ys
    requires forall x, y :: x in xs && y in xs && ok(x) && ok(y) && x != y ==> newer(x, y) || newer(y, x)
    ensures Latest(xs, ok, newer) == Latest(ys, ok, newer)
  {
    LatestIsFirstMaximum(xs, ok, newer);
    LatestIsFirstMaximum(ys, ok, newer);
    var a, b := Latest(xs, ok, newer), Latest(ys, ok, newer);
    assert a.Some? ==> a.value in xs && a.value in ys && ok(a.value);
    assert b.Some? ==> b.value in xs && b.value in ys && ok(b.value);
  }

  // ----- The scan order

  /** An eligible element that no eligible element is newer than. */
  ghost predicate Top<T(!new)>(xs: seq<T>, ok: T -> bool, newer: (T, T) -> bool, x: T) {
    x in xs && ok(x) && forall y :: y in xs && ok(y) ==> !newer(y, x)
  }

  ghost predicate OneTop<T(!new)>(xs: seq<T>, ok: T -> bool, newer: (T, T) -> bool) {
    forall x, y :: Top(xs, ok, newer, x) && Top(xs, ok, newer, y) ==> x == y
  }

  /** The scan ends with the same element in every order of `xs`. */
  ghost predicate AnyOrder<T(!new)>(xs: seq<T>, ok: T -> bool, newer: (T, T) -> bool) {
    forall ys :: multiset(ys) == multiset(xs) ==> Latest(ys, ok, newer) == Latest(xs, ok, newer)
  }

  /** Scanned first, a top element is the answer. */
  lemma TopFirst<T(!new)>(xs: seq<T>, ok: T -> bool, newer: (T, T) -> bool, x: T) returns (ys: seq<T>)
    requires Ranks(newer) && Top(xs, ok, newer, x)
    ensures multiset(ys) == multiset(xs) && Latest(ys, ok, newer) == Some(x)
  {
    var rest := MoveToFront(xs, x);
    ys := [x] + rest;
    MultisetMember(ys, xs);
    LatestIsFirstMaximum(ys, ok, newer);
    LatestMember(ys, ok, newer);
    assert ys[0] == x && x in xs;
    var i: nat :| FirstMaximum(ys, ok, newer, i) && ys[i] == Latest(ys, ok, newer).value;
    assert i == 0;
  }

  lemma OneTopSuffices<T(!new)>(xs: seq<T>, ys: seq<T>, ok: T -> bool, newer: (T, T) -> bool)
    requires Ranks(newer) && OneTop(xs, ok, newer) && multiset(ys) == multiset(xs)
    ensures Latest(ys, ok, newer) == Latest(xs, ok, newer)
  {
    MultisetMember(ys, xs);
    LatestMember(xs, ok, newer);
    LatestMember(ys, ok, newer);
    var a, b := Latest(xs, ok, newer), Latest(ys, ok, newer);
    if a.Some? {
      assert Top(xs, ok, newer, a.value) && Top(xs, ok, newer, b.value);
    }
  }

  /** The answer is the same in every scan order exactly when there is no second top element. */
  lemma LatestOrderFreeExactly<T(!new)>(xs: seq<T>, ok: T -> bool, newer: (T, T) -> bool)
    requires Ranks(newer)
    ensures AnyOrder(xs, ok, newer) <==> OneTop(xs, ok, newer)
  {
    if OneTop(xs, ok, newer) {
      forall ys | multiset(ys) == multiset(xs) ensures Latest(ys, ok, newer) == Latest(xs, ok, newer) {
        OneTopSuffices(xs, ys, ok, newer);
      }
    }
    if AnyOrder(xs, ok, newer) {
      forall x, y | Top(xs, ok, newer, x) && Top(xs, ok, newer, y) ensures x == y {
        var a := TopFirst(xs, ok, newer, x);
        var b := TopFirst(xs, ok, newer, y);
      }
    }
  }
}
