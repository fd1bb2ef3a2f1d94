/** Generated datasets: case ids, families of cases, and what a correctly labelled dataset measures. */
module Datasets {
  import opened Basics
  import opened JsonValue
  import opened Strategies
  import opened Metrics
  import opened Domination
  import opened Verdict

  /** The k-th value of a seeded generator; `RandInt(draw, k, n)` is `rng.randint(0, n)`. */
  type Draws = nat -> nat

  function RandInt(draw: Draws, k: nat, n: nat): (r: nat)
    ensures r <= n
  {
    draw(k) % (n + 1)
  }

  // ---------------------------------------------------------------- case ids

  function Digit(d: nat): char
    requires d < 10
  {
    ('0' as int + d) as char
  }

  /** `f"{n:03d}"` */
  function Pad3(n: nat): string {
    if n < 1000 then [Digit(n / 100), Digit(n / 10 % 10), Digit(n % 10)] else Pad3(n / 10) + [Digit(n % 10)]
  }

  function CaseId(prefix: string, i: nat): string {
    prefix + Pad3(i + 1)
  }

  /** Reads a padded number back. */
  function Value3(s: string): int
    requires |s| == 3
  {
    100 * (s[0] as int - '0' as int) + 10 * (s[1] as int - '0' as int) + (s[2] as int - '0' as int)
  }

  lemma Pad3Value(n: nat)
    requires n < 1000
    ensures Value3(Pad3(n)) == n
  {
    var q := n / 10;
    assert n == 10 * q + n % 10 && q == 10 * (q / 10) + q % 10 && q / 10 == n / 100;
  }

  /** What tells the families of a generator apart: the length of an id and its ninth character. */
  function Tag(id: string): (nat, char) {
    (|id|, if |id| > 8 then id[8] else ' ')
  }

  lemma CaseIdParts(prefix: string, i: nat, j: nat)
    requires i < 999 && j < 999 && |prefix| > 8
    ensures Tag(CaseId(prefix, i)) == (|prefix| + 3, prefix[8])
    ensures CaseId(prefix, i) == CaseId(prefix, j) ==> i == j
  {
    assert CaseId(prefix, i)[|prefix|..] == Pad3(i + 1);
    assert CaseId(prefix, j)[|prefix|..] == Pad3(j + 1);
    Pad3Value(i + 1);
    Pad3Value(j + 1);
  }

  // ---------------------------------------------------------------- families

  type Family = nat -> TestCase

  /** The first `n` cases of a family. */
  function Repeat(n: nat, f: Family): (cs: seq<TestCase>)
    ensures |cs| == n && forall i :: 0 <= i < n ==> cs[i] == f(i)
  {
    if n == 0 then [] else Repeat(n - 1, f) + [f(n - 1)]
  }

  /** The cases of two families, alternating. */
  function RepeatPairs(n: nat, f: Family, g: Family): (cs: seq<TestCase>)
    ensures |cs| == 2 * n && forall i :: 0 <= i < n ==> cs[2 * i] == f(i) && cs[2 * i + 1] == g(i)
  {
    if n == 0 then [] else RepeatPairs(n - 1, f, g) + [f(n - 1)] + [g(n - 1)]
  }

  lemma RepeatSnoc(before: seq<TestCase>, i: nat, f: Family, x: TestCase)
    requires x == f(i)
    ensures before + Repeat(i, f) + [x] == before + Repeat(i + 1, f)
  {
  }

  lemma RepeatPairsSnoc(before: seq<TestCase>, i: nat, f: Family, g: Family, x: TestCase, y: TestCase)
    requires x == f(i) && y == g(i)
    ensures before + RepeatPairs(i, f, g) + [x] + [y] == before + RepeatPairs(i + 1, f, g)
  {
    assert before + RepeatPairs(i, f, g) + [x] + [y] == before + (RepeatPairs(i, f, g) + [x] + [y]);
  }

  /** The i-th case of the family is numbered i + 1 under the prefix. */
  ghost predicate Numbered(f: Family, n: nat, prefix: string) {
    n <= 999 && forall i :: 0 <= i < n ==> f(i).caseId == CaseId(prefix, i)
  }

  ghost predicate TagsIn(cs: seq<TestCase>, tags: set<(nat, char)>) {
    forall i :: 0 <= i < |cs| ==> Tag(cs[i].caseId) in tags
  }

  ghost predicate Tagged(cs: seq<TestCase>, tags: set<(nat, char)>) {
    UniqueIds(cs) && TagsIn(cs, tags)
  }

  lemma RepeatTagged(n: nat, f: Family, prefix: string, tag: (nat, char))
    requires |prefix| > 8 && Numbered(f, n, prefix) && tag == (|prefix| + 3, prefix[8])
    ensures Tagged(Repeat(n, f), {tag})
  {
    var cs := Repeat(n, f);
    forall i | 0 <= i < n ensures Tag(cs[i].caseId) == (|prefix| + 3, prefix[8]) {
      CaseIdParts(prefix, i, i);
    }
    forall i, j | 0 <= i < j < n ensures cs[i].caseId != cs[j].caseId {
      CaseIdParts(prefix, i, j);
    }
  }

  lemma PairAt(n: nat, f: Family, g: Family, p: string, q: string, i: nat) returns (k: nat, first: bool)
    requires |p| > 8 && |q| > 8 && Numbered(f, n, p) && Numbered(g, n, q) && i < 2 * n
    ensures k < n && i == 2 * k + (if first then 0 else 1)
    ensures RepeatPairs(n, f, g)[i].caseId == CaseId(if first then p else q, k)
    ensures Tag(RepeatPairs(n, f, g)[i].caseId) == if first then (|p| + 3, p[8]) else (|q| + 3, q[8])
  {
    k, first := i / 2, i % 2 == 0;
    CaseIdParts(p, k, k);
    CaseIdParts(q, k, k);
    var cs := RepeatPairs(n, f, g);
    assert cs[2 * k] == f(k) && cs[2 * k + 1] == g(k);
  }

  lemma RepeatPairsTagged(n: nat, f: Family, g: Family, p: string, q: string, tags: set<(nat, char)>)
    requires |p| > 8 && |q| > 8 && Numbered(f, n, p) && Numbered(g, n, q) && |p| != |q|
    requires tags == {(|p| + 3, p[8]), (|q| + 3, q[8])}
    ensures Tagged(RepeatPairs(n, f, g), tags)
  {
    var cs := RepeatPairs(n, f, g);
    forall i | 0 <= i < |cs| ensures Tag(cs[i].caseId) in tags {
      var _, _ := PairAt(n, f, g, p, q, i);
    }
    forall i, j | 0 <= i < j < |cs| ensures cs[i].caseId != cs[j].caseId {
      var k, x := PairAt(n, f, g, p, q, i);
      var l, y := PairAt(n, f, g, p, q, j);
      if x == y { CaseIdParts(if x then p else q, k, l); }
    }
  }

  lemma TaggedAppend(a: seq<TestCase>, P: set<(nat, char)>, b: seq<TestCase>, Q: set<(nat, char)>)
    requires Tagged(a, P) && Tagged(b, Q) && P !! Q
    ensures Tagged(a + b, P + Q)
  {
    var cs := a + b;
    forall i, j | 0 <= i < j < |cs| ensures cs[i].caseId != cs[j].caseId {
      if i < |a| <= j {
        assert Tag(a[i].caseId) in P && Tag(b[j - |a|].caseId) in Q;
      }
    }
  }

  // ------------------------------------------------------- labels and metrics

  /** The label is what the strict strategy decides, and the weak baseline lets the case through. */
  ghost predicate Correct(domain: Domain, str: Printer, c: TestCase) {
    match Process(Strict(domain), str, c.input)
    case Raised => false
    case Ok(o) => o.decision == c.expected && Process(Weak(domain), str, c.input) == Ok(ACCEPT)
  }

  /** The strict strategy decides the case, and not as its label says. */
  ghost predicate Mislabelled(domain: Domain, str: Printer, c: TestCase) {
    match Process(Strict(domain), str, c.input)
    case Raised => false
    case Ok(o) => o.decision != c.expected
  }

  ghost function NotMislabelled(domain: Domain, str: Printer): TestCase -> bool {
    c => !Mislabelled(domain, str, c)
  }

  ghost function Judge(domain: Domain, str: Printer): TestCase -> bool {
    c => Correct(domain, str, c)
  }

  ghost predicate All(ok: TestCase -> bool, cs: seq<TestCase>) {
    forall i :: 0 <= i < |cs| ==> ok(cs[i])
  }

  ghost predicate AllCorrect(domain: Domain, str: Printer, cs: seq<TestCase>) {
    All(Judge(domain, str), cs)
  }

  ghost predicate Expects(cs: seq<TestCase>, d: Decision) {
    exists i :: 0 <= i < |cs| && cs[i].expected == d
  }

  lemma ConcatAll(ok: TestCase -> bool, a: seq<TestCase>, b: seq<TestCase>)
    ensures All(ok, a + b) <==> All(ok, a) && All(ok, b)
  {
    if All(ok, a + b) {
      assert forall i :: 0 <= i < |a| ==> (a + b)[i] == a[i];
      forall i | 0 <= i < |b| ensures ok(b[i]) { assert (a + b)[|a| + i] == b[i]; }
    }
  }

  lemma RepeatAll(ok: TestCase -> bool, n: nat, f: Family)
    ensures All(ok, Repeat(n, f)) <==> forall i :: 0 <= i < n ==> ok(f(i))
  {
    assert forall i :: 0 <= i < n ==> Repeat(n, f)[i] == f(i);
  }

  lemma SomeMislabelled(domain: Domain, str: Printer, cs: seq<TestCase>)
    requires !All(NotMislabelled(domain, str), cs)
    ensures exists i :: 0 <= i < |cs| && Mislabelled(domain, str, cs[i])
  {
    var i :| 0 <= i < |cs| && !NotMislabelled(domain, str)(cs[i]);
    assert Mislabelled(domain, str, cs[i]);
  }

  lemma RepeatMislabelled(domain: Domain, str: Printer, n: nat, f: Family)
    requires n > 0 && Mislabelled(domain, str, f(0))
    ensures !All(NotMislabelled(domain, str), Repeat(n, f))
  {
    assert Repeat(n, f)[0] == f(0);
  }

  lemma PairMislabelled(domain: Domain, str: Printer, n: nat, f: Family, g: Family)
    requires n > 0 && (Mislabelled(domain, str, f(0)) || Mislabelled(domain, str, g(0)))
    ensures !All(NotMislabelled(domain, str), RepeatPairs(n, f, g))
  {
    var cs := RepeatPairs(n, f, g);
    assert cs[2 * 0] == f(0) && cs[2 * 0 + 1] == g(0);
  }

  lemma RepeatCorrect(domain: Domain, str: Printer, n: nat, f: Family)
    requires forall i: nat :: Correct(domain, str, f(i))
    ensures AllCorrect(domain, str, Repeat(n, f))
  {
    forall i | 0 <= i < n ensures Judge(domain, str)(Repeat(n, f)[i]) { assert Correct(domain, str, f(i)); }
  }

  lemma {:induction false} RepeatPairsAll(ok: TestCase -> bool, n: nat, f: Family, g: Family)
    ensures All(ok, RepeatPairs(n, f, g)) <==> forall i :: 0 <= i < n ==> ok(f(i)) && ok(g(i))
  {
    if n == 0 {
    } else {
      var init := RepeatPairs(n - 1, f, g);
      RepeatPairsAll(ok, n - 1, f, g);
      ConcatAll(ok, init + [f(n - 1)], [g(n - 1)]);
      ConcatAll(ok, init, [f(n - 1)]);
      assert All(ok, [f(n - 1)]) <==> ok([f(n - 1)][0]);
      assert All(ok, [g(n - 1)]) <==> ok([g(n - 1)][0]);
    }
  }

  lemma ConcatExpects(a: seq<TestCase>, b: seq<TestCase>, d: Decision)
    ensures Expects(a + b, d) <==> Expects(a, d) || Expects(b, d)
  {
    var cs := a + b;
    if Expects(cs, d) {
      var i :| 0 <= i < |cs| && cs[i].expected == d;
      if i >= |a| { assert b[i - |a|].expected == d; }
    }
    if Expects(a, d) {
      var i :| 0 <= i < |a| && a[i].expected == d;
      assert cs[i].expected == d;
    }
    if Expects(b, d) {
      var i :| 0 <= i < |b| && b[i].expected == d;
      assert cs[|a| + i].expected == d;
    }
  }

  lemma RepeatExpects(n: nat, f: Family, d: Decision)
    requires forall i :: 0 <= i < n ==> f(i).expected == d
    ensures forall e :: Expects(Repeat(n, f), e) <==> n > 0 && e == d
  {
    var cs := Repeat(n, f);
    if n > 0 { assert cs[0].expected == d; }
  }

  lemma PairsExpect(n: nat, f: Family, g: Family)
    requires forall i :: 0 <= i < n ==> f(i).expected == Accepted && g(i).expected == Blocked
    ensures forall e :: Expects(RepeatPairs(n, f, g), e) <==> n > 0
  {
    var cs := RepeatPairs(n, f, g);
    if n > 0 {
      assert cs[2 * 0].expected == Accepted && cs[2 * 0 + 1].expected == Blocked;
    }
  }

  lemma {:induction false} CountNone<T>(p: T -> bool, s: seq<T>)
    requires forall i :: 0 <= i < |s| ==> !p(s[i])
    ensures Count(p, s) == 0
  {
    if s == [] {
    } else {
      CountNone(p, s[..|s| - 1]);
    }
  }

  /** A baseline that accepts everything blocks nothing and rejects nothing valid. */
  lemma AcceptAllRates(scored: seq<Scored>, results: seq<CaseResult>)
    requires forall i :: 0 <= i < |scored| ==> scored[i].result.decision == Accepted
    ensures var m := Rates(scored, results);
      m.blockRate == 0.0 && m.falsePositive == 0.0
  {
    CountNone(TRUE_POSITIVE, scored);
    CountNone(FALSE_POSITIVE, scored);
    RateOfNone(Count(SHOULD_BLOCK, scored));
    RateOfNone(Count(SHOULD_ACCEPT, scored));
  }

  lemma RateOfNone(whole: nat)
    ensures SafeRate(0, whole) == 0.0
  {
  }

  /** A strategy that decides every label right misses nothing and raises no false alarm. */
  lemma PerfectRates(scored: seq<Scored>, results: seq<CaseResult>)
    requires forall i :: 0 <= i < |scored| ==> scored[i].result.decision == scored[i].expected
    ensures var m := Rates(scored, results);
      && m.falsePositive == 0.0 && m.falseNegative == 0.0
      && m.blockRate == (if Count(SHOULD_BLOCK, scored) > 0 then 1.0 else 0.0)
      && m.validAcceptance == (if Count(SHOULD_ACCEPT, scored) > 0 then 1.0 else 0.0)
  {
    CountNone(FALSE_POSITIVE, scored);
    CountNone(FALSE_NEGATIVE, scored);
    RateOfNone(Count(SHOULD_BLOCK, scored));
    RateOfNone(Count(SHOULD_ACCEPT, scored));
    ComplementaryRates(scored, results);
  }

  lemma CountExpects(scored: seq<Scored>, results: seq<CaseResult>, cases: seq<TestCase>)
    requires |results| == |cases| && scored == AllScored(results, cases)
    ensures Count(SHOULD_BLOCK, scored) > 0 <==> Expects(cases, Blocked)
    ensures Count(SHOULD_ACCEPT, scored) > 0 <==> Expects(cases, Accepted)
  {
    if Expects(cases, Blocked) {
      var i :| 0 <= i < |cases| && cases[i].expected == Blocked;
      CountPositive(SHOULD_BLOCK, scored, i);
    } else {
      CountNone(SHOULD_BLOCK, scored);
    }
    if Expects(cases, Accepted) {
      var i :| 0 <= i < |cases| && cases[i].expected == Accepted;
      CountPositive(SHOULD_ACCEPT, scored, i);
    } else {
      CountNone(SHOULD_ACCEPT, scored);
    }
  }

  /** The baseline and mitigation metrics of a correctly labelled dataset. */
  lemma CorrectRates(domain: Domain, str: Printer, cases: seq<TestCase>, bl: seq<real>, ml: seq<real>)
    requires UniqueIds(cases) && AllCorrect(domain, str, cases) && |bl| == |cases| == |ml|
    ensures var base, mit := RunMetrics(Weak(domain), str, cases, bl), RunMetrics(Strict(domain), str, cases, ml);
      && base.Ok? && base.value.blockRate == 0.0 && base.value.falsePositive == 0.0
      && mit.Ok? && mit.value.falsePositive == 0.0 && mit.value.falseNegative == 0.0
      && mit.value.blockRate == (if Expects(cases, Blocked) then 1.0 else 0.0)
      && mit.value.validAcceptance == (if Expects(cases, Accepted) then 1.0 else 0.0)
  {
    var weak, strict := ExecuteMode(Weak(domain), str, cases, bl), ExecuteMode(Strict(domain), str, cases, ml);
    var base, mit := AllScored(weak, cases), AllScored(strict, cases);
    assert forall i :: 0 <= i < |cases| ==> Judge(domain, str)(cases[i]) && Correct(domain, str, cases[i]);
    CleanRun(Weak(domain), str, cases, bl, base);
    CleanRun(Strict(domain), str, cases, ml, mit);
    AcceptAllRates(base, weak);
    PerfectRates(mit, strict);
    CountExpects(mit, strict, cases);
  }

  lemma PerfectVerdict(total: nat, base: Metrics, mit: Metrics, accepts: bool, blocks: bool)
    requires base.blockRate == 0.0 && mit.falsePositive == 0.0 && mit.falseNegative == 0.0
    requires mit.blockRate == (if blocks then 1.0 else 0.0)
    requires mit.validAcceptance == (if accepts then 1.0 else 0.0)
    ensures var c := Compare(total, base, mit);
      LabelOf(c, None, DEFAULTS) == Effective <==> total >= 5 && accepts && blocks && mit.meanLatency - base.meanLatency <= 100.0
  {
  }

  /** End to end on a correctly labelled dataset: run both strategies, measure, compare, judge. The
      verdict is effective exactly when there are five cases, both kinds of expectation occur, and
      the mitigation costs at most 100 ms more. */
  lemma CorrectVerdict(domain: Domain, str: Printer, cases: seq<TestCase>, bl: seq<real>, ml: seq<real>)
    returns (base: Result<Metrics>, mit: Result<Metrics>)
    requires UniqueIds(cases) && AllCorrect(domain, str, cases) && |bl| == |cases| == |ml|
    ensures base == RunMetrics(Weak(domain), str, cases, bl) && mit == RunMetrics(Strict(domain), str, cases, ml)
    ensures base.Ok? && mit.Ok?
    ensures var c := Compare(|cases|, base.value, mit.value);
      LabelOf(c, None, DEFAULTS) == Effective <==>
        && |cases| >= 5 && Expects(cases, Accepted) && Expects(cases, Blocked) && mit.value.meanLatency - base.value.meanLatency <= 100.0
  {
    base, mit := RunMetrics(Weak(domain), str, cases, bl), RunMetrics(Strict(domain), str, cases, ml);
    CorrectRates(domain, str, cases, bl, ml);
    PerfectVerdict(|cases|, base.value, mit.value, Expects(cases, Accepted), Expects(cases, Blocked));
  }
}
