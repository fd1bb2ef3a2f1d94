/** The labels of generated VPN cases against the strict strategy, and the run they lead to. */
module VpnLabels {
  import opened Basics
  import opened JsonValue
  import opened Strategies
  import opened Metrics
  import opened Domination
  import opened Verdict
  import opened Datasets
  import opened VpnGenerator

  lemma HostHeader(str: Printer)
    ensures Keys([HOST]) == [Str("Host")]
    ensures !AnyTooLong(str, [HOST], MAX_HEADER_VALUE_LENGTH)
  {
    assert Keys([HOST][1..]) == [];
  }

  lemma RequestFields(verb: string, path: string, headers: seq<Json>, declared: int, actual: int, encoding: string)
    ensures var q := Request(verb, path, headers, declared, actual, encoding);
      && Get(q, "method") == Str(verb) && Get(q, "path") == Str(path) && Get(q, "headers") == List(headers)
      && Get(q, "declared_content_length") == Int(declared) && Get(q, "actual_body_length") == Int(actual)
      && Get(q, "encoding") == Str(encoding) && Get(q, "query_params") == Null
  {
  }

  predicate BadRequest(path: string, declared: int, actual: int, encoding: string) {
    || |path| > MAX_PATH_LENGTH || declared < 0 || declared > MAX_VPN_BODY_LENGTH || declared != actual
    || (encoding != "utf-8" && encoding != "ascii") || FailsPath(path)
  }

  /** What both strategies make of a request with the one standard header. */
  lemma PlainDecision(str: Printer, verb: string, path: string, declared: int, actual: int, encoding: string)
    requires verb != "" && path != ""
    ensures var q := Request(verb, path, [HOST], declared, actual, encoding);
      && WeakVpn(q) == Ok(ACCEPT)
      && StrictVpn(str, q) == Ok(if BadRequest(path, declared, actual, encoding) then BLOCK else ACCEPT)
  {
    RequestFields(verb, path, [HOST], declared, actual, encoding);
    HostHeader(str);
  }

  lemma DuplicateDecision(str: Printer)
    ensures var q := Request("GET", "/remote/login", [HOST, OTHER_HOST], 0, 0, "utf-8");
      WeakVpn(q) == Ok(ACCEPT) && StrictVpn(str, q) == Ok(BLOCK)
  {
    RequestFields("GET", "/remote/login", [HOST, OTHER_HOST], 0, 0, "utf-8");
    var headers := [HOST, OTHER_HOST];
    assert headers[1..] == [OTHER_HOST] && [OTHER_HOST][1..] == [];
    assert Keys([OTHER_HOST]) == [Str("Host")] + Keys([]);
    assert Keys(headers) == [Str("Host")] + Keys(headers[1..]);
    assert Same(Keys(headers)[0], Keys(headers)[1]);
  }

  lemma MarkerHead(path: string, i: nat, marker: string)
    requires StartsAt(Lower(path), i, marker) && marker != "" && (marker[0] == '.' || marker[0] == '%')
    ensures i < |path| && path[i] == marker[0]
  {
    assert Lower(path)[i] == Lower(path)[i..i + |marker|][0];
  }

  /** Without dots and percent signs no traversal marker can occur. */
  lemma CleanPath(path: string)
    requires forall i :: 0 <= i < |path| ==> path[i] != '.' && path[i] != '%'
    ensures !FailsPath(path)
  {
    forall m | 0 <= m < |PATH_TRAVERSAL_MARKERS| ensures !Contains(Lower(path), PATH_TRAVERSAL_MARKERS[m]) {
      var marker := PATH_TRAVERSAL_MARKERS[m];
      assert marker[0] == '.' || marker[0] == '%';
      forall i | 0 <= i <= |path| ensures !StartsAt(Lower(path), i, marker) {
        if StartsAt(Lower(path), i, marker) { MarkerHead(path, i, marker); }
      }
    }
  }

  lemma MarkedPath(path: string, m: nat, at: nat)
    requires m < |PATH_TRAVERSAL_MARKERS| && at <= |path|
    requires StartsAt(Lower(path), at, PATH_TRAVERSAL_MARKERS[m])
    ensures FailsPath(path)
  {
    assert Contains(Lower(path), PATH_TRAVERSAL_MARKERS[m]);
  }

  lemma ValidPath(k: nat)
    requires k < 4
    ensures VALID_PATHS[k] != "" && |VALID_PATHS[k]| <= 256 && !FailsPath(VALID_PATHS[k])
  {
    var path := VALID_PATHS[k];
    assert forall i :: 0 <= i < |path| ==> path[i] != '.' && path[i] != '%';
    CleanPath(path);
  }

  lemma PaddedPath(n: int)
    ensures |Padded(n)| == 8 + (if n <= 0 then 0 else n) && !FailsPath(Padded(n))
  {
    CleanPath(Padded(n));
  }

  lemma TraversalPath(k: nat)
    requires k < 3
    ensures PATH_TRAVERSAL_PATTERNS[k] != "" && FailsPath(PATH_TRAVERSAL_PATTERNS[k])
  {
    if k == 0 {
      DotsPattern();
    } else if k == 1 {
      EncodedDotsPattern();
    } else {
      NulPattern();
    }
  }

  /** A marker has no upper-case letters, so it survives lower-casing. */
  lemma LowerKeeps(path: string, at: nat, marker: string)
    requires StartsAt(path, at, marker) && forall i :: 0 <= i < |marker| ==> LowerChar(marker[i]) == marker[i]
    ensures StartsAt(Lower(path), at, marker)
  {
    forall i | 0 <= i < |marker| ensures Lower(path)[at + i] == marker[i] {
      assert path[at..at + |marker|][i] == path[at + i];
    }
    assert Lower(path)[at..at + |marker|] == marker;
  }

  lemma DotsPattern()
    ensures FailsPath("/remote/../../internal/synthetic-config")
  {
    var path := "/remote/../../internal/synthetic-config";
    assert path[8] == '.' && path[9] == '.';
    assert path[8..10] == "..";
    LowerKeeps(path, 8, "..");
    MarkedPath(path, 0, 8);
  }

  lemma EncodedDotsPattern()
    ensures FailsPath("/remote/%2e%2e/%2e%2e/internal/synthetic-config")
  {
    var path := "/remote/%2e%2e/%2e%2e/internal/synthetic-config";
    assert path[8] == '%' && path[9] == '2' && path[10] == 'e';
    assert path[11] == '%' && path[12] == '2' && path[13] == 'e';
    assert path[8..14] == "%2e%2e";
    LowerKeeps(path, 8, "%2e%2e");
    MarkedPath(path, 1, 8);
  }

  lemma NulPattern()
    ensures FailsPath("/remote/login%00.synthetic")
  {
    var path := "/remote/login%00.synthetic";
    assert path[13] == '%' && path[14] == path[15] == '0';
    assert path[13..16] == "%00";
    LowerKeeps(path, 13, "%00");
    MarkedPath(path, 2, 13);
  }

  // ------------------------------------------------------- family by family

  lemma ValidCorrect(str: Printer, draw: Draws, i: nat)
    ensures Correct(Vpn, str, ValidCase(draw, i))
  {
    ValidPath(i % 4);
    PlainDecision(str, if RandInt(draw, i, 1) == 0 then "GET" else "POST", VALID_PATHS[i % 4], 0, 0, "utf-8");
  }

  lemma PaddedDecision(str: Printer, n: int)
    requires n >= -8
    ensures var q := BaseRequest(Padded(n));
      WeakVpn(q) == Ok(ACCEPT) && StrictVpn(str, q) == Ok(if n > 248 then BLOCK else ACCEPT)
  {
    PaddedPath(n);
    PlainDecision(str, "GET", Padded(n), 0, 0, "utf-8");
  }

  lemma AtLimitCorrect(str: Printer, g: Config, i: nat)
    ensures Correct(Vpn, str, AtLimit(g, i)) <==> g.maxPathLength <= 256
    ensures Mislabelled(Vpn, str, AtLimit(g, i)) <==> g.maxPathLength > 256
  {
    PaddedDecision(str, g.maxPathLength - 8);
  }

  lemma OverLimitCorrect(str: Printer, g: Config, i: nat)
    ensures Correct(Vpn, str, OverLimit(g, i)) <==> g.maxPathLength >= 256
    ensures Mislabelled(Vpn, str, OverLimit(g, i)) <==> g.maxPathLength < 256
  {
    PaddedDecision(str, g.maxPathLength - 8 + 1);
  }

  lemma LoginPath()
    ensures !FailsPath("/remote/login")
  {
    var path := "/remote/login";
    assert forall i :: 0 <= i < |path| ==> path[i] != '.' && path[i] != '%';
    CleanPath(path);
  }

  lemma OversizedCorrect(str: Printer, g: Config, draw: Draws, i: nat)
    ensures Correct(Vpn, str, Oversized(g, draw, i)) <==> OversizedLength(g, draw, i) > 8192
    ensures Mislabelled(Vpn, str, Oversized(g, draw, i)) <==> OversizedLength(g, draw, i) <= 8192
  {
    LoginPath();
    var n := OversizedLength(g, draw, i);
    PlainDecision(str, "GET", "/remote/login", n, n, "utf-8");
  }

  lemma DuplicateCorrect(str: Printer, i: nat)
    ensures Correct(Vpn, str, DuplicateField(i))
  {
    DuplicateDecision(str);
  }

  lemma MismatchedCorrect(str: Printer, g: Config, draw: Draws, i: nat)
    ensures Correct(Vpn, str, Mismatched(g, draw, i))
  {
    PlainDecision(str, "GET", "/remote/login", 42,
                  42 + 100 + RandInt(draw, g.validCount + g.oversizedCount + i, 500), "utf-8");
  }

  lemma EncodingCorrect(str: Printer, i: nat)
    ensures Correct(Vpn, str, BadEncoding(i))
  {
    PlainDecision(str, "GET", "/remote/login", 0, 0, UNSUPPORTED_ENCODINGS[i % 3]);
  }

  lemma InvalidPathCorrect(str: Printer, i: nat)
    ensures Correct(Vpn, str, InvalidPath(i))
  {
    TraversalPath(i % 3);
    PlainDecision(str, "GET", PATH_TRAVERSAL_PATTERNS[i % 3], 0, 0, "utf-8");
  }

  // ------------------------------------------------------------- the dataset

  /** When the labels are right for every seed: the limits the boundary and oversized cases are built
      around must be the strategy's own. */
  predicate Fits(g: Config) {
    && (g.boundaryCount > 0 ==> g.maxPathLength == 256)
    && (g.oversizedCount > 0 ==> g.maxBodyLength >= 8192)
  }

  lemma BoundaryAllCorrect(str: Printer, g: Config)
    ensures AllCorrect(Vpn, str, RepeatPairs(g.boundaryCount, AtLimits(g), OverLimits(g)))
      <==> (g.boundaryCount > 0 ==> g.maxPathLength == 256)
  {
    var ok := Judge(Vpn, str);
    forall i: nat
      ensures ok(AtLimits(g)(i)) <==> g.maxPathLength <= 256
      ensures ok(OverLimits(g)(i)) <==> g.maxPathLength >= 256
    {
      AtLimitCorrect(str, g, i);
      OverLimitCorrect(str, g, i);
    }
    RepeatPairsAll(ok, g.boundaryCount, AtLimits(g), OverLimits(g));
    if g.boundaryCount > 0 { assert ok(AtLimits(g)(0)) <==> g.maxPathLength <= 256; }
  }

  function OversizedLength(g: Config, draw: Draws, i: nat): nat {
    g.maxBodyLength + 1 + RandInt(draw, g.validCount + i, 1000)
  }

  /** Every oversized body the seed produces exceeds the strategy's limit. */
  ghost predicate ReallyOversized(g: Config, draw: Draws) {
    forall i :: 0 <= i < g.oversizedCount ==> OversizedLength(g, draw, i) > 8192
  }

  lemma OversizedAllCorrect(str: Printer, g: Config, draw: Draws)
    ensures AllCorrect(Vpn, str, Repeat(g.oversizedCount, Oversizeds(g, draw))) <==> ReallyOversized(g, draw)
  {
    var ok := Judge(Vpn, str);
    forall i: nat ensures ok(Oversizeds(g, draw)(i)) <==> OversizedLength(g, draw, i) > 8192 {
      OversizedCorrect(str, g, draw, i);
    }
    RepeatAll(ok, g.oversizedCount, Oversizeds(g, draw));
  }

  lemma ValidFamilyCorrect(str: Printer, g: Config, draw: Draws)
    ensures AllCorrect(Vpn, str, Repeat(g.validCount, ValidCases(draw)))
  {
    forall i: nat ensures Correct(Vpn, str, ValidCases(draw)(i)) { ValidCorrect(str, draw, i); }
    RepeatCorrect(Vpn, str, g.validCount, ValidCases(draw));
  }

  lemma DuplicateFamilyCorrect(str: Printer, g: Config)
    ensures AllCorrect(Vpn, str, Repeat(g.duplicateCount, DuplicateFields()))
  {
    forall i: nat ensures Correct(Vpn, str, DuplicateFields()(i)) { DuplicateCorrect(str, i); }
    RepeatCorrect(Vpn, str, g.duplicateCount, DuplicateFields());
  }

  lemma MismatchedFamilyCorrect(str: Printer, g: Config, draw: Draws)
    ensures AllCorrect(Vpn, str, Repeat(g.mismatchedCount, Mismatcheds(g, draw)))
  {
    forall i: nat ensures Correct(Vpn, str, Mismatcheds(g, draw)(i)) { MismatchedCorrect(str, g, draw, i); }
    RepeatCorrect(Vpn, str, g.mismatchedCount, Mismatcheds(g, draw));
  }

  lemma EncodingFamilyCorrect(str: Printer, g: Config)
    ensures AllCorrect(Vpn, str, Repeat(g.encodingCount, BadEncodings()))
  {
    forall i: nat ensures Correct(Vpn, str, BadEncodings()(i)) { EncodingCorrect(str, i); }
    RepeatCorrect(Vpn, str, g.encodingCount, BadEncodings());
  }

  lemma PathFamilyCorrect(str: Printer, g: Config)
    ensures AllCorrect(Vpn, str, Repeat(g.invalidPathCount, InvalidPaths()))
  {
    forall i: nat ensures Correct(Vpn, str, InvalidPaths()(i)) { InvalidPathCorrect(str, i); }
    RepeatCorrect(Vpn, str, g.invalidPathCount, InvalidPaths());
  }

  lemma ChainAll(ok: TestCase -> bool, c1: seq<TestCase>, c2: seq<TestCase>, c3: seq<TestCase>, c4: seq<TestCase>,
                 c5: seq<TestCase>, c6: seq<TestCase>, c7: seq<TestCase>)
    ensures All(ok, c1 + c2 + c3 + c4 + c5 + c6 + c7) <==>
      All(ok, c1) && All(ok, c2) && All(ok, c3) && All(ok, c4) && All(ok, c5) && All(ok, c6) && All(ok, c7)
  {
    ConcatAll(ok, c1, c2);
    ConcatAll(ok, c1 + c2, c3);
    ConcatAll(ok, c1 + c2 + c3, c4);
    ConcatAll(ok, c1 + c2 + c3 + c4, c5);
    ConcatAll(ok, c1 + c2 + c3 + c4 + c5, c6);
    ConcatAll(ok, c1 + c2 + c3 + c4 + c5 + c6, c7);
  }

  lemma CasesAll(ok: TestCase -> bool, g: Config, draw: Draws)
    ensures All(ok, Cases(g, draw)) <==>
      && All(ok, Repeat(g.validCount, ValidCases(draw)))
      && All(ok, RepeatPairs(g.boundaryCount, AtLimits(g), OverLimits(g)))
      && All(ok, Repeat(g.oversizedCount, Oversizeds(g, draw)))
      && All(ok, Repeat(g.duplicateCount, DuplicateFields()))
      && All(ok, Repeat(g.mismatchedCount, Mismatcheds(g, draw)))
      && All(ok, Repeat(g.encodingCount, BadEncodings()))
      && All(ok, Repeat(g.invalidPathCount, InvalidPaths()))
  {
    ChainAll(ok, Repeat(g.validCount, ValidCases(draw)), RepeatPairs(g.boundaryCount, AtLimits(g), OverLimits(g)),
             Repeat(g.oversizedCount, Oversizeds(g, draw)), Repeat(g.duplicateCount, DuplicateFields()),
             Repeat(g.mismatchedCount, Mismatcheds(g, draw)), Repeat(g.encodingCount, BadEncodings()),
             Repeat(g.invalidPathCount, InvalidPaths()));
  }

  /** For one seed, the labels are right exactly when the boundary sits at the strategy's limit and
      every oversized body really exceeds it. */
  lemma LabelsReduce(str: Printer, g: Config, draw: Draws)
    ensures AllCorrect(Vpn, str, Cases(g, draw)) <==>
      (g.boundaryCount > 0 ==> g.maxPathLength == 256) && ReallyOversized(g, draw)
  {
    ValidFamilyCorrect(str, g, draw);
    DuplicateFamilyCorrect(str, g);
    MismatchedFamilyCorrect(str, g, draw);
    EncodingFamilyCorrect(str, g);
    PathFamilyCorrect(str, g);
    BoundaryAllCorrect(str, g);
    OversizedAllCorrect(str, g, draw);
    CasesAll(Judge(Vpn, str), g, draw);
  }

  lemma FitsMeansOversized(g: Config, draw: Draws)
    ensures (g.oversizedCount > 0 ==> g.maxBodyLength >= 8192) ==> ReallyOversized(g, draw)
    ensures ReallyOversized(g, draw) && RandInt(draw, g.validCount, 1000) == 0 ==>
      (g.oversizedCount > 0 ==> g.maxBodyLength >= 8192)
  {
    if g.oversizedCount > 0 && ReallyOversized(g, draw) {
      assert OversizedLength(g, draw, 0) > 8192;
    }
  }

  /** Under fitting limits every label is the strict strategy's decision, for every seed, no strategy
      raises, and the baseline accepts every case. */
  lemma LabelsCorrect(str: Printer, g: Config, draw: Draws)
    requires Fits(g)
    ensures AllCorrect(Vpn, str, Cases(g, draw))
  {
    LabelsReduce(str, g, draw);
    FitsMeansOversized(g, draw);
  }

  lemma BoundaryMislabelled(str: Printer, g: Config)
    requires g.boundaryCount > 0 && g.maxPathLength != 256
    ensures !All(NotMislabelled(Vpn, str), RepeatPairs(g.boundaryCount, AtLimits(g), OverLimits(g)))
  {
    if g.maxPathLength > 256 { AtLimitCorrect(str, g, 0); } else { OverLimitCorrect(str, g, 0); }
    PairMislabelled(Vpn, str, g.boundaryCount, AtLimits(g), OverLimits(g));
  }

  lemma OversizedMislabelled(str: Printer, g: Config, draw: Draws)
    requires g.oversizedCount > 0 && OversizedLength(g, draw, 0) <= 8192
    ensures !All(NotMislabelled(Vpn, str), Repeat(g.oversizedCount, Oversizeds(g, draw)))
  {
    OversizedCorrect(str, g, draw, 0);
    RepeatMislabelled(Vpn, str, g.oversizedCount, Oversizeds(g, draw));
  }

  lemma PartFails(ok: TestCase -> bool, g: Config, draw: Draws)
    requires !All(ok, RepeatPairs(g.boundaryCount, AtLimits(g), OverLimits(g)))
             || !All(ok, Repeat(g.oversizedCount, Oversizeds(g, draw)))
    ensures !All(ok, Cases(g, draw))
  {
    CasesAll(ok, g, draw);
  }

  lemma ZeroIsTooShort(g: Config, draw: Draws)
    requires !Fits(g) && !(g.boundaryCount > 0 && g.maxPathLength != 256) && forall k :: draw(k) == 0
    ensures g.oversizedCount > 0 && OversizedLength(g, draw, 0) <= 8192
  {
  }

  lemma WrongAtZero(str: Printer, g: Config, draw: Draws)
    requires !Fits(g) && forall k :: draw(k) == 0
    ensures !All(NotMislabelled(Vpn, str), Cases(g, draw))
  {
    if g.boundaryCount > 0 && g.maxPathLength != 256 {
      BoundaryMislabelled(str, g);
    } else {
      ZeroIsTooShort(g, draw);
      OversizedMislabelled(str, g, draw);
    }
    PartFails(NotMislabelled(Vpn, str), g, draw);
  }

  /** Otherwise some stream of draws, the one of all zeros, gives a case whose label is not the strict
      strategy's decision. */
  lemma LabelsWrong(str: Printer, g: Config) returns (draw: Draws)
    requires !Fits(g)
    ensures exists i :: 0 <= i < |Cases(g, draw)| && Mislabelled(Vpn, str, Cases(g, draw)[i])
  {
    draw := (k: nat) => 0;
    WrongAtZero(str, g, draw);
    SomeMislabelled(Vpn, str, Cases(g, draw));
  }

  lemma ChainExpects(c1: seq<TestCase>, c2: seq<TestCase>, c3: seq<TestCase>, c4: seq<TestCase>,
                     c5: seq<TestCase>, c6: seq<TestCase>, c7: seq<TestCase>, d: Decision)
    ensures Expects(c1 + c2 + c3 + c4 + c5 + c6 + c7, d) <==>
      || Expects(c1, d) || Expects(c2, d) || Expects(c3, d) || Expects(c4, d)
      || Expects(c5, d) || Expects(c6, d) || Expects(c7, d)
  {
    ConcatExpects(c1, c2, d);
    ConcatExpects(c1 + c2, c3, d);
    ConcatExpects(c1 + c2 + c3, c4, d);
    ConcatExpects(c1 + c2 + c3 + c4, c5, d);
    ConcatExpects(c1 + c2 + c3 + c4 + c5, c6, d);
    ConcatExpects(c1 + c2 + c3 + c4 + c5 + c6, c7, d);
  }

  function Total(g: Config): nat {
    g.validCount + 2 * g.boundaryCount + MalformedTotal(g)
  }

  function MalformedTotal(g: Config): nat {
    g.oversizedCount + g.duplicateCount + g.mismatchedCount + g.encodingCount + g.invalidPathCount
  }

  /** Which expectations a configuration produces, and how many cases. */
  lemma Composition(g: Config, draw: Draws)
    ensures |Cases(g, draw)| == Total(g)
    ensures Expects(Cases(g, draw), Accepted) <==> g.validCount + g.boundaryCount > 0
    ensures Expects(Cases(g, draw), Blocked) <==> g.boundaryCount + MalformedTotal(g) > 0
  {
    RepeatExpects(g.validCount, ValidCases(draw), Accepted);
    PairsExpect(g.boundaryCount, AtLimits(g), OverLimits(g));
    RepeatExpects(g.oversizedCount, Oversizeds(g, draw), Blocked);
    RepeatExpects(g.duplicateCount, DuplicateFields(), Blocked);
    RepeatExpects(g.mismatchedCount, Mismatcheds(g, draw), Blocked);
    RepeatExpects(g.encodingCount, BadEncodings(), Blocked);
    RepeatExpects(g.invalidPathCount, InvalidPaths(), Blocked);
    ComposeExpects(g, draw, Accepted);
    ComposeExpects(g, draw, Blocked);
  }

  lemma ComposeExpects(g: Config, draw: Draws, d: Decision)
    ensures Expects(Cases(g, draw), d) <==>
      || Expects(Repeat(g.validCount, ValidCases(draw)), d)
      || Expects(RepeatPairs(g.boundaryCount, AtLimits(g), OverLimits(g)), d)
      || Expects(Repeat(g.oversizedCount, Oversizeds(g, draw)), d)
      || Expects(Repeat(g.duplicateCount, DuplicateFields()), d)
      || Expects(Repeat(g.mismatchedCount, Mismatcheds(g, draw)), d)
      || Expects(Repeat(g.encodingCount, BadEncodings()), d)
      || Expects(Repeat(g.invalidPathCount, InvalidPaths()), d)
  {
    ChainExpects(Repeat(g.validCount, ValidCases(draw)), RepeatPairs(g.boundaryCount, AtLimits(g), OverLimits(g)),
                 Repeat(g.oversizedCount, Oversizeds(g, draw)), Repeat(g.duplicateCount, DuplicateFields()),
                 Repeat(g.mismatchedCount, Mismatcheds(g, draw)), Repeat(g.encodingCount, BadEncodings()),
                 Repeat(g.invalidPathCount, InvalidPaths()), d);
  }

  /** End to end, for every seed and every fitting configuration: generate, run the baseline and the
      mitigation, measure, compare and judge. The baseline blocks nothing, the mitigation makes no
      mistake, and the verdict is effective exactly when the configuration has five cases, some to
      accept and some to block, and the mitigation costs at most 100 ms. */
  lemma VpnEndToEnd(str: Printer, g: Config, draw: Draws, bl: seq<real>, ml: seq<real>)
    returns (base: Result<Metrics>, mit: Result<Metrics>)
    requires ValidConfig(g) && Fits(g) && |bl| == Total(g) == |ml|
    ensures |Cases(g, draw)| == Total(g)
    ensures base == RunMetrics(Weak(Vpn), str, Cases(g, draw), bl)
    ensures mit == RunMetrics(Strict(Vpn), str, Cases(g, draw), ml)
    ensures base.Ok? && mit.Ok?
    ensures base.value.blockRate == 0.0 && mit.value.falsePositive == 0.0 && mit.value.falseNegative == 0.0
    ensures g.boundaryCount + MalformedTotal(g) > 0 ==> mit.value.blockRate == 1.0
    ensures var c := Compare(Total(g), base.value, mit.value);
      LabelOf(c, None, DEFAULTS) == Effective <==>
        && Total(g) >= 5 && g.validCount + g.boundaryCount > 0 && g.boundaryCount + MalformedTotal(g) > 0
        && mit.value.meanLatency - base.value.meanLatency <= 100.0
  {
    CaseIdsUnique(g, draw);
    LabelsCorrect(str, g, draw);
    Composition(g, draw);
    CorrectRates(Vpn, str, Cases(g, draw), bl, ml);
    base, mit := CorrectVerdict(Vpn, str, Cases(g, draw), bl, ml);
  }
}
