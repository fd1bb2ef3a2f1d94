/** The synthetic VPN dataset generator (generators/vpn_generator.py). */
module VpnGenerator {
  import opened Basics
  import opened JsonValue
  import opened Strategies
  import opened Metrics
  import opened Datasets

  datatype Config = Config(
    validCount: nat, boundaryCount: nat, oversizedCount: nat, duplicateCount: nat, mismatchedCount: nat,
    encodingCount: nat, invalidPathCount: nat, maxPathLength: nat, maxBodyLength: nat)

  /** What the configuration model admits. */
  predicate ValidConfig(g: Config) {
    && g.validCount <= 50 && g.boundaryCount <= 10 && g.oversizedCount <= 20 && g.duplicateCount <= 20
    && g.mismatchedCount <= 20 && g.encodingCount <= 20 && g.invalidPathCount <= 20
    && g.maxPathLength > 0 && g.maxBodyLength > 0
  }

  const VALID_PATHS := ["/remote/login", "/remote/logincheck", "/remote/fgt_lang", "/remote/index"]
  const UNSUPPORTED_ENCODINGS := ["utf-7", "cesu-8", "unspecified-binary"]
  const PATH_TRAVERSAL_PATTERNS := [
    "/remote/../../internal/synthetic-config", "/remote/%2e%2e/%2e%2e/internal/synthetic-config",
    "/remote/login%00.synthetic"]

  const HOST := List([Str("Host"), Str("vpn.example.local")])
  const OTHER_HOST := List([Str("Host"), Str("internal.synthetic.local")])

  function Request(verb: string, path: string, headers: seq<Json>, declared: int, actual: int, encoding: string): Input {
    map["method" := Str(verb), "path" := Str(path), "headers" := List(headers),
        "declared_content_length" := Int(declared), "actual_body_length" := Int(actual), "encoding" := Str(encoding)]
  }

  function BaseRequest(path: string): Input {
    Request("GET", path, [HOST], 0, 0, "utf-8")
  }

  // In-place updates of a base request.

  function WithLengths(path: string, declared: int, actual: int): (req: Input)
    ensures req == Request("GET", path, [HOST], declared, actual, "utf-8")
  {
    BaseRequest(path)["declared_content_length" := Int(declared)]["actual_body_length" := Int(actual)]
  }

  function WithHeaders(path: string, headers: seq<Json>): (req: Input)
    ensures req == Request("GET", path, headers, 0, 0, "utf-8")
  {
    BaseRequest(path)["headers" := List(headers)]
  }

  function WithEncoding(path: string, encoding: string): (req: Input)
    ensures req == Request("GET", path, [HOST], 0, 0, encoding)
  {
    BaseRequest(path)["encoding" := Str(encoding)]
  }

  /** `"/remote/" + "a" * n` */
  function Padded(n: int): string {
    "/remote/" + if n <= 0 then "" else seq(n, _ => 'a')
  }

  // ---------------------------------------------------------------- families

  // The i-th case of each family; draws are consumed in the order of the loops.

  function ValidCase(draw: Draws, i: nat): TestCase {
    TestCase(CaseId("VPN-GEN-VALID-", i), Valid,
             Request(if RandInt(draw, i, 1) == 0 then "GET" else "POST", VALID_PATHS[i % 4], [HOST], 0, 0, "utf-8"), Accepted)
  }

  function AtLimit(g: Config, i: nat): TestCase {
    TestCase(CaseId("VPN-GEN-BOUNDARY-AT-", i), Boundary,
             BaseRequest(Padded(g.maxPathLength - 8)), Accepted)
  }

  function OverLimit(g: Config, i: nat): TestCase {
    TestCase(CaseId("VPN-GEN-BOUNDARY-OVER-", i), Boundary,
             BaseRequest(Padded(g.maxPathLength - 8 + 1)), Blocked)
  }

  function Oversized(g: Config, draw: Draws, i: nat): TestCase {
    var n := g.maxBodyLength + 1 + RandInt(draw, g.validCount + i, 1000);
    TestCase(CaseId("VPN-GEN-OVERSIZED-", i), Malformed, Request("GET", "/remote/login", [HOST], n, n, "utf-8"), Blocked)
  }

  function DuplicateField(i: nat): TestCase {
    TestCase(CaseId("VPN-GEN-DUPLICATE-", i), Malformed,
             Request("GET", "/remote/login", [HOST, OTHER_HOST], 0, 0, "utf-8"), Blocked)
  }

  function Mismatched(g: Config, draw: Draws, i: nat): TestCase {
    TestCase(CaseId("VPN-GEN-MISMATCHED-LENGTH-", i), Malformed,
             Request("GET", "/remote/login", [HOST], 42,
                     42 + 100 + RandInt(draw, g.validCount + g.oversizedCount + i, 500), "utf-8"), Blocked)
  }

  function BadEncoding(i: nat): TestCase {
    TestCase(CaseId("VPN-GEN-UNSUPPORTED-ENCODING-", i), Malformed,
             Request("GET", "/remote/login", [HOST], 0, 0, UNSUPPORTED_ENCODINGS[i % 3]), Blocked)
  }

  function InvalidPath(i: nat): TestCase {
    TestCase(CaseId("VPN-GEN-INVALID-PATH-", i), Malformed,
             BaseRequest(PATH_TRAVERSAL_PATTERNS[i % 3]), Blocked)
  }

  // The families as functions of the index.

  function ValidCases(draw: Draws): Family { (i: nat) => ValidCase(draw, i) }
  function AtLimits(g: Config): Family { (i: nat) => AtLimit(g, i) }
  function OverLimits(g: Config): Family { (i: nat) => OverLimit(g, i) }
  function Oversizeds(g: Config, draw: Draws): Family { (i: nat) => Oversized(g, draw, i) }
  function DuplicateFields(): Family { (i: nat) => DuplicateField(i) }
  function Mismatcheds(g: Config, draw: Draws): Family { (i: nat) => Mismatched(g, draw, i) }
  function BadEncodings(): Family { (i: nat) => BadEncoding(i) }
  function InvalidPaths(): Family { (i: nat) => InvalidPath(i) }

  /** The generated dataset as a whole; each seed is one stream of draws. */
  function Cases(g: Config, draw: Draws): seq<TestCase> {
    Repeat(g.validCount, ValidCases(draw))
    + RepeatPairs(g.boundaryCount, AtLimits(g), OverLimits(g))
    + Repeat(g.oversizedCount, Oversizeds(g, draw))
    + Repeat(g.duplicateCount, DuplicateFields())
    + Repeat(g.mismatchedCount, Mismatcheds(g, draw))
    + Repeat(g.encodingCount, BadEncodings())
    + Repeat(g.invalidPathCount, InvalidPaths())
  }

  // ------------------------------------------------------------ the generator

  // One method per loop of the generator: each appends its family to the cases so far and
  // advances the random state by the numbers it draws.

  method AddValid(g: Config, draw: Draws) returns (cases: seq<TestCase>, rng: nat)
    ensures cases == Repeat(g.validCount, ValidCases(draw)) && rng == g.validCount
  {
    cases, rng := [], 0;
    for i := 0 to g.validCount
      invariant cases == Repeat(i, ValidCases(draw)) && rng == i
    {
      var path := VALID_PATHS[i % 4];
      var coin := RandInt(draw, rng, 1);
      rng := rng + 1;
      var req := Request(if coin == 0 then "GET" else "POST", path, [HOST], 0, 0, "utf-8");
      cases := cases + [TestCase(CaseId("VPN-GEN-VALID-", i), Valid, req, Accepted)];
    }
  }

  method BoundaryPair(g: Config, i: nat) returns (at: TestCase, over: TestCase)
    ensures at == AtLimit(g, i) && over == OverLimit(g, i)
  {
    var atPath, overPath := Padded(g.maxPathLength - 8), Padded(g.maxPathLength - 8 + 1);
    at := TestCase(CaseId("VPN-GEN-BOUNDARY-AT-", i), Boundary, BaseRequest(atPath), Accepted);
    over := TestCase(CaseId("VPN-GEN-BOUNDARY-OVER-", i), Boundary, BaseRequest(overPath), Blocked);
  }

  method AddBoundary(g: Config, before: seq<TestCase>) returns (cases: seq<TestCase>)
    ensures cases == before + RepeatPairs(g.boundaryCount, AtLimits(g), OverLimits(g))
  {
    cases := before;
    for i := 0 to g.boundaryCount
      invariant cases == before + RepeatPairs(i, AtLimits(g), OverLimits(g))
    {
      var at, over := BoundaryPair(g, i);
      RepeatPairsSnoc(before, i, AtLimits(g), OverLimits(g), at, over);
      cases := cases + [at];
      cases := cases + [over];
    }
  }

  method OversizedCase(g: Config, draw: Draws, i: nat, rng: nat) returns (c: TestCase)
    requires rng == g.validCount + i
    ensures c == Oversized(g, draw, i)
  {
    var n := g.maxBodyLength + 1 + RandInt(draw, rng, 1000);
    var req := WithLengths("/remote/login", n, n);
    c := TestCase(CaseId("VPN-GEN-OVERSIZED-", i), Malformed, req, Blocked);
  }

  method AddOversized(g: Config, draw: Draws, before: seq<TestCase>, start: nat) returns (cases: seq<TestCase>, rng: nat)
    requires start == g.validCount
    ensures cases == before + Repeat(g.oversizedCount, Oversizeds(g, draw)) && rng == start + g.oversizedCount
  {
    cases, rng := before, start;
    for i := 0 to g.oversizedCount
      invariant cases == before + Repeat(i, Oversizeds(g, draw)) && rng == start + i
    {
      var c := OversizedCase(g, draw, i, rng);
      rng := rng + 1;
      RepeatSnoc(before, i, Oversizeds(g, draw), c);
      cases := cases + [c];
    }
  }

  method AddDuplicate(g: Config, before: seq<TestCase>) returns (cases: seq<TestCase>)
    ensures cases == before + Repeat(g.duplicateCount, DuplicateFields())
  {
    cases := before;
    for i := 0 to g.duplicateCount
      invariant cases == before + Repeat(i, DuplicateFields())
    {
      var req := WithHeaders("/remote/login", [HOST, OTHER_HOST]);
      var c := TestCase(CaseId("VPN-GEN-DUPLICATE-", i), Malformed, req, Blocked);
      assert c == DuplicateField(i);
      RepeatSnoc(before, i, DuplicateFields(), c);
      cases := cases + [c];
    }
  }

  method MismatchedCase(g: Config, draw: Draws, i: nat, rng: nat) returns (c: TestCase)
    requires rng == g.validCount + g.oversizedCount + i
    ensures c == Mismatched(g, draw, i)
  {
    var actual := 42 + 100 + RandInt(draw, rng, 500);
    var req := WithLengths("/remote/login", 42, actual);
    c := TestCase(CaseId("VPN-GEN-MISMATCHED-LENGTH-", i), Malformed, req, Blocked);
  }

  method AddMismatched(g: Config, draw: Draws, before: seq<TestCase>, start: nat) returns (cases: seq<TestCase>)
    requires start == g.validCount + g.oversizedCount
    ensures cases == before + Repeat(g.mismatchedCount, Mismatcheds(g, draw))
  {
    cases := before;
    var rng := start;
    for i := 0 to g.mismatchedCount
      invariant cases == before + Repeat(i, Mismatcheds(g, draw)) && rng == start + i
    {
      var c := MismatchedCase(g, draw, i, rng);
      rng := rng + 1;
      RepeatSnoc(before, i, Mismatcheds(g, draw), c);
      cases := cases + [c];
    }
  }

  method AddEncodings(g: Config, before: seq<TestCase>) returns (cases: seq<TestCase>)
    ensures cases == before + Repeat(g.encodingCount, BadEncodings())
  {
    cases := before;
    for i := 0 to g.encodingCount
      invariant cases == before + Repeat(i, BadEncodings())
    {
      var encoding := UNSUPPORTED_ENCODINGS[i % 3];
      var req := WithEncoding("/remote/login", encoding);
      var c := TestCase(CaseId("VPN-GEN-UNSUPPORTED-ENCODING-", i), Malformed, req, Blocked);
      assert c == BadEncoding(i);
      RepeatSnoc(before, i, BadEncodings(), c);
      cases := cases + [c];
    }
  }

  method AddPaths(g: Config, before: seq<TestCase>) returns (cases: seq<TestCase>)
    ensures cases == before + Repeat(g.invalidPathCount, InvalidPaths())
  {
    cases := before;
    for i := 0 to g.invalidPathCount
      invariant cases == before + Repeat(i, InvalidPaths())
    {
      var req := BaseRequest(PATH_TRAVERSAL_PATTERNS[i % 3]);
      var c := TestCase(CaseId("VPN-GEN-INVALID-PATH-", i), Malformed, req, Blocked);
      assert c == InvalidPath(i);
      RepeatSnoc(before, i, InvalidPaths(), c);
      cases := cases + [c];
    }
  }

  /** The whole generator. An empty dataset is refused by the dataset model, and no two cases share an id. */
  method BuildTestSet(g: Config, draw: Draws) returns (r: Result<seq<TestCase>>)
    requires ValidConfig(g)
    ensures r == if Cases(g, draw) == [] then Raised else Ok(Cases(g, draw))
    ensures r.Ok? ==> UniqueIds(r.value)
  {
    var cases, rng := AddValid(g, draw);
    cases := AddBoundary(g, cases);
    cases, rng := AddOversized(g, draw, cases, rng);
    cases := AddDuplicate(g, cases);
    cases := AddMismatched(g, draw, cases, rng);
    cases := AddEncodings(g, cases);
    cases := AddPaths(g, cases);
    CaseIdsUnique(g, draw);
    r := if cases == [] then Raised else Ok(cases);
  }

  // Each family numbers its cases under its own prefix.

  lemma ValidTags(g: Config, draw: Draws)
    requires ValidConfig(g)
    ensures Tagged(Repeat(g.validCount, ValidCases(draw)), {(17, 'V')})
  {
    RepeatTagged(g.validCount, ValidCases(draw), "VPN-GEN-VALID-", (17, 'V'));
  }

  lemma OversizedTags(g: Config, draw: Draws)
    requires ValidConfig(g)
    ensures Tagged(Repeat(g.oversizedCount, Oversizeds(g, draw)), {(21, 'O')})
  {
    RepeatTagged(g.oversizedCount, Oversizeds(g, draw), "VPN-GEN-OVERSIZED-", (21, 'O'));
  }

  lemma DuplicateTags(g: Config)
    requires ValidConfig(g)
    ensures Tagged(Repeat(g.duplicateCount, DuplicateFields()), {(21, 'D')})
  {
    RepeatTagged(g.duplicateCount, DuplicateFields(), "VPN-GEN-DUPLICATE-", (21, 'D'));
  }

  lemma MismatchedTags(g: Config, draw: Draws)
    requires ValidConfig(g)
    ensures Tagged(Repeat(g.mismatchedCount, Mismatcheds(g, draw)), {(29, 'M')})
  {
    RepeatTagged(g.mismatchedCount, Mismatcheds(g, draw), "VPN-GEN-MISMATCHED-LENGTH-", (29, 'M'));
  }

  lemma EncodingTags(g: Config)
    requires ValidConfig(g)
    ensures Tagged(Repeat(g.encodingCount, BadEncodings()), {(32, 'U')})
  {
    RepeatTagged(g.encodingCount, BadEncodings(), "VPN-GEN-UNSUPPORTED-ENCODING-", (32, 'U'));
  }

  lemma PathTags(g: Config)
    requires ValidConfig(g)
    ensures Tagged(Repeat(g.invalidPathCount, InvalidPaths()), {(24, 'I')})
  {
    RepeatTagged(g.invalidPathCount, InvalidPaths(), "VPN-GEN-INVALID-PATH-", (24, 'I'));
  }

  lemma BoundaryTags(g: Config)
    requires ValidConfig(g)
    ensures Tagged(RepeatPairs(g.boundaryCount, AtLimits(g), OverLimits(g)), {(23, 'B'), (25, 'B')})
  {
    RepeatPairsTagged(g.boundaryCount, AtLimits(g), OverLimits(g), "VPN-GEN-BOUNDARY-AT-", "VPN-GEN-BOUNDARY-OVER-",
                      {(23, 'B'), (25, 'B')});
  }

  lemma TaggedChain(c1: seq<TestCase>, c2: seq<TestCase>, c3: seq<TestCase>, c4: seq<TestCase>, c5: seq<TestCase>,
                    c6: seq<TestCase>, c7: seq<TestCase>)
    requires Tagged(c1, {(17, 'V')}) && Tagged(c2, {(23, 'B'), (25, 'B')}) && Tagged(c3, {(21, 'O')})
    requires Tagged(c4, {(21, 'D')}) && Tagged(c5, {(29, 'M')}) && Tagged(c6, {(32, 'U')}) && Tagged(c7, {(24, 'I')})
    ensures UniqueIds(c1 + c2 + c3 + c4 + c5 + c6 + c7)
  {
    var P := {(17, 'V')};
    TaggedAppend(c1, P, c2, {(23, 'B'), (25, 'B')});
    P := P + {(23, 'B'), (25, 'B')};
    TaggedAppend(c1 + c2, P, c3, {(21, 'O')});
    P := P + {(21, 'O')};
    TaggedAppend(c1 + c2 + c3, P, c4, {(21, 'D')});
    P := P + {(21, 'D')};
    TaggedAppend(c1 + c2 + c3 + c4, P, c5, {(29, 'M')});
    P := P + {(29, 'M')};
    TaggedAppend(c1 + c2 + c3 + c4 + c5, P, c6, {(32, 'U')});
    P := P + {(32, 'U')};
    TaggedAppend(c1 + c2 + c3 + c4 + c5 + c6, P, c7, {(24, 'I')});
  }

  /** No two generated cases share an id. */
  lemma CaseIdsUnique(g: Config, draw: Draws)
    requires ValidConfig(g)
    ensures UniqueIds(Cases(g, draw))
  {
    ValidTags(g, draw);
    BoundaryTags(g);
    OversizedTags(g, draw);
    DuplicateTags(g);
    MismatchedTags(g, draw);
    EncodingTags(g);
    PathTags(g);
    TaggedChain(Repeat(g.validCount, ValidCases(draw)), RepeatPairs(g.boundaryCount, AtLimits(g), OverLimits(g)),
                Repeat(g.oversizedCount, Oversizeds(g, draw)), Repeat(g.duplicateCount, DuplicateFields()),
                Repeat(g.mismatchedCount, Mismatcheds(g, draw)), Repeat(g.encodingCount, BadEncodings()),
                Repeat(g.invalidPathCount, InvalidPaths()));
  }
}
