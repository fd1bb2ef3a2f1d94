/** The synthetic Telecom dataset generator (generators/telecom_generator.py). */
module TelecomGenerator {
  import opened Basics
  import opened JsonValue
  import opened Strategies
  import opened Metrics
  import opened Datasets

  datatype Config = Config(
    validCount: nat, boundaryCount: nat, oversizedCount: nat, missingHeaderCount: nat, duplicateCount: nat,
    mismatchedCount: nat, sequenceCount: nat, transitionCount: nat, maxSdpLength: nat)

  /** What the configuration model admits; its body limit is never used. */
  predicate ValidConfig(g: Config) {
    && g.validCount <= 50 && g.boundaryCount <= 10 && g.oversizedCount <= 20 && g.missingHeaderCount <= 20
    && g.duplicateCount <= 20 && g.mismatchedCount <= 20 && g.sequenceCount <= 20 && g.transitionCount <= 20
    && g.maxSdpLength > 0
  }

  const ILLEGAL_PAIRS := [("INIT", "ACK"), ("INIT", "BYE"), ("ESTABLISHED", "INVITE")]

  const HEADERS: seq<Json> := [
    List([Str("Call-ID"), Str("call-0001")]),
    List([Str("From"), Str("sip:alice@ims.example.local")]),
    List([Str("To"), Str("sip:bob@ims.example.local")])]

  function Request(state: string, verb: string, headers: seq<Json>, sequence: int, expected: int,
                   attribute: string, value: string, declared: int, actual: int): Input {
    map["method" := Str(verb), "session_state" := Str(state), "headers" := List(headers),
        "sequence_number" := Int(sequence), "expected_sequence_number" := Int(expected),
        "sdp_attributes" := List([List([Str(attribute), Str(value)])]),
        "declared_body_length" := Int(declared), "actual_body_length" := Int(actual)]
  }

  function BaseRequest(state: string, verb: string, sequence: int, expected: int): Input {
    Request(state, verb, HEADERS, sequence, expected, "accept-type", "audio/AMR", 32, 32)
  }

  // In-place updates of the base request of an INVITE in state INIT.

  function WithSdp(attribute: string, value: string): (req: Input)
    ensures req == Request("INIT", "INVITE", HEADERS, 1, 1, attribute, value, 32, 32)
  {
    BaseRequest("INIT", "INVITE", 1, 1)["sdp_attributes" := List([List([Str(attribute), Str(value)])])]
  }

  function WithHeaders(headers: seq<Json>): (req: Input)
    ensures req == Request("INIT", "INVITE", headers, 1, 1, "accept-type", "audio/AMR", 32, 32)
  {
    BaseRequest("INIT", "INVITE", 1, 1)["headers" := List(headers)]
  }

  function WithLengths(declared: int, actual: int): (req: Input)
    ensures req == Request("INIT", "INVITE", HEADERS, 1, 1, "accept-type", "audio/AMR", declared, actual)
  {
    BaseRequest("INIT", "INVITE", 1, 1)["declared_body_length" := Int(declared)]["actual_body_length" := Int(actual)]
  }

  /** `"a" * n` */
  function Padding(n: nat): string {
    seq(n, _ => 'a')
  }

  /** The header pairs whose name is not `missing`. */
  function Without(headers: seq<Json>, missing: string): seq<Json> {
    if headers == [] then []
    else (if IsPair(headers[0]) && headers[0].items[0] == Str(missing) then [] else [headers[0]])
         + Without(headers[1..], missing)
  }

  function Conflicting(field: string): Json {
    List([Str(field), Str("synthetic-conflicting-" + Lower(field))])
  }

  function OversizedLength(g: Config, draw: Draws, i: nat): nat {
    g.maxSdpLength + 1 + RandInt(draw, i, 500)
  }

  // ---------------------------------------------------------------- families

  // The i-th case of each family; draws are consumed in the order of the loops.

  function ValidCase(i: nat): TestCase {
    TestCase(CaseId("TEL-GEN-VALID-", i), Valid,
             BaseRequest(LEGAL_TRANSITIONS[i % 3].0, LEGAL_TRANSITIONS[i % 3].1, i + 1, i + 1), Accepted)
  }

  function AtLimit(g: Config, i: nat): TestCase {
    TestCase(CaseId("TEL-GEN-BOUNDARY-AT-", i), Boundary,
             WithSdp("video-configuration", Padding(g.maxSdpLength)), Accepted)
  }

  function OverLimit(g: Config, i: nat): TestCase {
    TestCase(CaseId("TEL-GEN-BOUNDARY-OVER-", i), Boundary,
             WithSdp("video-configuration", Padding(g.maxSdpLength + 1)), Blocked)
  }

  function Oversized(g: Config, draw: Draws, i: nat): TestCase {
    TestCase(CaseId("TEL-GEN-OVERSIZED-", i), Malformed,
             WithSdp("accept-type", Padding(OversizedLength(g, draw, i))), Blocked)
  }

  function MissingHeader(i: nat): TestCase {
    TestCase(CaseId("TEL-GEN-MISSING-HEADER-", i), Malformed,
             WithHeaders(Without(HEADERS, MANDATORY_HEADERS[i % 3])), Blocked)
  }

  function DuplicateIdentity(i: nat): TestCase {
    TestCase(CaseId("TEL-GEN-DUPLICATE-IDENTITY-", i), Malformed,
             WithHeaders(HEADERS + [Conflicting(MANDATORY_HEADERS[i % 3])]), Blocked)
  }

  function Mismatched(g: Config, draw: Draws, i: nat): TestCase {
    TestCase(CaseId("TEL-GEN-MISMATCHED-LENGTH-", i), Malformed,
             WithLengths(32, 32 + 200 + RandInt(draw, g.oversizedCount + i, 500)), Blocked)
  }

  function InvalidSequence(i: nat): TestCase {
    TestCase(CaseId("TEL-GEN-INVALID-SEQUENCE-", i), Malformed,
             BaseRequest("INIT", "INVITE", 0, 5 + i), Blocked)
  }

  function InvalidTransition(i: nat): TestCase {
    TestCase(CaseId("TEL-GEN-INVALID-TRANSITION-", i), Malformed,
             BaseRequest(ILLEGAL_PAIRS[i % 3].0, ILLEGAL_PAIRS[i % 3].1, 1, 1), Blocked)
  }

  // The families as functions of the index.

  function ValidCases(): Family { (i: nat) => ValidCase(i) }
  function AtLimits(g: Config): Family { (i: nat) => AtLimit(g, i) }
  function OverLimits(g: Config): Family { (i: nat) => OverLimit(g, i) }
  function Oversizeds(g: Config, draw: Draws): Family { (i: nat) => Oversized(g, draw, i) }
  function MissingHeaders(): Family { (i: nat) => MissingHeader(i) }
  function DuplicateIdentities(): Family { (i: nat) => DuplicateIdentity(i) }
  function Mismatcheds(g: Config, draw: Draws): Family { (i: nat) => Mismatched(g, draw, i) }
  function InvalidSequences(): Family { (i: nat) => InvalidSequence(i) }
  function InvalidTransitions(): Family { (i: nat) => InvalidTransition(i) }

  /** The generated dataset as a whole; each seed is one stream of draws. */
  function Cases(g: Config, draw: Draws): seq<TestCase> {
    Repeat(g.validCount, ValidCases())
    + RepeatPairs(g.boundaryCount, AtLimits(g), OverLimits(g))
    + Repeat(g.oversizedCount, Oversizeds(g, draw))
    + Repeat(g.missingHeaderCount, MissingHeaders())
    + Repeat(g.duplicateCount, DuplicateIdentities())
    + Repeat(g.mismatchedCount, Mismatcheds(g, draw))
    + Repeat(g.sequenceCount, InvalidSequences())
    + Repeat(g.transitionCount, InvalidTransitions())
  }

  // ------------------------------------------------------------ the generator

  // One method per loop of the generator: each appends its family to the cases so far and
  // advances the random state by the numbers it draws.

  method AddValidCase(g: Config, before: seq<TestCase>) returns (cases: seq<TestCase>)
    ensures cases == before + Repeat(g.validCount, ValidCases())
  {
    cases := before;
    for i := 0 to g.validCount
      invariant cases == before + Repeat(i, ValidCases())
    {
      var (state, verb) := LEGAL_TRANSITIONS[i % 3];
      var seqNo := i + 1;
      var req := BaseRequest(state, verb, seqNo, seqNo);
      var c := TestCase(CaseId("TEL-GEN-VALID-", i), Valid, req, Accepted);
      assert c == ValidCase(i);
      RepeatSnoc(before, i, ValidCases(), c);
      cases := cases + [c];
    }
  }

  method BoundaryPair(g: Config, i: nat) returns (at: TestCase, over: TestCase)
    ensures at == AtLimit(g, i) && over == OverLimit(g, i)
  {
    var atReq := WithSdp("video-configuration", Padding(g.maxSdpLength));
    var overReq := WithSdp("video-configuration", Padding(g.maxSdpLength + 1));
    at := TestCase(CaseId("TEL-GEN-BOUNDARY-AT-", i), Boundary, atReq, Accepted);
    over := TestCase(CaseId("TEL-GEN-BOUNDARY-OVER-", i), Boundary, overReq, Blocked);
  }

  method AddBoundary(g: Config, before: seq<TestCase>) returns (cases: seq<TestCase>)
    ensures cases == before + RepeatPairs(g.boundaryCount, AtLimits(g), OverLimits(g))
  {
    cases := before;
    for i := 0 to g.boundaryCount
      invariant cases == before + RepeatPairs(i, AtLimits(g), OverLimits(g))
    {
      var at, over := BoundaryPair(g, i);
      RepeatPairsSnoc(before, i, AtLimits(g), OverLimits(g), at, over);
      cases := cases + [at];
      cases := cases + [over];
    }
  }

  method AddOversized(g: Config, draw: Draws, before: seq<TestCase>) returns (cases: seq<TestCase>, rng: nat)
    ensures cases == before + Repeat(g.oversizedCount, Oversizeds(g, draw)) && rng == g.oversizedCount
  {
    cases, rng := before, 0;
    for i := 0 to g.oversizedCount
      invariant cases == before + Repeat(i, Oversizeds(g, draw)) && rng == i
    {
      var length := g.maxSdpLength + 1 + RandInt(draw, rng, 500);
      rng := rng + 1;
      var req := WithSdp("accept-type", Padding(length));
      var c := TestCase(CaseId("TEL-GEN-OVERSIZED-", i), Malformed, req, Blocked);
      assert c == Oversized(g, draw, i);
      RepeatSnoc(before, i, Oversizeds(g, draw), c);
      cases := cases + [c];
    }
  }

  method AddMissingHeader(g: Config, before: seq<TestCase>) returns (cases: seq<TestCase>)
    ensures cases == before + Repeat(g.missingHeaderCount, MissingHeaders())
  {
    cases := before;
    for i := 0 to g.missingHeaderCount
      invariant cases == before + Repeat(i, MissingHeaders())
    {
      var missing := MANDATORY_HEADERS[i % 3];
      var req := WithHeaders(Without(HEADERS, missing));
      var c := TestCase(CaseId("TEL-GEN-MISSING-HEADER-", i), Malformed, req, Blocked);
      assert c == MissingHeader(i);
      RepeatSnoc(before, i, MissingHeaders(), c);
      cases := cases + [c];
    }
  }

  method AddDuplicateIdentity(g: Config, before: seq<TestCase>) returns (cases: seq<TestCase>)
    ensures cases == before + Repeat(g.duplicateCount, DuplicateIdentities())
  {
    cases := before;
    for i := 0 to g.duplicateCount
      invariant cases == before + Repeat(i, DuplicateIdentities())
    {
      var field := MANDATORY_HEADERS[i % 3];
      var req := WithHeaders(HEADERS + [Conflicting(field)]);
      var c := TestCase(CaseId("TEL-GEN-DUPLICATE-IDENTITY-", i), Malformed, req, Blocked);
      assert c == DuplicateIdentity(i);
      RepeatSnoc(before, i, DuplicateIdentities(), c);
      cases := cases + [c];
    }
  }

  method AddMismatched(g: Config, draw: Draws, before: seq<TestCase>, start: nat) returns (cases: seq<TestCase>)
    requires start == g.oversizedCount
    ensures cases == before + Repeat(g.mismatchedCount, Mismatcheds(g, draw))
  {
    cases := before;
    var rng := start;
    for i := 0 to g.mismatchedCount
      invariant cases == before + Repeat(i, Mismatcheds(g, draw)) && rng == start + i
    {
      var actual := 32 + 200 + RandInt(draw, rng, 500);
      rng := rng + 1;
      var req := WithLengths(32, actual);
      var c := TestCase(CaseId("TEL-GEN-MISMATCHED-LENGTH-", i), Malformed, req, Blocked);
      assert c == Mismatched(g, draw, i);
      RepeatSnoc(before, i, Mismatcheds(g, draw), c);
      cases := cases + [c];
    }
  }

  method AddInvalidSequence(g: Config, before: seq<TestCase>) returns (cases: seq<TestCase>)
    ensures cases == before + Repeat(g.sequenceCount, InvalidSequences())
  {
    cases := before;
    for i := 0 to g.sequenceCount
      invariant cases == before + Repeat(i, InvalidSequences())
    {
      var req := BaseRequest("INIT", "INVITE", 0, 5 + i);
      var c := TestCase(CaseId("TEL-GEN-INVALID-SEQUENCE-", i), Malformed, req, Blocked);
      assert c == InvalidSequence(i);
      RepeatSnoc(before, i, InvalidSequences(), c);
      cases := cases + [c];
    }
  }

  method AddInvalidTransition(g: Config, before: seq<TestCase>) returns (cases: seq<TestCase>)
    ensures cases == before + Repeat(g.transitionCount, InvalidTransitions())
  {
    cases := before;
    for i := 0 to g.transitionCount
      invariant cases == before + Repeat(i, InvalidTransitions())
    {
      var (state, verb) := ILLEGAL_PAIRS[i % 3];
      var req := BaseRequest(state, verb, 1, 1);
      var c := TestCase(CaseId("TEL-GEN-INVALID-TRANSITION-", i), Malformed, req, Blocked);
      assert c == InvalidTransition(i);
      RepeatSnoc(before, i, InvalidTransitions(), c);
      cases := cases + [c];
    }
  }

  /** The whole generator. An empty dataset is refused by the dataset model, and no two cases share an id. */
  method BuildTestSet(g: Config, draw: Draws) returns (r: Result<seq<TestCase>>)
    requires ValidConfig(g)
    ensures r == if Cases(g, draw) == [] then Raised else Ok(Cases(g, draw))
    ensures r.Ok? ==> UniqueIds(r.value)
  {
    var cases := AddValidCase(g, []);
    assert cases == Repeat(g.validCount, ValidCases());
    cases := AddBoundary(g, cases);
    var rng;
    cases, rng := AddOversized(g, draw, cases);
    cases := AddMissingHeader(g, cases);
    cases := AddDuplicateIdentity(g, cases);
    cases := AddMismatched(g, draw, cases, rng);
    cases := AddInvalidSequence(g, cases);
    cases := AddInvalidTransition(g, cases);
    CaseIdsUnique(g, draw);
    r := if cases == [] then Raised else Ok(cases);
  }

  // Each family numbers its cases under its own prefix.

  lemma ValidCaseTags(g: Config)
    requires ValidConfig(g)
    ensures Tagged(Repeat(g.validCount, ValidCases()), {(17, 'V')})
  {
    RepeatTagged(g.validCount, ValidCases(), "TEL-GEN-VALID-", (17, 'V'));
  }

  lemma BoundaryTags(g: Config)
    requires ValidConfig(g)
    ensures Tagged(RepeatPairs(g.boundaryCount, AtLimits(g), OverLimits(g)), {(23, 'B'), (25, 'B')})
  {
    RepeatPairsTagged(g.boundaryCount, AtLimits(g), OverLimits(g), "TEL-GEN-BOUNDARY-AT-", "TEL-GEN-BOUNDARY-OVER-",
                      {(23, 'B'), (25, 'B')});
  }

  lemma OversizedTags(g: Config, draw: Draws)
    requires ValidConfig(g)
    ensures Tagged(Repeat(g.oversizedCount, Oversizeds(g, draw)), {(21, 'O')})
  {
    RepeatTagged(g.oversizedCount, Oversizeds(g, draw), "TEL-GEN-OVERSIZED-", (21, 'O'));
  }

  lemma MissingHeaderTags(g: Config)
    requires ValidConfig(g)
    ensures Tagged(Repeat(g.missingHeaderCount, MissingHeaders()), {(26, 'M')})
  {
    RepeatTagged(g.missingHeaderCount, MissingHeaders(), "TEL-GEN-MISSING-HEADER-", (26, 'M'));
  }

  lemma DuplicateIdentityTags(g: Config)
    requires ValidConfig(g)
    ensures Tagged(Repeat(g.duplicateCount, DuplicateIdentities()), {(30, 'D')})
  {
    RepeatTagged(g.duplicateCount, DuplicateIdentities(), "TEL-GEN-DUPLICATE-IDENTITY-", (30, 'D'));
  }

  lemma MismatchedTags(g: Config, draw: Draws)
    requires ValidConfig(g)
    ensures Tagged(Repeat(g.mismatchedCount, Mismatcheds(g, draw)), {(29, 'M')})
  {
    RepeatTagged(g.mismatchedCount, Mismatcheds(g, draw), "TEL-GEN-MISMATCHED-LENGTH-", (29, 'M'));
  }

  lemma InvalidSequenceTags(g: Config)
    requires ValidConfig(g)
    ensures Tagged(Repeat(g.sequenceCount, InvalidSequences()), {(28, 'I')})
  {
    RepeatTagged(g.sequenceCount, InvalidSequences(), "TEL-GEN-INVALID-SEQUENCE-", (28, 'I'));
  }

  lemma InvalidTransitionTags(g: Config)
    requires ValidConfig(g)
    ensures Tagged(Repeat(g.transitionCount, InvalidTransitions()), {(30, 'I')})
  {
    RepeatTagged(g.transitionCount, InvalidTransitions(), "TEL-GEN-INVALID-TRANSITION-", (30, 'I'));
  }

  lemma TaggedChain(c1: seq<TestCase>, c2: seq<TestCase>, c3: seq<TestCase>, c4: seq<TestCase>,
                    c5: seq<TestCase>, c6: seq<TestCase>, c7: seq<TestCase>, c8: seq<TestCase>)
    requires Tagged(c1, {(17, 'V')}) && Tagged(c2, {(23, 'B'), (25, 'B')}) && Tagged(c3, {(21, 'O')}) && Tagged(c4, {(26, 'M')})
    requires Tagged(c5, {(30, 'D')}) && Tagged(c6, {(29, 'M')}) && Tagged(c7, {(28, 'I')}) && Tagged(c8, {(30, 'I')})
    ensures UniqueIds(c1 + c2 + c3 + c4 + c5 + c6 + c7 + c8)
  {
    var P := {(17, 'V')};
    TaggedAppend(c1, P, c2, {(23, 'B'), (25, 'B')});
    P := P + {(23, 'B'), (25, 'B')};
    TaggedAppend(c1 + c2, P, c3, {(21, 'O')});
    P := P + {(21, 'O')};
    TaggedAppend(c1 + c2 + c3, P, c4, {(26, 'M')});
    P := P + {(26, 'M')};
    TaggedAppend(c1 + c2 + c3 + c4, P, c5, {(30, 'D')});
    P := P + {(30, 'D')};
    TaggedAppend(c1 + c2 + c3 + c4 + c5, P, c6, {(29, 'M')});
    P := P + {(29, 'M')};
    TaggedAppend(c1 + c2 + c3 + c4 + c5 + c6, P, c7, {(28, 'I')});
    P := P + {(28, 'I')};
    TaggedAppend(c1 + c2 + c3 + c4 + c5 + c6 + c7, P, c8, {(30, 'I')});
  }

  /** No two generated cases share an id. */
  lemma CaseIdsUnique(g: Config, draw: Draws)
    requires ValidConfig(g)
    ensures UniqueIds(Cases(g, draw))
  {
    ValidCaseTags(g);
    BoundaryTags(g);
    OversizedTags(g, draw);
    MissingHeaderTags(g);
    DuplicateIdentityTags(g);
    MismatchedTags(g, draw);
    InvalidSequenceTags(g);
    InvalidTransitionTags(g);
    TaggedChain(Repeat(g.validCount, ValidCases()),
                RepeatPairs(g.boundaryCount, AtLimits(g), OverLimits(g)),
                Repeat(g.oversizedCount, Oversizeds(g, draw)),
                Repeat(g.missingHeaderCount, MissingHeaders()),
                Repeat(g.duplicateCount, DuplicateIdentities()),
                Repeat(g.mismatchedCount, Mismatcheds(g, draw)),
                Repeat(g.sequenceCount, InvalidSequences()),
                Repeat(g.transitionCount, InvalidTransitions()));
  }
}
