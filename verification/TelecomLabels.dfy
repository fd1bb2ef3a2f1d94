/** The labels of generated Telecom cases against the strict strategy, and the run they lead to. */
module TelecomLabels {
  import opened Basics
  import opened JsonValue
  import opened Strategies
  import opened Metrics
  import opened Domination
  import opened Verdict
  import opened Datasets
  import opened TelecomGenerator

  lemma RequestFields(state: string, verb: string, headers: seq<Json>, sequence: int, expected: int,
                      attribute: string, value: string, declared: int, actual: int)
    ensures var q := Request(state, verb, headers, sequence, expected, attribute, value, declared, actual);
      && Get(q, "method") == Str(verb) && Get(q, "session_state") == Str(state) && Get(q, "headers") == List(headers)
      && Get(q, "sequence_number") == Int(sequence) && Get(q, "expected_sequence_number") == Int(expected)
      && Get(q, "sdp_attributes") == List([List([Str(attribute), Str(value)])])
      && Get(q, "declared_body_length") == Int(declared) && Get(q, "actual_body_length") == Int(actual)
  {
  }

  predicate BadMessage(state: string, verb: string, sequence: int, expected: int, value: string, declared: int, actual: int) {
    || declared < 0 || declared > MAX_SIP_BODY_LENGTH || declared != actual || |value| > MAX_SDP_ATTR_VALUE_LENGTH
    || sequence != expected || (state, verb) !in LEGAL_TRANSITIONS
  }

  /** The names of the standard headers: all three mandatory ones, once each. */
  lemma StandardKeys(keys: seq<Json>)
    requires keys == Keys(HEADERS)
    ensures keys == [Str("Call-ID"), Str("From"), Str("To")]
  {
    KeysOfPairs(HEADERS);
  }

  lemma StandardHeaders(keys: seq<Json>)
    requires keys == [Str("Call-ID"), Str("From"), Str("To")]
    ensures AllHashable(keys) && !MissesMandatory(keys) && !HasDuplicate(keys)
  {
    assert keys[0] == Str(MANDATORY_HEADERS[0]) && keys[1] == Str(MANDATORY_HEADERS[1]) && keys[2] == Str(MANDATORY_HEADERS[2]);
    assert !Same(keys[0], keys[1]) && !Same(keys[0], keys[2]) && !Same(keys[1], keys[2]);
  }

  lemma OneAttribute(str: Printer, attribute: string, value: string, entries: seq<Json>)
    requires entries == [List([Str(attribute), Str(value)])]
    ensures AnyTooLong(str, entries, MAX_SDP_ATTR_VALUE_LENGTH) <==> |value| > MAX_SDP_ATTR_VALUE_LENGTH
  {
    assert IsPair(entries[0]) && Print(str, entries[0].items[1]) == value;
  }

  /** What the baseline makes of any generated message. */
  lemma WeakAccepts(str: Printer, state: string, verb: string, headers: seq<Json>, sequence: int, expected: int,
                    attribute: string, value: string, declared: int, actual: int)
    requires state in KNOWN_STATES && verb in KNOWN_METHODS && headers != []
    ensures WeakTelecom(Request(state, verb, headers, sequence, expected, attribute, value, declared, actual)) == Ok(ACCEPT)
  {
    RequestFields(state, verb, headers, sequence, expected, attribute, value, declared, actual);
  }

  /** What the strict strategy makes of a message with the standard headers. */
  lemma PlainDecision(str: Printer, state: string, verb: string, sequence: int, expected: int,
                      attribute: string, value: string, declared: int, actual: int)
    ensures StrictTelecom(str, Request(state, verb, HEADERS, sequence, expected, attribute, value, declared, actual))
      == Ok(if BadMessage(state, verb, sequence, expected, value, declared, actual) then BLOCK else ACCEPT)
  {
    RequestFields(state, verb, HEADERS, sequence, expected, attribute, value, declared, actual);
    StandardKeys(Keys(HEADERS));
    StandardHeaders(Keys(HEADERS));
    OneAttribute(str, attribute, value, [List([Str(attribute), Str(value)])]);
  }

  /** A message whose header names are incomplete or repeated is blocked. */
  lemma HeaderDecision(str: Printer, headers: seq<Json>, keys: seq<Json>)
    requires keys == Keys(headers) && AllHashable(keys) && (MissesMandatory(keys) || HasDuplicate(keys))
    ensures StrictTelecom(str, WithHeaders(headers)) == Ok(BLOCK)
  {
    RequestFields("INIT", "INVITE", headers, 1, 1, "accept-type", "audio/AMR", 32, 32);
  }

  lemma KnownNames()
    ensures "INIT" in KNOWN_STATES && "RINGING" in KNOWN_STATES && "ESTABLISHED" in KNOWN_STATES
    ensures "INVITE" in KNOWN_METHODS && "ACK" in KNOWN_METHODS && "BYE" in KNOWN_METHODS
  {
    LegalIsKnown(LEGAL_TRANSITIONS[0].0, LEGAL_TRANSITIONS[0].1);
    LegalIsKnown(LEGAL_TRANSITIONS[1].0, LEGAL_TRANSITIONS[1].1);
    LegalIsKnown(LEGAL_TRANSITIONS[2].0, LEGAL_TRANSITIONS[2].1);
  }

  // ------------------------------------------------------- family by family

  lemma ValidCorrect(str: Printer, i: nat)
    ensures Correct(Telecom, str, ValidCase(i))
  {
    var (state, verb) := LEGAL_TRANSITIONS[i % 3];
    assert (state, verb) in LEGAL_TRANSITIONS;
    LegalIsKnown(state, verb);
    WeakAccepts(str, state, verb, HEADERS, i + 1, i + 1, "accept-type", "audio/AMR", 32, 32);
    PlainDecision(str, state, verb, i + 1, i + 1, "accept-type", "audio/AMR", 32, 32);
  }

  /** A message with one padded attribute is blocked exactly when the padding is too long. */
  lemma SdpDecision(str: Printer, attribute: string, n: nat)
    ensures var q := WithSdp(attribute, Padding(n));
      && WeakTelecom(q) == Ok(ACCEPT)
      && StrictTelecom(str, q) == Ok(if n > 256 then BLOCK else ACCEPT)
  {
    KnownNames();
    assert LEGAL_TRANSITIONS[0] == ("INIT", "INVITE");
    WeakAccepts(str, "INIT", "INVITE", HEADERS, 1, 1, attribute, Padding(n), 32, 32);
    PlainDecision(str, "INIT", "INVITE", 1, 1, attribute, Padding(n), 32, 32);
  }

  lemma SdpCase(str: Printer, c: TestCase, attribute: string, n: nat)
    requires c.input == WithSdp(attribute, Padding(n))
    ensures Correct(Telecom, str, c) <==> c.expected == if n > 256 then Blocked else Accepted
    ensures Mislabelled(Telecom, str, c) <==> c.expected != if n > 256 then Blocked else Accepted
  {
    SdpDecision(str, attribute, n);
  }

  lemma AtLimitCorrect(str: Printer, g: Config, i: nat)
    ensures Correct(Telecom, str, AtLimit(g, i)) <==> g.maxSdpLength <= 256
    ensures Mislabelled(Telecom, str, AtLimit(g, i)) <==> g.maxSdpLength > 256
  {
    SdpCase(str, AtLimit(g, i), "video-configuration", g.maxSdpLength);
  }

  lemma OverLimitCorrect(str: Printer, g: Config, i: nat)
    ensures Correct(Telecom, str, OverLimit(g, i)) <==> g.maxSdpLength >= 256
    ensures Mislabelled(Telecom, str, OverLimit(g, i)) <==> g.maxSdpLength < 256
  {
    SdpCase(str, OverLimit(g, i), "video-configuration", g.maxSdpLength + 1);
  }

  lemma OversizedCorrect(str: Printer, g: Config, draw: Draws, i: nat)
    ensures Correct(Telecom, str, Oversized(g, draw, i)) <==> OversizedLength(g, draw, i) > 256
    ensures Mislabelled(Telecom, str, Oversized(g, draw, i)) <==> OversizedLength(g, draw, i) <= 256
  {
    SdpCase(str, Oversized(g, draw, i), "accept-type", OversizedLength(g, draw, i));
  }

  predicate Named(header: Json) {
    IsPair(header) && Hashable(header.items[0])
  }

  ghost predicate AllKept(headers: seq<Json>, missing: string) {
    forall i :: 0 <= i < |headers| ==> Named(headers[i]) && headers[i].items[0] != Str(missing)
  }

  lemma KeptCons(h: Json, rest: seq<Json>, missing: string)
    requires Named(h) && h.items[0] != Str(missing) && AllKept(rest, missing)
    ensures AllKept([h] + rest, missing)
  {
  }

  /** Dropping a name leaves named headers under other names. */
  lemma {:induction false} WithoutKeys(headers: seq<Json>, missing: string)
    requires forall i :: 0 <= i < |headers| ==> Named(headers[i])
    ensures AllKept(Without(headers, missing), missing)
  {
    if headers == [] {
    } else {
      var h, rest := headers[0], headers[1..];
      assert forall i :: 0 <= i < |rest| ==> Named(rest[i]);
      WithoutKeys(rest, missing);
      var left := Without(rest, missing);
      if h.items[0] == Str(missing) {
        assert Without(headers, missing) == [] + left == left;
      } else {
        KeptCons(h, left, missing);
      }
    }
  }

  lemma WithoutOne(headers: seq<Json>, missing: string)
    requires |headers| >= 2 && Named(headers[0]) && Named(headers[1]) && headers[0].items[0] != headers[1].items[0]
    ensures Without(headers, missing) != []
  {
    assert headers[1..][0] == headers[1];
  }

  lemma WithoutNames(headers: seq<Json>, missing: string)
    requires headers == HEADERS && missing in MANDATORY_HEADERS
    ensures var left := Without(headers, missing);
      left != [] && AllHashable(Keys(left)) && Str(missing) !in Keys(left)
  {
    WithoutKeys(headers, missing);
    WithoutOne(headers, missing);
    var left := Without(headers, missing);
    assert forall i :: 0 <= i < |left| ==> Named(left[i]);
    KeysOfPairs(left);
  }

  lemma MissingName(k: nat, keys: seq<Json>)
    requires k < 3 && Str(MANDATORY_HEADERS[k]) !in keys
    ensures MissesMandatory(keys)
  {
  }

  /** A message with non-empty, incomplete or repeated headers: let through by one, blocked by the other. */
  lemma HeaderCase(str: Printer, headers: seq<Json>, keys: seq<Json>)
    requires headers != [] && keys == Keys(headers) && AllHashable(keys) && (MissesMandatory(keys) || HasDuplicate(keys))
    ensures WeakTelecom(WithHeaders(headers)) == Ok(ACCEPT) && StrictTelecom(str, WithHeaders(headers)) == Ok(BLOCK)
  {
    HeaderDecision(str, headers, keys);
    KnownNames();
    WeakAccepts(str, "INIT", "INVITE", headers, 1, 1, "accept-type", "audio/AMR", 32, 32);
  }

  lemma MissingDecision(str: Printer, k: nat, headers: seq<Json>)
    requires k < 3 && headers == Without(HEADERS, MANDATORY_HEADERS[k])
    ensures WeakTelecom(WithHeaders(headers)) == Ok(ACCEPT) && StrictTelecom(str, WithHeaders(headers)) == Ok(BLOCK)
  {
    WithoutNames(HEADERS, MANDATORY_HEADERS[k]);
    MissingName(k, Keys(headers));
    HeaderCase(str, headers, Keys(headers));
  }

  lemma BlockedCase(str: Printer, c: TestCase, q: Input)
    requires c.input == q && c.expected == Blocked && WeakTelecom(q) == Ok(ACCEPT) && StrictTelecom(str, q) == Ok(BLOCK)
    ensures Correct(Telecom, str, c)
  {
  }

  lemma MissingCorrect(str: Printer, i: nat)
    ensures Correct(Telecom, str, MissingHeader(i))
  {
    var headers := Without(HEADERS, MANDATORY_HEADERS[i % 3]);
    MissingDecision(str, i % 3, headers);
    BlockedCase(str, MissingHeader(i), WithHeaders(headers));
  }

  lemma DuplicateNames(headers: seq<Json>, k: nat)
    requires k < 3 && headers == HEADERS + [Conflicting(MANDATORY_HEADERS[k])]
    ensures AllHashable(Keys(headers)) && HasDuplicate(Keys(headers))
  {
    KeysOfPairs(headers);
    var keys := Keys(headers);
    assert headers[k] == HEADERS[k] && headers[3] == Conflicting(MANDATORY_HEADERS[k]);
    assert Same(keys[k], keys[3]);
  }

  lemma DuplicateCorrect(str: Printer, i: nat)
    ensures Correct(Telecom, str, DuplicateIdentity(i))
  {
    var headers := HEADERS + [Conflicting(MANDATORY_HEADERS[i % 3])];
    DuplicateNames(headers, i % 3);
    HeaderCase(str, headers, Keys(headers));
  }

  lemma LengthDecision(str: Printer, declared: int, actual: int)
    requires declared != actual
    ensures WeakTelecom(WithLengths(declared, actual)) == Ok(ACCEPT) && StrictTelecom(str, WithLengths(declared, actual)) == Ok(BLOCK)
  {
    KnownNames();
    WeakAccepts(str, "INIT", "INVITE", HEADERS, 1, 1, "accept-type", "audio/AMR", declared, actual);
    PlainDecision(str, "INIT", "INVITE", 1, 1, "accept-type", "audio/AMR", declared, actual);
  }

  lemma LongerCase(str: Printer, c: TestCase, n: nat)
    requires c.input == WithLengths(32, 32 + 200 + n) && c.expected == Blocked
    ensures Correct(Telecom, str, c)
  {
    LengthDecision(str, 32, 32 + 200 + n);
    BlockedCase(str, c, c.input);
  }

  lemma MismatchedCorrect(str: Printer, g: Config, draw: Draws, i: nat)
    ensures Correct(Telecom, str, Mismatched(g, draw, i))
  {
    LongerCase(str, Mismatched(g, draw, i), RandInt(draw, g.oversizedCount + i, 500));
  }

  lemma SequenceCorrect(str: Printer, i: nat)
    ensures Correct(Telecom, str, InvalidSequence(i))
  {
    KnownNames();
    WeakAccepts(str, "INIT", "INVITE", HEADERS, 0, 5 + i, "accept-type", "audio/AMR", 32, 32);
    PlainDecision(str, "INIT", "INVITE", 0, 5 + i, "accept-type", "audio/AMR", 32, 32);
  }

  lemma IllegalPair(k: nat)
    requires k < 3
    ensures ILLEGAL_PAIRS[k] !in LEGAL_TRANSITIONS
    ensures ILLEGAL_PAIRS[k].0 in KNOWN_STATES && ILLEGAL_PAIRS[k].1 in KNOWN_METHODS
  {
    KnownNames();
  }

  lemma TransitionCorrect(str: Printer, i: nat)
    ensures Correct(Telecom, str, InvalidTransition(i))
  {
    var (state, verb) := ILLEGAL_PAIRS[i % 3];
    IllegalPair(i % 3);
    WeakAccepts(str, state, verb, HEADERS, 1, 1, "accept-type", "audio/AMR", 32, 32);
    PlainDecision(str, state, verb, 1, 1, "accept-type", "audio/AMR", 32, 32);
  }

  // ------------------------------------------------------------- the dataset

  /** When the labels are right for every seed: the limit the boundary and oversized cases are built
      around must be the strategy's own. */
  predicate Fits(g: Config) {
    && (g.boundaryCount > 0 ==> g.maxSdpLength == 256)
    && (g.oversizedCount > 0 ==> g.maxSdpLength >= 256)
  }

  /** Every oversized attribute the seed produces exceeds the strategy's limit. */
  ghost predicate ReallyOversized(g: Config, draw: Draws) {
    forall i :: 0 <= i < g.oversizedCount ==> OversizedLength(g, draw, i) > 256
  }

  lemma BoundaryAllCorrect(str: Printer, g: Config)
    ensures AllCorrect(Telecom, str, RepeatPairs(g.boundaryCount, AtLimits(g), OverLimits(g)))
      <==> (g.boundaryCount > 0 ==> g.maxSdpLength == 256)
  {
    var ok := Judge(Telecom, str);
    forall i: nat
      ensures ok(AtLimits(g)(i)) <==> g.maxSdpLength <= 256
      ensures ok(OverLimits(g)(i)) <==> g.maxSdpLength >= 256
    {
      AtLimitCorrect(str, g, i);
      OverLimitCorrect(str, g, i);
    }
    RepeatPairsAll(ok, g.boundaryCount, AtLimits(g), OverLimits(g));
    if g.boundaryCount > 0 { assert ok(AtLimits(g)(0)) <==> g.maxSdpLength <= 256; }
  }

  lemma OversizedAllCorrect(str: Printer, g: Config, draw: Draws)
    ensures AllCorrect(Telecom, str, Repeat(g.oversizedCount, Oversizeds(g, draw))) <==> ReallyOversized(g, draw)
  {
    var ok := Judge(Telecom, str);
    forall i: nat ensures ok(Oversizeds(g, draw)(i)) <==> OversizedLength(g, draw, i) > 256 {
      OversizedCorrect(str, g, draw, i);
    }
    RepeatAll(ok, g.oversizedCount, Oversizeds(g, draw));
  }

  lemma ValidFamilyCorrect(str: Printer, g: Config)
    ensures AllCorrect(Telecom, str, Repeat(g.validCount, ValidCases()))
  {
    forall i: nat ensures Correct(Telecom, str, ValidCases()(i)) { ValidCorrect(str, i); }
    RepeatCorrect(Telecom, str, g.validCount, ValidCases());
  }

  lemma MissingFamilyCorrect(str: Printer, g: Config)
    ensures AllCorrect(Telecom, str, Repeat(g.missingHeaderCount, MissingHeaders()))
  {
    forall i: nat ensures Correct(Telecom, str, MissingHeaders()(i)) { MissingCorrect(str, i); }
    RepeatCorrect(Telecom, str, g.missingHeaderCount, MissingHeaders());
  }

  lemma DuplicateFamilyCorrect(str: Printer, g: Config)
    ensures AllCorrect(Telecom, str, Repeat(g.duplicateCount, DuplicateIdentities()))
  {
    forall i: nat ensures Correct(Telecom, str, DuplicateIdentities()(i)) { DuplicateCorrect(str, i); }
    RepeatCorrect(Telecom, str, g.duplicateCount, DuplicateIdentities());
  }

  lemma MismatchedFamilyCorrect(str: Printer, g: Config, draw: Draws)
    ensures AllCorrect(Telecom, str, Repeat(g.mismatchedCount, Mismatcheds(g, draw)))
  {
    forall i: nat ensures Correct(Telecom, str, Mismatcheds(g, draw)(i)) { MismatchedCorrect(str, g, draw, i); }
    RepeatCorrect(Telecom, str, g.mismatchedCount, Mismatcheds(g, draw));
  }

  lemma SequenceFamilyCorrect(str: Printer, g: Config)
    ensures AllCorrect(Telecom, str, Repeat(g.sequenceCount, InvalidSequences()))
  {
    forall i: nat ensures Correct(Telecom, str, InvalidSequences()(i)) { SequenceCorrect(str, i); }
    RepeatCorrect(Telecom, str, g.sequenceCount, InvalidSequences());
  }

  lemma TransitionFamilyCorrect(str: Printer, g: Config)
    ensures AllCorrect(Telecom, str, Repeat(g.transitionCount, InvalidTransitions()))
  {
    forall i: nat ensures Correct(Telecom, str, InvalidTransitions()(i)) { TransitionCorrect(str, i); }
    RepeatCorrect(Telecom, str, g.transitionCount, InvalidTransitions());
  }

  lemma ChainAll(ok: TestCase -> bool, c1: seq<TestCase>, c2: seq<TestCase>, c3: seq<TestCase>, c4: seq<TestCase>,
    c5: seq<TestCase>, c6: seq<TestCase>, c7: seq<TestCase>, c8: seq<TestCase>)
    ensures All(ok, c1 + c2 + c3 + c4 + c5 + c6 + c7 + c8) <==>
      All(ok, c1) && All(ok, c2) && All(ok, c3) && All(ok, c4) && All(ok, c5) && All(ok, c6) && All(ok, c7) && All(ok, c8)
  {
    ConcatAll(ok, c1, c2);
    ConcatAll(ok, c1 + c2, c3);
    ConcatAll(ok, c1 + c2 + c3, c4);
    ConcatAll(ok, c1 + c2 + c3 + c4, c5);
    ConcatAll(ok, c1 + c2 + c3 + c4 + c5, c6);
    ConcatAll(ok, c1 + c2 + c3 + c4 + c5 + c6, c7);
    ConcatAll(ok, c1 + c2 + c3 + c4 + c5 + c6 + c7, c8);
  }

  lemma CasesAll(ok: TestCase -> bool, g: Config, draw: Draws)
    ensures All(ok, Cases(g, draw)) <==>
      && All(ok, Repeat(g.validCount, ValidCases()))
      && All(ok, RepeatPairs(g.boundaryCount, AtLimits(g), OverLimits(g)))
      && All(ok, Repeat(g.oversizedCount, Oversizeds(g, draw)))
      && All(ok, Repeat(g.missingHeaderCount, MissingHeaders()))
      && All(ok, Repeat(g.duplicateCount, DuplicateIdentities()))
      && All(ok, Repeat(g.mismatchedCount, Mismatcheds(g, draw)))
      && All(ok, Repeat(g.sequenceCount, InvalidSequences()))
      && All(ok, Repeat(g.transitionCount, InvalidTransitions()))
  {
    ChainAll(ok, Repeat(g.validCount, ValidCases()),
             RepeatPairs(g.boundaryCount, AtLimits(g), OverLimits(g)),
             Repeat(g.oversizedCount, Oversizeds(g, draw)),
             Repeat(g.missingHeaderCount, MissingHeaders()),
             Repeat(g.duplicateCount, DuplicateIdentities()),
             Repeat(g.mismatchedCount, Mismatcheds(g, draw)),
             Repeat(g.sequenceCount, InvalidSequences()),
             Repeat(g.transitionCount, InvalidTransitions()));
  }

  /** For one seed, the labels are right exactly when the boundary sits at the strategy's limit and
      every oversized attribute really exceeds it. */
  lemma LabelsReduce(str: Printer, g: Config, draw: Draws)
    ensures AllCorrect(Telecom, str, Cases(g, draw)) <==>
      (g.boundaryCount > 0 ==> g.maxSdpLength == 256) && ReallyOversized(g, draw)
  {
    ValidFamilyCorrect(str, g);
    MissingFamilyCorrect(str, g);
    DuplicateFamilyCorrect(str, g);
    MismatchedFamilyCorrect(str, g, draw);
    SequenceFamilyCorrect(str, g);
    TransitionFamilyCorrect(str, g);
    BoundaryAllCorrect(str, g);
    OversizedAllCorrect(str, g, draw);
    CasesAll(Judge(Telecom, str), g, draw);
  }

  lemma FitsMeansOversized(g: Config, draw: Draws)
    ensures (g.oversizedCount > 0 ==> g.maxSdpLength >= 256) ==> ReallyOversized(g, draw)
    ensures ReallyOversized(g, draw) && RandInt(draw, 0, 500) == 0 ==> (g.oversizedCount > 0 ==> g.maxSdpLength >= 256)
  {
    if g.oversizedCount > 0 && ReallyOversized(g, draw) {
      assert OversizedLength(g, draw, 0) > 256;
    }
  }

  /** Under a fitting limit every label is the strict strategy's decision, for every seed, no strategy
      raises, and the baseline accepts every case. */
  lemma LabelsCorrect(str: Printer, g: Config, draw: Draws)
    requires Fits(g)
    ensures AllCorrect(Telecom, str, Cases(g, draw))
  {
    LabelsReduce(str, g, draw);
    FitsMeansOversized(g, draw);
  }

  lemma BoundaryMislabelled(str: Printer, g: Config)
    requires g.boundaryCount > 0 && g.maxSdpLength != 256
    ensures !All(NotMislabelled(Telecom, str), RepeatPairs(g.boundaryCount, AtLimits(g), OverLimits(g)))
  {
    if g.maxSdpLength > 256 { AtLimitCorrect(str, g, 0); } else { OverLimitCorrect(str, g, 0); }
    PairMislabelled(Telecom, str, g.boundaryCount, AtLimits(g), OverLimits(g));
  }

  lemma OversizedMislabelled(str: Printer, g: Config, draw: Draws)
    requires g.oversizedCount > 0 && OversizedLength(g, draw, 0) <= 256
    ensures !All(NotMislabelled(Telecom, str), Repeat(g.oversizedCount, Oversizeds(g, draw)))
  {
    OversizedCorrect(str, g, draw, 0);
    RepeatMislabelled(Telecom, str, g.oversizedCount, Oversizeds(g, draw));
  }

  lemma PartFails(ok: TestCase -> bool, g: Config, draw: Draws)
    requires !All(ok, RepeatPairs(g.boundaryCount, AtLimits(g), OverLimits(g)))
             || !All(ok, Repeat(g.oversizedCount, Oversizeds(g, draw)))
    ensures !All(ok, Cases(g, draw))
  {
    CasesAll(ok, g, draw);
  }

  lemma ZeroIsTooShort(g: Config, draw: Draws)
    requires !Fits(g) && !(g.boundaryCount > 0 && g.maxSdpLength != 256) && forall k :: draw(k) == 0
    ensures g.oversizedCount > 0 && OversizedLength(g, draw, 0) <= 256
  {
  }

  lemma WrongAtZero(str: Printer, g: Config, draw: Draws)
    requires !Fits(g) && forall k :: draw(k) == 0
    ensures !All(NotMislabelled(Telecom, str), Cases(g, draw))
  {
    if g.boundaryCount > 0 && g.maxSdpLength != 256 {
      BoundaryMislabelled(str, g);
    } else {
      ZeroIsTooShort(g, draw);
      OversizedMislabelled(str, g, draw);
    }
    PartFails(NotMislabelled(Telecom, str), g, draw);
  }

  /** Otherwise some stream of draws, the one of all zeros, gives a case whose label is not the strict
      strategy's decision. */
  lemma LabelsWrong(str: Printer, g: Config) returns (draw: Draws)
    requires !Fits(g)
    ensures exists i :: 0 <= i < |Cases(g, draw)| && Mislabelled(Telecom, str, Cases(g, draw)[i])
  {
    draw := (k: nat) => 0;
    WrongAtZero(str, g, draw);
    SomeMislabelled(Telecom, str, Cases(g, draw));
  }

  lemma ChainExpects(c1: seq<TestCase>, c2: seq<TestCase>, c3: seq<TestCase>, c4: seq<TestCase>,
    c5: seq<TestCase>, c6: seq<TestCase>, c7: seq<TestCase>, c8: seq<TestCase>, d: Decision)
    ensures Expects(c1 + c2 + c3 + c4 + c5 + c6 + c7 + c8, d) <==>
      Expects(c1, d) || Expects(c2, d) || Expects(c3, d) || Expects(c4, d) || Expects(c5, d) || Expects(c6, d) || Expects(c7, d) || Expects(c8, d)
  {
    ConcatExpects(c1, c2, d);
    ConcatExpects(c1 + c2, c3, d);
    ConcatExpects(c1 + c2 + c3, c4, d);
    ConcatExpects(c1 + c2 + c3 + c4, c5, d);
    ConcatExpects(c1 + c2 + c3 + c4 + c5, c6, d);
    ConcatExpects(c1 + c2 + c3 + c4 + c5 + c6, c7, d);
    ConcatExpects(c1 + c2 + c3 + c4 + c5 + c6 + c7, c8, d);
  }

  function Total(g: Config): nat {
    g.validCount + 2 * g.boundaryCount + MalformedTotal(g)
  }

  function MalformedTotal(g: Config): nat {
    g.oversizedCount + g.missingHeaderCount + g.duplicateCount + g.mismatchedCount + g.sequenceCount + g.transitionCount
  }

  lemma ComposeExpects(g: Config, draw: Draws, d: Decision)
    ensures Expects(Cases(g, draw), d) <==>
      || Expects(Repeat(g.validCount, ValidCases()), d)
      || Expects(RepeatPairs(g.boundaryCount, AtLimits(g), OverLimits(g)), d)
      || Expects(Repeat(g.oversizedCount, Oversizeds(g, draw)), d)
      || Expects(Repeat(g.missingHeaderCount, MissingHeaders()), d)
      || Expects(Repeat(g.duplicateCount, DuplicateIdentities()), d)
      || Expects(Repeat(g.mismatchedCount, Mismatcheds(g, draw)), d)
      || Expects(Repeat(g.sequenceCount, InvalidSequences()), d)
      || Expects(Repeat(g.transitionCount, InvalidTransitions()), d)
  {
    ChainExpects(Repeat(g.validCount, ValidCases()),
                 RepeatPairs(g.boundaryCount, AtLimits(g), OverLimits(g)),
                 Repeat(g.oversizedCount, Oversizeds(g, draw)),
                 Repeat(g.missingHeaderCount, MissingHeaders()),
                 Repeat(g.duplicateCount, DuplicateIdentities()),
                 Repeat(g.mismatchedCount, Mismatcheds(g, draw)),
                 Repeat(g.sequenceCount, InvalidSequences()),
                 Repeat(g.transitionCount, InvalidTransitions()), d);
  }

  lemma CaseCount(g: Config, draw: Draws)
    ensures |Cases(g, draw)| == Total(g)
  {
  }

  lemma LengthFamiliesExpect(g: Config, draw: Draws, d: Decision)
    ensures Expects(Repeat(g.validCount, ValidCases()), d) <==> g.validCount > 0 && d == Accepted
    ensures Expects(RepeatPairs(g.boundaryCount, AtLimits(g), OverLimits(g)), d) <==> g.boundaryCount > 0
    ensures Expects(Repeat(g.oversizedCount, Oversizeds(g, draw)), d) <==> g.oversizedCount > 0 && d == Blocked
  {
    RepeatExpects(g.validCount, ValidCases(), Accepted);
    PairsExpect(g.boundaryCount, AtLimits(g), OverLimits(g));
    RepeatExpects(g.oversizedCount, Oversizeds(g, draw), Blocked);
  }

  lemma HeaderFamiliesExpect(g: Config, d: Decision)
    ensures Expects(Repeat(g.missingHeaderCount, MissingHeaders()), d) <==> g.missingHeaderCount > 0 && d == Blocked
    ensures Expects(Repeat(g.duplicateCount, DuplicateIdentities()), d) <==> g.duplicateCount > 0 && d == Blocked
  {
    RepeatExpects(g.missingHeaderCount, MissingHeaders(), Blocked);
    RepeatExpects(g.duplicateCount, DuplicateIdentities(), Blocked);
  }

  lemma StateFamiliesExpect(g: Config, draw: Draws, d: Decision)
    ensures Expects(Repeat(g.mismatchedCount, Mismatcheds(g, draw)), d) <==> g.mismatchedCount > 0 && d == Blocked
    ensures Expects(Repeat(g.sequenceCount, InvalidSequences()), d) <==> g.sequenceCount > 0 && d == Blocked
    ensures Expects(Repeat(g.transitionCount, InvalidTransitions()), d) <==> g.transitionCount > 0 && d == Blocked
  {
    RepeatExpects(g.mismatchedCount, Mismatcheds(g, draw), Blocked);
    RepeatExpects(g.sequenceCount, InvalidSequences(), Blocked);
    RepeatExpects(g.transitionCount, InvalidTransitions(), Blocked);
  }

  lemma ExpectsWhen(g: Config, draw: Draws, d: Decision)
    ensures Expects(Cases(g, draw), d) <==>
      g.boundaryCount > 0 || (if d == Accepted then g.validCount > 0 else MalformedTotal(g) > 0)
  {
    ComposeExpects(g, draw, d);
    LengthFamiliesExpect(g, draw, d);
    HeaderFamiliesExpect(g, d);
    StateFamiliesExpect(g, draw, d);
  }

  /** Which expectations a configuration produces, and how many cases. */
  lemma Composition(g: Config, draw: Draws)
    ensures |Cases(g, draw)| == Total(g)
    ensures Expects(Cases(g, draw), Accepted) <==> g.validCount + g.boundaryCount > 0
    ensures Expects(Cases(g, draw), Blocked) <==> g.boundaryCount + MalformedTotal(g) > 0
  {
    CaseCount(g, draw);
    ExpectsWhen(g, draw, Accepted);
    ExpectsWhen(g, draw, Blocked);
  }

  /** End to end, for every seed and every fitting configuration: generate, run the baseline and the
      mitigation, measure, compare and judge. The baseline blocks nothing, the mitigation makes no
      mistake, and the verdict is effective exactly when the configuration has five cases, some to
      accept and some to block, and the mitigation costs at most 100 ms. */
  lemma TelecomEndToEnd(str: Printer, g: Config, draw: Draws, bl: seq<real>, ml: seq<real>)
    returns (base: Result<Metrics>, mit: Result<Metrics>)
    requires ValidConfig(g) && Fits(g) && |bl| == Total(g) == |ml|
    ensures |Cases(g, draw)| == Total(g)
    ensures base == RunMetrics(Weak(Telecom), str, Cases(g, draw), bl)
    ensures mit == RunMetrics(Strict(Telecom), str, Cases(g, draw), ml)
    ensures base.Ok? && mit.Ok?
    ensures base.value.blockRate == 0.0 && mit.value.falsePositive == 0.0 && mit.value.falseNegative == 0.0
    ensures g.boundaryCount + MalformedTotal(g) > 0 ==> mit.value.blockRate == 1.0
    ensures var c := Compare(Total(g), base.value, mit.value);
      LabelOf(c, None, DEFAULTS) == Effective <==>
        && Total(g) >= 5 && g.validCount + g.boundaryCount > 0 && g.boundaryCount + MalformedTotal(g) > 0
        && mit.value.meanLatency - base.value.meanLatency <= 100.0
  {
    CaseIdsUnique(g, draw);
    LabelsCorrect(str, g, draw);
    Composition(g, draw);
    CorrectRates(Telecom, str, Cases(g, draw), bl, ml);
    base, mit := CorrectVerdict(Telecom, str, Cases(g, draw), bl, ml);
  }
}
