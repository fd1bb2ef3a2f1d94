/** What the generated Telecom dataset consists of: sound messages, and messages with a single fault. */
module TelecomCases {
  import opened Basics
  import opened JsonValue
  import opened Strategies
  import opened Metrics
  import opened Datasets
  import opened TelecomGenerator
  import TelecomLabels

  const CALL_ID := List([Str("Call-ID"), Str("call-0001")])
  const FROM := List([Str("From"), Str("sip:alice@ims.example.local")])
  const TO := List([Str("To"), Str("sip:bob@ims.example.local")])

  /** A message with nothing wrong except, perhaps, its transition or its numbers. */
  function Sound(state: string, verb: string, sequence: int, expected: int): Input {
    map["method" := Str(verb), "session_state" := Str(state), "headers" := List([CALL_ID, FROM, TO]),
        "sequence_number" := Int(sequence), "expected_sequence_number" := Int(expected),
        "sdp_attributes" := List([List([Str("accept-type"), Str("audio/AMR")])]),
        "declared_body_length" := Int(32), "actual_body_length" := Int(32)]
  }

  const INVITE := Sound("INIT", "INVITE", 1, 1)

  /** The letter a, as often as that. */
  predicate Letters(value: string, n: nat) {
    |value| == n && forall i :: 0 <= i < |value| ==> value[i] == 'a'
  }

  ghost predicate ValidAt(c: TestCase, i: nat) {
    exists state, verb :: c == TestCase("TEL-GEN-VALID-" + Pad3(i + 1), Valid, Sound(state, verb, i + 1, i + 1), Accepted)
      && (state, verb) == [("INIT", "INVITE"), ("RINGING", "ACK"), ("ESTABLISHED", "BYE")][i % 3]
  }

  /** The case is an INVITE message with these fields set instead. */
  predicate Instead(c: TestCase, prefix: string, i: nat, category: Category, fields: map<string, Json>, expected: Decision) {
    c == TestCase(prefix + Pad3(i + 1), category, INVITE + fields, expected)
  }

  function Sdp(name: string, value: string): map<string, Json> {
    map["sdp_attributes" := List([List([Str(name), Str(value)])])]
  }

  ghost predicate BoundaryAt(g: Config, at: TestCase, over: TestCase, i: nat) {
    exists p, q :: Instead(at, "TEL-GEN-BOUNDARY-AT-", i, Boundary, Sdp("video-configuration", p), Accepted)
      && Instead(over, "TEL-GEN-BOUNDARY-OVER-", i, Boundary, Sdp("video-configuration", q), Blocked)
      && Letters(p, g.maxSdpLength) && Letters(q, g.maxSdpLength + 1)
  }

  ghost predicate OversizedAt(g: Config, draw: Draws, c: TestCase, i: nat) {
    exists value :: Instead(c, "TEL-GEN-OVERSIZED-", i, Malformed, Sdp("accept-type", value), Blocked)
      && Letters(value, g.maxSdpLength + 1 + draw(i) % 501)
  }

  ghost predicate MissingAt(c: TestCase, i: nat) {
    Instead(c, "TEL-GEN-MISSING-HEADER-", i, Malformed,
            map["headers" := List([[FROM, TO], [CALL_ID, TO], [CALL_ID, FROM]][i % 3])], Blocked)
  }

  ghost predicate DuplicateAt(c: TestCase, i: nat) {
    Instead(c, "TEL-GEN-DUPLICATE-IDENTITY-", i, Malformed, map["headers" := List([CALL_ID, FROM, TO,
      [List([Str("Call-ID"), Str("synthetic-conflicting-call-id")]), List([Str("From"), Str("synthetic-conflicting-from")]),
       List([Str("To"), Str("synthetic-conflicting-to")])][i % 3]])], Blocked)
  }

  ghost predicate MismatchedAt(g: Config, draw: Draws, c: TestCase, i: nat) {
    Instead(c, "TEL-GEN-MISMATCHED-LENGTH-", i, Malformed,
            map["actual_body_length" := Int(232 + draw(g.oversizedCount + i) % 501)], Blocked)
  }

  ghost predicate SequenceAt(c: TestCase, i: nat) {
    Instead(c, "TEL-GEN-INVALID-SEQUENCE-", i, Malformed,
            map["sequence_number" := Int(0), "expected_sequence_number" := Int(5 + i)], Blocked)
  }

  ghost predicate TransitionAt(c: TestCase, i: nat) {
    exists state, verb :: Instead(c, "TEL-GEN-INVALID-TRANSITION-", i, Malformed,
                                  map["session_state" := Str(state), "method" := Str(verb)], Blocked)
      && (state, verb) == [("INIT", "ACK"), ("INIT", "BYE"), ("ESTABLISHED", "INVITE")][i % 3]
  }

  // ------------------------------------------------------------------- one family at a time

  lemma SameMessage(state: string, verb: string, sequence: int, expected: int)
    ensures BaseRequest(state, verb, sequence, expected) == Sound(state, verb, sequence, expected)
  {
    assert HEADERS == [CALL_ID, FROM, TO];
  }

  lemma ValidFamily(i: nat)
    ensures ValidAt(ValidCase(i), i)
  {
    var (state, verb) := LEGAL_TRANSITIONS[i % 3];
    SameMessage(state, verb, i + 1, i + 1);
    assert ValidCase(i) == TestCase("TEL-GEN-VALID-" + Pad3(i + 1), Valid, Sound(state, verb, i + 1, i + 1), Accepted);
  }

  lemma SdpIs(name: string, value: string)
    ensures WithSdp(name, value) == INVITE + Sdp(name, value)
  {
    assert HEADERS == [CALL_ID, FROM, TO];
  }

  lemma BoundaryFamily(g: Config, i: nat)
    ensures BoundaryAt(g, AtLimit(g, i), OverLimit(g, i), i)
  {
    var p, q := Padding(g.maxSdpLength), Padding(g.maxSdpLength + 1);
    SdpIs("video-configuration", p);
    SdpIs("video-configuration", q);
    assert Instead(AtLimit(g, i), "TEL-GEN-BOUNDARY-AT-", i, Boundary, Sdp("video-configuration", p), Accepted);
  }

  lemma OversizedFamily(g: Config, draw: Draws, i: nat)
    ensures OversizedAt(g, draw, Oversized(g, draw, i), i)
  {
    var value := Padding(OversizedLength(g, draw, i));
    SdpIs("accept-type", value);
    assert Instead(Oversized(g, draw, i), "TEL-GEN-OVERSIZED-", i, Malformed, Sdp("accept-type", value), Blocked);
    assert Letters(value, g.maxSdpLength + 1 + draw(i) % 501);
  }

  lemma HeadersAre(headers: seq<Json>)
    ensures WithHeaders(headers) == INVITE + map["headers" := List(headers)]
  {
  }

  lemma WithoutIs(i: nat)
    ensures Without(HEADERS, MANDATORY_HEADERS[i % 3]) == [[FROM, TO], [CALL_ID, TO], [CALL_ID, FROM]][i % 3]
  {
    var name := MANDATORY_HEADERS[i % 3];
    assert HEADERS == [CALL_ID] + [FROM] + [TO];
    assert HEADERS[1..] == [FROM, TO] && [FROM, TO][1..] == [TO] && [TO][1..] == [];
    assert Without([TO], name) == (if name == "To" then [] else [TO]) + Without([], name);
    assert Without([FROM, TO], name) == (if name == "From" then [] else [FROM]) + Without([TO], name);
    assert Without(HEADERS, name) == (if name == "Call-ID" then [] else [CALL_ID]) + Without([FROM, TO], name);
  }

  lemma MissingFamily(i: nat)
    ensures MissingAt(MissingHeader(i), i)
  {
    WithoutIs(i);
    HeadersAre(Without(HEADERS, MANDATORY_HEADERS[i % 3]));
  }

  lemma LowerNames()
    ensures Lower("Call-ID") == "call-id" && Lower("From") == "from" && Lower("To") == "to"
  {
  }

  lemma DuplicateFamily(i: nat)
    ensures DuplicateAt(DuplicateIdentity(i), i)
  {
    LowerNames();
    assert "synthetic-conflicting-" + "call-id" == "synthetic-conflicting-call-id";
    assert "synthetic-conflicting-" + "from" == "synthetic-conflicting-from";
    assert "synthetic-conflicting-" + "to" == "synthetic-conflicting-to";
    var extra := Conflicting(MANDATORY_HEADERS[i % 3]);
    HeadersAre(HEADERS + [extra]);
    assert HEADERS + [extra] == [CALL_ID, FROM, TO, extra];
  }

  lemma MismatchedFamily(g: Config, draw: Draws, i: nat)
    ensures MismatchedAt(g, draw, Mismatched(g, draw, i), i)
  {
    var n := 232 + draw(g.oversizedCount + i) % 501;
    assert WithLengths(32, n) == INVITE + map["actual_body_length" := Int(n)];
  }

  lemma SequenceFamily(i: nat)
    ensures SequenceAt(InvalidSequence(i), i)
  {
    SameMessage("INIT", "INVITE", 0, 5 + i);
    assert Sound("INIT", "INVITE", 0, 5 + i) == INVITE + map["sequence_number" := Int(0), "expected_sequence_number" := Int(5 + i)];
  }

  lemma TransitionFamily(i: nat)
    ensures TransitionAt(InvalidTransition(i), i)
  {
    var (state, verb) := ILLEGAL_PAIRS[i % 3];
    SameMessage(state, verb, 1, 1);
    assert Sound(state, verb, 1, 1) == INVITE + map["session_state" := Str(state), "method" := Str(verb)];
    assert Instead(InvalidTransition(i), "TEL-GEN-INVALID-TRANSITION-", i, Malformed,
                   map["session_state" := Str(state), "method" := Str(verb)], Blocked);
  }

  // The families of a dataset, case by case.

  ghost predicate ValidPart(cs: seq<TestCase>) { forall i :: 0 <= i < |cs| ==> ValidAt(cs[i], i) }
  ghost predicate BoundaryPart(g: Config, cs: seq<TestCase>) {
    |cs| == 2 * g.boundaryCount && forall i :: 0 <= i < g.boundaryCount ==> BoundaryAt(g, cs[2 * i], cs[2 * i + 1], i)
  }
  ghost predicate OversizedPart(g: Config, draw: Draws, cs: seq<TestCase>) { forall i :: 0 <= i < |cs| ==> OversizedAt(g, draw, cs[i], i) }
  ghost predicate MissingPart(cs: seq<TestCase>) { forall i :: 0 <= i < |cs| ==> MissingAt(cs[i], i) }
  ghost predicate DuplicatePart(cs: seq<TestCase>) { forall i :: 0 <= i < |cs| ==> DuplicateAt(cs[i], i) }
  ghost predicate MismatchedPart(g: Config, draw: Draws, cs: seq<TestCase>) { forall i :: 0 <= i < |cs| ==> MismatchedAt(g, draw, cs[i], i) }
  ghost predicate SequencePart(cs: seq<TestCase>) { forall i :: 0 <= i < |cs| ==> SequenceAt(cs[i], i) }
  ghost predicate TransitionPart(cs: seq<TestCase>) { forall i :: 0 <= i < |cs| ==> TransitionAt(cs[i], i) }

  lemma PartsAre(g: Config, draw: Draws)
    ensures ValidPart(Repeat(g.validCount, ValidCases()))
    ensures BoundaryPart(g, RepeatPairs(g.boundaryCount, AtLimits(g), OverLimits(g)))
    ensures OversizedPart(g, draw, Repeat(g.oversizedCount, Oversizeds(g, draw)))
    ensures MissingPart(Repeat(g.missingHeaderCount, MissingHeaders()))
    ensures DuplicatePart(Repeat(g.duplicateCount, DuplicateIdentities()))
    ensures MismatchedPart(g, draw, Repeat(g.mismatchedCount, Mismatcheds(g, draw)))
    ensures SequencePart(Repeat(g.sequenceCount, InvalidSequences()))
    ensures TransitionPart(Repeat(g.transitionCount, InvalidTransitions()))
  {
    forall i: nat { ValidFamily(i); }
    forall i: nat { BoundaryFamily(g, i); }
    forall i: nat { OversizedFamily(g, draw, i); }
    forall i: nat { MissingFamily(i); }
    forall i: nat { DuplicateFamily(i); }
    forall i: nat { MismatchedFamily(g, draw, i); }
    forall i: nat { SequenceFamily(i); }
    forall i: nat { TransitionFamily(i); }
  }

  ghost predicate IsDataset(g: Config, draw: Draws, cs: seq<TestCase>) {
    var v := g.validCount;
    var o := v + 2 * g.boundaryCount;
    var h := o + g.oversizedCount;
    var d := h + g.missingHeaderCount;
    var m := d + g.duplicateCount;
    var q := m + g.mismatchedCount;
    var t := q + g.sequenceCount;
    && |cs| == t + g.transitionCount
    && ValidPart(cs[..v]) && BoundaryPart(g, cs[v..o]) && OversizedPart(g, draw, cs[o..h]) && MissingPart(cs[h..d])
    && DuplicatePart(cs[d..m]) && MismatchedPart(g, draw, cs[m..q]) && SequencePart(cs[q..t]) && TransitionPart(cs[t..])
  }

  /** Every dataset, part by part: the valid cases with their legal transitions, the pairs around the
      attribute limit, and six kinds of malformed ones, each an INVITE message with one thing wrong. The
      numbers drawn decide the sizes of the oversized and mismatched ones, in this order. */
  lemma DatasetIs(g: Config, draw: Draws)
    ensures IsDataset(g, draw, Cases(g, draw))
  {
    PartsAre(g, draw);
    PartsInPlace(g, Cases(g, draw), Repeat(g.validCount, ValidCases()),
                 RepeatPairs(g.boundaryCount, AtLimits(g), OverLimits(g)),
                 Repeat(g.oversizedCount, Oversizeds(g, draw)), Repeat(g.missingHeaderCount, MissingHeaders()),
                 Repeat(g.duplicateCount, DuplicateIdentities()), Repeat(g.mismatchedCount, Mismatcheds(g, draw)),
                 Repeat(g.sequenceCount, InvalidSequences()), Repeat(g.transitionCount, InvalidTransitions()));
  }

  lemma PartsInPlace(g: Config, cs: seq<TestCase>, c1: seq<TestCase>, c2: seq<TestCase>, c3: seq<TestCase>, c4: seq<TestCase>,
                     c5: seq<TestCase>, c6: seq<TestCase>, c7: seq<TestCase>, c8: seq<TestCase>)
    requires cs == c1 + c2 + c3 + c4 + c5 + c6 + c7 + c8
    requires |c1| == g.validCount && |c2| == 2 * g.boundaryCount && |c3| == g.oversizedCount && |c4| == g.missingHeaderCount
    requires |c5| == g.duplicateCount && |c6| == g.mismatchedCount && |c7| == g.sequenceCount && |c8| == g.transitionCount
    ensures var v := g.validCount;
      var o := v + 2 * g.boundaryCount; var h := o + g.oversizedCount; var d := h + g.missingHeaderCount;
      var m := d + g.duplicateCount; var q := m + g.mismatchedCount; var t := q + g.sequenceCount;
      && |cs| == t + |c8| && cs[..v] == c1 && cs[v..o] == c2 && cs[o..h] == c3 && cs[h..d] == c4 && cs[d..m] == c5
      && cs[m..q] == c6 && cs[q..t] == c7 && cs[t..] == c8
  {
  }

  /** The message that every malformed case spoils passes both strategies. */
  lemma InvitePasses(str: Printer)
    ensures Process(Strict(Telecom), str, INVITE) == Ok(Outcome(Accepted, true, false))
    ensures Process(Weak(Telecom), str, INVITE) == Ok(Outcome(Accepted, true, false))
  {
    SameMessage("INIT", "INVITE", 1, 1);
    TelecomLabels.KnownNames();
    assert LEGAL_TRANSITIONS[0] == ("INIT", "INVITE");
    TelecomLabels.PlainDecision(str, "INIT", "INVITE", 1, 1, "accept-type", "audio/AMR", 32, 32);
    TelecomLabels.WeakAccepts(str, "INIT", "INVITE", HEADERS, 1, 1, "accept-type", "audio/AMR", 32, 32);
  }
}
