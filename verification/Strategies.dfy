/** The four processing strategies (strategies/vpn, strategies/telecom). */
module Strategies {
  import opened Basics
  import opened JsonValue

  datatype Decision = Accepted | Blocked

  datatype Outcome = Outcome(decision: Decision, parserReached: bool, logged: bool)

  datatype Domain = Vpn | Telecom

  datatype Strategy = Weak(domain: Domain) | Strict(domain: Domain)

  const ACCEPT := Outcome(Accepted, true, false)
  const BLOCK := Outcome(Blocked, false, true)
  const BLOCK_SILENTLY := Outcome(Blocked, false, false)

  predicate NonEmptyText(j: Json) {
    j.Str? && j.text != ""
  }

  // ------------------------------------------------------------------- VPN

  const MAX_PATH_LENGTH := 256
  const MAX_VPN_BODY_LENGTH := 8192
  const MAX_HEADER_VALUE_LENGTH := 512
  const MAX_QUERY_PARAM_VALUE_LENGTH := 512
  const PATH_TRAVERSAL_MARKERS := ["..", "%2e%2e", "%00"]

  predicate FailsSchema(input: Input) {
    !NonEmptyText(Get(input, "method")) || !NonEmptyText(Get(input, "path"))
  }

  predicate QueryTooLong(str: Printer, q: Json) {
    q.Dict? && exists k :: k in q.entries && |Print(str, q.entries[k])| > MAX_QUERY_PARAM_VALUE_LENGTH
  }

  predicate FailsLengths(str: Printer, input: Input) {
    || (Get(input, "path").Str? && |Get(input, "path").text| > MAX_PATH_LENGTH)
    || LengthMismatch(Get(input, "declared_content_length"), Get(input, "actual_body_length"), MAX_VPN_BODY_LENGTH)
    || AnyTooLong(str, AsList(Get(input, "headers")), MAX_HEADER_VALUE_LENGTH)
    || QueryTooLong(str, Get(input, "query_params"))
  }

  predicate FailsType(encoding: Json) {
    encoding != Str("utf-8") && encoding != Str("ascii")
  }

  predicate FailsPath(path: string) {
    exists m :: 0 <= m < |PATH_TRAVERSAL_MARKERS| && Contains(Lower(path), PATH_TRAVERSAL_MARKERS[m])
  }

  /** The checks run in order and stop at the first failure; hashing a list or dictionary raises. */
  function StrictVpn(str: Printer, input: Input): Result<Outcome> {
    var keys := Keys(AsList(Get(input, "headers")));
    if FailsSchema(input) || FailsLengths(str, input) then Ok(BLOCK)
    else if !AllHashable(keys) then Raised
    else if HasDuplicate(keys) then Ok(BLOCK)
    else if !Hashable(Get(input, "encoding")) then Raised
    else if FailsType(Get(input, "encoding")) || FailsPath(Get(input, "path").text) then Ok(BLOCK)
    else Ok(ACCEPT)
  }

  function WeakVpn(input: Input): Result<Outcome> {
    if FailsSchema(input) then Ok(BLOCK_SILENTLY) else Ok(ACCEPT)
  }

  // --------------------------------------------------------------- Telecom

  const MAX_SDP_ATTR_VALUE_LENGTH := 256
  const MAX_SIP_BODY_LENGTH := 4096
  const MANDATORY_HEADERS := ["Call-ID", "From", "To"]
  const LEGAL_TRANSITIONS := [("INIT", "INVITE"), ("RINGING", "ACK"), ("ESTABLISHED", "BYE")]
  const KNOWN_METHODS := ["INVITE", "ACK", "BYE"]
  const KNOWN_STATES := ["INIT", "RINGING", "ESTABLISHED", "TERMINATED"]

  predicate MissesMandatory(keys: seq<Json>) {
    exists m :: 0 <= m < |MANDATORY_HEADERS| && Str(MANDATORY_HEADERS[m]) !in keys
  }

  predicate FailsSizes(str: Printer, input: Input) {
    || LengthMismatch(Get(input, "declared_body_length"), Get(input, "actual_body_length"), MAX_SIP_BODY_LENGTH)
    || AnyTooLong(str, AsList(Get(input, "sdp_attributes")), MAX_SDP_ATTR_VALUE_LENGTH)
  }

  predicate IllegalTransition(state: Json, verb: Json) {
    !(state.Str? && verb.Str? && (state.text, verb.text) in LEGAL_TRANSITIONS)
  }

  function StrictTelecom(str: Printer, input: Input): Result<Outcome> {
    var keys := Keys(AsList(Get(input, "headers")));
    var state, verb := Get(input, "session_state"), Get(input, "method");
    if !AllHashable(keys) then Raised
    else if MissesMandatory(keys) || HasDuplicate(keys) || FailsSizes(str, input)
      || !Same(Get(input, "sequence_number"), Get(input, "expected_sequence_number")) then Ok(BLOCK)
    else if !Hashable(state) || !Hashable(verb) then Raised
    else if IllegalTransition(state, verb) then Ok(BLOCK)
    else Ok(ACCEPT)
  }

  function WeakTelecom(input: Input): Result<Outcome> {
    var verb, headers, state := Get(input, "method"), Get(input, "headers"), Get(input, "session_state");
    if !verb.Str? || verb.text !in KNOWN_METHODS then Ok(BLOCK_SILENTLY)
    else if !headers.List? || headers.items == [] then Ok(BLOCK_SILENTLY)
    else if !state.Str? || state.text !in KNOWN_STATES then Ok(BLOCK_SILENTLY)
    else Ok(ACCEPT)
  }

  function Process(s: Strategy, str: Printer, input: Input): Result<Outcome> {
    match s
    case Weak(Vpn) => WeakVpn(input)
    case Strict(Vpn) => StrictVpn(str, input)
    case Weak(Telecom) => WeakTelecom(input)
    case Strict(Telecom) => StrictTelecom(str, input)
  }

  // ------------------------------------------------------------- relations

  /** A strategy lets the parser see an input exactly when it accepts it, and the baseline never raises. */
  lemma ParserFollowsDecision(s: Strategy, str: Printer, input: Input)
    ensures Process(s, str, input).Ok? ==>
      (Process(s, str, input).value.parserReached <==> Process(s, str, input).value.decision == Accepted)
    ensures s.Weak? ==> Process(s, str, input).Ok?
  {
  }

  lemma LegalIsKnown(state: string, verb: string)
    requires (state, verb) in LEGAL_TRANSITIONS
    ensures state in KNOWN_STATES && verb in KNOWN_METHODS
  {
    assert KNOWN_STATES[0] == "INIT" && KNOWN_STATES[1] == "RINGING" && KNOWN_STATES[2] == "ESTABLISHED";
    assert KNOWN_METHODS[0] == "INVITE" && KNOWN_METHODS[1] == "ACK" && KNOWN_METHODS[2] == "BYE";
  }

  /** Whatever the weak baseline blocks, the strict mitigation does not accept. */
  lemma StrictDominates(domain: Domain, str: Printer, input: Input)
    requires Process(Weak(domain), str, input).value.decision == Blocked
    ensures Process(Strict(domain), str, input).Ok? ==> Process(Strict(domain), str, input).value.decision == Blocked
  {
    if domain == Telecom {
      var state, verb := Get(input, "session_state"), Get(input, "method");
      if !IllegalTransition(state, verb) {
        LegalIsKnown(state.text, verb.text);
        assert AsList(Get(input, "headers")) == [];
        assert Str(MANDATORY_HEADERS[0]) !in Keys([]);
      }
    }
  }
}
