/** What each strategy asks of the fields of an input, whatever the order of its checks. */
module StrategyFields {
  import opened Basics
  import opened JsonValue
  import opened Strategies
  import Metrics

  // ---------------------------------------------------------------- Python values

  /** A value with every number read as a real. */
  function Plain(j: Json): Json {
    match j
    case Bool(b) => Float(if b then 1.0 else 0.0)
    case Int(i) => Float(i as real)
    case List(items) => List(seq(|items|, i requires 0 <= i < |items| => Plain(items[i])))
    case Dict(entries) => Dict(map k | k in entries :: Plain(entries[k]))
    case _ => j
  }

  /** Two values are equal exactly when they are the same once their numbers are read as reals. */
  lemma {:induction false} SameIsPlain(a: Json, b: Json)
    ensures Same(a, b) <==> Plain(a) == Plain(b)
    decreases a
  {
    if a.List? && b.List? {
      SameItems(a.items, b.items);
    } else if a.Dict? && b.Dict? {
      forall k | k in a.entries && k in b.entries ensures Same(a.entries[k], b.entries[k]) <==> Plain(a.entries[k]) == Plain(b.entries[k]) {
        SameIsPlain(a.entries[k], b.entries[k]);
      }
      assert Plain(a).entries.Keys == a.entries.Keys && Plain(b).entries.Keys == b.entries.Keys;
      if Plain(a) == Plain(b) {
        forall k | k in a.entries ensures Same(a.entries[k], b.entries[k]) { assert Plain(a).entries[k] == Plain(b).entries[k]; }
      }
    }
  }

  lemma {:induction false} SameItems(a: seq<Json>, b: seq<Json>)
    ensures Same(List(a), List(b)) <==> Plain(List(a)) == Plain(List(b))
    decreases a, 0
  {
    var p, q := Plain(List(a)).items, Plain(List(b)).items;
    if |a| == |b| {
      forall i | 0 <= i < |a| ensures Same(a[i], b[i]) <==> p[i] == q[i] { SameIsPlain(a[i], b[i]); }
    } else {
      assert |p| != |q|;
    }
  }

  /** The value counts as the whole number `n`. */
  predicate Counts(j: Json, n: int) {
    j == Int(n) || j == Float(n as real) || (j == Bool(false) && n == 0) || (j == Bool(true) && n == 1)
  }

  /** A declared length: a whole number or a boolean from 0 to `max` that the actual length equals. */
  ghost predicate Declares(declared: Json, actual: Json, max: int) {
    exists n: int :: Counts(declared, n) && !declared.Float? && 0 <= n <= max && Counts(actual, n)
  }

  lemma DeclaresIff(declared: Json, actual: Json, max: int)
    ensures !LengthMismatch(declared, actual, max) <==> Declares(declared, actual, max)
  {
    if !LengthMismatch(declared, actual, max) {
      assert Counts(declared, AsInt(declared).value) && Counts(actual, AsInt(declared).value);
    }
  }

  // ------------------------------------------------------------- lists of pairs

  /** Entry `i` of the list stored there is a name and a value. */
  predicate PairAt(j: Json, i: int) {
    j.List? && 0 <= i < |j.items| && j.items[i].List? && |j.items[i].items| == 2
  }

  /** A value prints in at most `max` characters. */
  predicate Prints(str: Printer, j: Json, max: nat) {
    if j.Str? then |j.text| <= max else |str(j)| <= max
  }

  ghost predicate ValuesFit(str: Printer, j: Json, max: nat) {
    forall i :: PairAt(j, i) ==> Prints(str, j.items[i].items[1], max)
  }

  ghost predicate NamesHash(j: Json) {
    forall i :: PairAt(j, i) ==> !j.items[i].items[0].List? && !j.items[i].items[0].Dict?
  }

  ghost predicate NamesDiffer(j: Json) {
    forall i, k :: PairAt(j, i) && PairAt(j, k) && i < k ==> Plain(j.items[i].items[0]) != Plain(j.items[k].items[0])
  }

  ghost predicate Names(j: Json, name: string) {
    exists i :: PairAt(j, i) && j.items[i].items[0] == Str(name)
  }

  /** How many of the first `i` entries are pairs. */
  function PairsBefore(entries: seq<Json>, i: nat): nat
    requires i <= |entries|
  {
    |Keys(entries[..i])|
  }

  lemma KeysAssociate(a: seq<Json>, b: seq<Json>, c: seq<Json>)
    ensures a + (b + c) == a + b + c
  {
  }

  lemma {:induction false} KeysConcat(a: seq<Json>, b: seq<Json>)
    ensures Keys(a + b) == Keys(a) + Keys(b)
  {
    if a == [] {
      assert a + b == b;
    } else {
      assert (a + b)[0] == a[0] && (a + b)[1..] == a[1..] + b;
      KeysConcat(a[1..], b);
      KeysAssociate(if IsPair(a[0]) then [a[0].items[0]] else [], Keys(a[1..]), Keys(b));
    }
  }

  /** The key of a pair stands where the pairs before it end. */
  lemma KeyAt(entries: seq<Json>, i: nat)
    requires i < |entries| && IsPair(entries[i])
    ensures PairsBefore(entries, i) < |Keys(entries)| && Keys(entries)[PairsBefore(entries, i)] == entries[i].items[0]
  {
    assert entries == entries[..i] + ([entries[i]] + entries[i + 1..]);
    KeysConcat(entries[..i], [entries[i]] + entries[i + 1..]);
    KeysConcat([entries[i]], entries[i + 1..]);
    assert Keys([entries[i]]) == [entries[i].items[0]] + Keys([]);
  }

  lemma KeysOrdered(entries: seq<Json>, i: nat, k: nat)
    requires i < k < |entries| && IsPair(entries[i])
    ensures PairsBefore(entries, i) < PairsBefore(entries, k)
  {
    KeyAt(entries[..k], i);
    assert entries[..k][..i] == entries[..i];
  }

  /** Every key is that of some pair. */
  lemma {:induction false} PairOfKey(entries: seq<Json>, k: nat) returns (i: nat)
    requires k < |Keys(entries)|
    ensures i < |entries| && IsPair(entries[i]) && Keys(entries)[k] == entries[i].items[0] && PairsBefore(entries, i) == k
  {
    if IsPair(entries[0]) && k == 0 {
      i := 0;
    } else {
      var skip := if IsPair(entries[0]) then 1 else 0;
      var j := PairOfKey(entries[1..], k - skip);
      i := j + 1;
      assert entries[..i] == [entries[0]] + entries[1..][..j];
      KeysConcat([entries[0]], entries[1..][..j]);
      assert Keys([entries[0]]) == (if IsPair(entries[0]) then [entries[0].items[0]] else []) + Keys([]);
    }
  }

  lemma HashIff(j: Json)
    ensures AllHashable(Keys(AsList(j))) <==> NamesHash(j)
  {
    var entries := AsList(j);
    forall k | 0 <= k < |Keys(entries)| && NamesHash(j) ensures Hashable(Keys(entries)[k]) {
      var i := PairOfKey(entries, k);
      assert PairAt(j, i);
    }
    forall i | PairAt(j, i) && AllHashable(Keys(entries)) ensures Hashable(j.items[i].items[0]) { KeyAt(entries, i); }
  }

  lemma DifferIff(j: Json)
    ensures !HasDuplicate(Keys(AsList(j))) <==> NamesDiffer(j)
  {
    var entries, keys := AsList(j), Keys(AsList(j));
    if x, y :| 0 <= x < y < |keys| && Same(keys[x], keys[y]) {
      var i := PairOfKey(entries, x);
      var k := PairOfKey(entries, y);
      if k < i { KeysOrdered(entries, k, i); }
      SameIsPlain(keys[x], keys[y]);
      assert PairAt(j, i) && PairAt(j, k) && i < k;
    }
    if i, k :| PairAt(j, i) && PairAt(j, k) && i < k && Plain(j.items[i].items[0]) == Plain(j.items[k].items[0]) {
      KeyAt(entries, i);
      KeyAt(entries, k);
      KeysOrdered(entries, i, k);
      SameIsPlain(j.items[i].items[0], j.items[k].items[0]);
      assert Same(keys[PairsBefore(entries, i)], keys[PairsBefore(entries, k)]);
    }
  }

  lemma NamesIff(j: Json, name: string)
    ensures Str(name) in Keys(AsList(j)) <==> Names(j, name)
  {
    var entries, keys := AsList(j), Keys(AsList(j));
    if k :| 0 <= k < |keys| && keys[k] == Str(name) {
      var i := PairOfKey(entries, k);
      assert PairAt(j, i);
    }
    if i :| PairAt(j, i) && j.items[i].items[0] == Str(name) { KeyAt(entries, i); }
  }

  lemma FitIff(str: Printer, j: Json, max: nat)
    ensures !AnyTooLong(str, AsList(j), max) <==> ValuesFit(str, j, max)
  {
    if !AnyTooLong(str, AsList(j), max) {
      forall i | PairAt(j, i) ensures Prints(str, j.items[i].items[1], max) { assert IsPair(AsList(j)[i]); }
    } else {
      var i :| 0 <= i < |AsList(j)| && IsPair(AsList(j)[i]) && |Print(str, AsList(j)[i].items[1])| > max;
      assert PairAt(j, i);
    }
  }

  // ------------------------------------------------------------------------- paths

  /** The path has two dots in a row, in clear or in percent-encoding, or an encoded NUL. */
  ghost predicate Suspicious(path: string) {
    || (exists i :: 0 <= i < |path| - 1 && path[i] == '.' && path[i + 1] == '.')
    || (exists i :: 0 <= i < |path| - 5 && EncodedDot(path, i) && EncodedDot(path, i + 3))
    || (exists i :: 0 <= i < |path| - 2 && path[i] == '%' && path[i + 1] == '0' && path[i + 2] == '0')
  }

  predicate EncodedDot(path: string, i: int)
    requires 0 <= i < |path| - 2
  {
    path[i] == '%' && path[i + 1] == '2' && (path[i + 2] == 'e' || path[i + 2] == 'E')
  }

  lemma DotsIff(path: string, i: int)
    requires 0 <= i <= |path|
    ensures StartsAt(Lower(path), i, "..") <==> i < |path| - 1 && path[i] == '.' && path[i + 1] == '.'
  {
    if i < |path| - 1 {
      var s := Lower(path)[i..i + 2];
      assert s[0] == LowerChar(path[i]) && s[1] == LowerChar(path[i + 1]);
      assert s == ".." <==> s[0] == '.' && s[1] == '.';
    }
  }

  lemma NulIff(path: string, i: int)
    requires 0 <= i <= |path|
    ensures StartsAt(Lower(path), i, "%00") <==> i < |path| - 2 && path[i] == '%' && path[i + 1] == '0' && path[i + 2] == '0'
  {
    if i < |path| - 2 {
      var s := Lower(path)[i..i + 3];
      assert s[0] == LowerChar(path[i]) && s[1] == LowerChar(path[i + 1]) && s[2] == LowerChar(path[i + 2]);
      assert s == "%00" <==> s[0] == '%' && s[1] == '0' && s[2] == '0';
    }
  }

  lemma EncodedIff(path: string, i: int)
    requires 0 <= i <= |path|
    ensures StartsAt(Lower(path), i, "%2e%2e") <==> i < |path| - 5 && EncodedDot(path, i) && EncodedDot(path, i + 3)
  {
    if i < |path| - 5 {
      var s := Lower(path)[i..i + 6];
      assert forall k :: 0 <= k < 6 ==> s[k] == LowerChar(path[i + k]);
      assert s == s[..3] + s[3..];
      assert s == "%2e%2e" <==> s[0] == '%' && s[1] == '2' && s[2] == 'e' && s[3] == '%' && s[4] == '2' && s[5] == 'e';
      assert s[0] == LowerChar(path[i]) && s[1] == LowerChar(path[i + 1]) && s[2] == LowerChar(path[i + 2]);
      assert s[3] == LowerChar(path[i + 3]) && s[4] == LowerChar(path[i + 4]) && s[5] == LowerChar(path[i + 5]);
    }
  }

  lemma DotsFound(path: string)
    ensures Contains(Lower(path), "..") <==> exists i :: 0 <= i < |path| - 1 && path[i] == '.' && path[i + 1] == '.'
  {
    if i :| 0 <= i <= |path| && StartsAt(Lower(path), i, "..") { DotsIff(path, i); }
    if i :| 0 <= i < |path| - 1 && path[i] == '.' && path[i + 1] == '.' { DotsIff(path, i); }
  }

  lemma EncodedFound(path: string)
    ensures Contains(Lower(path), "%2e%2e") <==> exists i :: 0 <= i < |path| - 5 && EncodedDot(path, i) && EncodedDot(path, i + 3)
  {
    if i :| 0 <= i <= |path| && StartsAt(Lower(path), i, "%2e%2e") { EncodedIff(path, i); }
    if i :| 0 <= i < |path| - 5 && EncodedDot(path, i) && EncodedDot(path, i + 3) { EncodedIff(path, i); }
  }

  lemma NulFound(path: string)
    ensures Contains(Lower(path), "%00") <==>
      exists i :: 0 <= i < |path| - 2 && path[i] == '%' && path[i + 1] == '0' && path[i + 2] == '0'
  {
    if i :| 0 <= i <= |path| && StartsAt(Lower(path), i, "%00") { NulIff(path, i); }
    if i :| 0 <= i < |path| - 2 && path[i] == '%' && path[i + 1] == '0' && path[i + 2] == '0' { NulIff(path, i); }
  }

  lemma SuspiciousIff(path: string)
    ensures FailsPath(path) <==> Suspicious(path)
  {
    DotsFound(path);
    EncodedFound(path);
    NulFound(path);
    var markers := PATH_TRAVERSAL_MARKERS;
    assert markers[0] == ".." && markers[1] == "%2e%2e" && markers[2] == "%00";
    assert FailsPath(path) <==> exists m :: 0 <= m < 3 && Contains(Lower(path), markers[m]);
  }

  // ------------------------------------------------------------------ the strategies

  predicate IsText(j: Json) {
    j.Str? && |j.text| > 0
  }

  /** What the strict VPN strategy asks before it looks at the header names. */
  ghost predicate VpnFits(str: Printer, input: Input) {
    var path, query := Get(input, "path"), Get(input, "query_params");
    && IsText(Get(input, "method")) && IsText(path) && |path.text| <= 256
    && Declares(Get(input, "declared_content_length"), Get(input, "actual_body_length"), 8192)
    && ValuesFit(str, Get(input, "headers"), 512)
    && (query.Dict? ==> forall k :: k in query.entries ==> Prints(str, query.entries[k], 512))
  }

  /** The strict VPN strategy accepts exactly the inputs whose fields are all in order; it raises exactly
      on those it must hash a list or dictionary for; and it blocks the rest. */
  lemma StrictVpnMeans(str: Printer, input: Input)
    ensures var r, headers, encoding := Process(Strict(Vpn), str, input), Get(input, "headers"), Get(input, "encoding");
      && (r == Ok(Outcome(Accepted, true, false)) <==>
            && VpnFits(str, input) && NamesHash(headers) && NamesDiffer(headers)
            && (encoding == Str("utf-8") || encoding == Str("ascii")) && !Suspicious(Get(input, "path").text))
      && (r.Raised? <==>
            && VpnFits(str, input)
            && (!NamesHash(headers) || (NamesDiffer(headers) && (encoding.List? || encoding.Dict?))))
      && (r.Ok? && r.value != Outcome(Accepted, true, false) ==> r.value == Outcome(Blocked, false, true))
  {
    var path, headers := Get(input, "path"), Get(input, "headers");
    DeclaresIff(Get(input, "declared_content_length"), Get(input, "actual_body_length"), 8192);
    FitIff(str, headers, 512);
    HashIff(headers);
    DifferIff(headers);
    if path.Str? { SuspiciousIff(path.text); }
    QueryFits(str, Get(input, "query_params"));
    assert !FailsSchema(input) && !FailsLengths(str, input) <==> VpnFits(str, input);
  }

  lemma QueryFits(str: Printer, q: Json)
    ensures !QueryTooLong(str, q) <==> (q.Dict? ==> forall k :: k in q.entries ==> Prints(str, q.entries[k], 512))
  {
  }

  /** What the strict Telecom strategy asks between the header names and the transition. */
  ghost predicate TelecomFits(str: Printer, input: Input) {
    var headers := Get(input, "headers");
    && Names(headers, "Call-ID") && Names(headers, "From") && Names(headers, "To") && NamesDiffer(headers)
    && Declares(Get(input, "declared_body_length"), Get(input, "actual_body_length"), 4096)
    && ValuesFit(str, Get(input, "sdp_attributes"), 256)
    && Plain(Get(input, "sequence_number")) == Plain(Get(input, "expected_sequence_number"))
  }

  /** The strict Telecom strategy: accepted, raised on, and blocked otherwise. */
  lemma StrictTelecomMeans(str: Printer, input: Input)
    ensures var r, headers := Process(Strict(Telecom), str, input), Get(input, "headers");
      var state, verb := Get(input, "session_state"), Get(input, "method");
      && (r == Ok(Outcome(Accepted, true, false)) <==>
            && NamesHash(headers) && TelecomFits(str, input)
            && ((state == Str("INIT") && verb == Str("INVITE")) || (state == Str("RINGING") && verb == Str("ACK"))
                || (state == Str("ESTABLISHED") && verb == Str("BYE"))))
      && (r.Raised? <==>
            || !NamesHash(headers)
            || (TelecomFits(str, input) && (state.List? || state.Dict? || verb.List? || verb.Dict?)))
      && (r.Ok? && r.value != Outcome(Accepted, true, false) ==> r.value == Outcome(Blocked, false, true))
  {
    HashIff(Get(input, "headers"));
    TelecomFitsIff(str, input);
    Transitions(Get(input, "session_state"), Get(input, "method"));
  }

  lemma TelecomFitsIff(str: Printer, input: Input)
    ensures var keys := Keys(AsList(Get(input, "headers")));
      TelecomFits(str, input) <==>
        !MissesMandatory(keys) && !HasDuplicate(keys) && !FailsSizes(str, input)
        && Same(Get(input, "sequence_number"), Get(input, "expected_sequence_number"))
  {
    var headers := Get(input, "headers");
    DeclaresIff(Get(input, "declared_body_length"), Get(input, "actual_body_length"), 4096);
    FitIff(str, Get(input, "sdp_attributes"), 256);
    DifferIff(headers);
    MandatoryNames(headers);
    SameIsPlain(Get(input, "sequence_number"), Get(input, "expected_sequence_number"));
  }

  lemma MandatoryNames(headers: Json)
    ensures !MissesMandatory(Keys(AsList(headers))) <==> Names(headers, "Call-ID") && Names(headers, "From") && Names(headers, "To")
  {
    NamesIff(headers, "Call-ID");
    NamesIff(headers, "From");
    NamesIff(headers, "To");
    var names := MANDATORY_HEADERS;
    assert names[0] == "Call-ID" && names[1] == "From" && names[2] == "To";
    if !MissesMandatory(Keys(AsList(headers))) {
      assert Str(names[0]) in Keys(AsList(headers)) && Str(names[1]) in Keys(AsList(headers)) && Str(names[2]) in Keys(AsList(headers));
    }
  }

  lemma Transitions(state: Json, verb: Json)
    ensures !IllegalTransition(state, verb) <==>
      || (state == Str("INIT") && verb == Str("INVITE")) || (state == Str("RINGING") && verb == Str("ACK"))
      || (state == Str("ESTABLISHED") && verb == Str("BYE"))
  {
    var legal := LEGAL_TRANSITIONS;
    assert legal[0] == ("INIT", "INVITE") && legal[1] == ("RINGING", "ACK") && legal[2] == ("ESTABLISHED", "BYE");
    if !IllegalTransition(state, verb) {
      var i :| 0 <= i < |legal| && legal[i] == (state.text, verb.text);
      assert i == 0 || i == 1 || i == 2;
    }
  }

  /** The weak strategies look at three fields at most, never raise and never log. */
  lemma WeakMeans(str: Printer, input: Input)
    ensures var verb, path, headers, state := Get(input, "method"), Get(input, "path"), Get(input, "headers"), Get(input, "session_state");
      && (Process(Weak(Vpn), str, input) ==
            if IsText(verb) && IsText(path) then Ok(Outcome(Accepted, true, false)) else Ok(Outcome(Blocked, false, false)))
      && (Process(Weak(Telecom), str, input) ==
            if (verb == Str("INVITE") || verb == Str("ACK") || verb == Str("BYE")) && headers.List? && |headers.items| > 0
               && (state == Str("INIT") || state == Str("RINGING") || state == Str("ESTABLISHED") || state == Str("TERMINATED"))
            then Ok(Outcome(Accepted, true, false)) else Ok(Outcome(Blocked, false, false)))
  {
    var methods, states := KNOWN_METHODS, KNOWN_STATES;
    assert methods[0] == "INVITE" && methods[1] == "ACK" && methods[2] == "BYE";
    assert states[0] == "INIT" && states[1] == "RINGING" && states[2] == "ESTABLISHED" && states[3] == "TERMINATED";
  }

  /** Running a case: the parser sees exactly what is accepted, the strict strategies log exactly what
      they do not accept, the weak ones log nothing, and only a raise, recorded as a block, is an error. */
  lemma ExecutedCase(s: Strategy, str: Printer, c: Metrics.TestCase, latency: real)
    ensures var x := Metrics.ExecuteCase(s, str, c, latency);
      && x.caseId == c.caseId && x.latency == latency
      && (x.errored <==> Process(s, str, c.input).Raised?)
      && (x.errored ==> x.decision == Blocked)
      && (!x.errored ==> x.decision == Process(s, str, c.input).value.decision)
      && (x.parserReached <==> x.decision == Accepted)
      && (x.logged <==> s.Strict? && x.decision == Blocked)
  {
  }
}
