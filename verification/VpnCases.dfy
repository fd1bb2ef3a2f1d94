/** What the generated VPN dataset consists of: sound requests, and requests with a single fault. */
module VpnCases {
  import opened Basics
  import opened JsonValue
  import opened Strategies
  import opened Metrics
  import opened Datasets
  import opened VpnGenerator
  import VpnLabels

  const HOST_ONLY := List([List([Str("Host"), Str("vpn.example.local")])])

  /** A request with nothing wrong except, perhaps, its path. */
  function Sound(verb: string, path: string): Input {
    map["method" := Str(verb), "path" := Str(path), "headers" := HOST_ONLY, "declared_content_length" := Int(0),
        "actual_body_length" := Int(0), "encoding" := Str("utf-8")]
  }

  const LOGIN := Sound("GET", "/remote/login")

  /** `/remote/`, filled up with the letter a to the given length. */
  ghost predicate Filled(path: string, length: int) {
    && |path| == (if length < 8 then 8 else length)
    && path[..8] == "/remote/" && forall i :: 8 <= i < |path| ==> path[i] == 'a'
  }

  /** The case is a LOGIN request with these fields set instead. */
  predicate Instead(c: TestCase, prefix: string, i: nat, fields: map<string, Json>) {
    c == TestCase(prefix + Pad3(i + 1), Malformed, LOGIN + fields, Blocked)
  }

  ghost predicate ValidAt(g: Config, draw: Draws, c: TestCase, i: nat) {
    exists verb, path :: c == TestCase("VPN-GEN-VALID-" + Pad3(i + 1), Valid, Sound(verb, path), Accepted)
      && verb == (if draw(i) % 2 == 0 then "GET" else "POST")
      && path == ["/remote/login", "/remote/logincheck", "/remote/fgt_lang", "/remote/index"][i % 4]
  }

  ghost predicate BoundaryAt(g: Config, at: TestCase, over: TestCase, i: nat) {
    exists p, q :: at == TestCase("VPN-GEN-BOUNDARY-AT-" + Pad3(i + 1), Boundary, Sound("GET", p), Accepted)
      && over == TestCase("VPN-GEN-BOUNDARY-OVER-" + Pad3(i + 1), Boundary, Sound("GET", q), Blocked)
      && Filled(p, g.maxPathLength) && Filled(q, g.maxPathLength + 1)
  }

  ghost predicate OversizedAt(g: Config, draw: Draws, c: TestCase, i: nat) {
    var n := g.maxBodyLength + 1 + draw(g.validCount + i) % 1001;
    Instead(c, "VPN-GEN-OVERSIZED-", i, map["declared_content_length" := Int(n), "actual_body_length" := Int(n)])
  }

  ghost predicate DuplicateAt(c: TestCase, i: nat) {
    Instead(c, "VPN-GEN-DUPLICATE-", i, map["headers" :=
      List([List([Str("Host"), Str("vpn.example.local")]), List([Str("Host"), Str("internal.synthetic.local")])])])
  }

  ghost predicate MismatchedAt(g: Config, draw: Draws, c: TestCase, i: nat) {
    Instead(c, "VPN-GEN-MISMATCHED-LENGTH-", i, map["declared_content_length" := Int(42),
      "actual_body_length" := Int(142 + draw(g.validCount + g.oversizedCount + i) % 501)])
  }

  ghost predicate EncodingAt(c: TestCase, i: nat) {
    Instead(c, "VPN-GEN-UNSUPPORTED-ENCODING-", i, map["encoding" := Str(["utf-7", "cesu-8", "unspecified-binary"][i % 3])])
  }

  ghost predicate PathAt(c: TestCase, i: nat) {
    Instead(c, "VPN-GEN-INVALID-PATH-", i, map["path" := Str(
      ["/remote/../../internal/synthetic-config", "/remote/%2e%2e/%2e%2e/internal/synthetic-config",
       "/remote/login%00.synthetic"][i % 3])])
  }

  lemma SameRequest(verb: string, path: string, headers: seq<Json>, declared: int, actual: int, encoding: string)
    ensures Request(verb, path, headers, declared, actual, encoding) ==
      Sound(verb, path) + map["headers" := List(headers), "declared_content_length" := Int(declared),
                              "actual_body_length" := Int(actual), "encoding" := Str(encoding)]
    ensures Sound(verb, path) == Request(verb, path, [HOST], 0, 0, "utf-8")
    ensures LOGIN + map["path" := Str(path)] == Sound("GET", path)
  {
  }

  lemma PathFilled(n: int)
    ensures Filled(Padded(n), n + 8)
  {
    var p := Padded(n);
    assert p[..8] == "/remote/";
  }

  lemma ValidFamily(g: Config, draw: Draws, i: nat)
    ensures ValidAt(g, draw, ValidCase(draw, i), i)
  {
    var verb, path := if draw(i) % 2 == 0 then "GET" else "POST", VALID_PATHS[i % 4];
    SameRequest(verb, path, [HOST], 0, 0, "utf-8");
    assert ValidCase(draw, i) == TestCase("VPN-GEN-VALID-" + Pad3(i + 1), Valid, Sound(verb, path), Accepted);
  }

  lemma BoundaryFamily(g: Config, i: nat)
    ensures BoundaryAt(g, AtLimit(g, i), OverLimit(g, i), i)
  {
    var p, q := Padded(g.maxPathLength - 8), Padded(g.maxPathLength - 7);
    PathFilled(g.maxPathLength - 8);
    PathFilled(g.maxPathLength - 7);
    SameRequest("GET", p, [HOST], 0, 0, "utf-8");
    SameRequest("GET", q, [HOST], 0, 0, "utf-8");
    assert AtLimit(g, i) == TestCase("VPN-GEN-BOUNDARY-AT-" + Pad3(i + 1), Boundary, Sound("GET", p), Accepted);
    assert OverLimit(g, i) == TestCase("VPN-GEN-BOUNDARY-OVER-" + Pad3(i + 1), Boundary, Sound("GET", q), Blocked);
  }

  lemma LengthsOnly(declared: int, actual: int)
    ensures Request("GET", "/remote/login", [HOST], declared, actual, "utf-8")
         == LOGIN + map["declared_content_length" := Int(declared), "actual_body_length" := Int(actual)]
  {
  }

  lemma OversizedFamily(g: Config, draw: Draws, i: nat)
    ensures OversizedAt(g, draw, Oversized(g, draw, i), i)
  {
    var n := g.maxBodyLength + 1 + draw(g.validCount + i) % 1001;
    LengthsOnly(n, n);
  }

  lemma DuplicateFamily(i: nat)
    ensures DuplicateAt(DuplicateField(i), i)
  {
    assert Request("GET", "/remote/login", [HOST, OTHER_HOST], 0, 0, "utf-8") == LOGIN + map["headers" := List([HOST, OTHER_HOST])];
  }

  lemma MismatchedFamily(g: Config, draw: Draws, i: nat)
    ensures MismatchedAt(g, draw, Mismatched(g, draw, i), i)
  {
    LengthsOnly(42, 142 + draw(g.validCount + g.oversizedCount + i) % 501);
  }

  lemma EncodingFamily(i: nat)
    ensures EncodingAt(BadEncoding(i), i)
  {
    var encoding := UNSUPPORTED_ENCODINGS[i % 3];
    assert Request("GET", "/remote/login", [HOST], 0, 0, encoding) == LOGIN + map["encoding" := Str(encoding)];
  }

  lemma PathFamily(i: nat)
    ensures PathAt(InvalidPath(i), i)
  {
    SameRequest("GET", PATH_TRAVERSAL_PATTERNS[i % 3], [HOST], 0, 0, "utf-8");
  }

  // The families of a dataset, case by case.

  ghost predicate ValidPart(g: Config, draw: Draws, cs: seq<TestCase>) { forall i :: 0 <= i < |cs| ==> ValidAt(g, draw, cs[i], i) }
  ghost predicate BoundaryPart(g: Config, cs: seq<TestCase>) {
    |cs| == 2 * g.boundaryCount && forall i :: 0 <= i < g.boundaryCount ==> BoundaryAt(g, cs[2 * i], cs[2 * i + 1], i)
  }
  ghost predicate OversizedPart(g: Config, draw: Draws, cs: seq<TestCase>) { forall i :: 0 <= i < |cs| ==> OversizedAt(g, draw, cs[i], i) }
  ghost predicate DuplicatePart(cs: seq<TestCase>) { forall i :: 0 <= i < |cs| ==> DuplicateAt(cs[i], i) }
  ghost predicate MismatchedPart(g: Config, draw: Draws, cs: seq<TestCase>) { forall i :: 0 <= i < |cs| ==> MismatchedAt(g, draw, cs[i], i) }
  ghost predicate EncodingPart(cs: seq<TestCase>) { forall i :: 0 <= i < |cs| ==> EncodingAt(cs[i], i) }
  ghost predicate PathPart(cs: seq<TestCase>) { forall i :: 0 <= i < |cs| ==> PathAt(cs[i], i) }

  lemma PartsAre(g: Config, draw: Draws)
    ensures ValidPart(g, draw, Repeat(g.validCount, ValidCases(draw)))
    ensures BoundaryPart(g, RepeatPairs(g.boundaryCount, AtLimits(g), OverLimits(g)))
    ensures OversizedPart(g, draw, Repeat(g.oversizedCount, Oversizeds(g, draw)))
    ensures DuplicatePart(Repeat(g.duplicateCount, DuplicateFields()))
    ensures MismatchedPart(g, draw, Repeat(g.mismatchedCount, Mismatcheds(g, draw)))
    ensures EncodingPart(Repeat(g.encodingCount, BadEncodings()))
    ensures PathPart(Repeat(g.invalidPathCount, InvalidPaths()))
  {
    forall i: nat { ValidFamily(g, draw, i); }
    forall i: nat { BoundaryFamily(g, i); }
    forall i: nat { OversizedFamily(g, draw, i); }
    forall i: nat { DuplicateFamily(i); }
    forall i: nat { MismatchedFamily(g, draw, i); }
    forall i: nat { EncodingFamily(i); }
    forall i: nat { PathFamily(i); }
  }

  /** Every dataset, part by part: the valid cases, the pairs around the path limit, and five kinds of
      malformed ones, each a LOGIN request with one thing wrong. The numbers drawn decide the verbs of
      the valid cases and the sizes of the oversized and mismatched ones, in this order. */
  lemma DatasetIs(g: Config, draw: Draws)
    ensures IsDataset(g, draw, Cases(g, draw))
  {
    PartsAre(g, draw);
    PartsInPlace(g, Cases(g, draw), Repeat(g.validCount, ValidCases(draw)),
                 RepeatPairs(g.boundaryCount, AtLimits(g), OverLimits(g)),
                 Repeat(g.oversizedCount, Oversizeds(g, draw)), Repeat(g.duplicateCount, DuplicateFields()),
                 Repeat(g.mismatchedCount, Mismatcheds(g, draw)), Repeat(g.encodingCount, BadEncodings()),
                 Repeat(g.invalidPathCount, InvalidPaths()));
  }

  ghost predicate IsDataset(g: Config, draw: Draws, cs: seq<TestCase>) {
    var v := g.validCount;
    var o := v + 2 * g.boundaryCount;
    var d := o + g.oversizedCount;
    var m := d + g.duplicateCount;
    var e := m + g.mismatchedCount;
    var p := e + g.encodingCount;
    && |cs| == p + g.invalidPathCount
    && ValidPart(g, draw, cs[..v]) && BoundaryPart(g, cs[v..o]) && OversizedPart(g, draw, cs[o..d])
    && DuplicatePart(cs[d..m]) && MismatchedPart(g, draw, cs[m..e]) && EncodingPart(cs[e..p]) && PathPart(cs[p..])
  }

  lemma PartsInPlace(g: Config, cs: seq<TestCase>, c1: seq<TestCase>, c2: seq<TestCase>, c3: seq<TestCase>, c4: seq<TestCase>,
                     c5: seq<TestCase>, c6: seq<TestCase>, c7: seq<TestCase>)
    requires cs == c1 + c2 + c3 + c4 + c5 + c6 + c7
    requires |c1| == g.validCount && |c2| == 2 * g.boundaryCount && |c3| == g.oversizedCount && |c4| == g.duplicateCount
    requires |c5| == g.mismatchedCount && |c6| == g.encodingCount && |c7| == g.invalidPathCount
    ensures var v := g.validCount;
      var o := v + 2 * g.boundaryCount; var d := o + g.oversizedCount; var m := d + g.duplicateCount;
      var e := m + g.mismatchedCount; var p := e + g.encodingCount;
      && |cs| == p + |c7| && cs[..v] == c1 && cs[v..o] == c2 && cs[o..d] == c3 && cs[d..m] == c4 && cs[m..e] == c5
      && cs[e..p] == c6 && cs[p..] == c7
  {
  }

  /** The request that every malformed case spoils passes both strategies. */
  lemma LoginPasses(str: Printer)
    ensures Process(Strict(Vpn), str, LOGIN) == Ok(Outcome(Accepted, true, false))
    ensures Process(Weak(Vpn), str, LOGIN) == Ok(Outcome(Accepted, true, false))
  {
    SameRequest("GET", "/remote/login", [HOST], 0, 0, "utf-8");
    VpnLabels.LoginPath();
    VpnLabels.PlainDecision(str, "GET", "/remote/login", 0, 0, "utf-8");
  }
}
