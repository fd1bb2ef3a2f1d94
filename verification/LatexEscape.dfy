/** The Overleaf exporter's LaTeX escaping (exports/overleaf_exporter.py). */
module LatexEscape {
  import opened Basics

  /** Python's `text.replace(c, r)` for a one-character needle. */
  function Replace(text: string, c: char, r: string): string {
    if text == [] then [] else (if text[0] == c then r else [text[0]]) + Replace(text[1..], c, r)
  }

  /** The replacement passes, in the order the exporter runs them. */
  const ESCAPES: seq<(char, string)> := [
    ('\\', "\\textbackslash{}"), ('&', "\\&"), ('%', "\\%"), ('$', "\\$"), ('#', "\\#"),
    ('_', "\\_"), ('{', "\\{"), ('}', "\\}"), ('~', "\\textasciitilde{}"), ('^', "\\textasciicircum{}")
  ]

  function Passes(text: string, table: seq<(char, string)>): string
    decreases |table|
  {
    if table == [] then text else Passes(Replace(text, table[0].0, table[0].1), table[1..])
  }

  const SPECIALS: string := "\\&%$#_{}~^"

  /** What one input character ends up as after all ten passes. */
  function Code(c: char): (r: string)
    ensures r != []
  {
    match c
    case '\\' => "\\textbackslash\\{\\}"
    case '&' => "\\&"
    case '%' => "\\%"
    case '$' => "\\$"
    case '#' => "\\#"
    case '_' => "\\_"
    case '{' => "\\{"
    case '}' => "\\}"
    case '~' => "\\textasciitilde{}"
    case '^' => "\\textasciicircum{}"
    case _ => [c]
  }

  function Substituted(text: string): string {
    if text == [] then [] else Code(text[0]) + Substituted(text[1..])
  }

  /** The exporter's loop: one pass over the whole text per table entry. */
  method EscapeLatex(text: string) returns (escaped: string)
    ensures escaped == Substituted(text)
  {
    escaped := text;
    for i := 0 to |ESCAPES|
      invariant Passes(escaped, ESCAPES[i..]) == Passes(text, ESCAPES)
    {
      escaped := Replace(escaped, ESCAPES[i].0, ESCAPES[i].1);
      assert ESCAPES[i..][1..] == ESCAPES[i + 1..];
    }
    assert Passes(escaped, []) == escaped;
    PassesFuse(text);
  }

  lemma Associate(a: string, b: string, c: string)
    ensures a + (b + c) == a + b + c
  {
  }

  lemma {:induction false} ReplaceConcat(a: string, b: string, c: char, r: string)
    ensures Replace(a + b, c, r) == Replace(a, c, r) + Replace(b, c, r)
  {
    if a == [] {
      assert a + b == b;
    } else {
      ReplaceConcat(a[1..], b, c, r);
      assert (a + b)[1..] == a[1..] + b;
      Associate(if a[0] == c then r else [a[0]], Replace(a[1..], c, r), Replace(b, c, r));
    }
  }

  lemma {:induction false} ReplaceAbsent(s: string, c: char, r: string)
    requires c !in s
    ensures Replace(s, c, r) == s
  {
    if s == [] {
    } else {
      ReplaceAbsent(s[1..], c, r);
    }
  }

  lemma {:induction false} PassesConcat(a: string, b: string, table: seq<(char, string)>)
    ensures Passes(a + b, table) == Passes(a, table) + Passes(b, table)
    decreases |table|
  {
    if table == [] {
    } else {
      ReplaceConcat(a, b, table[0].0, table[0].1);
      PassesConcat(Replace(a, table[0].0, table[0].1), Replace(b, table[0].0, table[0].1), table[1..]);
    }
  }

  /** Passes whose character does not occur can be skipped. */
  lemma {:induction false} SkipPasses(s: string, table: seq<(char, string)>, k: nat)
    requires k <= |table|
    requires forall j :: 0 <= j < k ==> table[j].0 !in s
    ensures Passes(s, table) == Passes(s, table[k..])
  {
    if k == 0 {
    } else {
      ReplaceAbsent(s, table[0].0, table[0].1);
      SkipPasses(s, table[1..], k - 1);
      assert table[1..][k - 1..] == table[k..];
    }
  }

  /** A character with its own entry `k` is rewritten by that pass and then left to the later ones. */
  lemma PassesHit(c: char, table: seq<(char, string)>, k: nat)
    requires k < |table| && table[k].0 == c
    requires forall j :: 0 <= j < k ==> table[j].0 != c
    ensures Passes([c], table) == Passes(table[k].1, table[k + 1..])
  {
    SkipPasses([c], table, k);
    var rest := table[k..];
    assert rest[0] == table[k] && rest[1..] == table[k + 1..];
    assert Replace([c], c, table[k].1) == table[k].1 + Replace([c][1..], c, table[k].1) == table[k].1;
    assert Passes([c], rest) == Passes(Replace([c], rest[0].0, rest[0].1), rest[1..]);
  }

  /** A replacement that later passes do not touch is final. */
  lemma PassesFinal(c: char, table: seq<(char, string)>, k: nat)
    requires k < |table| && table[k].0 == c
    requires forall j :: 0 <= j < k ==> table[j].0 != c
    requires forall j :: k < j < |table| ==> table[j].0 !in table[k].1
    ensures Passes([c], table) == table[k].1
  {
    PassesHit(c, table, k);
    SkipPasses(table[k].1, table[k + 1..], |table| - (k + 1));
  }

  /** Made of backslashes and lower-case letters, which no pass but the first rewrites. */
  predicate Inert(s: string) {
    forall i :: 0 <= i < |s| ==> s[i] == '\\' || 'a' <= s[i] <= 'z'
  }

  /** The shape of the table that the proofs rely on. */
  predicate TableShape(table: seq<(char, string)>, word: string) {
    && |table| == 10
    && (forall j :: 0 <= j < |table| ==> table[j].0 == SPECIALS[j])
    && Inert(word)
    && table[0].1 == word + ("{" + "}")
    && (forall j :: 1 <= j < 8 ==> table[j].1 == ['\\', table[j].0])
    && '^' !in table[8].1
  }

  lemma EscapesShape()
    ensures TableShape(ESCAPES, "\\textbackslash")
  {
    assert ESCAPES[8].1 == "\\textasciitilde{}";
    assert forall i :: 0 <= i < |ESCAPES[8].1| ==> ESCAPES[8].1[i] != '^';
  }

  lemma InertWord(word: string, rest: seq<(char, string)>)
    requires Inert(word) && |rest| == 9 && forall j :: 0 <= j < 9 ==> rest[j].0 == SPECIALS[j + 1]
    ensures forall j :: 0 <= j < 9 ==> rest[j].0 !in word
  {
    forall j, i | 0 <= j < 9 && 0 <= i < |word| ensures rest[j].0 != word[i] {
      assert SPECIALS[j + 1] != '\\' && !('a' <= SPECIALS[j + 1] <= 'z');
    }
  }

  /** The brace passes run after the backslash pass and rewrite the braces it introduced. */
  lemma BackslashPasses(table: seq<(char, string)>, word: string)
    requires TableShape(table, word)
    ensures Passes(['\\'], table) == word + "\\{\\}"
  {
    PassesHit('\\', table, 0);
    var rest := table[1..];
    PassesConcat(word, "{" + "}", rest);
    PassesConcat("{", "}", rest);
    assert forall j :: 0 <= j < 9 ==> rest[j].0 == SPECIALS[j + 1];
    InertWord(word, rest);
    SkipPasses(word, rest, 9);
    assert rest[9..] == [];
    assert rest[5].1 == "\\{" && rest[6].1 == "\\}";
    PassesFinal('{', rest, 5);
    PassesFinal('}', rest, 6);
  }

  lemma PassesChar(c: char, table: seq<(char, string)>, word: string)
    requires TableShape(table, word)
    ensures c == '\\' ==> Passes([c], table) == word + "\\{\\}"
    ensures forall k :: 1 <= k < 10 && c == SPECIALS[k] ==> Passes([c], table) == table[k].1
    ensures c !in SPECIALS ==> Passes([c], table) == [c]
  {
    if c == '\\' {
      BackslashPasses(table, word);
    } else if k :| 1 <= k < 10 && SPECIALS[k] == c {
      PassesFinal(c, table, k);
    } else {
      SkipPasses([c], table, 10);
    }
  }

  lemma CodeOfSpecial(k: nat)
    requires k < 10
    ensures Code(SPECIALS[k]) == if k == 0 then "\\textbackslash" + "\\{\\}" else ESCAPES[k].1
  {
  }

  lemma PassesCode(c: char)
    ensures Passes([c], ESCAPES) == Code(c)
  {
    EscapesShape();
    PassesChar(c, ESCAPES, "\\textbackslash");
    if k :| 0 <= k < 10 && SPECIALS[k] == c { CodeOfSpecial(k); }
  }

  /** Ten whole-text passes amount to one substitution per character. */
  lemma {:induction false} PassesFuse(text: string)
    ensures Passes(text, ESCAPES) == Substituted(text)
  {
    if text == [] {
      SkipPasses(text, ESCAPES, 10);
    } else {
      assert text == [text[0]] + text[1..];
      PassesConcat([text[0]], text[1..], ESCAPES);
      PassesCode(text[0]);
      PassesFuse(text[1..]);
    }
  }

  /** No code word is a prefix of another one. */
  lemma PrefixFree(a: char, b: char)
    requires Code(a) <= Code(b)
    ensures a == b
  {
    assert Code(a)[0] == Code(b)[0];
    if |Code(a)| > 4 && |Code(b)| > 4 {
      assert Code(a)[..5] == Code(b)[..5];
      assert Code(a)[5] == Code(b)[5];
      if |Code(a)| > 9 {
        assert Code(a)[9] == Code(b)[9];
        assert Code(a)[10] == Code(b)[10];
      }
    } else if |Code(a)| > 1 {
      assert Code(a)[1] == Code(b)[1];
    }
  }

  /** Index of the special character whose code word starts `s`, searching from `k`. */
  function MatchFrom(s: string, k: nat): (r: Option<nat>)
    requires k <= |SPECIALS|
    ensures r.Some? ==> r.value < |SPECIALS| && Code(SPECIALS[r.value]) <= s
    ensures r.None? ==> forall j :: k <= j < |SPECIALS| ==> !(Code(SPECIALS[j]) <= s)
    decreases |SPECIALS| - k
  {
    if k == |SPECIALS| then None
    else if Code(SPECIALS[k]) <= s then Some(k)
    else MatchFrom(s, k + 1)
  }

  /** Reads exported text back; `None` when it is not the export of any text. */
  function Decode(s: string): Option<string> {
    if s == [] then Some([])
    else if s[0] !in SPECIALS then
      var rest := Decode(s[1..]);
      if rest.None? then None else Some([s[0]] + rest.value)
    else
      var k := MatchFrom(s, 0);
      if k.None? then None
      else
        var rest := Decode(s[|Code(SPECIALS[k.value])|..]);
        if rest.None? then None else Some([SPECIALS[k.value]] + rest.value)
  }

  /** Only the code word that was written can be read at the head of an export. */
  lemma HeadIsUnique(a: char, b: char, tail: string)
    requires Code(a) <= Code(b) + tail
    ensures a == b
  {
    if |Code(a)| <= |Code(b)| {
      assert Code(a) == (Code(b) + tail)[..|Code(a)|] == Code(b)[..|Code(a)|];
      PrefixFree(a, b);
    } else {
      assert Code(b) == (Code(b) + tail)[..|Code(b)|] == Code(a)[..|Code(b)|];
      PrefixFree(b, a);
    }
  }

  /** The search finds the special character whose code word was written. */
  lemma MatchFindsCode(c: char, s: string, tail: string)
    requires c in SPECIALS && s == Code(c) + tail
    ensures MatchFrom(s, 0).Some? && SPECIALS[MatchFrom(s, 0).value] == c
  {
    var j :| 0 <= j < |SPECIALS| && SPECIALS[j] == c;
    assert Code(SPECIALS[j]) <= s;
    HeadIsUnique(SPECIALS[MatchFrom(s, 0).value], c, tail);
  }

  lemma CodeHead(c: char)
    ensures c in SPECIALS ==> Code(c)[0] == '\\'
    ensures c !in SPECIALS ==> Code(c) == [c]
  {
  }

  /** One code word is read off the front. */
  lemma DecodeHead(c: char, s: string, code: string, tail: string)
    requires code == Code(c) && s == code + tail
    ensures Decode(tail).Some? ==> Decode(s) == Some([c] + Decode(tail).value)
  {
    assert s[|code|..] == tail;
    CodeHead(c);
    assert s[0] == code[0];
    if c in SPECIALS {
      MatchFindsCode(c, s, tail);
    }
  }

  /** Decoding an export gives the text back. */
  lemma {:induction false} RoundTrip(text: string)
    ensures Decode(Substituted(text)) == Some(text)
  {
    if text == [] {
    } else {
      RoundTrip(text[1..]);
      assert text == [text[0]] + text[1..];
      DecodeHead(text[0], Substituted(text), Code(text[0]), Substituted(text[1..]));
    }
  }

  lemma SubstitutedCons(c: char, text: string)
    ensures Substituted([c] + text) == Code(c) + Substituted(text)
  {
    assert ([c] + text)[1..] == text;
  }

  lemma HeadAndRest(s: string, head: string)
    requires head <= s
    ensures s == head + s[|head|..]
  {
  }

  /** Whatever decodes is exactly the export of what it decodes to. */
  lemma {:induction false} DecodeIsExact(s: string)
    requires Decode(s).Some?
    ensures Substituted(Decode(s).value) == s
    decreases |s|
  {
    if s == [] {
    } else {
      var c := if s[0] !in SPECIALS then s[0] else SPECIALS[MatchFrom(s, 0).value];
      CodeHead(c);
      var rest := s[|Code(c)|..];
      DecodeIsExact(rest);
      SubstitutedCons(c, Decode(rest).value);
      HeadAndRest(s, Code(c));
    }
  }

  /** Distinct texts export to distinct strings. */
  lemma EscapeIsInjective(a: string, b: string)
    requires Substituted(a) == Substituted(b)
    ensures a == b
  {
    RoundTrip(a);
    RoundTrip(b);
  }
}
