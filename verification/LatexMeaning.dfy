/** What TeX makes of an export: a reader of control words, control symbols and groups, written
    without regard to the exporter (exports/overleaf_exporter.py). */
module LatexMeaning {
  import opened Basics
  import LatexEscape

  predicate IsLetter(c: char) {
    'a' <= c <= 'z' || 'A' <= c <= 'Z'
  }

  /** The letters a text begins with. */
  function Letters(s: string): (n: nat)
    ensures n <= |s|
    ensures n < |s| ==> !IsLetter(s[n])
  {
    if s != [] && IsLetter(s[0]) then 1 + Letters(s[1..]) else 0
  }

  function WithoutSpaces(s: string): (t: string)
    ensures |t| <= |s|
  {
    if s != [] && s[0] == ' ' then WithoutSpaces(s[1..]) else s
  }

  /** The character a control word typesets; any other word is unknown here. */
  function Named(word: string): Option<char> {
    if word == "textbackslash" then Some('\\')
    else if word == "textasciitilde" then Some('~')
    else if word == "textasciicircum" then Some('^')
    else None
  }

  function Then(c: char, rest: Option<string>): Option<string> {
    if rest.Some? then Some([c] + rest.value) else None
  }

  /** The characters TeX sets for a text inside `depth` groups, if there is nothing in it but characters,
      groups, and control sequences for single characters. */
  function Typeset(s: string, depth: nat): Option<string>
    decreases |s|
  {
    if s == [] then (if depth == 0 then Some([]) else None)
    else if s[0] == '{' then Typeset(s[1..], depth + 1)
    else if s[0] == '}' then (if depth == 0 then None else Typeset(s[1..], depth - 1))
    else if s[0] in ['&', '%', '$', '#', '_', '~', '^'] then None
    else if s[0] != '\\' then Then(s[0], Typeset(s[1..], depth))
    else if |s| == 1 then None
    else if !IsLetter(s[1]) then
      (if s[1] in ['&', '%', '$', '#', '_', '{', '}'] then Then(s[1], Typeset(s[2..], depth)) else None)
    else
      var n := Letters(s[1..]);
      var c := Named(s[1..n + 1]);
      if c.None? then None else Then(c.value, Typeset(WithoutSpaces(s[n + 1..]), depth))
  }

  /** A text with a pair of braces behind every backslash. */
  function Braced(text: string): string {
    if text == [] then [] else (if text[0] == '\\' then ['\\', '{', '}'] else [text[0]]) + Braced(text[1..])
  }

  // ---------------------------------------------------------------- one character

  lemma {:induction false} LettersOf(word: string, rest: string)
    requires forall i :: 0 <= i < |word| ==> IsLetter(word[i])
    requires rest != [] && !IsLetter(rest[0])
    ensures Letters(word + rest) == |word|
  {
    if word == [] {
      assert word + rest == rest;
    } else {
      assert (word + rest)[1..] == word[1..] + rest;
      LettersOf(word[1..], rest);
    }
  }

  /** A known control word is set as its character, whatever is not a letter or a space behind it. */
  lemma WordIsSet(word: string, c: char, rest: string, depth: nat)
    requires word != [] && Named(word) == Some(c) && (forall i :: 0 <= i < |word| ==> IsLetter(word[i]))
    requires rest != [] && !IsLetter(rest[0]) && rest[0] != ' '
    ensures Typeset(['\\'] + word + rest, depth) == Then(c, Typeset(rest, depth))
  {
    var s := ['\\'] + word + rest;
    LettersOf(word, rest);
    assert s[1..] == word + rest;
    assert s[1..|word| + 1] == word && s[|word| + 1..] == rest;
    assert s[1] == word[0];
    assert Typeset(s, depth) == Then(c, Typeset(WithoutSpaces(rest), depth));
  }

  lemma SymbolIsSet(c: char, rest: string, depth: nat)
    requires c in ['&', '%', '$', '#', '_', '{', '}']
    ensures Typeset(['\\', c] + rest, depth) == Then(c, Typeset(rest, depth))
  {
    var s := ['\\', c] + rest;
    assert s[2..] == rest && s[1] == c && !IsLetter(c);
  }

  lemma EmptyGroupIsNothing(rest: string, depth: nat)
    ensures Typeset("{}" + rest, depth) == Typeset(rest, depth)
  {
    var s := "{}" + rest;
    assert s[1..] == "}" + rest && ("}" + rest)[1..] == rest;
  }

  /** The word for a backslash comes with braces that are set as well. */
  lemma BackslashIsSet(rest: string)
    ensures Typeset(LatexEscape.Code('\\') + rest, 0) == Then('\\', Then('{', Then('}', Typeset(rest, 0))))
  {
    var tail := "\\{" + ("\\}" + rest);
    assert "textbackslash" + "\\{\\}" == "textbackslash\\{\\}";
    assert LatexEscape.Code('\\') + rest == ['\\'] + "textbackslash" + tail;
    WordIsSet("textbackslash", '\\', tail, 0);
    SymbolIsSet('{', "\\}" + rest, 0);
    SymbolIsSet('}', rest, 0);
  }

  /** The words for tilde and circumflex come with an empty group. */
  lemma AccentIsSet(word: string, c: char, rest: string)
    requires (word == "textasciitilde" && c == '~') || (word == "textasciicircum" && c == '^')
    ensures Typeset(['\\'] + word + ("{}" + rest), 0) == Then(c, Typeset(rest, 0))
  {
    WordIsSet(word, c, "{}" + rest, 0);
    EmptyGroupIsNothing(rest, 0);
  }

  lemma CodeIsSet(c: char, rest: string)
    ensures Typeset(LatexEscape.Code(c) + rest, 0) ==
      if c == '\\' then Then('\\', Then('{', Then('}', Typeset(rest, 0)))) else Then(c, Typeset(rest, 0))
  {
    if c == '\\' {
      BackslashIsSet(rest);
    } else if c == '~' {
      AccentCodes(rest);
      AccentIsSet("textasciitilde", c, rest);
    } else if c == '^' {
      AccentCodes(rest);
      AccentIsSet("textasciicircum", c, rest);
    } else if c in ['&', '%', '$', '#', '_', '{', '}'] {
      SymbolCode(c);
      SymbolIsSet(c, rest, 0);
    } else {
      PlainIsSet(c, rest);
    }
  }

  lemma AccentCodes(rest: string)
    ensures LatexEscape.Code('~') + rest == ['\\'] + "textasciitilde" + ("{}" + rest)
    ensures LatexEscape.Code('^') + rest == ['\\'] + "textasciicircum" + ("{}" + rest)
  {
  }

  lemma SymbolCode(c: char)
    requires c in ['&', '%', '$', '#', '_', '{', '}']
    ensures LatexEscape.Code(c) == ['\\', c]
  {
  }

  lemma PlainIsSet(c: char, rest: string)
    requires c !in ['\\', '~', '^', '&', '%', '$', '#', '_', '{', '}']
    ensures Typeset(LatexEscape.Code(c) + rest, 0) == Then(c, Typeset(rest, 0))
  {
    assert LatexEscape.Code(c) == [c];
    assert ([c] + rest)[1..] == rest;
  }

  // --------------------------------------------------------------------- whole texts

  /** Every export typesets, and shows the text with a pair of braces behind every backslash: the pass for
      braces runs after the one for backslashes and escapes the empty group that one has put there. */
  lemma {:induction false} ExportIsSet(text: string)
    ensures Typeset(LatexEscape.Substituted(text), 0) == Some(Braced(text))
  {
    if text == [] {
    } else {
      ExportIsSet(text[1..]);
      CodeIsSet(text[0], LatexEscape.Substituted(text[1..]));
      if text[0] == '\\' {
        assert ['\\'] + (['{'] + (['}'] + Braced(text[1..]))) == ['\\', '{', '}'] + Braced(text[1..]);
      }
    }
  }

  lemma {:induction false} BracedIsLonger(text: string)
    ensures '\\' in text ==> |Braced(text)| > |text|
    ensures |Braced(text)| >= |text|
    ensures '\\' !in text ==> Braced(text) == text
  {
    if text == [] {
    } else {
      BracedIsLonger(text[1..]);
      assert text == [text[0]] + text[1..];
    }
  }

  /** An export shows the text it was made from exactly when there is no backslash in it. */
  lemma ExportIsFaithfulIff(text: string)
    ensures Typeset(LatexEscape.Substituted(text), 0) == Some(text) <==> '\\' !in text
  {
    ExportIsSet(text);
    BracedIsLonger(text);
  }
}
