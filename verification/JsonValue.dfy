/** Test-case inputs: JSON values as Python sees them after loading. */
module JsonValue {
  import opened Basics

  datatype Json =
    | Null
    | Bool(flag: bool)
    | Int(number: int)
    | Float(value: real)
    | Str(text: string)
    | List(items: seq<Json>)
    | Dict(entries: map<string, Json>)

  type Input = map<string, Json>

  /** Python's `str()` on values other than strings; strings are printed as they are. */
  type Printer = Json -> string

  function Print(str: Printer, j: Json): string {
    if j.Str? then j.text else str(j)
  }

  /** `input.get(key)` */
  function Get(input: Input, key: string): Json {
    if key in input then input[key] else Null
  }

  /** Booleans, integers and floats compare by numeric value. */
  function Number(j: Json): Option<real> {
    match j
    case Bool(b) => Some(if b then 1.0 else 0.0)
    case Int(i) => Some(i as real)
    case Float(r) => Some(r)
    case _ => None
  }

  /** Python's `==`. */
  predicate Same(a: Json, b: Json)
    decreases a
  {
    if a.List? && b.List? then
      |a.items| == |b.items| && forall i :: 0 <= i < |a.items| ==> Same(a.items[i], b.items[i])
    else if a.Dict? && b.Dict? then
      a.entries.Keys == b.entries.Keys && forall k :: k in a.entries ==> Same(a.entries[k], b.entries[k])
    else if Number(a).Some? then Number(a) == Number(b)
    else a == b
  }

  /** Only lists and dictionaries cannot be put in a set; trying raises. */
  predicate Hashable(j: Json) {
    !j.List? && !j.Dict?
  }

  /** `_as_list` */
  function AsList(j: Json): seq<Json> {
    if j.List? then j.items else []
  }

  predicate IsPair(j: Json) {
    j.List? && |j.items| == 2
  }

  /** The first components of the two-element entries, in order. */
  function Keys(entries: seq<Json>): seq<Json> {
    if entries == [] then []
    else (if IsPair(entries[0]) then [entries[0].items[0]] else []) + Keys(entries[1..])
  }

  /** When every entry is a pair, there is one key per entry. */
  lemma {:induction false} KeysOfPairs(entries: seq<Json>)
    requires forall i :: 0 <= i < |entries| ==> IsPair(entries[i])
    ensures |Keys(entries)| == |entries|
    ensures forall i :: 0 <= i < |entries| ==> IsPair(entries[i]) && Keys(entries)[i] == entries[i].items[0]
  {
    if entries == [] {
    } else {
      KeysOfPairs(entries[1..]);
    }
  }

  predicate AllHashable(keys: seq<Json>) {
    forall i :: 0 <= i < |keys| ==> Hashable(keys[i])
  }

  /** `len(set(keys)) != len(keys)` */
  predicate HasDuplicate(keys: seq<Json>) {
    exists i, j :: 0 <= i < j < |keys| && Same(keys[i], keys[j])
  }

  /** Some two-element entry has a second component that prints longer than `max`. */
  predicate AnyTooLong(str: Printer, entries: seq<Json>, max: nat) {
    exists i :: 0 <= i < |entries| && IsPair(entries[i]) && |Print(str, entries[i].items[1])| > max
  }

  /** `isinstance(j, int)`: booleans are integers. */
  function AsInt(j: Json): Option<int> {
    match j
    case Int(i) => Some(i)
    case Bool(b) => Some(if b then 1 else 0)
    case _ => None
  }

  /** A declared length that is not an integer within limits, or differs from the actual one. */
  predicate LengthMismatch(declared: Json, actual: Json, max: int) {
    AsInt(declared).None? || AsInt(declared).value < 0 || AsInt(declared).value > max || !Same(declared, actual)
  }

  // --------------------------------------------------------------- strings

  function LowerChar(c: char): char {
    if 'A' <= c <= 'Z' then (c as int + 32) as char else c
  }

  /** Lower-cases ASCII letters; no other letter lower-cases into a marker character. */
  function Lower(s: string): string {
    seq(|s|, i requires 0 <= i < |s| => LowerChar(s[i]))
  }

  predicate StartsAt(s: string, i: int, marker: string) {
    0 <= i <= |s| - |marker| && s[i..i + |marker|] == marker
  }

  /** `marker in s` */
  predicate Contains(s: string, marker: string) {
    exists i :: 0 <= i <= |s| && StartsAt(s, i, marker)
  }
}
