/** The first JSON value in a text that may wrap it in prose (src/domain/extract-json.ts). Parsing is the
    runtime's: `parse` answers a value, or nothing for a text that is not JSON. */
module ExtractJson {
  import opened Prelude
  import opened JsText

  type Parser<!V> = string -> Option<V>

  /** Where the depth of `open` and `close` first comes back to zero outside strings, from a state in the middle
      of a text. A backslash in a string passes over the character behind it. */
  function ScanEnd(s: string, open: char, close: char, depth: int, inString: bool): (r: Option<nat>)
    ensures r.Some? ==> r.value < |s|
  {
    if s == [] then None
    else if inString then
      if s[0] == '\\' then (if |s| == 1 then None else Further(ScanEnd(s[2..], open, close, depth, true), 2))
      else Further(ScanEnd(s[1..], open, close, depth, s[0] != '"'), 1)
    else if s[0] == '"' then Further(ScanEnd(s[1..], open, close, depth, true), 1)
    else if s[0] == open then Further(ScanEnd(s[1..], open, close, depth + 1, false), 1)
    else if s[0] == close then
      if depth == 1 then Some(0) else Further(ScanEnd(s[1..], open, close, depth - 1, false), 1)
    else Further(ScanEnd(s[1..], open, close, depth, false), 1)
  }

  function Further(end: Option<nat>, more: nat): Option<nat> {
    if end.Some? then Some(end.value + more) else None
  }

  predicate IsOpen(c: char) {
    c == '{' || c == '['
  }

  function CloseOf(open: char): char {
    if open == '{' then '}' else ']'
  }

  /** The value that starts at a bracket, if the scan ends and what it found is JSON. */
  function ValueAt<V>(parse: Parser<V>, s: string): Option<V>
    requires s != [] && IsOpen(s[0])
  {
    var end := ScanEnd(s, s[0], CloseOf(s[0]), 0, false);
    if end.None? then None else parse(s[..end.value + 1])
  }

  /** The first bracket at which there is a value. */
  function FirstValue<V>(parse: Parser<V>, s: string): Option<V> {
    if s == [] then None
    else if IsOpen(s[0]) && ValueAt(parse, s).Some? then ValueAt(parse, s)
    else FirstValue(parse, s[1..])
  }

  function Extracted<V>(parse: Parser<V>, text: string): Option<V> {
    var trimmed := Trim(text);
    if parse(trimmed).Some? then parse(trimmed) else FirstValue(parse, trimmed)
  }

  function From(s: string, i: nat): string {
    if i <= |s| then s[i..] else []
  }

  /** The scan by index. */
  function ScanAt(s: string, i: nat, open: char, close: char, depth: int, inString: bool): Option<nat>
    decreases |s| - i
  {
    if i >= |s| then None
    else if inString then ScanAt(s, if s[i] == '\\' then i + 2 else i + 1, open, close, depth, s[i] != '"')
    else if s[i] == '"' then ScanAt(s, i + 1, open, close, depth, true)
    else if s[i] == open then ScanAt(s, i + 1, open, close, depth + 1, false)
    else if s[i] == close then
      if depth == 1 then Some(i) else ScanAt(s, i + 1, open, close, depth - 1, false)
    else ScanAt(s, i + 1, open, close, depth, false)
  }

  lemma {:induction false} ScanByIndex(s: string, i: nat, open: char, close: char, depth: int, inString: bool)
    ensures ScanAt(s, i, open, close, depth, inString) == Further(ScanEnd(From(s, i), open, close, depth, inString), i)
    decreases |s| - i, 1
  {
    if i < |s| {
      var rest := From(s, i);
      assert rest[0] == s[i] && rest[1..] == From(s, i + 1);
      if inString {
        InStringByIndex(s, i, open, close, depth);
      } else if s[i] == '"' {
        ScanByIndex(s, i + 1, open, close, depth, true);
      } else if s[i] == open {
        ScanByIndex(s, i + 1, open, close, depth + 1, false);
      } else if s[i] == close {
        ScanByIndex(s, i + 1, open, close, depth - 1, false);
      } else {
        ScanByIndex(s, i + 1, open, close, depth, false);
      }
    }
  }

  /** One character further within a string, or two behind a backslash. */
  lemma {:induction false} InStringByIndex(s: string, i: nat, open: char, close: char, depth: int)
    requires i < |s|
    ensures ScanAt(s, i, open, close, depth, true) == Further(ScanEnd(From(s, i), open, close, depth, true), i)
    decreases |s| - i, 0
  {
    var rest := From(s, i);
    assert rest[0] == s[i] && rest[1..] == From(s, i + 1);
    if s[i] == '\\' {
      SkipByIndex(s, i);
      ScanByIndex(s, i + 2, open, close, depth, true);
    } else {
      ScanByIndex(s, i + 1, open, close, depth, s[i] != '"');
    }
  }

  lemma SkipByIndex(s: string, i: nat)
    requires i < |s|
    ensures |From(s, i)| > 1 ==> From(s, i)[2..] == From(s, i + 2)
    ensures |From(s, i)| == 1 ==> i + 2 > |s|
  {}

  method ExtractJson<V(0)>(parse: Parser<V>, text: string) returns (result: Option<V>)
    ensures result == Extracted(parse, text)
  {
    var trimmed := Trim(text);
    var whole := parse(trimmed);
    if whole.Some? {
      return whole;
    }
    var start := 0;
    while start < |trimmed|
      invariant 0 <= start <= |trimmed| && FirstValue(parse, trimmed) == FirstValue(parse, trimmed[start..])
    {
      var open := trimmed[start];
      if open == '{' || open == '[' {
        var end := ScanFrom(trimmed, start, open, if open == '{' then '}' else ']');
        if end.Some? {
          assert trimmed[start..][..end.value - start + 1] == trimmed[start..end.value + 1];
          var value := parse(trimmed[start..end.value + 1]);
          if value.Some? {
            return value;
          }
        }
      }
      assert trimmed[start..][1..] == trimmed[start + 1..];
      start := start + 1;
    }
    result := None;
  }

  /** The inner loop: the index at which the depth comes back to zero. */
  method ScanFrom(s: string, start: nat, open: char, close: char) returns (end: Option<nat>)
    requires start <= |s|
    ensures end == Further(ScanEnd(s[start..], open, close, 0, false), start)
  {
    var depth, inString, i := 0, false, start;
    ScanByIndex(s, start, open, close, 0, false);
    while i < |s|
      invariant start <= i <= |s| + 1
      invariant ScanAt(s, start, open, close, 0, false) == ScanAt(s, i, open, close, depth, inString)
      decreases |s| + 1 - i
    {
      var c := s[i];
      if inString {
        if c == '\\' {
          i := i + 1;
        } else if c == '"' {
          inString := false;
        }
      } else if c == '"' {
        inString := true;
      } else if c == open {
        depth := depth + 1;
      } else if c == close {
        depth := depth - 1;
        if depth == 0 {
          return Some(i);
        }
      }
      i := i + 1;
    }
    end := None;
  }

  /* JSON texts (RFC 8259), spaces and all. */

  /** A character of a string (section 7): as it is, escaped by one letter, or by four hexadecimal digits. */
  datatype Part = Plain(c: char) | Escaped(c: char) | Unicode(a: char, b: char, c: char, d: char)

  datatype Json =
    | Word(text: string)
    | Quoted(parts: seq<Part>)
    | Group(isObject: bool, entries: Entries)

  datatype Entries = Blank(pad: string) | Last(entry: Entry) | Comma(entry: Entry, rest: Entries)

  datatype Entry = Entry(before: string, name: Option<Name>, value: Json, behind: string)

  datatype Name = Name(parts: seq<Part>, before: string, behind: string)

  predicate Hex(c: char) {
    '0' <= c <= '9' || 'a' <= c <= 'f' || 'A' <= c <= 'F'
  }

  predicate GoodPart(p: Part) {
    match p
    case Plain(c) => ' ' <= c && c != '"' && c != '\\'
    case Escaped(c) => c in "\"\\/bfnrt"
    case Unicode(a, b, c, d) => Hex(a) && Hex(b) && Hex(c) && Hex(d)
  }

  predicate GoodParts(parts: seq<Part>) {
    forall k :: 0 <= k < |parts| ==> GoodPart(parts[k])
  }

  predicate Spaces(s: string) {
    forall k :: 0 <= k < |s| ==> s[k] in " \t\n\r"
  }

  /** true, false, null, or made of what numbers are made of. */
  predicate GoodWord(text: string) {
    text in {"true", "false", "null"}
    || (text != [] && forall k :: 0 <= k < |text| ==> '0' <= text[k] <= '9' || text[k] in "+-.eE")
  }

  predicate Good(v: Json) {
    match v
    case Word(text) => GoodWord(text)
    case Quoted(parts) => GoodParts(parts)
    case Group(isObject, entries) => GoodEntries(entries, isObject)
  }

  predicate GoodEntries(es: Entries, isObject: bool) {
    match es
    case Blank(pad) => Spaces(pad)
    case Last(entry) => GoodEntry(entry, isObject)
    case Comma(entry, rest) => GoodEntry(entry, isObject) && !rest.Blank? && GoodEntries(rest, isObject)
  }

  predicate GoodEntry(e: Entry, isObject: bool) {
    && Spaces(e.before) && Spaces(e.behind) && Good(e.value) && e.name.Some? == isObject
    && (e.name.Some? ==> GoodParts(e.name.value.parts) && Spaces(e.name.value.before) && Spaces(e.name.value.behind))
  }

  function PartText(p: Part): string {
    match p
    case Plain(c) => [c]
    case Escaped(c) => ['\\', c]
    case Unicode(a, b, c, d) => ['\\', 'u', a, b, c, d]
  }

  function PartsText(parts: seq<Part>): string {
    if parts == [] then [] else PartText(parts[0]) + PartsText(parts[1..])
  }

  function StringText(parts: seq<Part>): string {
    "\"" + PartsText(parts) + "\""
  }

  function Text(v: Json): string {
    match v
    case Word(text) => text
    case Quoted(parts) => StringText(parts)
    case Group(isObject, entries) => [OpenOf(isObject)] + EntriesText(entries) + [CloseOf(OpenOf(isObject))]
  }

  function OpenOf(isObject: bool): char {
    if isObject then '{' else '['
  }

  function EntriesText(es: Entries): string {
    match es
    case Blank(pad) => pad
    case Last(entry) => EntryText(entry)
    case Comma(entry, rest) => EntryText(entry) + ("," + EntriesText(rest))
  }

  function EntryText(e: Entry): string {
    e.before + (NameText(e.name) + (Text(e.value) + e.behind))
  }

  function NameText(name: Option<Name>): string {
    if name.None? then [] else StringText(name.value.parts) + (name.value.before + ":" + name.value.behind)
  }

  /* The scan passes over every piece of a text and is back where it was. */

  predicate Passes(piece: string, rest: string, open: char, close: char, depth: int) {
    ScanEnd(piece + rest, open, close, depth, false) == Further(ScanEnd(rest, open, close, depth, false), |piece|)
  }

  /** Nothing that opens or closes a string or a group. */
  predicate Quiet(s: string) {
    forall k :: 0 <= k < |s| ==> s[k] !in "\"{}[]"
  }

  /** The scan counts one kind of bracket. */
  predicate Pair(open: char, close: char) {
    IsOpen(open) && close == CloseOf(open)
  }

  lemma {:induction false} QuietPasses(piece: string, rest: string, open: char, close: char, depth: int)
    requires Quiet(piece) && Pair(open, close)
    ensures Passes(piece, rest, open, close, depth)
  {
    if piece == [] {
      assert piece + rest == rest;
    } else {
      QuietPasses(piece[1..], rest, open, close, depth);
      assert (piece + rest)[1..] == piece[1..] + rest;
    }
  }

  lemma BothPass(a: string, b: string, rest: string, open: char, close: char, depth: int)
    requires Passes(a, b + rest, open, close, depth) && Passes(b, rest, open, close, depth)
    ensures Passes(a + b, rest, open, close, depth)
  {
    assert a + b + rest == a + (b + rest);
  }

  /** Inside a string the scan goes from part to part, whatever brackets and escapes they hold. */
  lemma {:induction false} PartsPass(parts: seq<Part>, rest: string, open: char, close: char, depth: int)
    requires GoodParts(parts)
    ensures ScanEnd(PartsText(parts) + rest, open, close, depth, true)
            == Further(ScanEnd(rest, open, close, depth, true), |PartsText(parts)|)
  {
    if parts == [] {
      assert PartsText(parts) + rest == rest;
    } else {
      var p, more := PartText(parts[0]), PartsText(parts[1..]);
      PartsPass(parts[1..], rest, open, close, depth);
      assert PartsText(parts) + rest == p + (more + rest);
      PartPasses(parts[0], more + rest, open, close, depth);
    }
  }

  lemma PartPasses(p: Part, rest: string, open: char, close: char, depth: int)
    requires GoodPart(p)
    ensures ScanEnd(PartText(p) + rest, open, close, depth, true)
            == Further(ScanEnd(rest, open, close, depth, true), |PartText(p)|)
  {
    var s := PartText(p) + rest;
    match p
    case Plain(_) => assert s[1..] == rest;
    case Escaped(_) => assert s[2..] == rest;
    case Unicode(a, b, c, d) =>
      assert s[2..] == [a] + ([b] + ([c] + ([d] + rest)));
      HexPasses(a, [b] + ([c] + ([d] + rest)), open, close, depth);
      HexPasses(b, [c] + ([d] + rest), open, close, depth);
      HexPasses(c, [d] + rest, open, close, depth);
      HexPasses(d, rest, open, close, depth);
  }

  lemma HexPasses(c: char, rest: string, open: char, close: char, depth: int)
    requires Hex(c)
    ensures ScanEnd([c] + rest, open, close, depth, true) == Further(ScanEnd(rest, open, close, depth, true), 1)
  {
    assert ([c] + rest)[1..] == rest;
  }

  lemma StringPasses(parts: seq<Part>, rest: string, open: char, close: char, depth: int)
    requires GoodParts(parts) && Pair(open, close)
    ensures Passes(StringText(parts), rest, open, close, depth)
  {
    var inner := PartsText(parts) + ("\"" + rest);
    assert StringText(parts) + rest == ['"'] + inner;
    PartsPass(parts, "\"" + rest, open, close, depth);
    assert ("\"" + rest)[1..] == rest;
  }

  lemma NamePasses(name: Option<Name>, rest: string, open: char, close: char, depth: int)
    requires Pair(open, close)
    requires name.Some? ==> GoodParts(name.value.parts) && Spaces(name.value.before) && Spaces(name.value.behind)
    ensures Passes(NameText(name), rest, open, close, depth)
  {
    if name.None? {
      QuietPasses([], rest, open, close, depth);
    } else {
      var n := name.value;
      var tail := n.before + ":" + n.behind;
      QuietPasses(tail, rest, open, close, depth);
      StringPasses(n.parts, tail + rest, open, close, depth);
      BothPass(StringText(n.parts), tail, rest, open, close, depth);
    }
  }

  /** A whole value, however nested, leaves a scan that has begun where it was. */
  lemma {:induction false} ValuePasses(v: Json, rest: string, open: char, close: char, depth: int)
    requires Good(v) && depth >= 1 && Pair(open, close)
    ensures Passes(Text(v), rest, open, close, depth)
    decreases v
  {
    match v
    case Word(text) => QuietPasses(text, rest, open, close, depth);
    case Quoted(parts) => StringPasses(parts, rest, open, close, depth);
    case Group(isObject, entries) =>
      var mine := OpenOf(isObject);
      var tail := [CloseOf(mine)] + rest;
      EntriesPass(entries, isObject, tail, open, close, if mine == open then depth + 1 else depth);
      GroupPasses(v, rest, open, close, depth);
  }

  lemma GroupPasses(v: Json, rest: string, open: char, close: char, depth: int)
    requires v.Group? && depth >= 1 && Pair(open, close)
    requires var mine := OpenOf(v.isObject);
             Passes(EntriesText(v.entries), [CloseOf(mine)] + rest, open, close,
                 if mine == open then depth + 1 else depth)
    ensures Passes(Text(v), rest, open, close, depth)
  {
    var mine := OpenOf(v.isObject);
    var tail := [CloseOf(mine)] + rest;
    assert Text(v) + rest == [mine] + (EntriesText(v.entries) + tail);
    assert tail[1..] == rest;
  }

  lemma {:induction false} EntryPasses(e: Entry, isObject: bool, rest: string, open: char, close: char, depth: int)
    requires GoodEntry(e, isObject) && depth >= 1 && Pair(open, close)
    ensures Passes(EntryText(e), rest, open, close, depth)
    decreases e
  {
    var b, n, v := e.before, NameText(e.name), Text(e.value);
    QuietPasses(e.behind, rest, open, close, depth);
    ValuePasses(e.value, e.behind + rest, open, close, depth);
    BothPass(v, e.behind, rest, open, close, depth);
    NamePasses(e.name, v + e.behind + rest, open, close, depth);
    BothPass(n, v + e.behind, rest, open, close, depth);
    QuietPasses(b, n + (v + e.behind) + rest, open, close, depth);
    BothPass(b, n + (v + e.behind), rest, open, close, depth);
  }

  lemma {:induction false} EntriesPass(es: Entries, isObject: bool, rest: string, open: char, close: char, depth: int)
    requires GoodEntries(es, isObject) && depth >= 1 && Pair(open, close)
    ensures Passes(EntriesText(es), rest, open, close, depth)
    decreases es
  {
    match es
    case Blank(pad) => QuietPasses(pad, rest, open, close, depth);
    case Last(entry) => EntryPasses(entry, isObject, rest, open, close, depth);
    case Comma(entry, others) =>
      var tail := "," + EntriesText(others);
      EntriesPass(others, isObject, rest, open, close, depth);
      QuietPasses(",", EntriesText(others) + rest, open, close, depth);
      BothPass(",", EntriesText(others), rest, open, close, depth);
      EntryPasses(entry, isObject, tail + rest, open, close, depth);
      BothPass(EntryText(entry), tail, rest, open, close, depth);
  }

  /** From a group's first bracket the depth first comes back to zero at its last one. */
  lemma DepthEndsWithTheGroup(v: Json, suffix: string)
    requires Good(v) && v.Group?
    ensures var open := OpenOf(v.isObject);
            ScanEnd(Text(v) + suffix, open, CloseOf(open), 0, false) == Some(|Text(v)| - 1)
  {
    var open := OpenOf(v.isObject);
    var tail := [CloseOf(open)] + suffix;
    EntriesPass(v.entries, v.isObject, tail, open, CloseOf(open), 1);
    var inner := EntriesText(v.entries) + tail;
    assert Text(v) + suffix == [open] + inner;
    assert ([open] + inner)[1..] == inner;
    assert ScanEnd(tail, open, CloseOf(open), 1, false) == Some(0);
  }

  predicate NoBracket(s: string) {
    forall k :: 0 <= k < |s| ==> !IsOpen(s[k])
  }

  lemma {:induction false} PassesOver<V>(parse: Parser<V>, prefix: string, rest: string)
    requires NoBracket(prefix)
    ensures FirstValue(parse, prefix + rest) == FirstValue(parse, rest)
  {
    if prefix == [] {
      assert prefix + rest == rest;
    } else {
      assert (prefix + rest)[1..] == prefix[1..] + rest;
      PassesOver(parse, prefix[1..], rest);
    }
  }

  /* Trimming leaves the value whole. */

  lemma {:induction false} TrimStartAround(prefix: string, core: string) returns (p: string)
    requires core != [] && !IsSpace(core[0]) && NoBracket(prefix)
    ensures TrimStart(prefix + core) == p + core && NoBracket(p)
  {
    if prefix != [] && IsSpace(prefix[0]) {
      assert (prefix + core)[1..] == prefix[1..] + core;
      p := TrimStartAround(prefix[1..], core);
    } else {
      assert prefix == [] ==> prefix + core == core;
      p := prefix;
    }
  }

  lemma {:induction false} TrimEndAround(core: string, suffix: string) returns (q: string)
    requires core != [] && !IsSpace(core[|core| - 1])
    ensures TrimEnd(core + suffix) == core + q && q <= suffix
  {
    var n := |suffix| - 1;
    if suffix != [] && IsSpace(suffix[n]) {
      assert (core + suffix)[..|core| + n] == core + suffix[..n];
      q := TrimEndAround(core, suffix[..n]);
    } else {
      assert suffix == [] ==> core + suffix == core;
      q := suffix;
    }
  }

  /** For any object or array, however nested, behind anything without a bracket and before anything at all: the
      value it stands for is what comes back, unless the whole text is JSON itself. */
  lemma FindsTheEmbeddedValue<V>(parse: Parser<V>, prefix: string, v: Json, suffix: string)
    requires Good(v) && v.Group? && NoBracket(prefix) && parse(Text(v)).Some?
    ensures var text := prefix + Text(v) + suffix;
            Extracted(parse, text) == if parse(Trim(text)).Some? then parse(Trim(text)) else parse(Text(v))
  {
    var core := Text(v);
    var text := prefix + core + suffix;
    assert core[0] == OpenOf(v.isObject) && core[|core| - 1] == CloseOf(core[0]);
    assert text == prefix + (core + suffix);
    var p := TrimStartAround(prefix, core + suffix);
    assert p + (core + suffix) == (p + core) + suffix;
    var q := TrimEndAround(p + core, suffix);
    assert Trim(text) == p + (core + q);
    PassesOver(parse, p, core + q);
    DepthEndsWithTheGroup(v, q);
    assert (core + q)[..|core|] == core;
  }

  /** The bracket at i begins no value: the scan from it does not end, or what it found is no JSON. */
  predicate Barren<V>(parse: Parser<V>, s: string, i: nat)
    requires i < |s| && IsOpen(s[i])
  {
    var end := ScanEnd(s[i..], s[i], if s[i] == '{' then '}' else ']', 0, false);
    end.None? || parse(s[i..i + end.value + 1]).None?
  }

  /** Nothing comes back exactly when every bracket of the text is barren. */
  lemma {:induction false} NothingIffAllBarren<V>(parse: Parser<V>, s: string)
    ensures FirstValue(parse, s).None? <==> forall i :: 0 <= i < |s| && IsOpen(s[i]) ==> Barren(parse, s, i)
  {
    if s != [] {
      NothingIffAllBarren(parse, s[1..]);
      BarrenHere(parse, s);
      forall i | 0 < i < |s| && IsOpen(s[i])
        ensures Barren(parse, s, i) <==> Barren(parse, s[1..], i - 1)
      {
        BarrenBehind(parse, s, i);
      }
      forall i | 0 <= i < |s[1..]| && IsOpen(s[1..][i])
        ensures Barren(parse, s[1..], i) <==> Barren(parse, s, i + 1)
      {
        BarrenBehind(parse, s, i + 1);
      }
    }
  }

  lemma BarrenHere<V>(parse: Parser<V>, s: string)
    requires s != []
    ensures IsOpen(s[0]) ==> (Barren(parse, s, 0) <==> ValueAt(parse, s).None?)
  {
    assert s[0..] == s;
  }

  lemma BarrenBehind<V>(parse: Parser<V>, s: string, i: nat)
    requires 0 < i < |s| && IsOpen(s[i])
    ensures Barren(parse, s, i) <==> Barren(parse, s[1..], i - 1)
  {
    assert s[1..][i - 1..] == s[i..];
    var end := ScanEnd(s[i..], s[i], if s[i] == '{' then '}' else ']', 0, false);
    if end.Some? {
      assert s[1..][i - 1..i - 1 + end.value + 1] == s[i..i + end.value + 1];
    }
  }

  /** Whatever comes back is what a stretch of the text stands for, from the first bracket that is not barren. */
  lemma {:induction false} FirstValueIsThere<V>(parse: Parser<V>, s: string) returns (i: nat, j: nat)
    requires FirstValue(parse, s).Some?
    ensures i < j <= |s| && IsOpen(s[i]) && s[j - 1] == CloseOf(s[i]) && FirstValue(parse, s) == parse(s[i..j])
    ensures forall k :: 0 <= k < i && IsOpen(s[k]) ==> Barren(parse, s, k)
  {
    if IsOpen(s[0]) && ValueAt(parse, s).Some? {
      ClosesThere(s, s[0], CloseOf(s[0]), 0, false);
      i, j := 0, ScanEnd(s, s[0], CloseOf(s[0]), 0, false).value + 1;
      assert s[0..j] == s[..j];
    } else {
      i, j := FirstValueIsThere(parse, s[1..]);
      assert s[1..][i..j] == s[i + 1..j + 1];
      i, j := i + 1, j + 1;
      forall k | 0 <= k < i && IsOpen(s[k])
        ensures Barren(parse, s, k)
      {
        if k == 0 { BarrenHere(parse, s); } else { BarrenBehind(parse, s, k); }
      }
    }
  }

  lemma {:induction false} ClosesThere(s: string, open: char, close: char, depth: int, inString: bool)
    requires ScanEnd(s, open, close, depth, inString).Some?
    ensures s[ScanEnd(s, open, close, depth, inString).value] == close
  {
    if inString {
      if s[0] == '\\' {
        ClosesThere(s[2..], open, close, depth, true);
      } else {
        ClosesThere(s[1..], open, close, depth, s[0] != '"');
      }
    } else if s[0] == '"' {
      ClosesThere(s[1..], open, close, depth, true);
    } else if s[0] == open {
      ClosesThere(s[1..], open, close, depth + 1, false);
    } else if s[0] == close && depth != 1 {
      ClosesThere(s[1..], open, close, depth - 1, false);
    } else if s[0] != close {
      ClosesThere(s[1..], open, close, depth, false);
    }
  }
}
