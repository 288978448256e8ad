// The LogQL stream selector printer of backend/app/application/services/loki.py, and the
// reader that a log store applies to it.
module LogQl {
  import opened Wrappers

  // ---- escaping -------------------------------------------------------------------------------

  // str.replace with a one-character pattern.
  function Replace(s: string, pattern: char, with: string): string {
    if s == "" then "" else (if s[0] == pattern then with else [s[0]]) + Replace(s[1..], pattern, with)
  }

  function Escape(value: string): string {
    Replace(Replace(Replace(value, '\\', "\\\\"), '"', "\\\""), '\n', "\\n")
  }

  function EscapeChar(c: char): string {
    if c == '\\' then "\\\\" else if c == '"' then "\\\"" else if c == '\n' then "\\n" else [c]
  }

  function EscapeEach(value: string): string {
    if value == "" then "" else EscapeChar(value[0]) + EscapeEach(value[1..])
  }

  lemma {:induction false} ReplaceJoins(a: string, b: string, pattern: char, with: string)
    ensures Replace(a + b, pattern, with) == Replace(a, pattern, with) + Replace(b, pattern, with)
  {
    if a == "" {
      assert a + b == b;
    } else {
      assert (a + b)[1..] == a[1..] + b;
      ReplaceJoins(a[1..], b, pattern, with);
    }
  }

  // The three passes never touch what an earlier pass inserted: together they are one pass.
  lemma {:induction false} EscapeIsOnePass(value: string)
    ensures Escape(value) == EscapeEach(value)
  {
    if value != "" {
      var c, rest := value[0], value[1..];
      EscapeIsOnePass(rest);
      var first := if c == '\\' then "\\\\" else [c];
      ReplaceJoins(first, Replace(rest, '\\', "\\\\"), '"', "\\\"");
      var second := Replace(first, '"', "\\\"");
      ReplaceJoins(second, Replace(Replace(rest, '\\', "\\\\"), '"', "\\\""), '\n', "\\n");
      EscapeOneChar(c);
    }
  }

  lemma EscapeOneChar(c: char)
    ensures Replace(Replace(if c == '\\' then "\\\\" else [c], '"', "\\\""), '\n', "\\n") == EscapeChar(c)
  {
    var first := if c == '\\' then "\\\\" else [c];
    ReplaceShort(first, '"', "\\\"");
    var second := Replace(first, '"', "\\\"");
    ReplaceShort(second, '\n', "\\n");
  }

  lemma ReplaceShort(s: string, pattern: char, with: string)
    requires 1 <= |s| <= 2
    ensures Replace(s, pattern, with)
            == (if s[0] == pattern then with else [s[0]])
               + (if |s| == 1 then "" else if s[1] == pattern then with else [s[1]])
  {
    if |s| == 2 {
      assert Replace(s[1..], pattern, with) == if s[1] == pattern then with else [s[1]];
    }
  }

  // ---- reading --------------------------------------------------------------------------------

  // Reads up to the first unescaped quotation mark: the value before it and the text after it.
  function ReadQuoted(s: string): Option<(string, string)> {
    if s == "" then None
    else if s[0] == '"' then Some(("", s[1..]))
    else if s[0] == '\\' then
      if |s| < 2 then None
      else if s[1] == '\\' || s[1] == '"' then Prepend(s[1], ReadQuoted(s[2..]))
      else if s[1] == 'n' then Prepend('\n', ReadQuoted(s[2..]))
      else None
    else Prepend(s[0], ReadQuoted(s[1..]))
  }

  function Prepend(c: char, read: Option<(string, string)>): Option<(string, string)> {
    match read
    case None => None
    case Some((value, rest)) => Some(([c] + value, rest))
  }

  lemma {:induction false} UnescapeInverts(value: string, rest: string)
    ensures ReadQuoted(Escape(value) + "\"" + rest) == Some((value, rest))
  {
    EscapeIsOnePass(value);
    UnescapeInvertsEach(value, rest);
  }

  lemma {:induction false} UnescapeInvertsEach(value: string, rest: string)
    ensures ReadQuoted(EscapeEach(value) + "\"" + rest) == Some((value, rest))
  {
    var text := EscapeEach(value) + "\"" + rest;
    if value == "" {
      assert text == "\"" + rest;
      assert text[1..] == rest;
    } else {
      var tail := EscapeEach(value[1..]) + "\"" + rest;
      UnescapeInvertsEach(value[1..], rest);
      assert text == EscapeChar(value[0]) + tail;
      if |EscapeChar(value[0])| == 2 {
        assert text[2..] == tail;
      } else {
        assert text[1..] == tail;
      }
      assert [value[0]] + value[1..] == value;
    }
  }

  // ---- selectors ------------------------------------------------------------------------------

  // A label of the discovered stream: its key and the text of its value, None for a null value.
  type Label = (string, Option<string>)
  type Matcher = (string, string)

  predicate NameStart(c: char) { 'A' <= c <= 'Z' || 'a' <= c <= 'z' || c == '_' }

  predicate NamePart(c: char) { NameStart(c) || '0' <= c <= '9' }

  predicate IsName(key: string) {
    key != "" && NameStart(key[0]) && forall i | 0 <= i < |key| :: NamePart(key[i])
  }

  predicate IsUsable(entry: Label) {
    IsName(entry.0) && entry.1.Some? && entry.1.value != ""
  }

  // The comprehension that keeps the labels a selector can carry, in dictionary order.
  function Usable(labels: seq<Label>): (usable: seq<Matcher>)
    ensures forall k, v :: (k, v) in usable <==> (k, Some(v)) in labels && IsUsable((k, Some(v)))
    ensures forall m | m in usable :: IsName(m.0)
  {
    if labels == [] then []
    else
      assert labels == [labels[0]] + labels[1..];
      (if IsUsable(labels[0]) then [(labels[0].0, labels[0].1.value)] else []) + Usable(labels[1..])
  }

  // Python's order on str: by code point, a proper prefix first.
  predicate Less(a: string, b: string) {
    b != "" && (a == "" || a[0] < b[0] || (a[0] == b[0] && Less(a[1..], b[1..])))
  }

  function Insert(m: Matcher, sorted: seq<Matcher>): seq<Matcher> {
    if sorted == [] || !Less(sorted[0].0, m.0) then [m] + sorted
    else [sorted[0]] + Insert(m, sorted[1..])
  }

  // sorted(usable), each key carrying its value.
  function SortByKey(matchers: seq<Matcher>): seq<Matcher> {
    if matchers == [] then [] else Insert(matchers[0], SortByKey(matchers[1..]))
  }

  function Render(m: Matcher): string { m.0 + "=\"" + Escape(m.1) + "\"" }

  function Join(matchers: seq<Matcher>): string {
    if matchers == [] then ""
    else if |matchers| == 1 then Render(matchers[0])
    else Render(matchers[0]) + "," + Join(matchers[1..])
  }

  // None where the source raises LOKI_STREAM_NOT_FOUND.
  function Selector(labels: seq<Label>): Option<string> {
    var usable := Usable(labels);
    if usable == [] then None else Some("{" + Join(SortByKey(usable)) + "}")
  }

  // The reader: a brace, comma-separated name="quoted" matchers, a closing brace, nothing after.
  function ReadSelector(s: string): Option<seq<Matcher>> {
    if s != "" && s[0] == '{' then ReadMatchers(s[1..]) else None
  }

  function ReadName(s: string): (split: (string, string))
    ensures split.0 + split.1 == s
  {
    if s != "" && NamePart(s[0]) then
      var (name, rest) := ReadName(s[1..]);
      ([s[0]] + name, rest)
    else ("", s)
  }

  lemma {:induction false} ReadQuotedConsumes(s: string)
    ensures ReadQuoted(s).Some? ==> |ReadQuoted(s).value.1| < |s|
    decreases |s|
  {
    if s != "" && s[0] != '"' {
      if s[0] != '\\' {
        ReadQuotedConsumes(s[1..]);
      } else if |s| >= 2 {
        ReadQuotedConsumes(s[2..]);
      }
    }
  }

  function ReadMatchers(s: string): Option<seq<Matcher>>
    decreases |s|
  {
    var (name, rest) := ReadName(s);
    if !IsName(name) || |rest| < 2 || rest[..2] != "=\"" then None
    else
      ReadQuotedConsumes(rest[2..]);
      match ReadQuoted(rest[2..])
      case None => None
      case Some((value, after)) =>
        if after == "}" then Some([(name, value)])
        else if after != "" && after[0] == ',' then
          match ReadMatchers(after[1..])
          case None => None
          case Some(more) => Some([(name, value)] + more)
        else None
  }

  lemma {:induction false} ReadNameStops(name: string, rest: string)
    requires forall i | 0 <= i < |name| :: NamePart(name[i])
    requires rest != "" && !NamePart(rest[0])
    ensures ReadName(name + rest) == (name, rest)
  {
    if name == "" {
      assert name + rest == rest;
    } else {
      assert (name + rest)[1..] == name[1..] + rest;
      ReadNameStops(name[1..], rest);
      assert [name[0]] + name[1..] == name;
    }
  }

  lemma ReadOneMatcher(m: Matcher, tail: string)
    requires IsName(m.0)
    ensures var s := Render(m) + tail;
            ReadName(s).0 == m.0 && |ReadName(s).1| >= 2 && ReadName(s).1[..2] == "=\""
            && ReadQuoted(ReadName(s).1[2..]) == Some((m.1, tail))
  {
    var quoted := Escape(m.1) + "\"" + tail;
    assert Render(m) + tail == m.0 + ("=\"" + quoted);
    ReadNameStops(m.0, "=\"" + quoted);
    assert ("=\"" + quoted)[2..] == quoted;
    UnescapeInverts(m.1, tail);
  }

  lemma ReadMatchersStep(m: Matcher, tail: string)
    requires IsName(m.0)
    ensures tail == "}" ==> ReadMatchers(Render(m) + tail) == Some([m])
    ensures tail != "" && tail[0] == ',' && ReadMatchers(tail[1..]).Some? ==>
              ReadMatchers(Render(m) + tail) == Some([m] + ReadMatchers(tail[1..]).value)
  {
    ReadOneMatcher(m, tail);
  }

  lemma JoinReassociates(a: string, b: string, c: string, d: string)
    ensures a + b + c + d == a + (b + (c + d))
  {
  }

  lemma {:induction false} ReadInvertsJoin(matchers: seq<Matcher>)
    requires matchers != [] && forall m | m in matchers :: IsName(m.0)
    ensures ReadMatchers(Join(matchers) + "}") == Some(matchers)
  {
    var m, more := matchers[0], matchers[1..];
    assert matchers == [m] + more;
    if |matchers| == 1 {
      ReadMatchersStep(m, "}");
      assert matchers == [m];
    } else {
      ReadInvertsJoin(more);
      var tail := "," + (Join(more) + "}");
      assert tail[1..] == Join(more) + "}";
      ReadMatchersStep(m, tail);
      JoinReassociates(Render(m), ",", Join(more), "}");
    }
  }

  lemma {:induction false} NothingUsable(labels: seq<Label>)
    ensures Usable(labels) == [] <==> forall entry | entry in labels :: !IsUsable(entry)
  {
    if labels != [] {
      NothingUsable(labels[1..]);
      assert labels == [labels[0]] + labels[1..];
    }
  }

  // Round trip: a printed selector reads back as the usable labels, all of them and nothing
  // else, in key order; printing fails exactly when no label is usable.
  lemma SelectorRoundTrip(labels: seq<Label>)
    ensures Selector(labels).None? <==> forall entry | entry in labels :: !IsUsable(entry)
    ensures Selector(labels).Some? ==> ReadSelector(Selector(labels).value) == Some(SortByKey(Usable(labels)))
    ensures forall k, v :: (k, v) in SortByKey(Usable(labels)) <==> (k, Some(v)) in labels && IsUsable((k, Some(v)))
  {
    NothingUsable(labels);
    SortKeepsElements(Usable(labels));
    if Usable(labels) != [] {
      SortedReadsBack(Usable(labels));
    }
  }

  lemma SortedReadsBack(usable: seq<Matcher>)
    requires usable != [] && forall m | m in usable :: IsName(m.0)
    ensures ReadSelector("{" + Join(SortByKey(usable)) + "}") == Some(SortByKey(usable))
  {
    var sorted := SortByKey(usable);
    SortKeepsElements(usable);
    assert usable[0] in sorted;
    ReadInvertsJoin(sorted);
    assert ("{" + Join(sorted) + "}")[1..] == Join(sorted) + "}";
  }

  // ---- independence of the dictionary's insertion order ---------------------------------------

  predicate Ascending(s: seq<Matcher>) {
    |s| < 2 || (Less(s[0].0, s[1].0) && Ascending(s[1..]))
  }

  predicate DistinctKeys(s: seq<Matcher>) {
    s == [] || ((forall m | m in s[1..] :: m.0 != s[0].0) && DistinctKeys(s[1..]))
  }

  lemma {:induction false} LessIsTotal(a: string, b: string)
    ensures a != b ==> Less(a, b) || Less(b, a)
    ensures !(Less(a, b) && Less(b, a))
  {
    if a != "" && b != "" && a[0] == b[0] {
      LessIsTotal(a[1..], b[1..]);
      assert a == [a[0]] + a[1..] && b == [b[0]] + b[1..];
    }
  }

  lemma {:induction false} LessIsTransitive(a: string, b: string, c: string)
    requires Less(a, b) && Less(b, c)
    ensures Less(a, c)
  {
    if a != "" && a[0] == b[0] == c[0] {
      LessIsTransitive(a[1..], b[1..], c[1..]);
    }
  }

  lemma {:induction false} InsertKeepsElements(m: Matcher, sorted: seq<Matcher>)
    ensures forall x :: x in Insert(m, sorted) <==> x == m || x in sorted
  {
    if sorted != [] {
      InsertKeepsElements(m, sorted[1..]);
      assert sorted == [sorted[0]] + sorted[1..];
    }
  }

  lemma {:induction false} SortKeepsElements(matchers: seq<Matcher>)
    ensures forall x :: x in SortByKey(matchers) <==> x in matchers
  {
    if matchers != [] {
      SortKeepsElements(matchers[1..]);
      InsertKeepsElements(matchers[0], SortByKey(matchers[1..]));
      assert matchers == [matchers[0]] + matchers[1..];
    }
  }

  lemma {:induction false} InsertAscends(m: Matcher, sorted: seq<Matcher>)
    requires Ascending(sorted) && forall x | x in sorted :: x.0 != m.0
    ensures Ascending(Insert(m, sorted))
    ensures Insert(m, sorted)[0] == m || (sorted != [] && Insert(m, sorted)[0] == sorted[0])
  {
    if sorted != [] {
      assert sorted[0] in sorted;
      LessIsTotal(sorted[0].0, m.0);
      if Less(sorted[0].0, m.0) {
        assert forall x | x in sorted[1..] :: x in sorted;
        InsertAscends(m, sorted[1..]);
      }
    }
  }

  lemma {:induction false} SortAscends(matchers: seq<Matcher>)
    requires DistinctKeys(matchers)
    ensures Ascending(SortByKey(matchers))
  {
    if matchers != [] {
      SortAscends(matchers[1..]);
      SortKeepsElements(matchers[1..]);
      InsertAscends(matchers[0], SortByKey(matchers[1..]));
    }
  }

  lemma {:induction false} HeadIsLeast(s: seq<Matcher>, x: Matcher)
    requires Ascending(s) && s != [] && x in s[1..]
    ensures Less(s[0].0, x.0)
  {
    if x != s[1] {
      assert x in s[1..][1..];
      HeadIsLeast(s[1..], x);
      LessIsTransitive(s[0].0, s[1].0, x.0);
    }
  }

  lemma {:induction false} AscendingIsUnique(s: seq<Matcher>, t: seq<Matcher>)
    requires Ascending(s) && Ascending(t) && forall x :: x in s <==> x in t
    ensures s == t
  {
    if t != [] {
      assert t[0] in s;
    }
    if s != [] {
      assert s[0] in t && t != [] && t[0] in s;
      assert s == [s[0]] + s[1..] && t == [t[0]] + t[1..];
      if s[0] != t[0] {
        HeadIsLeast(t, s[0]);
        HeadIsLeast(s, t[0]);
        LessIsTotal(s[0].0, t[0].0);
      }
      forall x ensures x in s[1..] <==> x in t[1..] {
        if x in s[1..] { HeadIsLeast(s, x); LessIsTotal(x.0, x.0); assert x in t; }
        if x in t[1..] { HeadIsLeast(t, x); LessIsTotal(x.0, x.0); assert x in s; }
      }
      AscendingIsUnique(s[1..], t[1..]);
    }
  }

  // A dictionary's keys are distinct.
  predicate IsDictionary(labels: seq<Label>) {
    forall i, j | 0 <= i < j < |labels| :: labels[i].0 != labels[j].0
  }

  lemma {:induction false} UsableKeysAreDistinct(labels: seq<Label>)
    requires IsDictionary(labels)
    ensures DistinctKeys(Usable(labels))
  {
    if labels != [] {
      UsableKeysAreDistinct(labels[1..]);
      forall m | m in Usable(labels[1..])
        ensures m.0 != labels[0].0
      {
        var j :| 0 <= j < |labels[1..]| && labels[1..][j] == (m.0, Some(m.1));
        assert labels[j + 1].0 == m.0;
      }
      if IsUsable(labels[0]) {
        assert Usable(labels)[1..] == Usable(labels[1..]);
      } else {
        assert Usable(labels) == Usable(labels[1..]);
      }
    }
  }

  lemma SelectorIgnoresInsertionOrder(labels: seq<Label>, other: seq<Label>)
    requires IsDictionary(labels) && IsDictionary(other)
    requires forall entry :: entry in labels <==> entry in other
    ensures Selector(labels) == Selector(other)
  {
    var a, b := Usable(labels), Usable(other);
    assert forall x :: x in a <==> x in b by {
      forall x ensures x in a <==> x in b {
        assert x == (x.0, x.1);
      }
    }
    assert a == [] <==> b == [] by {
      if a != [] { assert a[0] in b; }
      if b != [] { assert b[0] in a; }
    }
    UsableKeysAreDistinct(labels);
    UsableKeysAreDistinct(other);
    SortAscends(a);
    SortAscends(b);
    SortKeepsElements(a);
    SortKeepsElements(b);
    AscendingIsUnique(SortByKey(a), SortByKey(b));
  }
}
