/** Validating an array column by a regular expression over its text: the expression matches exactly when
    every element is one of the allowed codes. */
module Patterns {
  import opened Wrappers

  // Regular expressions, matched against a whole text

  datatype Regex =
    Empty | Chr(c: char) | Cat(first: Regex, second: Regex) | Alt(left: Regex, right: Regex) | Star(body: Regex)

  predicate Matches(r: Regex, s: string)
    decreases r, |s|
  {
    match r
    case Empty => s == ""
    case Chr(c) => s == [c]
    case Cat(a, b) => exists i :: 0 <= i <= |s| && Matches(a, s[..i]) && Matches(b, s[i..])
    case Alt(a, b) => Matches(a, s) || Matches(b, s)
    case Star(a) => s == "" || exists i :: 0 < i <= |s| && Matches(a, s[..i]) && Matches(r, s[i..])
  }

  function Word(w: string): Regex {
    if w == "" then Empty else Cat(Chr(w[0]), Word(w[1..]))
  }

  function AnyOf(codes: seq<string>): Regex
    requires codes != []
  {
    if |codes| == 1 then Word(codes[0]) else Alt(Word(codes[0]), AnyOf(codes[1..]))
  }

  /** One or more codes separated by commas. */
  function ListOf(codes: seq<string>): Regex
    requires codes != []
  {
    Cat(AnyOf(codes), Star(Cat(Chr(','), AnyOf(codes))))
  }

  function ArrayPattern(codes: seq<string>, empty: bool): Regex
    requires codes != []
  {
    Cat(Chr('{'), Cat(if empty then Alt(ListOf(codes), Empty) else ListOf(codes), Chr('}')))
  }

  // The text of an array

  /** An array element; null when absent. */
  type Element = Option<string>

  predicate Special(c: char) {
    c in "\"\\{}, \t\n\r" || c == 11 as char || c == 12 as char
  }

  function Upper(s: string): string {
    if s == "" then "" else [if 'a' <= s[0] <= 'z' then s[0] - 32 as char else s[0]] + Upper(s[1..])
  }

  predicate NeedsQuotes(v: string) {
    v == "" || Upper(v) == "NULL" || exists i :: 0 <= i < |v| && Special(v[i])
  }

  function Escaped(v: string): string {
    if v == "" then ""
    else (if v[0] == '"' || v[0] == '\\' then ['\\', v[0]] else [v[0]]) + Escaped(v[1..])
  }

  function ElementText(e: Element): string {
    if e.None? then "NULL"
    else if NeedsQuotes(e.value) then ['"'] + Escaped(e.value) + ['"']
    else e.value
  }

  function ElementTexts(values: seq<Element>): (texts: seq<string>)
    ensures |texts| == |values|
    ensures forall i :: 0 <= i < |values| ==> texts[i] == ElementText(values[i])
  {
    seq(|values|, i requires 0 <= i < |values| => ElementText(values[i]))
  }

  function Tail(parts: seq<string>): string {
    if parts == [] then "" else [','] + parts[0] + Tail(parts[1..])
  }

  function Joined(parts: seq<string>): string {
    if parts == [] then "" else parts[0] + Tail(parts[1..])
  }

  function ArrayText(values: seq<Element>): string {
    ['{'] + Joined(ElementTexts(values)) + ['}']
  }

  // The check on the values themselves

  /** A list is in scope when each element is a string that is a code as a whole. */
  predicate ValidScope(values: seq<Element>, codes: seq<string>, empty: bool)
    requires codes != []
  {
    (empty || values != []) && forall v :: v in values ==> v.Some? && Matches(AnyOf(codes), v.value)
  }

  /** Codes that stand in an array text as they are. */
  ghost predicate PlainCodes(codes: seq<string>) {
    codes != [] && forall code :: code in codes ==> !NeedsQuotes(code)
  }

  // Matching codes

  lemma {:induction false} WordMatches(w: string, s: string)
    ensures Matches(Word(w), s) <==> s == w
  {
    if w != "" {
      if s == w {
        assert s[..1] == [w[0]];
        WordMatches(w[1..], s[1..]);
      }
      if Matches(Word(w), s) {
        var i :| 0 <= i <= |s| && Matches(Chr(w[0]), s[..i]) && Matches(Word(w[1..]), s[i..]);
        WordMatches(w[1..], s[i..]);
        assert s == s[..i] + s[i..];
      }
    }
  }

  lemma {:induction false} AnyOfMatches(codes: seq<string>, s: string)
    requires codes != []
    ensures Matches(AnyOf(codes), s) <==> s in codes
  {
    WordMatches(codes[0], s);
    if |codes| > 1 {
      AnyOfMatches(codes[1..], s);
      assert codes == [codes[0]] + codes[1..];
    }
  }

  // Matching lists of codes

  ghost predicate AllIn(parts: seq<string>, codes: seq<string>) {
    forall i :: 0 <= i < |parts| ==> parts[i] in codes
  }

  lemma {:induction false} StarSplits(codes: seq<string>, s: string) returns (parts: seq<string>)
    requires codes != [] && Matches(Star(Cat(Chr(','), AnyOf(codes))), s)
    ensures AllIn(parts, codes) && s == Tail(parts)
    decreases |s|
  {
    if s == "" {
      parts := [];
    } else {
      var body := Cat(Chr(','), AnyOf(codes));
      var i :| 0 < i <= |s| && Matches(body, s[..i]) && Matches(Star(body), s[i..]);
      var head := s[..i];
      var j :| 0 <= j <= |head| && Matches(Chr(','), head[..j]) && Matches(AnyOf(codes), head[j..]);
      AnyOfMatches(codes, head[j..]);
      var rest := StarSplits(codes, s[i..]);
      parts := [head[j..]] + rest;
      assert head == head[..j] + head[j..] && s == head + s[i..];
      assert parts[1..] == rest;
    }
  }

  lemma {:induction false} StarAccepts(codes: seq<string>, parts: seq<string>)
    requires codes != [] && AllIn(parts, codes)
    ensures Matches(Star(Cat(Chr(','), AnyOf(codes))), Tail(parts))
    decreases |parts|
  {
    if parts != [] {
      var body := Cat(Chr(','), AnyOf(codes));
      var head, s := [','] + parts[0], Tail(parts);
      StarAccepts(codes, parts[1..]);
      AnyOfMatches(codes, parts[0]);
      assert head[..1] == [','] && head[1..] == parts[0];
      assert Matches(body, head);
      assert s[..|head|] == head && s[|head|..] == Tail(parts[1..]);
    }
  }

  lemma ListSplits(codes: seq<string>, s: string) returns (parts: seq<string>)
    requires codes != [] && Matches(ListOf(codes), s)
    ensures parts != [] && AllIn(parts, codes) && s == Joined(parts)
  {
    var star := Star(Cat(Chr(','), AnyOf(codes)));
    var i :| 0 <= i <= |s| && Matches(AnyOf(codes), s[..i]) && Matches(star, s[i..]);
    AnyOfMatches(codes, s[..i]);
    var rest := StarSplits(codes, s[i..]);
    parts := [s[..i]] + rest;
    assert parts[1..] == rest && s == s[..i] + s[i..];
  }

  lemma ListAccepts(codes: seq<string>, parts: seq<string>)
    requires codes != [] && parts != [] && AllIn(parts, codes)
    ensures Matches(ListOf(codes), Joined(parts))
  {
    var s := Joined(parts);
    AnyOfMatches(codes, parts[0]);
    StarAccepts(codes, parts[1..]);
    assert s[..|parts[0]|] == parts[0] && s[|parts[0]|..] == Tail(parts[1..]);
  }

  lemma BracesAccept(contents: Regex, t: string)
    requires Matches(contents, t)
    ensures Matches(Cat(Chr('{'), Cat(contents, Chr('}'))), ['{'] + t + ['}'])
  {
    var inner, r, s := Cat(contents, Chr('}')), t + ['}'], ['{'] + t + ['}'];
    assert r[..|t|] == t && r[|t|..] == ['}'];
    assert Matches(inner, r);
    assert s[..1] == ['{'] && s[1..] == r;
  }

  lemma BracesReject(contents: Regex, t: string)
    requires Matches(Cat(Chr('{'), Cat(contents, Chr('}'))), ['{'] + t + ['}'])
    ensures Matches(contents, t)
  {
    var inner, r, s := Cat(contents, Chr('}')), t + ['}'], ['{'] + t + ['}'];
    var i :| 0 <= i <= |s| && Matches(Chr('{'), s[..i]) && Matches(inner, s[i..]);
    assert i == |s[..i]| == 1;
    assert s[1..] == r;
    var j :| 0 <= j <= |r| && Matches(contents, r[..j]) && Matches(Chr('}'), r[j..]);
    assert |r| - j == |r[j..]| == 1;
    assert r[..|t|] == t;
  }

  lemma BracesMatch(contents: Regex, t: string)
    ensures Matches(Cat(Chr('{'), Cat(contents, Chr('}'))), ['{'] + t + ['}']) <==> Matches(contents, t)
  {
    if Matches(contents, t) {
      BracesAccept(contents, t);
    }
    if Matches(Cat(Chr('{'), Cat(contents, Chr('}'))), ['{'] + t + ['}']) {
      BracesReject(contents, t);
    }
  }

  // Splitting at commas is unique

  predicate Without(c: char, s: string) {
    forall i :: 0 <= i < |s| ==> s[i] != c
  }

  ghost predicate AllWithout(c: char, parts: seq<string>) {
    forall i :: 0 <= i < |parts| ==> Without(c, parts[i])
  }

  lemma SplitIsUnique(a: string, rest: string, b: string, other: string)
    requires Without(',', a) && Without(',', b) && a + rest == b + other
    requires (rest == "" || rest[0] == ',') && (other == "" || other[0] == ',')
    ensures a == b && rest == other
  {
    var s := a + rest;
    assert rest != "" ==> s[|a|] == ',';
    assert other != "" ==> s[|b|] == ',';
    assert forall i :: 0 <= i < |a| ==> s[i] != ',';
    assert forall i :: 0 <= i < |b| ==> s[i] == b[i] && s[i] != ',';
    assert a == s[..|a|] && b == s[..|b|];
    assert rest == s[|a|..] && other == s[|b|..];
  }

  lemma {:induction false} TailIsInjective(a: seq<string>, b: seq<string>)
    requires AllWithout(',', a) && AllWithout(',', b) && Tail(a) == Tail(b)
    ensures a == b
    decreases |a|
  {
    if a != [] && b != [] {
      assert Tail(a)[1..] == a[0] + Tail(a[1..]) && Tail(b)[1..] == b[0] + Tail(b[1..]);
      SplitIsUnique(a[0], Tail(a[1..]), b[0], Tail(b[1..]));
      TailIsInjective(a[1..], b[1..]);
      assert a == [a[0]] + a[1..] && b == [b[0]] + b[1..];
    }
  }

  lemma JoinedIsInjective(a: seq<string>, b: seq<string>)
    requires AllWithout(',', a) && AllWithout(',', b) && a != [] && b != [] && Joined(a) == Joined(b)
    ensures a == b
  {
    SplitIsUnique(a[0], Tail(a[1..]), b[0], Tail(b[1..]));
    TailIsInjective(a[1..], b[1..]);
    assert a == [a[0]] + a[1..] && b == [b[0]] + b[1..];
  }

  /** A character other than the comma occurs in a joined text exactly when it occurs in a part. */
  lemma {:induction false} TailWithout(c: char, parts: seq<string>)
    requires c != ','
    ensures Without(c, Tail(parts)) <==> AllWithout(c, parts)
    decreases |parts|
  {
    if parts != [] {
      TailWithout(c, parts[1..]);
      var s, n := Tail(parts), |parts[0]|;
      assert s[1..n + 1] == parts[0] && s[n + 1..] == Tail(parts[1..]) && s == [','] + s[1..n + 1] + s[n + 1..];
      assert parts == [parts[0]] + parts[1..];
      SplitWithout(c, parts[0], Tail(parts[1..]));
      SplitWithout(c, [','] + parts[0], Tail(parts[1..]));
    }
  }

  lemma SplitWithout(c: char, a: string, b: string)
    ensures Without(c, a + b) <==> Without(c, a) && Without(c, b)
  {
    if Without(c, a + b) {
      forall i | 0 <= i < |a| ensures a[i] != c {
        assert (a + b)[i] == a[i];
      }
      forall i | 0 <= i < |b| ensures b[i] != c {
        assert (a + b)[|a| + i] == b[i];
      }
    }
  }

  lemma JoinedWithout(c: char, parts: seq<string>)
    requires c != ','
    ensures Without(c, Joined(parts)) <==> AllWithout(c, parts)
  {
    if parts != [] {
      TailWithout(c, parts[1..]);
      SplitWithout(c, parts[0], Tail(parts[1..]));
      assert parts == [parts[0]] + parts[1..];
    }
  }

  // The two checks agree

  lemma PlainHasNoSpecials(v: string)
    requires !NeedsQuotes(v)
    ensures Without('"', v) && Without(',', v)
  {
  }

  lemma QuotedHasQuote(v: string)
    requires NeedsQuotes(v)
    ensures !Without('"', ElementText(Some(v)))
  {
    assert ElementText(Some(v))[0] == '"';
  }

  /** An element whose text has no quotes stands in the text as it is, and has no comma. */
  lemma UnquotedElement(e: Element)
    requires Without('"', ElementText(e))
    ensures Without(',', ElementText(e))
    ensures e.Some? ==> ElementText(e) == e.value && !NeedsQuotes(e.value)
  {
    if e.Some? && NeedsQuotes(e.value) {
      QuotedHasQuote(e.value);
      assert false;
    }
  }

  /** If an array text is a list of codes, its elements are those codes. */
  lemma ElementsAreCodes(values: seq<Element>, codes: seq<string>, parts: seq<string>)
    requires PlainCodes(codes) && AllIn(parts, codes) && parts != [] && values != []
    requires Joined(ElementTexts(values)) == Joined(parts)
    ensures forall v :: v in values ==> v.Some? && v.value in codes
  {
    var texts := ElementTexts(values);
    forall i | 0 <= i < |parts| ensures Without('"', parts[i]) && Without(',', parts[i]) {
      PlainHasNoSpecials(parts[i]);
    }
    JoinedWithout('"', parts);
    JoinedWithout('"', texts);
    forall i | 0 <= i < |texts| ensures Without(',', texts[i]) {
      UnquotedElement(values[i]);
    }
    JoinedIsInjective(texts, parts);
    forall v | v in values ensures v.Some? && v.value in codes {
      var i :| 0 <= i < |values| && values[i] == v;
      assert texts[i] == parts[i];
      TextIsValue(v, codes);
    }
  }

  /** An element whose text is an unquoted code is that code. */
  lemma TextIsValue(e: Element, codes: seq<string>)
    requires PlainCodes(codes) && ElementText(e) in codes && Without('"', ElementText(e))
    ensures e.Some? && e.value in codes
  {
    UnquotedElement(e);
    assert NeedsQuotes("NULL");
  }

  lemma CodesAreElements(values: seq<Element>, codes: seq<string>)
    requires PlainCodes(codes) && forall v :: v in values ==> v.Some? && v.value in codes
    ensures AllIn(ElementTexts(values), codes)
  {
    forall i | 0 <= i < |values| ensures ElementTexts(values)[i] in codes {
      assert values[i] in values;
    }
  }

  lemma ScopeByCodes(values: seq<Element>, codes: seq<string>, empty: bool)
    requires codes != []
    ensures ValidScope(values, codes, empty) <==>
            (empty || values != []) && forall v :: v in values ==> v.Some? && v.value in codes
  {
    forall v | v in values && v.Some? ensures Matches(AnyOf(codes), v.value) <==> v.value in codes {
      AnyOfMatches(codes, v.value);
    }
  }

  /** The text of no elements is matched exactly when an empty list is allowed. */
  lemma EmptyText(codes: seq<string>)
    requires PlainCodes(codes)
    ensures !Matches(ListOf(codes), "")
  {
    assert "" !in codes by {
      assert NeedsQuotes("");
    }
    if Matches(ListOf(codes), "") {
      var parts := ListSplits(codes, "");
      assert false;
    }
  }

  /** The database's pattern over the array's text accepts exactly the arrays that the application's
      element-wise check accepts: a quoted element, a null or an element with a comma never passes. */
  lemma ArrayPatternIsScope(values: seq<Element>, codes: seq<string>, empty: bool)
    requires PlainCodes(codes)
    ensures Matches(ArrayPattern(codes, empty), ArrayText(values)) <==> ValidScope(values, codes, empty)
  {
    var t := Joined(ElementTexts(values));
    BracesMatch(if empty then Alt(ListOf(codes), Empty) else ListOf(codes), t);
    ScopeByCodes(values, codes, empty);
    if values == [] {
      EmptyText(codes);
    } else {
      TextIsNotEmpty(values);
      if Matches(ListOf(codes), t) {
        var parts := ListSplits(codes, t);
        ElementsAreCodes(values, codes, parts);
      } else if ValidScope(values, codes, empty) {
        CodesAreElements(values, codes);
        ListAccepts(codes, ElementTexts(values));
      }
    }
  }

  lemma TextIsNotEmpty(values: seq<Element>)
    requires values != []
    ensures Joined(ElementTexts(values)) != ""
  {
    assert ElementText(values[0]) != "";
    assert |Joined(ElementTexts(values))| >= |ElementTexts(values)[0]|;
  }

  predicate Wordlike(code: string) {
    forall i :: 0 <= i < |code| ==> 'A' <= code[i] <= 'Z' || 'a' <= code[i] <= 'z' || code[i] == '_'
  }

  /** A code of letters and underscores stands in an array text as it is, unless it could read as a null. */
  lemma WordlikeIsPlain(code: string)
    requires Wordlike(code) && code != "" && |code| != 4
    ensures !NeedsQuotes(code)
  {
    UpperLength(code);
  }

  lemma PairIsPlain(a: string, b: string)
    requires !NeedsQuotes(a) && !NeedsQuotes(b)
    ensures PlainCodes([a, b])
  {
  }

  /** Country and language codes stand as they are. */
  lemma TwoLettersArePlain(codes: seq<string>)
    requires codes != [] && forall code :: code in codes ==> |code| == 2 && Wordlike(code)
    ensures PlainCodes(codes)
  {
    forall code | code in codes ensures !NeedsQuotes(code) {
      WordlikeIsPlain(code);
    }
  }

  lemma {:induction false} UpperLength(s: string)
    ensures |Upper(s)| == |s|
  {
    if s != "" {
      UpperLength(s[1..]);
    }
  }
}
