/** Texts from manifests inside nginx's configuration: how they are escaped, and how nginx reads them. */
module Escape {
  import opened Options
  import opened Runes

  const DOLLAR := "{dollar}"

  function EscapeRune(c: char): string {
    (if c == '"' || c == '\\' then ['\\'] else []) + [c] + if c == '$' then DOLLAR else ""
  }

  function Escape(s: string): string {
    if s == "" then "" else Escape(s[..|s| - 1]) + EscapeRune(s[|s| - 1])
  }

  method EscapeConfigString(text: string) returns (out: string)
    ensures out == Escape(text)
  {
    out := "";
    var i := 0;
    while i < |text|
      invariant i <= |text|
      invariant out == Escape(text[..i])
    {
      var before := out;
      if text[i] == '"' || text[i] == '\\' {
        out := out + ['\\'];
      }
      out := out + [text[i]];
      if text[i] == '$' {
        out := out + DOLLAR;
      }
      assert out == before + EscapeRune(text[i]);
      assert text[..i + 1][..i] == text[..i];
      i := i + 1;
    }
    assert text[..i] == text;
  }

  /** What nginx makes of a character after a backslash, inside double quotes. */
  function Unquote(c: char): string {
    if c == '"' || c == '\\' || c == '\'' then [c]
    else if c == 't' then ['\t']
    else if c == 'r' then ['\r']
    else if c == 'n' then ['\n']
    else ['\\', c]
  }

  datatype Token = Token(text: string, rest: string)

  /** nginx reads a quoted text up to the closing quote; None if there is no closing quote. */
  function ReadQuoted(s: string): Option<Token>
    decreases |s|
  {
    if s == "" then None
    else if s[0] == '"' then Some(Token("", s[1..]))
    else if s[0] == '\\' then
      if |s| == 1 then None
      else
        var after := ReadQuoted(s[2..]);
        if after.None? then None else Some(after.value.(text := Unquote(s[1]) + after.value.text))
    else
      var after := ReadQuoted(s[1..]);
      if after.None? then None else Some(after.value.(text := [s[0]] + after.value.text))
  }

  /** Replaces the variable whose value is a dollar sign; None if the text has a dollar sign with another use. */
  function Expand(s: string): Option<string>
    decreases |s|
  {
    if s == "" then Some("")
    else if s[0] == '$' then
      if DOLLAR <= s[1..] then
        var after := Expand(s[1 + |DOLLAR|..]);
        if after.None? then None else Some("$" + after.value)
      else None
    else
      var after := Expand(s[1..]);
      if after.None? then None else Some([s[0]] + after.value)
  }

  /** The text with its quoting undone. */
  function Marked(s: string): string {
    if s == "" then "" else [s[0]] + (if s[0] == '$' then DOLLAR else "") + Marked(s[1..])
  }

  lemma Associative(a: string, b: string, c: string)
    ensures (a + b) + c == a + (b + c)
  {
  }

  /** Escaping works character by character, so it can be taken apart at the front. */
  lemma {:induction false} EscapeFirst(c: char, s: string)
    ensures Escape([c] + s) == EscapeRune(c) + Escape(s)
  {
    if s == "" {
      assert [c] + s == [c] && [c][..0] == "";
      assert Escape("") == "";
      assert EscapeRune(c) + "" == EscapeRune(c) && "" + EscapeRune(c) == EscapeRune(c);
    } else {
      var n := |s| - 1;
      EscapeFirst(c, s[..n]);
      assert ([c] + s)[..n + 1] == [c] + s[..n];
      Associative(EscapeRune(c), Escape(s[..n]), EscapeRune(s[n]));
    }
  }

  /** Characters without a meaning for the reader are read as they are. */
  lemma {:induction false} ReadPlain(plain: string, s: string)
    requires '"' !in plain && '\\' !in plain && ReadQuoted(s).Some?
    ensures ReadQuoted(plain + s) == Some(ReadQuoted(s).value.(text := plain + ReadQuoted(s).value.text))
  {
    if plain == "" {
      assert plain + s == s && plain + ReadQuoted(s).value.text == ReadQuoted(s).value.text;
    } else {
      ReadPlain(plain[1..], s);
      assert (plain + s)[1..] == plain[1..] + s;
      assert plain + ReadQuoted(s).value.text == [plain[0]] + (plain[1..] + ReadQuoted(s).value.text);
    }
  }

  lemma ReadBackslash(c: char, s: string)
    requires (c == '"' || c == '\\') && ReadQuoted(s).Some?
    ensures ReadQuoted(['\\', c] + s) == Some(ReadQuoted(s).value.(text := [c] + ReadQuoted(s).value.text))
  {
    assert (['\\', c] + s)[2..] == s;
  }

  /** The escaped form of the first character is read first. */
  lemma ReadRune(c: char, s: string)
    requires ReadQuoted(s).Some?
    ensures ReadQuoted(EscapeRune(c) + s) ==
            Some(ReadQuoted(s).value.(text := [c] + (if c == '$' then DOLLAR else "") + ReadQuoted(s).value.text))
  {
    if c == '"' || c == '\\' {
      assert EscapeRune(c) == ['\\', c];
      ReadBackslash(c, s);
      assert [c] + "" == [c];
    } else {
      assert EscapeRune(c) == [c] + (if c == '$' then DOLLAR else "");
      ReadPlain(EscapeRune(c), s);
    }
  }

  lemma {:induction false} ReadEscaped(s: string, rest: string)
    ensures ReadQuoted(Escape(s) + "\"" + rest) == Some(Token(Marked(s), rest))
  {
    if s == "" {
      assert Escape(s) + "\"" + rest == "\"" + rest;
    } else {
      var tail := Escape(s[1..]) + "\"" + rest;
      ReadEscaped(s[1..], rest);
      assert Escape(s) + "\"" + rest == EscapeRune(s[0]) + tail by {
        EscapeFirst(s[0], s[1..]);
        assert s == [s[0]] + s[1..];
      }
      ReadRune(s[0], tail);
    }
  }

  lemma {:induction false} ExpandMarked(s: string)
    ensures Expand(Marked(s)) == Some(s)
  {
    if s != "" {
      ExpandMarked(s[1..]);
      var m := Marked(s);
      assert s == [s[0]] + s[1..];
      if s[0] == '$' {
        assert m[1..] == DOLLAR + Marked(s[1..]);
        assert m[1 + |DOLLAR|..] == Marked(s[1..]);
      } else {
        assert m[1..] == Marked(s[1..]);
      }
    }
  }

  /** What nginx makes of a quoted text and of what follows it. */
  function Decode(s: string): Option<Token> {
    var token := ReadQuoted(s);
    if token.None? || Expand(token.value.text).None? then None
    else Some(Token(Expand(token.value.text).value, token.value.rest))
  }

  /** Round trip: nginx reads an escaped text back as it was, and the text ends where it should: no character of it
  ends the quotes early or starts another variable. */
  lemma EscapeRoundTrip(s: string, rest: string)
    ensures Decode(Escape(s) + "\"" + rest) == Some(Token(s, rest))
  {
    ReadEscaped(s, rest);
    ExpandMarked(s);
  }

  lemma EscapeIsInjective(a: string, b: string)
    ensures Escape(a) == Escape(b) <==> a == b
  {
    EscapeRoundTrip(a, "");
    EscapeRoundTrip(b, "");
  }

  // Headers.

  const CONTENT_HEADERS := {
    "content-disposition", "content-encoding", "content-language", "content-md5", "content-security-policy",
    "content-type"
  }

  const OTHER_HEADERS := {
    "expires", "cache-control", "last-modified", "link", "location", "p3p", "pragma", "refresh", "set-cookie", "vary",
    "warning"
  }

  const SAFE_HEADERS := CONTENT_HEADERS + OTHER_HEADERS

  function Bytes(s: string): nat {
    if s == "" then 0 else Width(s[0]) + Bytes(s[1..])
  }

  datatype Verdict = Allowed | Ignored | Panics

  /** The first two bytes of the lowercase name are looked at, and there may be fewer. */
  function VerdictFor(name: string, safe: set<string>): Verdict {
    var lower := ToLower(name);
    if Bytes(lower) < 2 then Panics
    else if "x-" <= lower || lower in safe then Allowed
    else Ignored
  }

  function HeaderIsAllowed(name: string): Verdict {
    VerdictFor(name, SAFE_HEADERS)
  }

  /** The check panics exactly on names without a character, and on a single one whose lowercase is ASCII. */
  lemma HeaderPanicsIff(name: string)
    ensures HeaderIsAllowed(name) == Panics <==> name == "" || (|name| == 1 && ToLowerRune(name[0]) < '\U{0080}')
  {
    VerdictPanicsIff(name, SAFE_HEADERS);
  }

  lemma VerdictPanicsIff(name: string, safe: set<string>)
    ensures VerdictFor(name, safe) == Panics <==> name == "" || (|name| == 1 && ToLowerRune(name[0]) < '\U{0080}')
  {
    var lower := ToLower(name);
    if |name| == 1 {
      assert lower[1..] == "";
    } else if |name| > 1 {
      assert Bytes(lower) == Width(lower[0]) + Bytes(lower[1..]);
      assert lower[1..] != "";
    }
  }

  /** The character is this one of a lowercase ASCII text, or its capital; two letters outside ASCII count as capitals
  of i and k. */
  predicate IsCaseOf(c: char, lower: char) {
    || (c == lower && !('A' <= c <= 'Z'))
    || ('a' <= lower <= 'z' && c as int == lower as int - 32)
    || (lower == 'i' && c == '\U{0130}') || (lower == 'k' && c == '\U{212A}')
  }

  predicate SpelledLike(name: string, lower: string) {
    |name| == |lower| && forall i | 0 <= i < |name| :: IsCaseOf(name[i], lower[i])
  }

  lemma LowerIffSpelled(name: string, lower: string)
    requires forall i | 0 <= i < |lower| :: lower[i] < '\U{0080}' && !('A' <= lower[i] <= 'Z')
    ensures ToLower(name) == lower <==> SpelledLike(name, lower)
  {
    if |name| == |lower| {
      forall i | 0 <= i < |name|
        ensures ToLower(name)[i] == lower[i] <==> IsCaseOf(name[i], lower[i])
      {
      }
    }
  }

  /** The header begins with an x and a dash, or it is in the list, in any spelling. */
  predicate IsSafe(name: string, list: set<string>) {
    || (|name| >= 2 && (name[0] == 'x' || name[0] == 'X') && name[1] == '-')
    || exists safe :: safe in list && SpelledLike(name, safe)
  }

  /** A text in lowercase ASCII with two characters or more. */
  predicate IsPlain(text: string) {
    |text| >= 2 && forall i | 0 <= i < |text| :: text[i] < '\U{0080}' && !('A' <= text[i] <= 'Z')
  }

  lemma VerdictIff(name: string, list: set<string>)
    requires forall safe | safe in list :: IsPlain(safe)
    ensures VerdictFor(name, list) == Allowed <==> IsSafe(name, list)
  {
    var lower := ToLower(name);
    VerdictPanicsIff(name, list);
    assert "x-" <= lower <==> |name| >= 2 && (name[0] == 'x' || name[0] == 'X') && name[1] == '-';
    if lower in list {
      LowerIffSpelled(name, lower);
    }
    forall safe | safe in list && SpelledLike(name, safe)
      ensures lower in list && |name| >= 2
    {
      LowerIffSpelled(name, safe);
    }
  }

  lemma ContentArePlain()
    ensures forall safe | safe in CONTENT_HEADERS :: IsPlain(safe)
  {
  }

  lemma OthersArePlain()
    ensures forall safe | safe in OTHER_HEADERS :: IsPlain(safe)
  {
  }

  lemma SafeArePlain(content: set<string>, others: set<string>)
    requires forall safe | safe in content || safe in others :: IsPlain(safe)
    ensures forall safe | safe in content + others :: IsPlain(safe)
  {
  }

  /** Exactly the safe headers are allowed. */
  lemma HeaderAllowedIff(name: string)
    ensures HeaderIsAllowed(name) == Allowed <==> IsSafe(name, SAFE_HEADERS)
  {
    ContentArePlain();
    OthersArePlain();
    SafeArePlain(CONTENT_HEADERS, OTHER_HEADERS);
    VerdictIff(name, SAFE_HEADERS);
  }

  /** Decides on a header by its name. */
  type Filter = string -> Verdict

  predicate IsAllowed(check: Filter, headers: map<string, string>, h: string) {
    h in headers && check(h) == Allowed
  }

  /** The clean headers come from the allowed ones of `seen`, and each of those is there. `origin` gives the header
  that a clean name comes from. */
  ghost predicate Cleaned(check: Filter, headers: map<string, string>, seen: set<string>, clean: map<string, string>,
                          origin: map<string, string>)
  {
    && origin.Keys == clean.Keys
    && (forall k | k in origin ::
          && origin[k] in seen && IsAllowed(check, headers, origin[k])
          && k == Escape(origin[k]) && clean[k] == Escape(headers[origin[k]]))
    && (forall h | h in seen && IsAllowed(check, headers, h) :: Escape(h) in origin && origin[Escape(h)] == h)
  }

  lemma CleanedOne(check: Filter, headers: map<string, string>, seen: set<string>, clean: map<string, string>,
                   origin: map<string, string>, h: string)
    requires Cleaned(check, headers, seen, clean, origin) && h !in seen
    ensures !IsAllowed(check, headers, h) ==> Cleaned(check, headers, seen + {h}, clean, origin)
    ensures IsAllowed(check, headers, h) ==>
              && Escape(h) !in clean
              && Cleaned(check, headers, seen + {h}, clean[Escape(h) := Escape(headers[h])], origin[Escape(h) := h])
  {
    forall g | g in seen
      ensures Escape(g) != Escape(h)
    {
      EscapeIsInjective(g, h);
    }
  }

  /** The loop over the headers, in any order. It panics if and only if a name is too short, and otherwise every
  allowed header is there once, under its own name and with its own value. */
  method CleanHeaders(headers: map<string, string>, check: Filter)
      returns (ok: bool, clean: map<string, string>, ghost origin: map<string, string>)
    ensures ok <==> forall h | h in headers :: check(h) != Panics
    ensures ok ==> Cleaned(check, headers, headers.Keys, clean, origin)
  {
    clean, origin := map[], map[];
    var left := headers.Keys;
    ghost var seen: set<string> := {};
    while left != {}
      invariant left <= headers.Keys && seen == headers.Keys - left
      invariant Cleaned(check, headers, seen, clean, origin)
      invariant forall h | h in seen :: check(h) != Panics
      decreases |left|
    {
      var h: string :| h in left;
      var verdict := check(h);
      if verdict == Panics {
        return false, clean, origin;
      }
      CleanedOne(check, headers, seen, clean, origin, h);
      if verdict == Allowed {
        var name := EscapeConfigString(h);
        var value := EscapeConfigString(headers[h]);
        clean, origin := clean[name := value], origin[name := h];
      }
      left, seen := left - {h}, seen + {h};
    }
    assert seen == headers.Keys;
    ok := true;
  }

  /** The headers of a rule, filtered by HeaderIsAllowed. */
  method SanitizeHeaders(headers: map<string, string>)
      returns (ok: bool, clean: map<string, string>, ghost origin: map<string, string>)
    ensures ok <==> forall h | h in headers :: HeaderIsAllowed(h) != Panics
    ensures ok ==> Cleaned(HeaderIsAllowed, headers, headers.Keys, clean, origin)
  {
    ok, clean, origin := CleanHeaders(headers, HeaderIsAllowed);
  }

  /** No header is lost or merged with another: there are as many clean headers as allowed ones, and nginx reads the
  name and the value of each back as they were given. */
  lemma NoHeaderLost(check: Filter, headers: map<string, string>, clean: map<string, string>,
                     origin: map<string, string>, h: string)
    requires Cleaned(check, headers, headers.Keys, clean, origin) && IsAllowed(check, headers, h)
    ensures Escape(h) in clean && clean[Escape(h)] == Escape(headers[h])
    ensures Decode(Escape(h) + "\"") == Some(Token(h, ""))
    ensures Decode(clean[Escape(h)] + "\"") == Some(Token(headers[h], ""))
  {
    EscapeRoundTrip(h, "");
    EscapeRoundTrip(headers[h], "");
    assert Escape(h) + "\"" + "" == Escape(h) + "\"";
    assert Escape(headers[h]) + "\"" + "" == Escape(headers[h]) + "\"";
  }

  lemma AsManyAsAllowed(check: Filter, headers: map<string, string>, seen: set<string>,
                        clean: map<string, string>, origin: map<string, string>, allowed: set<string>)
    requires Cleaned(check, headers, seen, clean, origin)
    requires forall h :: h in allowed <==> h in seen && IsAllowed(check, headers, h)
    ensures |clean| == |allowed|
  {
    assert clean.Keys == origin.Keys;
    SameSize(allowed, origin);
  }

  lemma {:induction false} SameSize(allowed: set<string>, origin: map<string, string>)
    requires forall h | h in allowed :: Escape(h) in origin && origin[Escape(h)] == h
    requires forall k | k in origin :: origin[k] in allowed && Escape(origin[k]) == k
    ensures |allowed| == |origin|
  {
    if allowed == {} {
      assert origin.Keys == {};
    } else {
      var h :| h in allowed;
      var smaller := origin - {Escape(h)};
      SameSize(allowed - {h}, smaller);
      assert origin.Keys == smaller.Keys + {Escape(h)};
    }
  }
}
