/** The textual rewrite the batch tool applies to `dict(...)` notation before
    trying JSON again: `dict(` becomes `{`, every `)` becomes `}`, the regular
    expression `,\\s*}` is replaced by `}`, `\'` becomes `'`, and every `'`
    becomes `"`. Beside it, the rewrite as evidently intended, which also
    quotes the keyword names of `dict(name=...)` so that the result is JSON. */
module Repair {
  import opened Values

  /** Python's `s.replace(pat, rep)`: left to right, non-overlapping. */
  function ReplaceAll(s: string, pat: string, rep: string): string
    requires pat != []
    decreases |s|
  {
    if |s| < |pat| then s
    else if s[..|pat|] == pat then rep + ReplaceAll(s[|pat|..], pat, rep)
    else [s[0]] + ReplaceAll(s[1..], pat, rep)
  }

  /** Replacing one character by another rewrites each position on its own. */
  lemma {:induction false} ReplaceCharPointwise(s: string, a: char, b: char)
    ensures |ReplaceAll(s, [a], [b])| == |s|
    ensures forall i :: 0 <= i < |s| ==>
              ReplaceAll(s, [a], [b])[i] == if s[i] == a then b else s[i]
  {
    if s != [] {
      ReplaceCharPointwise(s[1..], a, b);
      var r := ReplaceAll(s, [a], [b]);
      assert r == [if s[0] == a then b else s[0]] + ReplaceAll(s[1..], [a], [b]);
    }
  }

  /** A replacement that is no longer than the pattern never lengthens the text. */
  lemma {:induction false} ReplaceAllShrinks(s: string, pat: string, rep: string)
    requires pat != [] && |rep| <= |pat|
    ensures |ReplaceAll(s, pat, rep)| <= |s|
    decreases |s|
  {
    if |s| >= |pat| {
      if s[..|pat|] == pat {
        ReplaceAllShrinks(s[|pat|..], pat, rep);
      } else {
        ReplaceAllShrinks(s[1..], pat, rep);
      }
    }
  }

  /** A character that is in neither the text nor the replacement is not in the result. */
  lemma {:induction false} ReplaceAllKeepsOut(s: string, pat: string, rep: string, c: char)
    requires pat != [] && c !in s && c !in rep
    ensures c !in ReplaceAll(s, pat, rep)
    decreases |s|
  {
    if |s| >= |pat| {
      if s[..|pat|] == pat {
        ReplaceAllKeepsOut(s[|pat|..], pat, rep, c);
      } else {
        ReplaceAllKeepsOut(s[1..], pat, rep, c);
      }
    }
  }

  /** The number of `s` characters at the start of the text. */
  function LeadingEss(s: string): (n: nat)
    ensures n <= |s|
    ensures forall i :: 0 <= i < n ==> s[i] == 's'
    ensures n < |s| ==> s[n] != 's'
  {
    if s != [] && s[0] == 's' then 1 + LeadingEss(s[1..]) else 0
  }

  /** The text starts with a match of the regular expression `,\\s*}`: a comma,
      a backslash, any number of `s`, and a closing brace. The result is the
      length of that match. */
  function CommaMatch(s: string): (r: Option<nat>)
    ensures forall n: nat :: r == Some(n) <==>
              (3 <= n <= |s| && s[0] == ',' && s[1] == '\\' && s[n - 1] == '}' &&
               forall k :: 2 <= k < n - 1 ==> s[k] == 's')
  {
    if |s| >= 2 && s[0] == ',' && s[1] == '\\' && 2 + LeadingEss(s[2..]) < |s| && s[2 + LeadingEss(s[2..])] == '}'
    then
      var e := LeadingEss(s[2..]);
      assert forall k :: 2 <= k < e + 2 ==> s[k] == s[2..][k - 2];
      Some(3 + e)
    else None
  }

  /** `re.sub(r',\\s*}', '}', s)`. The raw pattern `,\\s*}` matches a literal
      backslash followed by letters `s`, not a comma followed by whitespace. */
  function SubCommaBrace(s: string): string
    decreases |s|
  {
    if s == [] then []
    else match CommaMatch(s)
      case Some(n) => "}" + SubCommaBrace(s[n..])
      case None => [s[0]] + SubCommaBrace(s[1..])
  }

  /** The substitution only ever fires on text containing a backslash: on any
      other text, such as a trailing `, }`, it changes nothing. */
  lemma {:induction false} SubCommaBraceNeedsBackslash(s: string)
    requires '\\' !in s
    ensures SubCommaBrace(s) == s
    decreases |s|
  {
    if s != [] {
      assert CommaMatch(s).None? by {
        if |s| >= 2 { assert s[1] in s; }
      }
      SubCommaBraceNeedsBackslash(s[1..]);
    }
  }

  /** A trailing comma before a brace is kept, as the pattern is written. */
  lemma TrailingCommaKept()
    ensures SubCommaBrace("[{\"a\": 1,}]") == "[{\"a\": 1,}]"
  {
    SubCommaBraceNeedsBackslash("[{\"a\": 1,}]");
  }

  /** What the pattern does match: a comma, a backslash, letters `s` and a brace. */
  lemma BackslashFormRemoved()
    ensures SubCommaBrace("[1,\\ss}") == "[1}"
  {
    assert CommaMatch(",\\ss}") == Some(5);
  }

  /** The substitution never lengthens the text and adds no character but `}`. */
  lemma {:induction false} SubCommaBraceShrinks(s: string, c: char)
    requires c != '}' && c !in s
    ensures |SubCommaBrace(s)| <= |s|
    ensures c !in SubCommaBrace(s)
    decreases |s|
  {
    if s != [] {
      match CommaMatch(s)
      case Some(n) => SubCommaBraceShrinks(s[n..], c);
      case None => SubCommaBraceShrinks(s[1..], c);
    }
  }

  /** The whole rewrite of `dict(...)` text, in the order the tool applies it. */
  function RepairDictText(s: string): string
  {
    var braces := ReplaceAll(ReplaceAll(s, "dict(", "{"), ")", "}");
    var noComma := SubCommaBrace(braces);
    ReplaceAll(ReplaceAll(noComma, "\\'", "'"), "'", "\"")
  }

  /** The rewritten text holds no `)` and no `'`, and is no longer than the input. */
  lemma RepairDictTextShape(s: string)
    ensures ')' !in RepairDictText(s) && '\'' !in RepairDictText(s)
    ensures |RepairDictText(s)| <= |s|
  {
    var t1 := ReplaceAll(s, "dict(", "{");
    var t2 := ReplaceAll(t1, ")", "}");
    var t3 := SubCommaBrace(t2);
    var t4 := ReplaceAll(t3, "\\'", "'");
    var t5 := ReplaceAll(t4, "'", "\"");
    ReplaceAllShrinks(s, "dict(", "{");
    ReplaceCharPointwise(t1, ')', '}');
    assert ')' !in t2 by {
      forall i | 0 <= i < |t2| ensures t2[i] != ')' { }
    }
    SubCommaBraceShrinks(t2, ')');
    ReplaceAllShrinks(t3, "\\'", "'");
    ReplaceAllKeepsOut(t3, "\\'", "'", ')');
    ReplaceCharPointwise(t4, '\'', '"');
    assert '\'' !in t5 && ')' !in t5 by {
      forall i | 0 <= i < |t5| ensures t5[i] != '\'' && t5[i] != ')' {
        assert t4[i] in t4;
      }
    }
  }

  /** Text in which the pattern's first character never occurs is left alone
      by `str.replace` and the text after it is rewritten on its own. */
  lemma {:induction false} ReplaceAllSkip(a: string, b: string, pat: string, rep: string)
    requires pat != [] && pat[0] !in a
    ensures ReplaceAll(a + b, pat, rep) == a + ReplaceAll(b, pat, rep)
    decreases |a|
  {
    if a != [] {
      var s := a + b;
      assert s[1..] == a[1..] + b;
      assert a[1..] + ReplaceAll(b, pat, rep) == (a + ReplaceAll(b, pat, rep))[1..];
      ReplaceAllSkip(a[1..], b, pat, rep);
      if |s| < |pat| {
        assert ReplaceAll(b, pat, rep) == b;
        assert ReplaceAll(s, pat, rep) == s;
      } else {
        assert a[0] in a && s[..|pat|][0] == a[0];
        assert ReplaceAll(s, pat, rep) == [a[0]] + ReplaceAll(a[1..] + b, pat, rep);
        assert [a[0]] + (a[1..] + ReplaceAll(b, pat, rep)) == a + ReplaceAll(b, pat, rep);
      }
    } else {
      assert a + b == b;
    }
  }

  /** An occurrence of the pattern at the start is replaced. */
  lemma ReplaceAllHit(b: string, pat: string, rep: string)
    requires pat != []
    ensures ReplaceAll(pat + b, pat, rep) == rep + ReplaceAll(b, pat, rep)
  {
    assert (pat + b)[..|pat|] == pat;
    assert (pat + b)[|pat|..] == b;
  }

  /** Text without the pattern's first character is left unchanged. */
  lemma ReplaceAllAbsent(s: string, pat: string, rep: string)
    requires pat != [] && pat[0] !in s
    ensures ReplaceAll(s, pat, rep) == s
  {
    ReplaceAllSkip(s, [], pat, rep);
    assert s + [] == s;
  }

  /** An occurrence of `pat` starts at position `i` of `s`. */
  predicate MatchesAt(s: string, i: int, pat: string)
  {
    0 <= i && i + |pat| <= |s| && s[i..i + |pat|] == pat
  }

  /** No occurrence of `pat` starts inside `a` when `b` follows it. */
  predicate NoMatchStartsIn(a: string, b: string, pat: string)
  {
    forall i :: 0 <= i < |a| ==> !MatchesAt(a + b, i, pat)
  }

  /** A prefix in which no occurrence starts is left alone by `str.replace`. */
  lemma {:induction false} ReplaceAllSkipNoMatch(a: string, b: string, pat: string, rep: string)
    requires pat != [] && NoMatchStartsIn(a, b, pat)
    ensures ReplaceAll(a + b, pat, rep) == a + ReplaceAll(b, pat, rep)
    decreases |a|
  {
    if a == [] {
      assert a + b == b;
    } else {
      var s := a + b;
      assert s[1..] == a[1..] + b;
      assert NoMatchStartsIn(a[1..], b, pat) by {
        forall i | 0 <= i < |a[1..]| ensures !MatchesAt(a[1..] + b, i, pat) {
          assert !MatchesAt(s, i + 1, pat);
          if i + |pat| <= |a[1..] + b| {
            assert (a[1..] + b)[i..i + |pat|] == s[i + 1..i + 1 + |pat|];
          }
        }
      }
      ReplaceAllSkipNoMatch(a[1..], b, pat, rep);
      if |s| < |pat| {
        assert ReplaceAll(b, pat, rep) == b;
        assert ReplaceAll(s, pat, rep) == s;
      } else {
        assert !MatchesAt(s, 0, pat);
        assert s[..|pat|] == s[0..0 + |pat|];
        assert ReplaceAll(s, pat, rep) == [a[0]] + ReplaceAll(a[1..] + b, pat, rep);
        assert [a[0]] + (a[1..] + ReplaceAll(b, pat, rep)) == a + ReplaceAll(b, pat, rep);
      }
    }
  }

  /** `dict(` cannot start inside text that has no `(` and ends with `=`. */
  lemma NoDictCallStartsIn(a: string, b: string)
    requires '(' !in a && a != [] && a[|a| - 1] == '='
    ensures NoMatchStartsIn(a, b, "dict(")
  {
    forall i | 0 <= i < |a| ensures !MatchesAt(a + b, i, "dict(") {
      if i + 5 <= |a + b| {
        if i + 4 < |a| {
          assert (a + b)[i..i + 5][4] == a[i + 4];
          assert a[i + 4] in a;
        } else {
          var j := |a| - 1 - i;
          assert (a + b)[i..i + 5][j] == '=';
        }
      }
    }
  }

  /** The form the tool's documentation gives for text input: a list holding
      one `dict(...)` call with a keyword argument and an empty `dict()`, as in
      `[dict(command="get_actors_in_level", params=dict())]`. */
  function DictCallText(key: string, value: string, emptyKey: string): string
  {
    "[dict(" + key + "=" + value + ", " + emptyKey + "=dict())]"
  }

  /** Characters that none of the pieces of a `DictCallText` may hold, so that
      each rewrite acts only where the form itself calls for it. */
  predicate PlainPiece(s: string)
  {
    '(' !in s && ')' !in s && '\\' !in s && '\'' !in s
  }

  /** The keyword arguments of the documented form, up to the inner `dict(`. */
  function KeywordArgs(key: string, value: string, emptyKey: string): string
  {
    key + "=" + value + ", " + emptyKey + "="
  }

  /** Replacing `dict(` by `{` on the documented form. */
  lemma DictCallOpen(key: string, value: string, emptyKey: string)
    requires PlainPiece(key) && PlainPiece(value) && PlainPiece(emptyKey)
    ensures ReplaceAll(DictCallText(key, value, emptyKey), "dict(", "{") ==
            "[" + ("{" + (KeywordArgs(key, value, emptyKey) + ("{" + "))]")))
  {
    var mid := KeywordArgs(key, value, emptyKey);
    assert '(' !in mid;
    assert DictCallText(key, value, emptyKey) == "[" + ("dict(" + (mid + ("dict(" + "))]")));
    ReplaceAllAbsent("))]", "dict(", "{");
    ReplaceAllHit("))]", "dict(", "{");
    NoDictCallStartsIn(mid, "dict(" + "))]");
    ReplaceAllSkipNoMatch(mid, "dict(" + "))]", "dict(", "{");
    ReplaceAllHit(mid + ("dict(" + "))]"), "dict(", "{");
    ReplaceAllSkip("[", "dict(" + (mid + ("dict(" + "))]")), "dict(", "{");
  }

  /** Replacing `)` by `}` after that. */
  lemma DictCallClose(mid: string)
    requires ')' !in mid
    ensures ReplaceAll("[" + ("{" + (mid + ("{" + "))]"))), ")", "}") == "[" + ("{" + (mid + ("{" + "}}]")))
  {
    var head := "[" + ("{" + (mid + "{"));
    assert "[" + ("{" + (mid + ("{" + "))]"))) == head + "))]";
    ReplaceAllHit(")]", ")", "}");
    ReplaceAllHit("]", ")", "}");
    ReplaceAllAbsent("]", ")", "}");
    ReplaceAllSkip(head, "))]", ")", "}");
  }

  /** The braced form written out. */
  lemma BracedJoined(key: string, value: string, emptyKey: string)
    ensures "[" + ("{" + (KeywordArgs(key, value, emptyKey) + ("{" + "}}]"))) ==
            "[{" + key + "=" + value + ", " + emptyKey + "={}}]"
  {
    var a1, a2, a3 := "[", "{", KeywordArgs(key, value, emptyKey);
    AppendAssoc(a1, a2, a3 + "{}}]");
    assert "{" + "}}]" == "{}}]";
    assert "[" + "{" == "[{";
    assert KeywordArgs(key, value, emptyKey) + "{}}]" == key + "=" + value + ", " + emptyKey + "=" + "{}}]";
    assert "=" + "{}}]" == "={}}]";
  }

  /** The two brace replacements on the documented form. */
  lemma DictCallBraces(key: string, value: string, emptyKey: string)
    requires PlainPiece(key) && PlainPiece(value) && PlainPiece(emptyKey)
    ensures ReplaceAll(ReplaceAll(DictCallText(key, value, emptyKey), "dict(", "{"), ")", "}") ==
            "[{" + key + "=" + value + ", " + emptyKey + "={}}]"
  {
    DictCallOpen(key, value, emptyKey);
    assert ')' !in KeywordArgs(key, value, emptyKey);
    DictCallClose(KeywordArgs(key, value, emptyKey));
    BracedJoined(key, value, emptyKey);
  }

  /** The documented `dict(...)` text form, rewritten as written: the keyword
      names stay bare and are followed by `=`, so the result is not JSON and
      the decoding attempt that follows fails. The documentation's own
      example is the instance `command`, `"get_actors_in_level"`, `params`. */
  lemma {:induction false} DictKeywordsStayBare(key: string, value: string, emptyKey: string)
    requires PlainPiece(key) && PlainPiece(value) && PlainPiece(emptyKey)
    ensures RepairDictText(DictCallText(key, value, emptyKey)) ==
            "[{" + key + "=" + value + ", " + emptyKey + "={}}]"
  {
    DictCallBraces(key, value, emptyKey);
    var t := "[{" + key + "=" + value + ", " + emptyKey + "={}}]";
    assert '\\' !in t && '\'' !in t;
    SubCommaBraceNeedsBackslash(t);
    ReplaceAllAbsent(t, "\\'", "'");
    ReplaceAllAbsent(t, "'", "\"");
  }

  /** A character of a Python keyword name. */
  predicate IsNameChar(c: char)
  {
    'a' <= c <= 'z' || 'A' <= c <= 'Z' || '0' <= c <= '9' || c == '_'
  }

  /** A keyword name: one or more name characters. */
  predicate IsName(s: string)
  {
    s != [] && forall i :: 0 <= i < |s| ==> IsNameChar(s[i])
  }

  /** The length of the keyword name at the start of the text. */
  function NameLength(s: string): (n: nat)
    ensures n <= |s|
    ensures forall i :: 0 <= i < n ==> IsNameChar(s[i])
    ensures n < |s| ==> !IsNameChar(s[n])
  {
    if s != [] && IsNameChar(s[0]) then 1 + NameLength(s[1..]) else 0
  }

  /** A name in double quotes: a JSON key. */
  function Quoted(w: string): string
  {
    "\"" + w + "\""
  }

  /** Where a key may start (after `{` or `,` and any spaces), a keyword name
      followed by `=` becomes the JSON key `"name": `; `atKey` says whether
      a key may start here. */
  function QuoteKeywords(s: string, atKey: bool): string
    decreases |s|
  {
    if s == [] then []
    else if atKey && s[0] == ' ' then " " + QuoteKeywords(s[1..], true)
    else if atKey && 0 < NameLength(s) < |s| && s[NameLength(s)] == '=' then
      Quoted(s[..NameLength(s)]) + ": " + QuoteKeywords(s[NameLength(s) + 1..], false)
    else [s[0]] + QuoteKeywords(s[1..], s[0] == '{' || s[0] == ',')
  }

  /** The rewrite as evidently intended: the written steps, with the keyword
      names quoted once the braces are in place. */
  function RepairDictTextIntended(s: string): string
  {
    var braces := ReplaceAll(ReplaceAll(s, "dict(", "{"), ")", "}");
    var noComma := SubCommaBrace(QuoteKeywords(braces, false));
    ReplaceAll(ReplaceAll(noComma, "\\'", "'"), "'", "\"")
  }

  /** Text without `=` holds no keyword argument and is left alone. */
  lemma {:induction false} QuoteKeywordsWithoutEquals(s: string, atKey: bool)
    requires '=' !in s
    ensures QuoteKeywords(s, atKey) == s
    decreases |s|
  {
    if s != [] {
      assert s[1..] + [] == s[1..];
      if atKey && 0 < NameLength(s) < |s| {
        assert s[NameLength(s)] in s;
      }
      QuoteKeywordsWithoutEquals(s[1..], (atKey && s[0] == ' ') || s[0] == '{' || s[0] == ',');
      assert [s[0]] + s[1..] == s;
    }
  }

  /** On text without `=` the intended rewrite is the written one: the
      correction only changes keyword arguments. */
  lemma RepairIntendedWithoutEquals(s: string)
    requires '=' !in s
    ensures RepairDictTextIntended(s) == RepairDictText(s)
  {
    var t1 := ReplaceAll(s, "dict(", "{");
    ReplaceAllKeepsOut(s, "dict(", "{", '=');
    ReplaceAllKeepsOut(t1, ")", "}", '=');
    QuoteKeywordsWithoutEquals(ReplaceAll(t1, ")", "}"), false);
  }

  /** A name followed by `=` where a key may start is quoted. */
  lemma QuoteKeywordsKey(w: string, b: string)
    requires IsName(w)
    ensures QuoteKeywords(w + ("=" + b), true) == Quoted(w) + (": " + QuoteKeywords(b, false))
  {
    var s := w + ("=" + b);
    NameLengthOf(w, "=" + b);
    assert s[0] == w[0] && IsNameChar(w[0]);
    assert s[..|w|] == w && s[|w| + 1..] == b;
    AppendAssoc(Quoted(w), ": ", QuoteKeywords(b, false));
  }

  /** The name at the start of `w + b` is `w` when `b` starts with a non-name character. */
  lemma {:induction false} NameLengthOf(w: string, b: string)
    requires forall i :: 0 <= i < |w| ==> IsNameChar(w[i])
    requires b != [] && !IsNameChar(b[0])
    ensures NameLength(w + b) == |w|
    decreases |w|
  {
    if w == [] {
      assert w + b == b;
    } else {
      assert (w + b)[1..] == w[1..] + b;
      NameLengthOf(w[1..], b);
    }
  }

  /** Any other character is copied; a `{` or `,` lets a key start after it. */
  lemma QuoteKeywordsChar(c: char, b: string, atKey: bool)
    requires !IsNameChar(c) && c != ' '
    ensures QuoteKeywords([c] + b, atKey) == [c] + QuoteKeywords(b, c == '{' || c == ',')
  {
    assert ([c] + b)[1..] == b;
  }

  /** A space keeps a key able to start. */
  lemma QuoteKeywordsSpace(b: string)
    ensures QuoteKeywords(" " + b, true) == " " + QuoteKeywords(b, true)
  {
    assert (" " + b)[1..] == b;
  }

  /** Text with no `{` and no `,` is copied when no key may start in it. */
  lemma {:induction false} QuoteKeywordsSkip(a: string, b: string)
    requires '{' !in a && ',' !in a
    ensures QuoteKeywords(a + b, false) == a + QuoteKeywords(b, false)
    decreases |a|
  {
    if a == [] {
      assert a + b == b;
    } else {
      assert a[0] in a;
      assert (a + b)[1..] == a[1..] + b;
      QuoteKeywordsSkip(a[1..], b);
      assert [a[0]] + (a[1..] + QuoteKeywords(b, false)) == a + QuoteKeywords(b, false);
    }
  }

  /** The opening `[{` of the braced form: a key may start after it. */
  lemma QuoteKeywordsOpen(b: string)
    ensures QuoteKeywords("[{" + b, false) == "[{" + QuoteKeywords(b, true)
  {
    TwoChars('[', '{', b);
    TwoChars('[', '{', QuoteKeywords(b, true));
    QuoteKeywordsChar('{', b, false);
    QuoteKeywordsChar('[', [ '{' ] + b, false);
  }

  /** A `, ` separator: a key may start after it. */
  lemma QuoteKeywordsComma(b: string)
    ensures QuoteKeywords(", " + b, false) == ", " + QuoteKeywords(b, true)
  {
    TwoChars(',', ' ', b);
    TwoChars(',', ' ', QuoteKeywords(b, true));
    QuoteKeywordsChar(',', " " + b, false);
    QuoteKeywordsSpace(b);
  }

  /** A two-character prefix is its first character, then its second. */
  lemma TwoChars(c: char, d: char, x: string)
    ensures [c, d] + x == [c] + ([d] + x)
  {
  }

  /** The closing `{}}]` of the braced form is copied. */
  lemma QuoteKeywordsClose()
    ensures QuoteKeywords("{}}]", false) == "{}}]"
  {
    assert "{}}]" == [ '{' ] + ([ '}' ] + "}]");
    QuoteKeywordsSkip("}]", []);
    assert "}]" + [] == "}]";
    QuoteKeywordsChar('}', "}]", true);
    QuoteKeywordsChar('{', [ '}' ] + "}]", false);
  }

  /** Quoting the keywords of the braced documented form. */
  lemma DictCallKeysQuoted(key: string, value: string, emptyKey: string)
    requires IsName(key) && IsName(emptyKey) && '{' !in value && ',' !in value
    ensures QuoteKeywords("[{" + key + "=" + value + ", " + emptyKey + "={}}]", false) ==
            "[{" + Quoted(key) + ": " + value + ", " + Quoted(emptyKey) + ": {}}]"
  {
    var t6 := emptyKey + ("=" + "{}}]");
    var t3 := value + (", " + t6);
    BracedNested(key, value, emptyKey);
    QuoteKeywordsClose();
    QuoteKeywordsKey(emptyKey, "{}}]");
    QuoteKeywordsComma(t6);
    QuoteKeywordsSkip(value, ", " + t6);
    QuoteKeywordsKey(key, t3);
    QuoteKeywordsOpen(key + ("=" + t3));
    assert ": " + "{}}]" == ": {}}]" by { CloseJoined(); }
    var a1, a2, a3, a4, a5, a6, a7 := "[{", Quoted(key), ": ", value, ", ", Quoted(emptyKey), ": {}}]";
    AppendAssoc(a1, a2, a3 + (a4 + (a5 + (a6 + a7))));
    AppendAssoc(a1 + a2, a3, a4 + (a5 + (a6 + a7)));
    AppendAssoc(a1 + a2 + a3, a4, a5 + (a6 + a7));
    AppendAssoc(a1 + a2 + a3 + a4, a5, a6 + a7);
    AppendAssoc(a1 + a2 + a3 + a4 + a5, a6, a7);
  }

  /** The braced form, nested the way the quoting proceeds. */
  lemma BracedNested(key: string, value: string, emptyKey: string)
    ensures "[{" + key + "=" + value + ", " + emptyKey + "={}}]" ==
            "[{" + (key + ("=" + (value + (", " + (emptyKey + ("=" + "{}}]"))))))
  {
    assert "=" + "{}}]" == "={}}]";
  }

  /** The closing text of a quoted form, joined. */
  lemma CloseJoined()
    ensures ": " + "{}}]" == ": {}}]"
  {
  }

  /** Concatenation regroups. */
  lemma AppendAssoc(a: string, b: string, c: string)
    ensures a + (b + c) == a + b + c
  {
  }

  /** The intended rewrite turns the documented form into JSON text: every
      keyword name becomes a quoted key. */
  lemma DictKeywordsQuoted(key: string, value: string, emptyKey: string)
    requires PlainPiece(key) && PlainPiece(value) && PlainPiece(emptyKey)
    requires IsName(key) && IsName(emptyKey) && '{' !in value && ',' !in value
    ensures RepairDictTextIntended(DictCallText(key, value, emptyKey)) ==
            "[{" + Quoted(key) + ": " + value + ", " + Quoted(emptyKey) + ": {}}]"
  {
    DictCallBraces(key, value, emptyKey);
    DictCallKeysQuoted(key, value, emptyKey);
    var r := "[{" + Quoted(key) + ": " + value + ", " + Quoted(emptyKey) + ": {}}]";
    assert '\\' !in r && '\'' !in r;
    SubCommaBraceNeedsBackslash(r);
    ReplaceAllAbsent(r, "\\'", "'");
    ReplaceAllAbsent(r, "'", "\"");
  }
}
