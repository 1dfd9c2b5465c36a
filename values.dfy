/** Python data as the command pipeline sees it: JSON-shaped values, Python
    truthiness, the few `str` operations the pipeline uses, and the two text
    parsers (`json.loads`, `ast.literal_eval`) it relies on. */
module Values {

  datatype Option<+T> = None | Some(value: T)

  datatype Result<+T, +E> = Ok(value: T) | Err(error: E)

  /** A Python value of the kinds that reach the pipeline: `None`, `bool`,
      a number, `str`, `list` and `dict` with string keys. */
  datatype Value =
    | Null
    | Bool(b: bool)
    | Num(n: real)
    | Str(s: string)
    | List(items: seq<Value>)
    | Map(entries: map<string, Value>)

  /** The empty `dict`, `{}`. */
  const EmptyMap: Value := Map(map[])

  /** Python truthiness: `None`, `False`, zero and empty containers are falsy. */
  predicate Truthy(v: Value)
  {
    match v
    case Null => false
    case Bool(b) => b
    case Num(n) => n != 0.0
    case Str(s) => s != ""
    case List(xs) => xs != []
    case Map(m) => m != map[]
  }

  /** The text parsers the pipeline calls, as black boxes: `json.loads` and
      `ast.literal_eval`, each answering `None` where Python raises. */
  datatype Parsers = Parsers(json: string -> Option<Value>, literal: string -> Option<Value>)

  /** `str.isspace` for one character (the code points Python treats as whitespace). */
  predicate IsSpace(c: char)
  {
    || 9 <= c as int <= 13
    || 28 <= c as int <= 32
    || c as int == 0x85 || c as int == 0xA0 || c as int == 0x1680
    || 0x2000 <= c as int <= 0x200A
    || c as int == 0x2028 || c as int == 0x2029 || c as int == 0x202F
    || c as int == 0x205F || c as int == 0x3000
  }

  /** Leading whitespace removed, as `str.lstrip()`. */
  function TrimStart(s: string): (r: string)
    ensures |r| <= |s| && r == s[|s| - |r|..]
    ensures forall i :: 0 <= i < |s| - |r| ==> IsSpace(s[i])
    ensures r == [] || !IsSpace(r[0])
  {
    if s != [] && IsSpace(s[0]) then TrimStart(s[1..]) else s
  }

  /** Trailing whitespace removed, as `str.rstrip()`. */
  function TrimEnd(s: string): (r: string)
    ensures |r| <= |s| && r == s[..|r|]
    ensures forall i :: |r| <= i < |s| ==> IsSpace(s[i])
    ensures r == [] || !IsSpace(r[|r| - 1])
  {
    if s != [] && IsSpace(s[|s| - 1]) then TrimEnd(s[..|s| - 1]) else s
  }

  /** `str.strip()`. */
  function Strip(s: string): string
  {
    TrimEnd(TrimStart(s))
  }

  /** A string strips to nothing exactly when every character is whitespace. */
  lemma StripEmptyIffBlank(s: string)
    ensures Strip(s) == [] <==> forall i :: 0 <= i < |s| ==> IsSpace(s[i])
  {
    var t := TrimStart(s);
    assert t == [] || t[0] == s[|s| - |t|];
  }

  predicate StartsWith(s: string, prefix: string)
  {
    |prefix| <= |s| && s[..|prefix|] == prefix
  }

  predicate EndsWith(s: string, suffix: string)
  {
    |suffix| <= |s| && s[|s| - |suffix|..] == suffix
  }

  /** Python's `sub in s`. */
  predicate Contains(s: string, sub: string)
    decreases |s|
  {
    StartsWith(s, sub) || (s != [] && Contains(s[1..], sub))
  }

  /** `sub` occurs in `s` starting at position `i`. */
  predicate OccursAt(s: string, sub: string, i: int)
  {
    0 <= i && i + |sub| <= |s| && s[i..i + |sub|] == sub
  }

  /** `Contains` is the substring relation: some position of `s` starts a copy of `sub`. */
  lemma {:induction false} ContainsIffOccurs(s: string, sub: string)
    ensures Contains(s, sub) <==> exists i :: OccursAt(s, sub, i)
    decreases |s|
  {
    if s != [] {
      ContainsIffOccurs(s[1..], sub);
      if exists i :: OccursAt(s, sub, i) {
        var i :| OccursAt(s, sub, i);
        if i > 0 {
          assert s[1..][i - 1..i - 1 + |sub|] == sub;
          assert OccursAt(s[1..], sub, i - 1);
        }
      }
      if Contains(s[1..], sub) {
        var i :| OccursAt(s[1..], sub, i);
        assert s[i + 1..i + 1 + |sub|] == sub;
        assert OccursAt(s, sub, i + 1);
      }
    }
    if StartsWith(s, sub) {
      assert OccursAt(s, sub, 0);
    }
  }
}
