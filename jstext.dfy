/** The string operations of ECMAScript the parser and the upload handler
    use: `trim`, `includes` and `Array.prototype.join`. */
module JsText {

  /** The characters `String.prototype.trim` removes: the WhiteSpace and
      LineTerminator code points of ECMAScript. */
  predicate IsWhitespace(c: char) {
    || c == '\t' || c == '\n' || c == '\U{B}' || c == '\U{C}' || c == '\r'
    || c == ' ' || c == '\U{A0}' || c == '\U{1680}'
    || ('\U{2000}' <= c <= '\U{200A}')
    || c == '\U{2028}' || c == '\U{2029}' || c == '\U{202F}' || c == '\U{205F}'
    || c == '\U{3000}' || c == '\U{FEFF}'
  }

  predicate AllWhitespace(s: string) {
    forall i :: 0 <= i < |s| ==> IsWhitespace(s[i])
  }

  function TrimStart(s: string): string {
    if s != [] && IsWhitespace(s[0]) then TrimStart(s[1..]) else s
  }

  function TrimEnd(s: string): string {
    if s != [] && IsWhitespace(s[|s| - 1]) then TrimEnd(s[..|s| - 1]) else s
  }

  /** `s.trim()` */
  function Trim(s: string): string {
    TrimEnd(TrimStart(s))
  }

  lemma {:induction false} TrimStartShape(s: string)
    ensures TrimStart(s) == "" <==> AllWhitespace(s)
    ensures TrimStart(s) != "" ==> !IsWhitespace(TrimStart(s)[0])
  {
    if s != [] && IsWhitespace(s[0]) {
      TrimStartShape(s[1..]);
      assert AllWhitespace(s) <==> AllWhitespace(s[1..]) by {
        if AllWhitespace(s[1..]) {
          forall i | 0 <= i < |s| ensures IsWhitespace(s[i]) {
            if i > 0 { assert s[i] == s[1..][i - 1]; }
          }
        }
      }
    }
  }

  lemma {:induction false} TrimEndEmpty(s: string)
    ensures TrimEnd(s) == "" <==> AllWhitespace(s)
  {
    if s != [] && IsWhitespace(s[|s| - 1]) {
      var t := s[..|s| - 1];
      TrimEndEmpty(t);
      assert AllWhitespace(s) <==> AllWhitespace(t) by {
        if AllWhitespace(t) {
          forall i | 0 <= i < |s| ensures IsWhitespace(s[i]) {
            if i < |s| - 1 { assert s[i] == t[i]; }
          }
        }
      }
    } else if s != [] {
      assert !IsWhitespace(s[|s| - 1]);
    }
  }

  /** `s.trim() === ""` holds exactly for text made only of whitespace. */
  lemma TrimEmptyIffBlank(s: string)
    ensures Trim(s) == "" <==> AllWhitespace(s)
  {
    TrimStartShape(s);
    var t := TrimStart(s);
    TrimEndEmpty(t);
    if t != "" {
      assert !AllWhitespace(t) by { assert !IsWhitespace(t[0]); }
    }
  }

  /** `pattern` occurs in `s` starting at index `i`. */
  predicate OccursAt(s: string, pattern: string, i: nat) {
    i + |pattern| <= |s| && s[i..i + |pattern|] == pattern
  }

  /** `s.includes(pattern)` */
  function Includes(s: string, pattern: string): bool
    decreases |s|
  {
    if |s| < |pattern| then false
    else s[..|pattern|] == pattern || (s != [] && Includes(s[1..], pattern))
  }

  /** `includes` is true exactly when the pattern occurs at some index. */
  lemma {:induction false} IncludesIffOccurs(s: string, pattern: string)
    ensures Includes(s, pattern) <==> exists i: nat :: OccursAt(s, pattern, i)
    decreases |s|
  {
    if |s| < |pattern| {
      forall i: nat ensures !OccursAt(s, pattern, i) { }
    } else if s[..|pattern|] == pattern {
      assert OccursAt(s, pattern, 0);
    } else {
      IncludesIffOccurs(s[1..], pattern);
      if Includes(s[1..], pattern) {
        var i: nat :| OccursAt(s[1..], pattern, i);
        assert s[i + 1..i + 1 + |pattern|] == s[1..][i..i + |pattern|];
        assert OccursAt(s, pattern, i + 1);
      } else {
        forall i: nat | OccursAt(s, pattern, i) ensures false {
          if i > 0 {
            assert s[1..][i - 1..i - 1 + |pattern|] == s[i..i + |pattern|];
            assert OccursAt(s[1..], pattern, i - 1);
          }
        }
      }
    }
  }

  /** An occurrence inside `t` is still one inside `a + t + b`. */
  lemma IncludesWithin(a: string, t: string, b: string, pattern: string)
    requires Includes(t, pattern)
    ensures Includes(a + t + b, pattern)
  {
    IncludesIffOccurs(t, pattern);
    var i: nat :| OccursAt(t, pattern, i);
    var s := a + t + b;
    assert s[|a| + i..|a| + i + |pattern|] == t[i..i + |pattern|];
    assert OccursAt(s, pattern, |a| + i);
    IncludesIffOccurs(s, pattern);
  }

  lemma IncludesItself(s: string)
    ensures Includes(s, s)
  {
    assert OccursAt(s, s, 0);
    IncludesIffOccurs(s, s);
  }

  /** Column `k` of the pattern disagrees with the text placed at `i`. */
  predicate ColumnDiffers(s: string, pattern: string, k: nat, i: nat)
    requires k < |pattern|
  {
    i + |pattern| <= |s| ==> s[i + k] != pattern[k]
  }

  /** The pattern is absent when, at every candidate index, one fixed
      column of it disagrees with the text. */
  lemma AbsentWhenColumnDiffers(s: string, pattern: string, k: nat)
    requires k < |pattern|
    requires forall i: nat :: ColumnDiffers(s, pattern, k, i)
    ensures !Includes(s, pattern)
  {
    forall i: nat ensures !OccursAt(s, pattern, i) {
      if i + |pattern| <= |s| {
        assert ColumnDiffers(s, pattern, k, i);
        assert s[i..i + |pattern|][k] != pattern[k];
      }
    }
    IncludesIffOccurs(s, pattern);
  }

  /** `parts.join(sep)` */
  function Join(parts: seq<string>, sep: string): string {
    if |parts| == 0 then ""
    else if |parts| == 1 then parts[0]
    else parts[0] + sep + Join(parts[1..], sep)
  }

  /** Every joined part can be found in the joined text. */
  lemma {:induction false} JoinIncludesEachPart(parts: seq<string>, sep: string, k: nat)
    requires k < |parts|
    ensures Includes(Join(parts, sep), parts[k])
  {
    IncludesItself(parts[k]);
    if |parts| == 1 {
    } else if k == 0 {
      IncludesWithin("", parts[0], sep + Join(parts[1..], sep), parts[0]);
      assert "" + parts[0] + (sep + Join(parts[1..], sep)) == Join(parts, sep);
    } else {
      JoinIncludesEachPart(parts[1..], sep, k - 1);
      IncludesWithin(parts[0] + sep, Join(parts[1..], sep), "", parts[k]);
      assert parts[0] + sep + Join(parts[1..], sep) + "" == Join(parts, sep);
    }
  }
}
