/**
 * The string operations the backend applies to request fields: Python's
 * str.strip() and str.lower(), prefix tests, and the binary collation SQLite
 * uses to order TEXT columns.
 */
module Text {

  /** The characters for which Python's str.isspace() holds. */
  predicate IsSpace(c: char) {
    || c == ' ' || '\t' <= c <= '\r'                  // tab, line feed, vertical tab, form feed, carriage return
    || '\U{001C}' <= c <= '\U{001F}'                  // file, group, record and unit separators
    || c == '\U{0085}' || c == '\U{00A0}' || c == '\U{1680}'
    || '\U{2000}' <= c <= '\U{200A}'
    || c == '\U{2028}' || c == '\U{2029}' || c == '\U{202F}' || c == '\U{205F}' || c == '\U{3000}'
  }

  /** Drops leading whitespace. */
  function TrimStart(s: string): string {
    if s != [] && IsSpace(s[0]) then TrimStart(s[1..]) else s
  }

  /** TrimStart keeps a suffix, cuts only whitespace, and stops at the first other character. */
  lemma {:induction false} TrimStartSpec(s: string)
    ensures var r := TrimStart(s);
            && |r| <= |s| && r == s[|s| - |r|..]
            && (forall i :: 0 <= i < |s| - |r| ==> IsSpace(s[i]))
            && (r == [] || !IsSpace(r[0]))
  {
    if s != [] && IsSpace(s[0]) {
      var t := s[1..];
      TrimStartSpec(t);
      var r := TrimStart(t);
      assert TrimStart(s) == r;
      assert t[|t| - |r|..] == s[|s| - |r|..];
      forall i | 0 <= i < |s| - |r|
        ensures IsSpace(s[i])
      {
        if i > 0 {
          assert s[i] == t[i - 1];
        }
      }
    }
  }

  /** Drops trailing whitespace. */
  function TrimEnd(s: string): string {
    if s != [] && IsSpace(s[|s| - 1]) then TrimEnd(s[..|s| - 1]) else s
  }

  /** TrimEnd keeps a prefix, cuts only whitespace, and stops at the last other character. */
  lemma {:induction false} TrimEndSpec(s: string)
    ensures var r := TrimEnd(s);
            && |r| <= |s| && r == s[..|r|]
            && (forall i :: |r| <= i < |s| ==> IsSpace(s[i]))
            && (r == [] || !IsSpace(r[|r| - 1]))
  {
    if s != [] && IsSpace(s[|s| - 1]) {
      TrimEndSpec(s[..|s| - 1]);
    }
  }

  /** Python's str.strip() with no argument. */
  function Strip(s: string): string {
    TrimEnd(TrimStart(s))
  }

  /**
   * Strip gives the longest infix of s that neither starts nor ends with
   * whitespace, everything cut off being whitespace.
   */
  lemma StripSpec(s: string)
    ensures var r := Strip(s);
            && (r == [] || (!IsSpace(r[0]) && !IsSpace(r[|r| - 1])))
            && var i := |s| - |TrimStart(s)|;
               && 0 <= i && i + |r| <= |s| && r == s[i..i + |r|]
               && (forall k :: 0 <= k < i ==> IsSpace(s[k]))
               && (forall k :: i + |r| <= k < |s| ==> IsSpace(s[k]))
  {
    var t := TrimStart(s);
    TrimStartSpec(s);
    TrimEndSpec(t);
    var r := TrimEnd(t);
    assert r == s[|s| - |t|..][..|r|];
  }

  /** Strip gives "" exactly for strings made only of whitespace. */
  lemma StripEmptyIffBlank(s: string)
    ensures Strip(s) == [] <==> forall k :: 0 <= k < |s| ==> IsSpace(s[k])
  {
    StripSpec(s);
  }

  /** Stripping twice is stripping once. */
  lemma StripIdempotent(s: string)
    ensures Strip(Strip(s)) == Strip(s)
  {
    var r := Strip(s);
    var t := TrimStart(r);
    StripSpec(s);
    if r != [] {
      assert t == r;
      assert TrimEnd(r) == r;
    } else {
      assert TrimEnd(t) == [];
    }
  }

  /** ASCII case folding of one character; every other character is kept. */
  function LowerChar(c: char): (d: char)
    ensures !('A' <= d <= 'Z')
    ensures c == d || ('A' <= c <= 'Z' && d as int - c as int == 32)
  {
    if 'A' <= c <= 'Z' then (c as int + 32) as char else c
  }

  /** str.lower(), restricted to ASCII letters (see README for why this is exact here). */
  function Lower(s: string): (r: string)
    ensures |r| == |s|
    ensures forall i :: 0 <= i < |s| ==> r[i] == LowerChar(s[i])
  {
    if s == [] then [] else [LowerChar(s[0])] + Lower(s[1..])
  }

  /** Lower-casing leaves no upper-case ASCII letter, so it is idempotent. */
  lemma LowerIdempotent(s: string)
    ensures Lower(Lower(s)) == Lower(s)
  {
    var r := Lower(s);
    assert forall i :: 0 <= i < |r| ==> LowerChar(r[i]) == r[i];
  }

  predicate StartsWith(s: string, prefix: string) {
    |prefix| <= |s| && s[..|prefix|] == prefix
  }

  /**
   * SQLite's BINARY collation on TEXT: byte-wise comparison of the UTF-8
   * encodings, which orders strings lexicographically by code point.
   */
  predicate LexLe(a: string, b: string) {
    a == [] || (b != [] && (a[0] < b[0] || (a[0] == b[0] && LexLe(a[1..], b[1..]))))
  }

  lemma {:induction false} LexLeTotal(a: string, b: string)
    ensures LexLe(a, b) || LexLe(b, a)
  {
    if a != [] && b != [] && a[0] == b[0] {
      LexLeTotal(a[1..], b[1..]);
    }
  }

  lemma {:induction false} LexLeAntisymmetric(a: string, b: string)
    requires LexLe(a, b) && LexLe(b, a)
    ensures a == b
  {
    if a != [] && b != [] {
      LexLeAntisymmetric(a[1..], b[1..]);
      assert a == [a[0]] + a[1..];
      assert b == [b[0]] + b[1..];
    }
  }

  lemma {:induction false} LexLeTransitive(a: string, b: string, c: string)
    requires LexLe(a, b) && LexLe(b, c)
    ensures LexLe(a, c)
  {
    if a != [] && b != [] && c != [] && a[0] == b[0] == c[0] {
      LexLeTransitive(a[1..], b[1..], c[1..]);
    }
  }
}
