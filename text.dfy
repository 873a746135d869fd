/**
 * The string operations the schemas and routes rely on: JavaScript's
 * String.prototype.trim, an ASCII String.prototype.toUpperCase, and the
 * code-point order the document store sorts strings by.
 */
module Text {

  /** The characters String.prototype.trim strips: WhiteSpace and LineTerminator. */
  predicate IsSpace(c: char) {
    || c == '\t' || c == '\n' || c == '\U{000B}' || c == '\U{000C}' || c == '\r'
    || c == ' ' || c == '\U{00A0}' || c == '\U{1680}'
    || ('\U{2000}' <= c <= '\U{200A}')
    || c == '\U{2028}' || c == '\U{2029}' || c == '\U{202F}' || c == '\U{205F}'
    || c == '\U{3000}' || c == '\U{FEFF}'
  }

  /** Drops leading white space. */
  function TrimStart(s: string): (r: string)
    ensures |r| <= |s|
    ensures |r| > 0 ==> !IsSpace(r[0])
  {
    if |s| > 0 && IsSpace(s[0]) then TrimStart(s[1..]) else s
  }

  /** Drops trailing white space. */
  function TrimEnd(s: string): (r: string)
    ensures |r| <= |s|
    ensures |r| > 0 ==> !IsSpace(r[|r| - 1])
  {
    if |s| > 0 && IsSpace(s[|s| - 1]) then TrimEnd(s[..|s| - 1]) else s
  }

  lemma {:induction false} TrimStartIsSuffix(s: string)
    ensures TrimStart(s) == s[|s| - |TrimStart(s)|..]
  {
    if |s| > 0 && IsSpace(s[0]) {
      TrimStartIsSuffix(s[1..]);
    }
  }

  lemma {:induction false} TrimEndIsPrefix(s: string)
    ensures TrimEnd(s) == s[..|TrimEnd(s)|]
  {
    if |s| > 0 && IsSpace(s[|s| - 1]) {
      TrimEndIsPrefix(s[..|s| - 1]);
    }
  }

  /** Everything TrimStart drops is white space. */
  lemma {:induction false} TrimStartStripsSpace(s: string)
    ensures forall j :: 0 <= j < |s| - |TrimStart(s)| ==> IsSpace(s[j])
  {
    if |s| > 0 && IsSpace(s[0]) {
      TrimStartStripsSpace(s[1..]);
      forall j | 1 <= j < |s| - |TrimStart(s)| ensures IsSpace(s[j]) {
        assert s[1..][j - 1] == s[j];
      }
    }
  }

  /** Everything TrimEnd drops is white space. */
  lemma {:induction false} TrimEndStripsSpace(s: string)
    ensures forall j :: |TrimEnd(s)| <= j < |s| ==> IsSpace(s[j])
  {
    if |s| > 0 && IsSpace(s[|s| - 1]) {
      TrimEndStripsSpace(s[..|s| - 1]);
      forall j | |TrimEnd(s)| <= j < |s| - 1 ensures IsSpace(s[j]) {
        assert s[..|s| - 1][j] == s[j];
      }
    }
  }

  function Trim(s: string): string {
    TrimEnd(TrimStart(s))
  }

  /** A prefix of a suffix is a slice. */
  lemma PrefixOfSuffix(s: string, u: string, r: string)
    requires |u| <= |s| && u == s[|s| - |u|..]
    requires |r| <= |u| && r == u[..|r|]
    ensures var i := |s| - |u|; i + |r| <= |s| && r == s[i..i + |r|]
  {
  }

  /** What Trim drops before and after the piece it keeps is white space. */
  lemma TrimDropsSpace(s: string)
    ensures forall j :: 0 <= j < |s| - |TrimStart(s)| ==> IsSpace(s[j])
    ensures forall j :: |s| - |TrimStart(s)| + |Trim(s)| <= j < |s| ==> IsSpace(s[j])
  {
    var u := TrimStart(s);
    var i := |s| - |u|;
    TrimStartIsSuffix(s);
    TrimStartStripsSpace(s);
    TrimEndStripsSpace(u);
    forall j | i + |Trim(s)| <= j < |s| ensures IsSpace(s[j]) {
      assert s[j] == u[j - i];
    }
  }

  /**
   * Trim returns a contiguous piece of its input with no white space at
   * either end, and what it drops before and after that piece is white space.
   */
  lemma TrimIsSlice(s: string)
    ensures var r, i := Trim(s), |s| - |TrimStart(s)|;
      i + |r| <= |s| && r == s[i..i + |r|]
    ensures var r := Trim(s);
      |r| > 0 ==> !IsSpace(r[0]) && !IsSpace(r[|r| - 1])
    ensures forall j :: 0 <= j < |s| - |TrimStart(s)| ==> IsSpace(s[j])
    ensures forall j :: |s| - |TrimStart(s)| + |Trim(s)| <= j < |s| ==> IsSpace(s[j])
  {
    var u := TrimStart(s);
    var r := TrimEnd(u);
    assert |s| - |u| + |r| <= |s| && r == s[|s| - |u|..|s| - |u| + |r|] by {
      TrimStartIsSuffix(s);
      TrimEndIsPrefix(u);
      PrefixOfSuffix(s, u, r);
    }
    if |r| > 0 {
      assert r[0] == u[0] by {
        TrimEndIsPrefix(u);
      }
    }
    TrimDropsSpace(s);
  }

  /** Every character of Trim(s) is a character of s. */
  lemma TrimKeepsCharacters(s: string)
    ensures forall c :: c in Trim(s) ==> c in s
  {
    TrimIsSlice(s);
    var r, i := Trim(s), |s| - |TrimStart(s)|;
    forall c | c in r ensures c in s {
      var k :| 0 <= k < |r| && r[k] == c;
      assert s[i + k] == c;
    }
  }

  /** A string with no white space at either end is its own trim. */
  lemma TrimOfTrimmed(t: string)
    requires |t| > 0 ==> !IsSpace(t[0]) && !IsSpace(t[|t| - 1])
    ensures Trim(t) == t
  {
    assert TrimStart(t) == t;
  }

  lemma TrimIdempotent(s: string)
    ensures Trim(Trim(s)) == Trim(s)
  {
    TrimIsSlice(s);
    TrimOfTrimmed(Trim(s));
  }

  /** ASCII upper case; every other character is left as it is. */
  function UpperChar(c: char): char {
    if 'a' <= c <= 'z' then (c as int - 32) as char else c
  }

  function Upper(s: string): (r: string)
    ensures |r| == |s|
  {
    seq(|s|, i requires 0 <= i < |s| => UpperChar(s[i]))
  }

  /** A string already in upper case is left alone by Upper. */
  lemma UpperOfUpper(t: string)
    requires forall i :: 0 <= i < |t| ==> UpperChar(t[i]) == t[i]
    ensures Upper(t) == t
  {
  }

  /** Every character of Upper(s) is a fixed point of UpperChar. */
  lemma UpperIsUpper(s: string)
    ensures forall i :: 0 <= i < |s| ==> UpperChar(Upper(s)[i]) == Upper(s)[i]
  {
  }

  /**
   * Code-point order on strings, the order the document store sorts string
   * fields by: a proper prefix comes first, otherwise the first differing
   * character decides.
   */
  predicate StrLe(a: string, b: string) {
    |a| == 0 || (|b| > 0 && (a[0] < b[0] || (a[0] == b[0] && StrLe(a[1..], b[1..]))))
  }

  lemma {:induction false} StrLeTotal(a: string, b: string)
    ensures StrLe(a, b) || StrLe(b, a)
  {
    if |a| > 0 && |b| > 0 && a[0] == b[0] {
      StrLeTotal(a[1..], b[1..]);
    }
  }

  lemma {:induction false} StrLeAntisymmetric(a: string, b: string)
    requires StrLe(a, b) && StrLe(b, a)
    ensures a == b
  {
    if |a| > 0 && |b| > 0 {
      StrLeAntisymmetric(a[1..], b[1..]);
      assert a == [a[0]] + a[1..];
      assert b == [b[0]] + b[1..];
    }
  }

  lemma {:induction false} StrLeTransitive(a: string, b: string, c: string)
    requires StrLe(a, b) && StrLe(b, c)
    ensures StrLe(a, c)
  {
    if |a| > 0 && a[0] == b[0] && b[0] == c[0] {
      StrLeTransitive(a[1..], b[1..], c[1..]);
    }
  }
}
