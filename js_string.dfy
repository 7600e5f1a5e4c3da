/**
 `String.prototype.trim`: removes the leading and trailing code points that ECMAScript
 classes as WhiteSpace or LineTerminator.
 */
module JsString {

  /** The WhiteSpace (TAB, VT, FF, ZWNBSP and every space separator) and LineTerminator (LF, CR, LS, PS) code points. */
  predicate IsTrimmable(c: char) {
    c == '\t' || c == '\n' || c == '\U{000B}' || c == '\U{000C}' || c == '\r' || c == ' '
    || c == '\U{00A0}' || c == '\U{1680}' || ('\U{2000}' <= c <= '\U{200A}')
    || c == '\U{2028}' || c == '\U{2029}' || c == '\U{202F}' || c == '\U{205F}'
    || c == '\U{3000}' || c == '\U{FEFF}'
  }

  /** Every code point of `s` is trimmable; in particular the empty string is blank. */
  predicate Blank(s: string) {
    forall i :: 0 <= i < |s| ==> IsTrimmable(s[i])
  }

  /** A concatenation is blank exactly when both parts are. */
  lemma BlankAppend(a: string, b: string)
    ensures Blank(a + b) <==> Blank(a) && Blank(b)
  {
    if Blank(a + b) {
      forall i | 0 <= i < |a| ensures IsTrimmable(a[i]) {
        assert a[i] == (a + b)[i];
      }
      forall i | 0 <= i < |b| ensures IsTrimmable(b[i]) {
        assert b[i] == (a + b)[|a| + i];
      }
    }
    if Blank(a) && Blank(b) {
      forall i | 0 <= i < |a + b| ensures IsTrimmable((a + b)[i]) {
        if i >= |a| {
          assert (a + b)[i] == b[i - |a|];
        }
      }
    }
  }

  /** `s` with its leading trimmable code points removed. */
  function TrimStart(s: string): string
    decreases |s|
  {
    if s != [] && IsTrimmable(s[0]) then TrimStart(s[1..]) else s
  }

  /**
   `TrimStart` keeps a suffix of `s` that is empty or starts with a code point that is not
   trimmable, and what it removes is blank.
   */
  lemma {:induction false} TrimStartShape(s: string)
    ensures var r := TrimStart(s);
      && |r| <= |s| && r == s[|s| - |r|..]
      && (r == [] || !IsTrimmable(r[0]))
      && Blank(s[..|s| - |r|])
    decreases |s|
  {
    if s != [] && IsTrimmable(s[0]) {
      var r := TrimStart(s[1..]);
      TrimStartShape(s[1..]);
      assert TrimStart(s) == r;
      assert s[1..][|s| - 1 - |r|..] == s[|s| - |r|..];
      var n := |s| - |r|;
      forall i | 0 <= i < n ensures IsTrimmable(s[..n][i]) {
        if i > 0 {
          assert s[..n][i] == s[1..][..n - 1][i - 1];
        }
      }
    } else {
      assert TrimStart(s) == s;
      assert s[..0] == [];
    }
  }

  /** `s` with its trailing trimmable code points removed. */
  function TrimEnd(s: string): string
    decreases |s|
  {
    if s != [] && IsTrimmable(s[|s| - 1]) then TrimEnd(s[..|s| - 1]) else s
  }

  /**
   `TrimEnd` keeps a prefix of `s` that is empty or ends with a code point that is not
   trimmable, and what it removes is blank.
   */
  lemma {:induction false} TrimEndShape(s: string)
    ensures var r := TrimEnd(s);
      && |r| <= |s| && r == s[..|r|]
      && (r == [] || !IsTrimmable(r[|r| - 1]))
      && Blank(s[|r|..])
    decreases |s|
  {
    if s != [] && IsTrimmable(s[|s| - 1]) {
      var r := TrimEnd(s[..|s| - 1]);
      TrimEndShape(s[..|s| - 1]);
      assert TrimEnd(s) == r;
      assert s[..|s| - 1][..|r|] == s[..|r|];
      assert s[|r|..] == s[..|s| - 1][|r|..] + [s[|s| - 1]];
      BlankAppend(s[..|s| - 1][|r|..], [s[|s| - 1]]);
    } else {
      assert TrimEnd(s) == s;
      assert s[|s|..] == [];
    }
  }

  /** `s.trim()`. */
  function Trim(s: string): string {
    TrimEnd(TrimStart(s))
  }

  /** `s.trim()` is no longer than `s`, and neither its first nor its last code point is trimmable. */
  lemma TrimEnds(s: string)
    ensures var r := Trim(s);
      |r| <= |s| && (r == [] || (!IsTrimmable(r[0]) && !IsTrimmable(r[|r| - 1])))
  {
    var t := TrimStart(s);
    var r := TrimEnd(t);
    assert Trim(s) == r;
    TrimStartShape(s);
    TrimEndShape(t);
    if r != [] {
      assert r[0] == t[0];
    }
  }

  /**
   The result of `s.trim()` is the infix of `s` left once a blank prefix and a blank
   suffix are cut off.
   */
  lemma TrimIsInfix(s: string)
    ensures var r := Trim(s);
      exists k :: 0 <= k <= |s| - |r| && r == s[k..k + |r|] && Blank(s[..k]) && Blank(s[k + |r|..])
  {
    var t := TrimStart(s);
    var r := TrimEnd(t);
    var k := |s| - |t|;
    assert Trim(s) == r;
    TrimStartShape(s);
    TrimEndShape(t);
    PrefixOfSuffix(s, k, t, r);
    assert Blank(s[..k]) && Blank(s[k + |r|..]);
  }

  /** `s.trim()` is empty exactly when `s` is blank. */
  lemma TrimEmptyIffBlank(s: string)
    ensures Trim(s) == [] <==> Blank(s)
  {
    var t := TrimStart(s);
    var k := |s| - |t|;
    assert Trim(s) == TrimEnd(t);
    TrimStartShape(s);
    TrimEndEmptyIffEmpty(t);
    if Trim(s) == [] {
      assert s[..k] == s;
    }
  }

  /** On a string that does not start with a trimmable code point, `TrimEnd` yields the empty string only from the empty string, and blankness means emptiness. */
  lemma TrimEndEmptyIffEmpty(t: string)
    requires t == [] || !IsTrimmable(t[0])
    ensures TrimEnd(t) == [] <==> t == []
    ensures Blank(t) <==> t == []
  {
    TrimEndShape(t);
    if TrimEnd(t) == [] {
      assert t[|TrimEnd(t)|..] == t;
    }
  }

  /**
   Trimming removes exactly the padding: `m` with a blank prefix and a blank suffix
   around it trims to `m`, when `m` neither starts nor ends with a trimmable code point.
   */
  lemma TrimStripsPadding(a: string, m: string, b: string)
    requires Blank(a) && Blank(b)
    requires m == [] || (!IsTrimmable(m[0]) && !IsTrimmable(m[|m| - 1]))
    requires m == [] ==> b == []
    ensures Trim(a + m + b) == m
  {
    assert a + m + b == a + (m + b);
    TrimStartOfBlankPrefix(a, m + b);
    TrimEndOfBlankSuffix(m, b);
  }

  lemma {:induction false} TrimStartOfBlankPrefix(a: string, x: string)
    requires Blank(a)
    requires x == [] || !IsTrimmable(x[0])
    ensures TrimStart(a + x) == x
    decreases |a|
  {
    if a != [] {
      assert (a + x)[0] == a[0] && (a + x)[1..] == a[1..] + x;
      TrimStartOfBlankPrefix(a[1..], x);
    } else {
      assert a + x == x;
    }
  }

  lemma {:induction false} TrimEndOfBlankSuffix(x: string, b: string)
    requires Blank(b)
    requires x == [] || !IsTrimmable(x[|x| - 1])
    ensures TrimEnd(x + b) == x
    decreases |b|
  {
    if b != [] {
      var c := b[..|b| - 1];
      assert (x + b)[|x + b| - 1] == b[|b| - 1] && (x + b)[..|x + b| - 1] == x + c;
      TrimEndOfBlankSuffix(x, c);
    } else {
      assert x + b == x;
    }
  }

  /** A prefix `r` of the suffix `t` of `s` from `k` on is the infix of `s` at `k`, and what follows it in `t` is what follows it in `s`. */
  lemma PrefixOfSuffix(s: string, k: nat, t: string, r: string)
    requires k <= |s| && t == s[k..] && |r| <= |t| && r == t[..|r|]
    ensures r == s[k..k + |r|] && s[k + |r|..] == t[|r|..]
  {
  }
}
