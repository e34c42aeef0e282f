/** The byte-string functions of the standard library that several parts rely on, one char per
    byte: TrimSpace, which removes the white space of Unicode in its UTF-8 form, and IndexByte. */
module Bytes {

  /** The blanks of one byte. */
  predicate Blank(c: char) {
    c == ' ' || ('\t' <= c <= '\r')
  }

  /** U+0085 and U+00A0. */
  predicate Blank2(a: char, b: char) {
    a == 0xC2 as char && (b == 0x85 as char || b == 0xA0 as char)
  }

  /** U+1680, U+2000 to U+200A, U+2028, U+2029, U+202F, U+205F and U+3000. */
  predicate Blank3(a: char, b: char, c: char) {
    || (a == 0xE1 as char && b == 0x9A as char && c == 0x80 as char)
    || (a == 0xE2 as char && b == 0x80 as char
        && (0x80 as char <= c <= 0x8A as char || c == 0xA8 as char || c == 0xA9 as char || c == 0xAF as char))
    || (a == 0xE2 as char && b == 0x81 as char && c == 0x9F as char)
    || (a == 0xE3 as char && b == 0x80 as char && c == 0x80 as char)
  }

  /** The length of the blank that s starts with, or 0. */
  function Leading(s: string): (k: nat)
    ensures k <= |s|
  {
    if |s| >= 1 && Blank(s[0]) then 1
    else if |s| >= 2 && Blank2(s[0], s[1]) then 2
    else if |s| >= 3 && Blank3(s[0], s[1], s[2]) then 3
    else 0
  }

  /** The length of the blank that s ends with, or 0. */
  function Trailing(s: string): (k: nat)
    ensures k <= |s|
  {
    var n := |s|;
    if n >= 1 && Blank(s[n - 1]) then 1
    else if n >= 2 && Blank2(s[n - 2], s[n - 1]) then 2
    else if n >= 3 && Blank3(s[n - 3], s[n - 2], s[n - 1]) then 3
    else 0
  }

  function TrimLeft(s: string): string
    decreases |s|
  {
    if Leading(s) == 0 then s else TrimLeft(s[Leading(s)..])
  }

  function TrimRight(s: string): string
    decreases |s|
  {
    if Trailing(s) == 0 then s else TrimRight(s[..|s| - Trailing(s)])
  }

  function Trim(s: string): string {
    TrimRight(TrimLeft(s))
  }

  /** Nothing but blanks. */
  predicate AllBlank(s: string) {
    TrimLeft(s) == ""
  }

  predicate Trimmed(s: string) {
    Leading(s) == 0 && Trailing(s) == 0
  }

  lemma {:induction false} SkipBlanks(l: string, s: string)
    requires AllBlank(l)
    ensures TrimLeft(l + s) == TrimLeft(s)
    decreases |l|
  {
    if l == "" {
      assert l + s == s;
    } else {
      var k := Leading(l);
      assert Leading(l + s) == k && (l + s)[k..] == l[k..] + s;
      SkipBlanks(l[k..], s);
    }
  }

  lemma BlanksJoin(a: string, b: string)
    requires AllBlank(a) && AllBlank(b)
    ensures AllBlank(a + b)
  {
    SkipBlanks(a, b);
  }

  /** A single blank. */
  lemma OneBlank(s: string)
    requires s != "" && (Leading(s) == |s| || Trailing(s) == |s|)
    ensures AllBlank(s) && Leading(s) == Trailing(s) == |s|
  {
    assert s[|s|..] == "";
  }

  /** Blanks end in a blank, whatever precedes them. */
  lemma {:induction false} BlanksEnd(t: string)
    requires AllBlank(t) && t != ""
    ensures Trailing(t) > 0 && AllBlank(t[..|t| - Trailing(t)])
    decreases |t|
  {
    var k := Leading(t);
    var first, rest := t[..k], t[k..];
    assert t == first + rest;
    OneBlank(first);
    if rest == "" {
      assert t == first && t[..0] == "";
    } else {
      BlanksEnd(rest);
      TrailingOf(first, rest);
      BlanksJoin(first, rest[..|rest| - Trailing(rest)]);
    }
  }

  lemma TrailingOf(s: string, t: string)
    requires Trailing(t) > 0
    ensures Trailing(s + t) == Trailing(t)
    ensures (s + t)[..|s + t| - Trailing(t)] == s + t[..|t| - Trailing(t)]
  {
  }

  lemma {:induction false} SkipBlanksRight(s: string, t: string)
    requires AllBlank(t)
    ensures TrimRight(s + t) == TrimRight(s)
    decreases |t|
  {
    if t == "" {
      assert s + t == s;
    } else {
      BlanksEnd(t);
      TrailingOf(s, t);
      SkipBlanksRight(s, t[..|t| - Trailing(t)]);
    }
  }

  /** No blank straddles the beginning of a blank. */
  lemma NoBlankAcross(s: string, t: string)
    requires s != "" && Leading(s) == 0 && AllBlank(t)
    ensures Leading(s + t) == 0
  {
    if t == "" {
      assert s + t == s;
    }
  }

  /** Trim removes blanks at both ends and nothing else, and this determines it. */
  lemma TrimIs(l: string, s: string, t: string)
    requires AllBlank(l) && AllBlank(t) && Trimmed(s)
    ensures Trim(l + s + t) == s
  {
    assert l + s + t == l + (s + t);
    SkipBlanks(l, s + t);
    if s == "" {
      assert s + t == t;
    } else {
      NoBlankAcross(s, t);
    }
    SkipBlanksRight(s, t);
  }

  lemma {:induction false} TrimLeftParts(s: string) returns (l: string)
    ensures AllBlank(l) && s == l + TrimLeft(s) && Leading(TrimLeft(s)) == 0
    decreases |s|
  {
    l := "";
    var k := Leading(s);
    if k > 0 {
      l := TrimLeftParts(s[k..]);
      var first := s[..k];
      assert s == first + s[k..];
      Assoc(first, l, TrimLeft(s));
      OneBlank(first);
      BlanksJoin(first, l);
      l := first + l;
    }
  }

  lemma SplitAt(s: string, n: nat, a: string, t: string)
    requires n <= |s| && s[..n] == a + t
    ensures s == a + (t + s[n..])
  {
    assert s == s[..n] + s[n..];
    Assoc(a, t, s[n..]);
  }

  lemma {:induction false} TrimRightParts(s: string) returns (t: string)
    ensures AllBlank(t) && s == TrimRight(s) + t && Trailing(TrimRight(s)) == 0
    decreases |s|
  {
    t := "";
    var k := Trailing(s);
    if k > 0 {
      var n := |s| - k;
      t := TrimRightParts(s[..n]);
      SplitAt(s, n, TrimRight(s), t);
      OneBlank(s[n..]);
      BlanksJoin(t, s[n..]);
      t := t + s[n..];
    }
  }

  lemma TrimParts(s: string) returns (l: string, t: string)
    ensures AllBlank(l) && AllBlank(t) && s == l + Trim(s) + t && Trimmed(Trim(s))
  {
    l := TrimLeftParts(s);
    t := TrimRightParts(TrimLeft(s));
    Assoc(l, Trim(s), t);
    StillTrimmed(Trim(s), t);
  }

  lemma StillTrimmed(s: string, t: string)
    requires Leading(s + t) == 0
    ensures Leading(s) == 0
  {
  }

  /** Blanks of one byte each. */
  predicate BlankBytes(s: string) {
    forall i | 0 <= i < |s| :: Blank(s[i])
  }

  lemma {:induction false} BlankBytesAreBlank(s: string)
    requires BlankBytes(s)
    ensures AllBlank(s)
    decreases |s|
  {
    if s != "" {
      BlankBytesAreBlank(s[1..]);
    }
  }

  lemma {:induction false} BlanksHaveNoBrace(s: string)
    requires AllBlank(s)
    ensures '{' !in s
    decreases |s|
  {
    if s != "" {
      var k := Leading(s);
      BlanksHaveNoBrace(s[k..]);
      forall i | 0 <= i < |s| ensures s[i] != '{' {
        if i >= k {
          assert s[i] == s[k..][i - k];
        }
      }
    }
  }

  lemma TrimBlanks(l: string, s: string, t: string)
    requires AllBlank(l) && AllBlank(t)
    ensures Trim(l + s + t) == Trim(s)
  {
    Assoc(l, s, t);
    SkipBlanks(l, s + t);
    var a := TrimLeftParts(s);
    var u := TrimLeft(s);
    Assoc(a, u, t);
    SkipBlanks(a, u + t);
    if u == "" {
      assert u + t == t;
    } else {
      NoBlankAcross(u, t);
      SkipBlanksRight(u, t);
    }
  }

  lemma Assoc(a: string, b: string, c: string)
    ensures a + b + c == a + (b + c)
  {
  }

  /** The first position of c in s, or -1. */
  function IndexByte(s: string, c: char): (k: int)
    ensures -1 <= k < |s|
  {
    IndexFrom(s, c, 0)
  }

  function IndexFrom(s: string, c: char, i: nat): (k: int)
    requires i <= |s|
    ensures k == -1 || i <= k < |s|
    decreases |s| - i
  {
    if i == |s| then -1 else if s[i] == c then i else IndexFrom(s, c, i + 1)
  }

  lemma {:induction false} IndexIsFirst(s: string, c: char, i: nat)
    requires i <= |s|
    ensures var k := IndexFrom(s, c, i);
            && (k >= 0 ==> s[k] == c)
            && forall j | i <= j < (if k < 0 then |s| else k) :: s[j] != c
    decreases |s| - i
  {
    if i < |s| && s[i] != c {
      IndexIsFirst(s, c, i + 1);
    }
  }

  /** The last n elements. */
  function LastN<T>(s: seq<T>, n: nat): seq<T> {
    if |s| <= n then s else s[|s| - n..]
  }
}
