/** Which growing files may be polled: exactly those where only blanks follow a complete object
    on its line. Files whose lines are JSON objects, or one cut short, are among them. */
module JsonlFiles {
  import opened Events
  import opened Bytes
  import opened Jsonl
  import Json

  const JSON := Rules(Trim, Json.Valid)

  /** What the partial-line rule needs of `valid`: an object followed by more is not valid. */
  ghost predicate ObjectsAreMaximal(x: Rules) {
    forall t: string, more: string {:trigger x.valid(t + more)} |
      IsObject(x, t) && more != "" && !Blank(more[|more| - 1]) ::
      !x.valid(t + more)
  }

  /** And a truncated object is not valid. */
  ghost predicate NoObjectInside(x: Rules) {
    forall t: string, n: nat {:trigger x.valid(t[..n])} | IsObject(x, t) && Trimmed(t) && n < |t| :: !x.valid(t[..n])
  }

  /** An object's text ends in a bracket. */
  ghost predicate ObjectsAreBracketed(x: Rules) {
    forall t: string {:trigger IsObject(x, t)} | IsObject(x, t) && Trimmed(t) ::
      t[|t| - 1] == '}' || t[|t| - 1] == ']'
  }

  lemma JsonObjects()
    ensures ObjectsAreMaximal(JSON) && NoObjectInside(JSON) && ObjectsAreBracketed(JSON)
  {
    forall t: string | IsObject(JSON, t) && Trimmed(t) ensures t[|t| - 1] == '}' || t[|t| - 1] == ']' {
      Json.ObjectEndsInBracket(t);
    }
    forall t: string, more: string | IsObject(JSON, t) && more != "" && !Blank(more[|more| - 1])
      ensures !Json.Valid(t + more)
    {
      Json.OnlySpaceFollows(t, more);
    }
    forall t: string, n: nat | IsObject(JSON, t) && Trimmed(t) && n < |t|
      ensures !Json.Valid(t[..n])
    {
      Json.TruncatedObjectInvalid(t, n);
    }
  }

  // ---- necessary ----

  /** The number of records that one read returns. */
  function HowMany(x: Rules, F: string, from: nat, n: nat): nat
    requires from <= n <= |F|
    decreases n - from
  {
    if from == n || InProgress(x, F, from, n) then 0
    else |Record(x, x.trim(F[from..LineEnd(F, from, n)]))| + HowMany(x, F, LineAfter(F, from, n), n)
  }

  lemma {:induction false} HowManyIs(x: Rules, F: string, from: nat, n: nat)
    requires from <= n <= |F|
    ensures HowMany(x, F, from, n) == |Records(x, F, from, n)|
    decreases n - from
  {
    if from < n && !InProgress(x, F, from, n) {
      HowManyIs(x, F, LineAfter(F, from, n), n);
    }
  }

  /** Polling at length b and then at c returns more records than one read of F[..c]. */
  predicate Differs(x: Rules, F: string, from: nat, b: nat, c: nat) {
    && from <= b <= c <= |F|
    && HowMany(x, F, from, b) + HowMany(x, F, Next(x, F, from, b), c) > HowMany(x, F, from, c)
  }

  /** No blank has c for its last byte and begins before it. */
  lemma NoBlankAcrossLast(s: string, t: string, c: char)
    requires s != "" && (s[|s| - 1] == '}' || s[|s| - 1] == ']') && AllBlank(t) && !Blank(c)
    ensures Trailing(s + (t + [c])) == 0
  {
    if t != "" {
      BlanksEnd(t);
    }
  }

  lemma Regroup(l: string, s: string, t: string, c: char)
    ensures (l + s + t) + [c] == l + (s + (t + [c])) + ""
  {
  }

  lemma TrimExtends(d: string, c: char) returns (more: string)
    requires !Blank(c) && Trim(d) != "" && Trim(d)[0] == '{'
    requires var last := Trim(d)[|Trim(d)| - 1]; last == '}' || last == ']'
    ensures Trim(d + [c]) == Trim(d) + more && more != "" && more[|more| - 1] == c
  {
    var l, t := TrimParts(d);
    var s := Trim(d);
    more := t + [c];
    NoBlankAcrossLast(s, t, c);
    Regroup(l, s, t, c);
    TrimIs(l, s + more, "");
  }

  /** The line is cut after an object, and one byte later is in progress again. */
  predicate Torn(x: Rules, line: string, i: nat) {
    && 0 < i < |line| && IsObject(x, x.trim(line[..i]))
    && x.trim(line[..i + 1]) != "" && !IsObject(x, x.trim(line[..i + 1]))
  }

  lemma SliceOf(F: string, from: nat, k: nat, i: nat)
    requires from + i <= k <= |F|
    ensures F[from..k][..i] == F[from..from + i]
  {
  }

  lemma TornReads(x: Rules, F: string, from: nat, k: nat, i: nat)
    requires from <= |F| && k == LineEnd(F, from, |F|) && Torn(x, F[from..k], i)
    ensures Differs(x, F, from, from + i, from + i + 1)
  {
    var b, line := from + i, F[from..k];
    SliceOf(F, from, k, i);
    SliceOf(F, from, k, i + 1);
    LineEndIs(F, from, b, b);
    LineEndIs(F, from, b + 1, b + 1);
    assert HowMany(x, F, b, b) == 0 && InProgress(x, F, from, b + 1);
  }

  /** An object and one more byte, no blank, is a line in progress. */
  lemma TornTail(x: Rules, d: string, c: char)
    requires x.trim == Trim
    requires ObjectsAreMaximal(x) && ObjectsAreBracketed(x) && IsObject(x, x.trim(d)) && !Blank(c)
    ensures d != "" && x.trim(d + [c]) != "" && !IsObject(x, x.trim(d + [c]))
  {
    var l, t := TrimParts(d);
    var more := TrimExtends(d, c);
    assert !x.valid(Trim(d) + more);
  }

  /** An unsettled line is torn somewhere. */
  lemma TornSomewhere(x: Rules, line: string) returns (i: nat)
    requires x.trim == Trim
    requires ObjectsAreMaximal(x) && ObjectsAreBracketed(x) && !SettledLine(x, line)
    ensures Torn(x, line, i)
  {
    i :| 0 <= i < |line| && IsObject(x, x.trim(line[..i])) && !Blank(line[i]);
    TornTail(x, line[..i], line[i]);
    assert line[..i] + [line[i]] == line[..i + 1];
  }

  /** What tears a file: an unsettled line is torn somewhere. */
  ghost predicate UnsettledTears(x: Rules) {
    forall line | !SettledLine(x, line) :: exists i :: Torn(x, line, i)
  }

  lemma JsonTears()
    ensures UnsettledTears(JSON)
  {
    JsonObjects();
    forall line | !SettledLine(JSON, line) ensures exists i :: Torn(JSON, line, i) {
      var i := TornSomewhere(JSON, line);
    }
  }

  lemma DiffersLater(x: Rules, F: string, from: nat, k: nat, b: nat, c: nat)
    requires from <= k < |F| && k == LineEnd(F, from, |F|) && Differs(x, F, k + 1, b, c)
    ensures Differs(x, F, from, b, c)
  {
    LineEndIs(F, from, b, k);
    LineEndIs(F, from, c, k);
  }

  /** A line starts at a, at or after the one that starts at `from`. */
  predicate LineAt(F: string, from: nat, a: nat)
    requires from <= |F|
    decreases |F| - from
  {
    from == a || (LineEnd(F, from, |F|) < |F| && LineAt(F, LineEnd(F, from, |F|) + 1, a))
  }

  lemma {:induction false} FindUnsettledLine(x: Rules, F: string, from: nat) returns (a: nat)
    requires from <= |F| && !Settled(x, F, from)
    ensures from <= a <= |F| && LineAt(F, from, a) && !SettledLine(x, F[a..LineEnd(F, a, |F|)])
    decreases |F| - from
  {
    var k := LineEnd(F, from, |F|);
    if SettledLine(x, F[from..k]) {
      a := FindUnsettledLine(x, F, k + 1);
    } else {
      a := from;
    }
  }

  lemma LineDiffers(x: Rules, F: string, a: nat)
    requires UnsettledTears(x) && a <= |F| && !SettledLine(x, F[a..LineEnd(F, a, |F|)])
    ensures exists b: nat, c: nat :: Differs(x, F, a, b, c)
  {
    var k := LineEnd(F, a, |F|);
    var i :| Torn(x, F[a..k], i);
    TornReads(x, F, a, k, i);
  }

  lemma {:induction false} DiffersFrom(x: Rules, F: string, from: nat, a: nat, b: nat, c: nat)
    requires from <= |F| && LineAt(F, from, a) && Differs(x, F, a, b, c)
    ensures Differs(x, F, from, b, c)
    decreases |F| - from
  {
    if from != a {
      var k := NextLineAt(F, from, a);
      DiffersFrom(x, F, k + 1, a, b, c);
      DiffersLater(x, F, from, k, b, c);
    }
  }

  lemma NextLineAt(F: string, from: nat, a: nat) returns (k: nat)
    requires from <= |F| && from != a && LineAt(F, from, a)
    ensures k == LineEnd(F, from, |F|) < |F| && from <= k && LineAt(F, k + 1, a)
  {
    k := LineEnd(F, from, |F|);
  }

  /** In any other file, two reads return more records than one. */
  lemma UnsettledDiffers(x: Rules, F: string)
    requires UnsettledTears(x) && !Settled(x, F, 0)
    ensures exists b: nat, c: nat :: Differs(x, F, 0, b, c)
  {
    var a := FindUnsettledLine(x, F, 0);
    LineDiffers(x, F, a);
    var b: nat, c: nat :| Differs(x, F, a, b, c);
    DiffersFrom(x, F, 0, a, b, c);
  }

  /** However the file grows between reads, polling returns the records of a single read. */
  ghost predicate PollsExactly(x: Rules, F: string) {
    forall lengths: seq<nat> | Schedule(lengths, |F|) && lengths != [] ::
      Polled(x, F, lengths) == Records(x, F, 0, lengths[|lengths| - 1])
  }

  lemma TwoReads(x: Rules, F: string, b: nat, c: nat)
    requires b <= c <= |F|
    ensures Schedule([b, c], |F|)
    ensures Polled(x, F, [b, c]) == Records(x, F, 0, b) + Records(x, F, Next(x, F, 0, b), c)
  {
    var one, two: seq<nat> := [b], [b, c];
    assert Schedule(two, |F|) && two[..1] == one && one[..0] == [];
    assert Offset(x, F, one) == Next(x, F, 0, b);
    assert Polled(x, F, one) == Records(x, F, 0, b);
  }

  lemma DiffersPolls(x: Rules, F: string, b: nat, c: nat)
    requires Differs(x, F, 0, b, c)
    ensures !PollsExactly(x, F)
  {
    TwoReads(x, F, b, c);
    HowManyIs(x, F, 0, b);
    HowManyIs(x, F, Next(x, F, 0, b), c);
    HowManyIs(x, F, 0, c);
    var lengths: seq<nat> := [b, c];
    assert |Polled(x, F, lengths)| > |Records(x, F, 0, c)|;
  }

  /** The condition is exact. */
  lemma PollingExactIffSettled(F: string)
    ensures PollsExactly(JSON, F) <==> Settled(JSON, F, 0)
  {
    JsonObjects();
    if Settled(JSON, F, 0) {
      forall lengths: seq<nat> | Schedule(lengths, |F|) && lengths != []
        ensures Polled(JSON, F, lengths) == Records(JSON, F, 0, lengths[|lengths| - 1])
      {
        PollingEqualsOneRead(JSON, F, lengths);
      }
    } else {
      JsonTears();
      UnsettledDiffers(JSON, F);
      var b: nat, c: nat :| Differs(JSON, F, 0, b, c);
      DiffersPolls(JSON, F, b, c);
    }
  }

  const EMPTY_OBJECT := "{}"

  lemma EmptyObject()
    ensures IsObject(JSON, EMPTY_OBJECT) && Trim(EMPTY_OBJECT) == EMPTY_OBJECT
  {
    Json.EmptyObjectIsValid();
    assert "" + EMPTY_OBJECT + "" == EMPTY_OBJECT;
    TrimIs("", EMPTY_OBJECT, "");
  }

  /** Anything but a blank of one byte after an object breaks polling: another byte, or the first
      byte of a longer blank, which TrimSpace removes only once it is whole. */
  lemma ByteAfterObject(c: char, rest: string)
    requires !Blank(c)
    ensures !PollsExactly(JSON, EMPTY_OBJECT + [c] + rest)
  {
    var F := EMPTY_OBJECT + [c] + rest;
    var k := LineEnd(F, 0, |F|);
    assert F[0] == '{' && F[1] == '}' && F[2] == c;
    assert k > 2;
    var line := F[0..k];
    EmptyObject();
    assert line[..2] == EMPTY_OBJECT && line[2] == c;
    assert !SettledLine(JSON, line);
    assert !Settled(JSON, F, 0);
    PollingExactIffSettled(F);
  }

  /** Such as a stray byte, and the no-break space U+00A0. */
  lemma FilesNotToPoll()
    ensures !PollsExactly(JSON, EMPTY_OBJECT + "x" + "")
    ensures AllBlank([0xC2 as char, 0xA0 as char])
    ensures !PollsExactly(JSON, EMPTY_OBJECT + [0xC2 as char] + [0xA0 as char])
  {
    ByteAfterObject('x', "");
    OneBlank([0xC2 as char, 0xA0 as char]);
    ByteAfterObject(0xC2 as char, [0xA0 as char]);
  }

  // ---- sufficient: a file of objects ----

  /** The line is blanks, an object text and blanks of one byte, perhaps cut short. */
  predicate CutObject(x: Rules, line: string, l: string, obj: string, t: string) {
    AllBlank(l) && BlankBytes(t) && IsObject(x, obj) && Trimmed(obj) && line <= l + obj + t
  }

  ghost predicate ObjectLine(x: Rules, line: string) {
    exists l, obj, t :: CutObject(x, line, l, obj, t)
  }

  ghost predicate ObjectFile(x: Rules, F: string, from: nat)
    requires from <= |F|
    decreases |F| - from
  {
    var k := LineEnd(F, from, |F|);
    ObjectLine(x, F[from..k]) && (k < |F| ==> ObjectFile(x, F, k + 1))
  }

  lemma ObjectLineSettled(x: Rules, line: string, l: string, obj: string, t: string)
    requires x.trim == Trim
    requires NoObjectInside(x) && CutObject(x, line, l, obj, t)
    ensures SettledLine(x, line)
  {
    var whole := l + obj + t;
    forall b | 0 <= b < |line| && IsObject(x, Trim(line[..b])) ensures Blank(line[b]) {
      assert line[b] == whole[b] && line[..b] == whole[..b];
      if b < |l| {
        assert whole[..b] == l[..b];
        BlanksHaveNoBrace(l);
        NoBraceNoObject(x, l[..b]);
      } else if b < |l| + |obj| {
        assert whole[..b] == l + obj[..b - |l|];
        CutInside(x, l, obj, b - |l|);
      } else {
        assert whole[b] == t[b - |l| - |obj|];
      }
    }
  }

  lemma NoBraceNoObject(x: Rules, s: string)
    requires '{' !in s
    ensures !IsObject(x, Trim(s))
  {
    var l, t := TrimParts(s);
    if Trim(s) != "" {
      assert s[|l|] == Trim(s)[0];
    }
  }

  lemma CutInside(x: Rules, l: string, obj: string, n: nat)
    requires x.trim == Trim
    requires NoObjectInside(x) && AllBlank(l) && IsObject(x, obj) && Trimmed(obj) && n < |obj|
    ensures !IsObject(x, Trim(l + obj[..n]))
  {
    var piece := obj[..n];
    assert l + piece == l + piece + "";
    TrimBlanks(l, piece, "");
    var a, z := TrimParts(piece);
    if Trim(piece) != "" {
      assert Trim(piece) == obj[..|Trim(piece)|];
    }
  }

  lemma {:induction false} ObjectFileSettled(x: Rules, F: string, from: nat)
    requires x.trim == Trim
    requires NoObjectInside(x) && from <= |F| && ObjectFile(x, F, from)
    ensures Settled(x, F, from)
    decreases |F| - from
  {
    var k := LineEnd(F, from, |F|);
    var l, obj, t :| CutObject(x, F[from..k], l, obj, t);
    ObjectLineSettled(x, F[from..k], l, obj, t);
    if k < |F| {
      ObjectFileSettled(x, F, k + 1);
    }
  }

  /** A file of JSON objects, one a line, the last perhaps half-written, may always be polled. */
  lemma ObjectFilesPollExactly(F: string)
    requires ObjectFile(JSON, F, 0)
    ensures PollsExactly(JSON, F)
  {
    JsonObjects();
    ObjectFileSettled(JSON, F, 0);
    PollingExactIffSettled(F);
  }

  /** What readJSONLFrom returns, for any file cut anywhere at the offset into lines and a rest: the
      lines that hold JSON, trimmed, each once and in order, and the rest if it is a JSON object. */
  lemma FileIsRead(pre: string, ls: seq<string>, rest: string) returns (at: seq<nat>, out: seq<string>)
    requires AreLines(ls) && NoNewline(rest)
    ensures Picks(JSON, ls, at, out)
    ensures var F := pre + (Joined(ls) + rest);
            var whole := Trim(rest) != "" && Trim(rest)[0] == '{' && Json.Valid(Trim(rest));
            ReadFrom(JSON, Some(F), |pre|)
            == Read(out + (if whole then [Trim(rest)] else []), if whole || Trim(rest) == "" then |F| else |F| - |rest|)
  {
    assert JSON.trim("") == "";
    at, out := ReadIs(JSON, pre, ls, rest);
  }
}
