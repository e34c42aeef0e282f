/** Incremental reading of a JSONL file that is still being written (workflow_live.go):
    the offset reader as a loop, and why polling it agrees with reading once. */
module Jsonl {
  import opened Events
  import opened Bytes

  // ---- one read of F[..n] from an offset on ----

  /** The two library functions that the reader relies on: bytes.TrimSpace and json.Valid. */
  datatype Rules = Rules(trim: string -> string, valid: string -> bool)

  function Record(x: Rules, line: string): seq<string> {
    if line == "" || !x.valid(line) then [] else [line]
  }

  /** The line, trimmed, is a complete JSON object. */
  predicate IsObject(x: Rules, line: string) {
    line != "" && line[0] == '{' && x.valid(line)
  }

  /** Where the line that holds `from` ends: at its newline, or at n. */
  function LineEnd(F: string, from: nat, n: nat): (k: nat)
    requires from <= n <= |F|
    ensures from <= k <= n
    ensures k < n ==> F[k] == '\n'
    ensures forall j | from <= j < k :: F[j] != '\n'
    decreases n - from
  {
    if from == n || F[from] == '\n' then from else LineEnd(F, from + 1, n)
  }

  /** Where the next line starts. */
  function LineAfter(F: string, from: nat, n: nat): (k: nat)
    requires from < n <= |F|
    ensures from < k <= n
  {
    var k := LineEnd(F, from, n);
    if k == n then n else k + 1
  }

  /** What is left is a line still being written, kept for the next read. */
  predicate InProgress(x: Rules, F: string, from: nat, n: nat)
    requires from <= n <= |F|
  {
    LineEnd(F, from, n) == n && x.trim(F[from..n]) != "" && !IsObject(x, x.trim(F[from..n]))
  }

  /** The records one read returns. */
  function Records(x: Rules, F: string, from: nat, n: nat): seq<string>
    requires from <= n <= |F|
    decreases n - from
  {
    if from == n || InProgress(x, F, from, n) then []
    else Record(x, x.trim(F[from..LineEnd(F, from, n)])) + Records(x, F, LineAfter(F, from, n), n)
  }

  /** The offset it returns. */
  function Next(x: Rules, F: string, from: nat, n: nat): (r: nat)
    requires from <= n <= |F|
    ensures from <= r <= n
    decreases n - from
  {
    if from == n || InProgress(x, F, from, n) then from
    else Next(x, F, LineAfter(F, from, n), n)
  }

  datatype ReadResult = Read(lines: seq<string>, next: nat) | NoFile(offset: nat) | BeyondEOF(offset: nat)

  function ReadFrom(x: Rules, file: Option<string>, offset: int): ReadResult {
    var from := if offset < 0 then 0 else offset;
    match file
    case None => NoFile(from)
    case Some(F) =>
      if from > |F| then BeyondEOF(from)
      else Read(Records(x, F, from, |F|), Next(x, F, from, |F|))
  }

  method ReadJSONLFrom(x: Rules, file: Option<string>, offset: int) returns (r: ReadResult)
    ensures r == ReadFrom(x, file, offset)
    ensures r.Read? ==> offset <= r.next <= |file.value|
    ensures r.NoFile? <==> file.None?
    ensures r.BeyondEOF? <==> file.Some? && offset > |file.value|
    ensures !r.Read? ==> r.offset == if offset < 0 then 0 else offset
  {
    var start := if offset < 0 then 0 else offset;
    if file.None? {
      r := NoFile(start);
    } else if start > |file.value| {
      r := BeyondEOF(start);
    } else {
      var lines, next := ReadLines(x, file.value, start);
      ResumeIs(x, file.value, [], start);
      assert [] + Records(x, file.value, start, |file.value|) == Records(x, file.value, start, |file.value|);
      r := Read(lines, next);
    }
  }

  lemma Assoc(a: seq<string>, b: seq<string>, c: seq<string>)
    ensures a + (b + c) == (a + b) + c
  {
  }

  /** The newline found in the unread data is the end of its first line. */
  lemma IndexIsLineEnd(F: string, from: nat)
    requires from <= |F|
    ensures var i := IndexByte(F[from..], '\n');
            LineEnd(F, from, |F|) == if i < 0 then |F| else from + i
  {
    var i, k := IndexByte(F[from..], '\n'), LineEnd(F, from, |F|);
    IndexIsFirst(F[from..], '\n', 0);
    if k < |F| {
      assert F[from..][k - from] == '\n';
    }
    if i >= 0 {
      assert F[from + i] == '\n';
    }
  }

  /** The first line's record, and where the next line starts. */
  lemma FirstLine(x: Rules, F: string, from: nat, n: nat, k: nat, next: nat)
    requires from < n <= |F| && !InProgress(x, F, from, n) && k == LineEnd(F, from, n)
    requires next == if k == n then n else k + 1
    ensures Records(x, F, from, n) == Record(x, x.trim(F[from..k])) + Records(x, F, next, n)
    ensures Next(x, F, from, n) == Next(x, F, next, n)
  {
  }

  /** The loop, resumed with these lines at this offset. */
  function Resume(x: Rules, F: string, lines: seq<string>, from: nat): (seq<string>, nat)
    requires from <= |F|
    decreases |F| - from
  {
    if from == |F| || InProgress(x, F, from, |F|) then (lines, from)
    else Resume(x, F, lines + Record(x, x.trim(F[from..LineEnd(F, from, |F|)])), LineAfter(F, from, |F|))
  }

  lemma {:induction false} ResumeIs(x: Rules, F: string, lines: seq<string>, from: nat)
    requires from <= |F|
    ensures Resume(x, F, lines, from) == (lines + Records(x, F, from, |F|), Next(x, F, from, |F|))
    decreases |F| - from
  {
    if from == |F| || InProgress(x, F, from, |F|) {
      assert lines + [] == lines;
    } else {
      var k, next := LineEnd(F, from, |F|), LineAfter(F, from, |F|);
      var r := Record(x, x.trim(F[from..k]));
      ResumeIs(x, F, lines + r, next);
      FirstLine(x, F, from, |F|, k, next);
      Assoc(lines, r, Records(x, F, next, |F|));
    }
  }

  /** What one pass of the loop finds: the first line of the unread data, its end and the next. */
  lemma FirstOf(F: string, from: nat)
    requires from < |F|
    ensures var i := IndexByte(F[from..], '\n');
            && LineEnd(F, from, |F|) == (if i < 0 then |F| else from + i)
            && LineAfter(F, from, |F|) == (if i < 0 then |F| else from + i + 1)
            && F[from..LineEnd(F, from, |F|)] == (if i < 0 then F[from..] else F[from..][..i])
            && F[LineAfter(F, from, |F|)..] == (if i < 0 then "" else F[from..][i + 1..])
  {
    IndexIsLineEnd(F, from);
  }

  /** The first half of a pass: cut the first line off the unread data, or find that it is still
      being written. */
  method CutFirst(x: Rules, F: string, from: nat, data: string)
    returns (stop: bool, line: string, next: nat, rest: string)
    requires from < |F| && data == F[from..]
    ensures stop <==> InProgress(x, F, from, |F|)
    ensures !stop ==>
              && line == x.trim(F[from..LineEnd(F, from, |F|)])
              && next == LineAfter(F, from, |F|) && rest == F[next..]
  {
    var i := IndexByte(data, '\n');
    FirstOf(F, from);
    stop := false;
    if i < 0 {
      line := x.trim(data);
      stop := |line| > 0 && (line[0] != '{' || !x.valid(line));
      next, rest := from + |data|, "";
    } else {
      line := x.trim(data[..i]);
      next, rest := from + i + 1, data[i + 1..];
    }
  }

  /** The loop of the read. */
  method ReadLines(x: Rules, F: string, start: nat) returns (lines: seq<string>, next: nat)
    requires start <= |F|
    ensures (lines, next) == Resume(x, F, [], start)
  {
    var data := F[start..];
    lines, next := [], start;
    while |data| > 0
      invariant next <= |F| && data == F[next..]
      invariant Resume(x, F, lines, next) == Resume(x, F, [], start)
      decreases |data|
    {
      var stop, line, after, rest := CutFirst(x, F, next, data);
      if stop {
        break;
      }
      next, data := after, rest;
      if |line| != 0 && x.valid(line) {
        lines := lines + [line];
      } else {
        assert lines + Record(x, line) == lines;
      }
    }
  }

  // ---- what one read returns, told by the lines of the file ----

  predicate NoNewline(s: string) {
    forall i | 0 <= i < |s| :: s[i] != '\n'
  }

  predicate AreLines(ls: seq<string>) {
    forall i | 0 <= i < |ls| :: NoNewline(ls[i])
  }

  /** The lines, each ended by a newline. */
  function Joined(ls: seq<string>): string {
    if ls == [] then "" else ls[0] + ("\n" + Joined(ls[1..]))
  }

  /** The line has a record: trimmed, it is neither empty nor malformed. */
  predicate HasRecord(x: Rules, line: string) {
    x.trim(line) != "" && x.valid(x.trim(line))
  }

  /** The rest after the last newline is taken now: it is blank or a complete object. */
  predicate TakenNow(x: Rules, rest: string) {
    x.trim(rest) == "" || (x.trim(rest)[0] == '{' && x.valid(x.trim(rest)))
  }

  /** `at` lists, in order, the places of the lines that have a record, and `out` those lines, trimmed. */
  predicate Picks(x: Rules, ls: seq<string>, at: seq<nat>, out: seq<string>) {
    Listed(x, ls, at, out) && Rising(at) && NoneMissing(x, ls, at)
  }

  predicate Listed(x: Rules, ls: seq<string>, at: seq<nat>, out: seq<string>) {
    && |at| == |out|
    && forall j | 0 <= j < |at| :: at[j] < |ls| && HasRecord(x, ls[at[j]]) && out[j] == x.trim(ls[at[j]])
  }

  predicate Rising(at: seq<nat>) {
    forall i, j | 0 <= i < j < |at| :: at[i] < at[j]
  }

  predicate NoneMissing(x: Rules, ls: seq<string>, at: seq<nat>) {
    forall i: nat | i < |ls| && HasRecord(x, ls[i]) :: i in at
  }

  /** The places when a line is put before the others. */
  function Moved(at: seq<nat>): (r: seq<nat>)
    ensures |r| == |at| && forall i | 0 <= i < |at| :: r[i] == at[i] + 1
  {
    seq(|at|, i requires 0 <= i < |at| => at[i] + 1)
  }

  lemma MovedMisses(x: Rules, line: string, ls: seq<string>, at: seq<nat>)
    requires NoneMissing(x, ls, at)
    ensures forall i: nat | 0 < i < |ls| + 1 && HasRecord(x, ([line] + ls)[i]) :: i in Moved(at)
  {
    forall i: nat | 0 < i < |ls| + 1 && HasRecord(x, ([line] + ls)[i]) ensures i in Moved(at) {
      assert ls[i - 1] == ([line] + ls)[i];
      var j :| 0 <= j < |at| && at[j] == i - 1;
      assert Moved(at)[j] == i;
    }
  }

  lemma MovedLists(x: Rules, line: string, ls: seq<string>, at: seq<nat>, out: seq<string>)
    requires Listed(x, ls, at, out)
    ensures Listed(x, [line] + ls, Moved(at), out)
  {
  }

  lemma PicksMore(x: Rules, line: string, ls: seq<string>, at: seq<nat>, out: seq<string>)
    returns (at': seq<nat>, out': seq<string>)
    requires Picks(x, ls, at, out)
    ensures Picks(x, [line] + ls, at', out')
    ensures out' == (if HasRecord(x, line) then [x.trim(line)] else []) + out
  {
    MovedMisses(x, line, ls, at);
    MovedLists(x, line, ls, at, out);
    at', out' := Moved(at), out;
    if HasRecord(x, line) {
      at', out' := PicksFirst(x, line, ls, Moved(at), out);
    } else {
      assert [] + out == out;
      assert ([line] + ls)[0] == line;
    }
  }

  lemma PicksFirst(x: Rules, line: string, ls: seq<string>, moved: seq<nat>, out: seq<string>)
    returns (at: seq<nat>, all: seq<string>)
    requires HasRecord(x, line) && Listed(x, [line] + ls, moved, out) && Rising(moved)
    requires forall j | 0 <= j < |moved| :: moved[j] > 0
    requires forall i: nat | 0 < i < |ls| + 1 && HasRecord(x, ([line] + ls)[i]) :: i in moved
    ensures Picks(x, [line] + ls, at, all) && all == [x.trim(line)] + out
  {
    at, all := [0] + moved, [x.trim(line)] + out;
    assert at[0] == 0;
    forall i: nat | i < |ls| + 1 && HasRecord(x, ([line] + ls)[i]) ensures i in at {
      if i > 0 {
        assert i in moved;
      }
    }
  }

  /** The first line of what is left, when it ends in a newline. */
  lemma LineIsFirst(pre: string, line: string, more: string)
    requires NoNewline(line)
    ensures var F := pre + (line + ("\n" + more));
            && LineEnd(F, |pre|, |F|) == |pre| + |line| < |F|
            && F[|pre|..|pre| + |line|] == line
            && F == (pre + (line + "\n")) + more
  {
    var F := pre + (line + ("\n" + more));
    assert F == (pre + (line + "\n")) + more;
    assert F[|pre|..|pre| + |line|] == line;
    forall j | |pre| <= j < |pre| + |line| ensures F[j] != '\n' {
      assert F[j] == line[j - |pre|];
    }
    assert F[|pre| + |line|] == '\n';
    LineEndIs(F, |pre|, |F|, |pre| + |line|);
  }

  lemma RestIsLast(x: Rules, pre: string, rest: string)
    requires NoNewline(rest)
    ensures var F := pre + rest;
            && LineEnd(F, |pre|, |F|) == |F| && F[|pre|..] == rest && F[|pre|..|F|] == rest
            && (rest != "" && InProgress(x, F, |pre|, |F|) <==> rest != "" && !TakenNow(x, rest))
  {
    var F := pre + rest;
    assert F[|pre|..] == rest;
    forall j | |pre| <= j < |F| ensures F[j] != '\n' {
      assert F[j] == rest[j - |pre|];
    }
    LineEndIs(F, |pre|, |F|, |F|);
    assert F[|pre|..|F|] == rest;
  }

  /** A read of the rest alone. */
  lemma RestRead(x: Rules, pre: string, rest: string)
    requires NoNewline(rest) && x.trim("") == ""
    ensures var F := pre + rest;
            && Records(x, F, |pre|, |F|) == (if TakenNow(x, rest) && x.trim(rest) != "" then [x.trim(rest)] else [])
            && Next(x, F, |pre|, |F|) == if TakenNow(x, rest) then |F| else |pre|
  {
    RestIsLast(x, pre, rest);
    var F := pre + rest;
    if rest != "" && TakenNow(x, rest) {
      FirstLine(x, F, |pre|, |F|, |F|, |F|);
    }
  }

  /** What a read returns, whatever precedes its offset: the lines that are not blank and not
      malformed, trimmed, each once and in order; and the rest after the last newline, if it is a
      complete object. It ends at the end of the file, unless that rest is neither blank nor a
      complete object: then it ends where the rest starts. */
  lemma {:induction false} ReadIs(x: Rules, pre: string, ls: seq<string>, rest: string)
    returns (at: seq<nat>, out: seq<string>)
    requires AreLines(ls) && NoNewline(rest) && x.trim("") == ""
    ensures Picks(x, ls, at, out)
    ensures var F := pre + (Joined(ls) + rest);
            && Records(x, F, |pre|, |F|)
               == out + (if TakenNow(x, rest) && x.trim(rest) != "" then [x.trim(rest)] else [])
            && Next(x, F, |pre|, |F|) == if TakenNow(x, rest) then |F| else |F| - |rest|
    decreases |ls|
  {
    if ls == [] {
      at, out := [], [];
      assert "" + rest == rest;
      RestRead(x, pre, rest);
    } else {
      var line, more := ls[0], Joined(ls[1..]) + rest;
      Assoc3(line, Joined(ls[1..]), rest);
      var at1, out1 := ReadIs(x, pre + (line + "\n"), ls[1..], rest);
      assert [line] + ls[1..] == ls;
      at, out := PicksMore(x, line, ls[1..], at1, out1);
      ReadMore(x, pre, line, more, out1, if TakenNow(x, rest) && x.trim(rest) != "" then [x.trim(rest)] else [],
               if TakenNow(x, rest) then 0 else |rest|);
    }
  }

  /** A read that starts a line earlier. */
  lemma ReadMore(x: Rules, pre: string, line: string, more: string, out: seq<string>, last: seq<string>, left: nat)
    requires NoNewline(line)
    requires var p := pre + (line + "\n");
             && Records(x, p + more, |p|, |p + more|) == out + last
             && Next(x, p + more, |p|, |p + more|) == |p + more| - left
    ensures var F := pre + (line + ("\n" + more));
            && Records(x, F, |pre|, |F|) == ((if HasRecord(x, line) then [x.trim(line)] else []) + out) + last
            && Next(x, F, |pre|, |F|) == |F| - left
  {
    ReadFirst(x, pre, line, more);
    Assoc(if HasRecord(x, line) then [x.trim(line)] else [], out, last);
  }

  lemma Assoc3(line: string, lines: string, rest: string)
    ensures (line + ("\n" + lines)) + rest == line + ("\n" + (lines + rest))
  {
  }

  lemma ReadFirst(x: Rules, pre: string, line: string, more: string)
    requires NoNewline(line)
    ensures var F := pre + (line + ("\n" + more));
            var next := |pre| + |line| + 1;
            && next == |pre + (line + "\n")| <= |F| && F == (pre + (line + "\n")) + more
            && Records(x, F, |pre|, |F|)
               == (if HasRecord(x, line) then [x.trim(line)] else []) + Records(x, F, next, |F|)
            && Next(x, F, |pre|, |F|) == Next(x, F, next, |F|)
  {
    LineIsFirst(pre, line, more);
    var F := pre + (line + ("\n" + more));
    FirstLine(x, F, |pre|, |F|, |pre| + |line|, |pre| + |line| + 1);
  }

  /** Every file is such lines and such a rest. */
  lemma {:induction false} EveryFileDivides(F: string) returns (ls: seq<string>, rest: string)
    ensures AreLines(ls) && NoNewline(rest) && F == Joined(ls) + rest
    decreases |F|
  {
    var k := LineEnd(F, 0, |F|);
    if k == |F| {
      ls, rest := [], F;
      assert "" + rest == rest;
    } else {
      ls, rest := EveryFileDivides(F[k + 1..]);
      var line := F[..k];
      CutAt(F, k);
      JoinedMore(line, ls, rest);
      ls := [line] + ls;
    }
  }

  lemma CutAt(F: string, k: nat)
    requires k < |F| && F[k] == '\n'
    ensures F == F[..k] + ("\n" + F[k + 1..])
  {
    assert "\n" + F[k + 1..] == F[k..];
  }

  lemma JoinedMore(line: string, ls: seq<string>, rest: string)
    ensures Joined([line] + ls) + rest == line + ("\n" + (Joined(ls) + rest))
  {
    assert ([line] + ls)[1..] == ls;
  }

  // ---- when a partial read cannot be wrong ----

  /** Once a beginning of the line is a complete object, only blanks follow on it. */
  predicate SettledLine(x: Rules, line: string) {
    forall b {:trigger x.trim(line[..b])} | 0 <= b < |line| && IsObject(x, x.trim(line[..b])) :: Blank(line[b])
  }

  /** Every line of F from `from` on is settled. */
  predicate Settled(x: Rules, F: string, from: nat)
    requires from <= |F|
    decreases |F| - from
  {
    var k := LineEnd(F, from, |F|);
    SettledLine(x, F[from..k]) && (k < |F| ==> Settled(x, F, k + 1))
  }

  lemma LineEndIs(F: string, from: nat, n: nat, k: nat)
    requires from <= k <= n <= |F| && (k < n ==> F[k] == '\n') && forall j | from <= j < k :: F[j] != '\n'
    ensures LineEnd(F, from, n) == k
  {
  }

  /** After a complete object, the rest of a settled line is blank. */
  lemma {:induction false} RestIsBlank(x: Rules, line: string, b: nat, k: nat)
    requires x.trim == Trim
    requires SettledLine(x, line) && b <= k < |line| && IsObject(x, x.trim(line[..b]))
    ensures Blank(line[k])
    ensures BlankBytes(line[b..k])
    decreases k
  {
    if b < k {
      RestIsBlank(x, line, b, k - 1);
      assert line[b..k] == line[b..k - 1] + [line[k - 1]];
      assert line[..k] == "" + line[..b] + line[b..k];
      BlankBytesAreBlank(line[b..k]);
      TrimBlanks("", line[..b], line[b..k]);
    }
  }

  lemma BlankAfterObject(x: Rules, d: string, e: string)
    requires x.trim == Trim
    requires SettledLine(x, d + e) && IsObject(x, x.trim(d))
    ensures BlankBytes(e) && AllBlank(e)
  {
    assert (d + e)[..|d|] == d;
    forall k | 0 <= k < |e| ensures Blank(e[k]) {
      RestIsBlank(x, d + e, |d|, |d| + k);
    }
    BlankBytesAreBlank(e);
  }

  /** Leading blanks change neither whether a line is settled nor its record. */
  lemma BlankBefore(x: Rules, d: string, line: string)
    requires x.trim == Trim
    requires AllBlank(d)
    ensures x.trim(d + line) == x.trim(line)
    ensures SettledLine(x, d + line) ==> SettledLine(x, line)
  {
    assert d + line == d + line + "";
    TrimBlanks(d, line, "");
    if SettledLine(x, d + line) {
      forall b | 0 <= b < |line| && IsObject(x, x.trim(line[..b])) ensures Blank(line[b]) {
        assert (d + line)[..|d| + b] == d + line[..b] + "";
        TrimBlanks(d, line[..b], "");
        assert (d + line)[|d| + b] == line[b];
      }
    }
  }

  lemma BlankHasNoObject(x: Rules, line: string)
    requires x.trim == Trim
    requires BlankBytes(line)
    ensures x.trim(line) == "" && SettledLine(x, line)
  {
    BlankBytesAreBlank(line);
    forall b | 0 <= b < |line| ensures x.trim(line[..b]) == "" {
      BlankBytesAreBlank(line[..b]);
    }
  }

  /** The same within one line, cut after blanks or after a complete object. */
  lemma LineSplit(x: Rules, d: string, e: string)
    requires x.trim == Trim
    requires SettledLine(x, d + e) && (x.trim(d) == "" || IsObject(x, x.trim(d)))
    ensures SettledLine(x, e)
    ensures Record(x, x.trim(d + e)) == Record(x, x.trim(d)) + Record(x, x.trim(e))
    ensures IsObject(x, x.trim(d)) ==> IsObject(x, x.trim(d + e)) && x.trim(e) == ""
    ensures x.trim(d) == "" ==> x.trim(d + e) == x.trim(e)
  {
    if x.trim(d) == "" {
      var l, t := TrimParts(d);
      assert d == l + t;
      BlanksJoin(l, t);
      BlankBefore(x, d, e);
    } else {
      BlankAfterObject(x, d, e);
      BlankHasNoObject(x, e);
      assert d + e == "" + d + e;
      TrimBlanks("", d, e);
    }
  }

  /** Within a line, cut at n after blanks or after a complete object. */
  lemma CutLine(x: Rules, F: string, from: nat, n: nat, j: nat)
    requires x.trim == Trim
    requires from <= n <= j <= |F| && SettledLine(x, F[from..j])
    requires x.trim(F[from..n]) == "" || IsObject(x, x.trim(F[from..n]))
    ensures SettledLine(x, F[n..j])
    ensures Record(x, x.trim(F[from..j])) == Record(x, x.trim(F[from..n])) + Record(x, x.trim(F[n..j]))
    ensures IsObject(x, x.trim(F[from..n])) ==> IsObject(x, x.trim(F[from..j])) && x.trim(F[n..j]) == ""
    ensures x.trim(F[from..n]) == "" ==> x.trim(F[from..j]) == x.trim(F[n..j])
  {
    assert F[from..n] + F[n..j] == F[from..j];
    LineSplit(x, F[from..n], F[n..j]);
  }

  lemma SettledBeginning(x: Rules, F: string, from: nat, j: nat, k: nat)
    requires from <= j <= k <= |F| && SettledLine(x, F[from..k])
    ensures SettledLine(x, F[from..j])
  {
    var line, whole := F[from..j], F[from..k];
    forall b | 0 <= b < |line| && IsObject(x, x.trim(line[..b])) ensures Blank(line[b]) {
      assert whole[..b] == line[..b] && whole[b] == line[b];
    }
  }

  lemma CutLastLine(x: Rules, F: string, from: nat, n: nat, m: nat)
    requires x.trim == Trim
    requires from < n < m <= |F| && LineEnd(F, from, n) == n && !InProgress(x, F, from, n)
    requires SettledLine(x, F[from..LineEnd(F, from, m)])
    ensures Records(x, F, from, m) == Record(x, x.trim(F[from..n])) + Records(x, F, n, m)
  {
    var j := LineEnd(F, from, m);
    LineEndIs(F, n, m, j);
    CutLine(x, F, from, n, j);
    var next := if j == m then m else j + 1;
    if InProgress(x, F, from, m) {
      assert InProgress(x, F, n, m) && Record(x, x.trim(F[from..n])) == [];
    } else {
      FirstLine(x, F, from, m, j, next);
      FirstLine(x, F, n, m, j, next);
      Assoc(Record(x, x.trim(F[from..n])), Record(x, x.trim(F[n..j])), Records(x, F, next, m));
    }
  }

  /** A read of F[..n] and then, from the returned offset, one of F[..m], yield the records of
      one read of F[..m]. */
  lemma {:induction false} RecordsSplit(x: Rules, F: string, from: nat, n: nat, m: nat)
    requires x.trim == Trim
    requires from <= n <= m <= |F| && Settled(x, F, from)
    ensures Records(x, F, from, m) == Records(x, F, from, n) + Records(x, F, Next(x, F, from, n), m)
    decreases n - from
  {
    if from < n && !InProgress(x, F, from, n) {
      var k := LineEnd(F, from, n);
      if k < n {
        SettledNext(x, F, from, n);
        RecordsSplit(x, F, k + 1, n, m);
        WholeLineSplit(x, F, from, n, m, k);
      } else {
        LastLineSplit(x, F, from, n, m);
      }
    }
  }

  lemma SettledNext(x: Rules, F: string, from: nat, n: nat)
    requires from <= n <= |F| && Settled(x, F, from) && LineEnd(F, from, n) < n
    ensures Settled(x, F, LineEnd(F, from, n) + 1)
  {
    LineEndIs(F, from, |F|, LineEnd(F, from, n));
  }

  lemma LastLineSplit(x: Rules, F: string, from: nat, n: nat, m: nat)
    requires x.trim == Trim
    requires from < n <= m <= |F| && Settled(x, F, from) && LineEnd(F, from, n) == n && !InProgress(x, F, from, n)
    ensures Records(x, F, from, m) == Records(x, F, from, n) + Records(x, F, Next(x, F, from, n), m)
  {
    LastLineRead(x, F, from, n);
    if n < m {
      SettledStart(x, F, from, m);
      CutLastLine(x, F, from, n, m);
    }
  }

  /** A last line that is not in progress is read whole. */
  lemma LastLineRead(x: Rules, F: string, from: nat, n: nat)
    requires from < n <= |F| && LineEnd(F, from, n) == n && !InProgress(x, F, from, n)
    ensures Records(x, F, from, n) == Record(x, x.trim(F[from..n])) && Next(x, F, from, n) == n
    ensures Records(x, F, n, n) == []
  {
    FirstLine(x, F, from, n, n, n);
  }

  lemma SettledStart(x: Rules, F: string, from: nat, m: nat)
    requires from <= m <= |F| && Settled(x, F, from)
    ensures SettledLine(x, F[from..LineEnd(F, from, m)])
  {
    SettledBeginning(x, F, from, LineEnd(F, from, m), LineEnd(F, from, |F|));
  }

  lemma WholeLineSplit(x: Rules, F: string, from: nat, n: nat, m: nat, k: nat)
    requires from <= k < n <= m <= |F| && k == LineEnd(F, from, n)
    requires Records(x, F, k + 1, m) == Records(x, F, k + 1, n) + Records(x, F, Next(x, F, k + 1, n), m)
    ensures Records(x, F, from, m) == Records(x, F, from, n) + Records(x, F, Next(x, F, from, n), m)
  {
    LineEndIs(F, from, m, k);
    FirstLine(x, F, from, m, k, k + 1);
    FirstLine(x, F, from, n, k, k + 1);
    Assoc(Record(x, x.trim(F[from..k])), Records(x, F, k + 1, n), Records(x, F, Next(x, F, from, n), m));
  }

  lemma NextLater(x: Rules, F: string, from: nat, n: nat, k: nat)
    requires from <= k < n <= |F| && k == LineEnd(F, from, n)
    ensures Next(x, F, from, n) == Next(x, F, k + 1, n)
  {
  }

  lemma StillSettled(x: Rules, F: string, from: nat, n: nat, k: nat)
    requires from <= k < n <= |F| && k == LineEnd(F, from, n) && Settled(x, F, Next(x, F, k + 1, n))
    ensures Settled(x, F, Next(x, F, from, n))
  {
    NextLater(x, F, from, n, k);
  }

  /** What is left to read is settled again. */
  lemma {:induction false} NextIsSettled(x: Rules, F: string, from: nat, n: nat)
    requires x.trim == Trim
    requires from <= n <= |F| && Settled(x, F, from)
    ensures Settled(x, F, Next(x, F, from, n))
    decreases n - from
  {
    if from < n && !InProgress(x, F, from, n) {
      var k := LineEnd(F, from, n);
      if k < n {
        SettledNext(x, F, from, n);
        NextIsSettled(x, F, k + 1, n);
        StillSettled(x, F, from, n, k);
      } else {
        RestIsSettled(x, F, from, n);
      }
    }
  }

  lemma RestIsSettled(x: Rules, F: string, from: nat, n: nat)
    requires x.trim == Trim
    requires from < n <= |F| && Settled(x, F, from) && LineEnd(F, from, n) == n && !InProgress(x, F, from, n)
    ensures Settled(x, F, n)
  {
    var e := LineEnd(F, from, |F|);
    LineEndIs(F, n, |F|, e);
    CutLine(x, F, from, n, e);
  }

  // ---- polling ----

  lemma {:induction false} NothingAfterMatters(x: Rules, F: string, G: string, from: nat, n: nat)
    requires from <= n == |G| <= |F| && F[..n] == G
    ensures Records(x, G, from, n) == Records(x, F, from, n)
    ensures Next(x, G, from, n) == Next(x, F, from, n)
    decreases n - from
  {
    var k := LineEnd(F, from, n);
    LineEndIs(G, from, n, k);
    assert x.trim(G[from..k]) == x.trim(F[from..k]) by { assert G[from..k] == F[from..k]; }
    if from < n && !InProgress(x, F, from, n) {
      var next := if k == n then n else k + 1;
      FirstLine(x, F, from, n, k, next);
      FirstLine(x, G, from, n, k, next);
      NothingAfterMatters(x, F, G, next, n);
    }
  }

  /** Reading the file as it is at length n looks at nothing after n. */
  lemma ReadsWhatIsThere(x: Rules, F: string, from: nat, n: nat)
    requires from <= n <= |F|
    ensures ReadFrom(x, Some(F[..n]), from) == Read(Records(x, F, from, n), Next(x, F, from, n))
  {
    NothingAfterMatters(x, F, F[..n], from, n);
  }

  /** Lengths of the file at successive reads. */
  predicate Schedule(lengths: seq<nat>, size: nat) {
    && (forall i | 0 <= i < |lengths| :: lengths[i] <= size)
    && (forall i, j | 0 <= i < j < |lengths| :: lengths[i] <= lengths[j])
  }

  /** The offset of a reader that passes each returned offset to the next read; the file is
      F[..length] at the time of a read. */
  function Offset(x: Rules, F: string, lengths: seq<nat>): (r: nat)
    requires Schedule(lengths, |F|)
    ensures r <= (if lengths == [] then 0 else lengths[|lengths| - 1])
    decreases |lengths|
  {
    if lengths == [] then 0
    else
      var n := |lengths| - 1;
      Next(x, F, Offset(x, F, lengths[..n]), lengths[n])
  }

  /** All the records it was given. */
  function Polled(x: Rules, F: string, lengths: seq<nat>): seq<string>
    requires Schedule(lengths, |F|)
    decreases |lengths|
  {
    if lengths == [] then []
    else
      var n := |lengths| - 1;
      Polled(x, F, lengths[..n]) + Records(x, F, Offset(x, F, lengths[..n]), lengths[n])
  }

  /** No record is lost, duplicated or torn by reading a growing file in pieces: at any later
      length, the polled records and those read from the returned offset are all there are. */
  lemma {:induction false} PollingIsExact(x: Rules, F: string, lengths: seq<nat>, m: nat)
    requires x.trim == Trim
    requires Settled(x, F, 0) && Schedule(lengths, |F|) && m <= |F|
    requires lengths == [] || lengths[|lengths| - 1] <= m
    ensures Settled(x, F, Offset(x, F, lengths))
    ensures Records(x, F, 0, m) == Polled(x, F, lengths) + Records(x, F, Offset(x, F, lengths), m)
    decreases |lengths|
  {
    if lengths != [] {
      var k := |lengths| - 1;
      var from := Offset(x, F, lengths[..k]);
      PollingIsExact(x, F, lengths[..k], m);
      RecordsSplit(x, F, from, lengths[k], m);
      NextIsSettled(x, F, from, lengths[k]);
      Assoc(Polled(x, F, lengths[..k]), Records(x, F, from, lengths[k]),
            Records(x, F, Offset(x, F, lengths), m));
    }
  }

  /** Polling a settled file, however it grows between reads, returns exactly the records of
      one read of its last observed contents. */
  lemma PollingEqualsOneRead(x: Rules, F: string, lengths: seq<nat>)
    requires x.trim == Trim
    requires Settled(x, F, 0) && Schedule(lengths, |F|) && lengths != []
    ensures Polled(x, F, lengths) == Records(x, F, 0, lengths[|lengths| - 1])
  {
    var k := |lengths| - 1;
    PollingIsExact(x, F, lengths[..k], lengths[k]);
  }

  /** Reading again from where a read ended finds nothing new. */
  lemma {:induction false} RescanFindsNothing(x: Rules, F: string, from: nat, n: nat)
    requires from <= n <= |F|
    ensures var next := Next(x, F, from, n);
            Records(x, F, next, n) == [] && Next(x, F, next, n) == next
    decreases n - from
  {
    if from < n && !InProgress(x, F, from, n) {
      var k := LineEnd(F, from, n);
      if k < n {
        RescanFindsNothing(x, F, k + 1, n);
      }
    }
  }

  lemma OffsetStep(x: Rules, F: string, lengths: seq<nat>)
    requires Schedule(lengths, |F|) && lengths != []
    ensures Offset(x, F, lengths[..|lengths| - 1]) <= Offset(x, F, lengths)
  {
  }

  /** Offsets never go back, and never pass the end of what has been observed. */
  lemma {:induction false} OffsetsGrow(x: Rules, F: string, lengths: seq<nat>, k: nat)
    requires Schedule(lengths, |F|) && k <= |lengths|
    ensures Offset(x, F, lengths[..k]) <= Offset(x, F, lengths) <= (if lengths == [] then 0 else lengths[|lengths| - 1])
    decreases |lengths|
  {
    if k == |lengths| {
      assert lengths[..k] == lengths;
    } else {
      var before := lengths[..|lengths| - 1];
      assert before[..k] == lengths[..k];
      OffsetsGrow(x, F, before, k);
      OffsetStep(x, F, lengths);
    }
  }
}
