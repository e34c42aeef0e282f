/** The diagnostic capture of internal.go: a ring of the last lines, and a reader that cuts the
    bytes passing through it into lines, whatever the sizes of the reads. */
module Capture {
  import opened Bytes

  lemma LastNAgain<T>(a: seq<T>, b: seq<T>, n: nat)
    ensures LastN(LastN(a, n) + b, n) == LastN(a + b, n)
  {
  }

  /** The ring's slots, oldest first. */
  function InOrder(slots: seq<string>, pos: nat, full: bool): seq<string>
    requires pos <= |slots|
  {
    if full then slots[pos..] + slots[..pos] else slots[..pos]
  }

  lemma AddInOrder(slots: seq<string>, pos: nat, full: bool, line: string)
    requires pos < |slots|
    ensures var wraps := pos + 1 == |slots|;
            InOrder(slots[pos := line], if wraps then 0 else pos + 1, full || wraps)
            == LastN(InOrder(slots, pos, full) + [line], |slots|)
  {
    var after := slots[pos := line];
    var newer, older := slots[..pos], slots[pos + 1..];
    assert after[..pos + 1] == newer + [line] && after[pos + 1..] == older;
    if full {
      assert slots[pos..] == [slots[pos]] + older;
      ForgetOldest(slots[pos], older, newer, line);
      assert after[0..] + after[..0] == after;
      assert older == [] ==> older + (newer + [line]) == after;
    } else {
      assert after[0..] + after[..0] == after;
    }
  }

  lemma ForgetOldest(oldest: string, older: seq<string>, newer: seq<string>, line: string)
    ensures LastN(([oldest] + older) + newer + [line], |older| + |newer| + 1) == older + (newer + [line])
  {
  }

  class StderrRing {
    var buf: array<string>
    var pos: nat
    var full: bool

    ghost predicate Valid()
      reads this
    {
      pos < buf.Length
    }

    ghost function Contents(): seq<string>
      reads this, buf
      requires Valid()
    {
      InOrder(buf[..], pos, full)
    }

    constructor (capacity: nat)
      requires capacity > 0
      ensures Valid() && fresh(buf) && buf.Length == capacity && Contents() == []
    {
      buf := new string[capacity](_ => "");
      pos, full := 0, false;
    }

    method Add(line: string)
      requires Valid()
      modifies this`pos, this`full, buf
      ensures Valid()
      ensures Contents() == LastN(old(Contents()) + [line], buf.Length)
    {
      ghost var before := buf[..];
      AddInOrder(before, pos, full, line);
      buf[pos] := line;
      assert buf[..] == before[pos := line];
      pos := pos + 1;
      if pos == buf.Length {
        pos := 0;
        full := true;
      }
    }

    /** All collected lines, oldest first. */
    method Lines() returns (r: seq<string>)
      requires Valid()
      ensures r == Contents()
    {
      if !full {
        return buf[..pos];
      }
      var out := new string[buf.Length](_ => "");
      var n := buf.Length - pos;
      forall i | 0 <= i < n {
        out[i] := buf[pos + i];
      }
      forall i | 0 <= i < pos {
        out[n + i] := buf[i];
      }
      assert out[..n] == buf[pos..] && out[n..] == buf[..pos];
      assert out[..] == out[..n] + out[n..];
      r := out[..];
    }
  }

  // ---- the capture, a byte at a time ----

  /** The kept lines, and the bytes after the last newline. */
  datatype Captured = Captured(ring: seq<string>, rest: string)

  const EMPTY := Captured([], "")

  function Push(c: Captured, b: char, n: nat): Captured {
    if b == '\n' then Captured(LastN(c.ring + [c.rest], n), "") else Captured(c.ring, c.rest + [b])
  }

  function Feed(c: Captured, data: string, n: nat): Captured
    decreases |data|
  {
    if data == "" then c else Push(Feed(c, data[..|data| - 1], n), data[|data| - 1], n)
  }

  function Flush(c: Captured, n: nat): Captured {
    if c.rest == "" then c else Captured(LastN(c.ring + [c.rest], n), "")
  }

  lemma {:induction false} FeedAppend(c: Captured, a: string, b: string, n: nat)
    ensures Feed(c, a + b, n) == Feed(Feed(c, a, n), b, n)
    decreases |b|
  {
    if b == "" {
      assert a + b == a;
    } else {
      assert (a + b)[..|a + b| - 1] == a + b[..|b| - 1];
      FeedAppend(c, a, b[..|b| - 1], n);
    }
  }

  lemma {:induction false} FeedPartial(c: Captured, data: string, n: nat)
    requires '\n' !in data
    ensures Feed(c, data, n) == Captured(c.ring, c.rest + data)
    decreases |data|
  {
    if data == "" {
      assert c.rest + data == c.rest;
    } else {
      var k := |data| - 1;
      FeedPartial(c, data[..k], n);
      assert c.rest + data == (c.rest + data[..k]) + [data[k]];
    }
  }

  /** One whole line, newline included. */
  lemma FeedLine(c: Captured, line: string, n: nat)
    requires '\n' !in line
    ensures Feed(c, line + "\n", n) == Captured(LastN(c.ring + [c.rest + line], n), "")
  {
    FeedPartial(c, line, n);
    assert (line + "\n")[..|line|] == line;
  }

  lemma FeedFresh(ring: seq<string>, line: string, n: nat)
    requires '\n' !in line
    ensures Feed(Captured(ring, ""), line + "\n", n) == Captured(LastN(ring + [line], n), "")
  {
    FeedLine(Captured(ring, ""), line, n);
    assert "" + line == line;
  }

  /** Bytes already buffered may be fed again: the loop restarts from the front of its buffer. */
  lemma FeedBuffered(c: Captured, data: string, n: nat)
    requires '\n' !in c.rest
    ensures Feed(c, data, n) == Feed(Captured(c.ring, ""), c.rest + data, n)
  {
    FeedPartial(Captured(c.ring, ""), c.rest, n);
    FeedAppend(Captured(c.ring, ""), c.rest, data, n);
    assert "" + c.rest == c.rest;
  }

  lemma FirstNewline(s: string)
    ensures var i := IndexByte(s, '\n');
            if i < 0 then '\n' !in s else s[i] == '\n' && '\n' !in s[..i]
  {
    IndexIsFirst(s, '\n', 0);
  }

  class LineCaptureReader {
    const ring: StderrRing
    var buf: string

    ghost predicate Valid()
      reads this, ring
    {
      ring.Valid() && '\n' !in buf
    }

    ghost function View(): Captured
      reads this, ring, ring.buf
      requires Valid()
    {
      Captured(ring.Contents(), buf)
    }

    constructor (ring: StderrRing)
      requires ring.Valid() && ring.Contents() == []
      ensures Valid() && this.ring == ring && View() == EMPTY
    {
      this.ring := ring;
      buf := "";
    }

    /** The part of Read after the underlying read returned the bytes p. */
    method Read(p: string)
      requires Valid()
      modifies this`buf, ring`pos, ring`full, ring.buf
      ensures Valid()
      ensures View() == Feed(old(View()), p, ring.buf.Length)
    {
      if |p| == 0 {
        return;
      }
      ghost var n, goal := ring.buf.Length, Feed(View(), p, ring.buf.Length);
      FeedBuffered(View(), p, n);
      buf := buf + p;
      while true
        invariant ring.Valid() && ring.buf.Length == n
        invariant Feed(Captured(ring.Contents(), ""), buf, n) == goal
        decreases |buf|
      {
        var i := IndexByte(buf, '\n');
        FirstNewline(buf);
        if i < 0 {
          break;
        }
        ghost var c := Captured(ring.Contents(), "");
        assert buf == (buf[..i] + "\n") + buf[i + 1..];
        FeedAppend(c, buf[..i] + "\n", buf[i + 1..], n);
        FeedFresh(c.ring, buf[..i], n);
        ring.Add(buf[..i]);
        buf := buf[i + 1..];
      }
      FeedPartial(Captured(ring.Contents(), ""), buf, n);
      assert "" + buf == buf;
    }

    method FlushRest()
      requires Valid()
      modifies this`buf, ring`pos, ring`full, ring.buf
      ensures Valid()
      ensures View() == Flush(old(View()), ring.buf.Length)
    {
      if |buf| > 0 {
        ring.Add(buf);
        buf := "";
      }
    }
  }

  // ---- what a run of reads leaves ----

  function Concat(chunks: seq<string>): string {
    if chunks == [] then "" else Concat(chunks[..|chunks| - 1]) + chunks[|chunks| - 1]
  }

  /** The state after reads that returned these chunks. */
  function AfterReads(chunks: seq<string>, n: nat): Captured {
    if chunks == [] then EMPTY else Feed(AfterReads(chunks[..|chunks| - 1], n), chunks[|chunks| - 1], n)
  }

  /** How the stream was cut into reads does not matter. */
  lemma {:induction false} ChunksDoNotMatter(chunks: seq<string>, n: nat)
    ensures AfterReads(chunks, n) == Feed(EMPTY, Concat(chunks), n)
  {
    if chunks != [] {
      var k := |chunks| - 1;
      ChunksDoNotMatter(chunks[..k], n);
      FeedAppend(EMPTY, Concat(chunks[..k]), chunks[k], n);
    }
  }

  /** The lines, each ended by a newline. */
  function Unlines(lines: seq<string>): string {
    if lines == [] then "" else Unlines(lines[..|lines| - 1]) + (lines[|lines| - 1] + "\n")
  }

  /** The stream is these newline-ended lines and then this rest. */
  predicate Delimited(data: string, lines: seq<string>, rest: string) {
    data == Unlines(lines) + rest && '\n' !in rest && forall i | 0 <= i < |lines| :: '\n' !in lines[i]
  }

  lemma {:induction false} LinesFed(lines: seq<string>, n: nat)
    requires forall i | 0 <= i < |lines| :: '\n' !in lines[i]
    ensures Feed(EMPTY, Unlines(lines), n) == Captured(LastN(lines, n), "")
  {
    if lines != [] {
      var k := |lines| - 1;
      LinesFed(lines[..k], n);
      FeedAppend(EMPTY, Unlines(lines[..k]), lines[k] + "\n", n);
      FeedFresh(LastN(lines[..k], n), lines[k], n);
      LastNAgain(lines[..k], [lines[k]], n);
      assert lines == lines[..k] + [lines[k]];
    }
  }

  /** After any reads the ring holds the last n whole lines and the buffer the bytes after the
      last newline; after the flush, an unended last line counts as a line too. */
  lemma CaptureIsLastLines(chunks: seq<string>, n: nat, lines: seq<string>, rest: string)
    requires Delimited(Concat(chunks), lines, rest)
    ensures AfterReads(chunks, n) == Captured(LastN(lines, n), rest)
    ensures Flush(AfterReads(chunks, n), n)
         == Captured(LastN(lines + (if rest == "" then [] else [rest]), n), "")
  {
    ChunksDoNotMatter(chunks, n);
    FeedAppend(EMPTY, Unlines(lines), rest, n);
    LinesFed(lines, n);
    FeedPartial(Captured(LastN(lines, n), ""), rest, n);
    assert "" + rest == rest;
    LastNAgain(lines, [rest], n);
    assert lines + [] == lines;
  }

  /** Every stream has such a division. */
  lemma {:induction false} EveryStreamDivides(data: string) returns (lines: seq<string>, rest: string)
    ensures Delimited(data, lines, rest)
    decreases |data|
  {
    lines, rest := [], "";
    if data != "" {
      var k := |data| - 1;
      var b := data[k];
      lines, rest := EveryStreamDivides(data[..k]);
      assert data == data[..k] + [b];
      if b == '\n' {
        assert (lines + [rest])[..|lines|] == lines;
        assert data == Unlines(lines) + (rest + "\n");
        lines, rest := lines + [rest], "";
      } else {
        assert data == Unlines(lines) + (rest + [b]);
        rest := rest + [b];
      }
    }
  }
}
