/** Reading lines of bounded length from a buffered reader that yields its bytes in arbitrary chunks. */
module BoundedLine {
  import opened Base

  const NEWLINE: Byte := 10

  datatype Outcome = Line(text: string) | TooLong | Eof | InvalidData | IoError

  /** A buffered reader. How much of the stream each fill exposes is up to the reader. */
  class Reader {
    var stream: seq<Byte>

    constructor (stream: seq<Byte>)
      ensures this.stream == stream
    {
      this.stream := stream;
    }

    /** Exposes some bytes, none only at the end of the stream; or fails. */
    method FillBuf() returns (available: Option<seq<Byte>>)
      ensures available.Some? ==> available.value <= stream
      ensures available.Some? ==> (available.value == [] <==> stream == [])
    {
      if * {
        return None;
      }
      if stream == [] {
        return Some([]);
      }
      var n: nat :| 1 <= n <= |stream|;
      available := Some(stream[..n]);
    }

    method Consume(n: nat)
      requires n <= |stream|
      modifies this
      ensures stream == old(stream)[n..]
    {
      stream := stream[n..];
    }
  }

  // ---- What a read is to do --------------------------------------------------------------------

  /** The length of the first line, its newline included. */
  function LineLength(s: seq<Byte>): (n: nat)
    ensures n <= |s| && (s != [] ==> n > 0)
    ensures forall i :: 0 <= i < n - 1 ==> s[i] != NEWLINE
    ensures n < |s| ==> s[n - 1] == NEWLINE
  {
    if s == [] then 0 else if s[0] == NEWLINE then 1 else 1 + LineLength(s[1..])
  }

  function FirstNewline(s: seq<Byte>): (at: Option<nat>)
    ensures at.Some? ==> at.value < |s| && s[at.value] == NEWLINE && forall i :: 0 <= i < at.value ==> s[i] != NEWLINE
    ensures at.None? ==> NEWLINE !in s
  {
    if s == [] then None
    else if s[0] == NEWLINE then Some(0)
    else
      var rest := FirstNewline(s[1..]);
      if rest.Some? then Some(rest.value + 1) else None
  }

  function Decoded(bytes: seq<Byte>, decode: seq<Byte> -> Option<string>): Outcome {
    var text := decode(bytes);
    if text.Some? then Line(text.value) else InvalidData
  }

  /** The outcome of a read, told from the stream and the limit alone. */
  function Expected(s: seq<Byte>, max: nat, decode: seq<Byte> -> Option<string>): Outcome {
    if s == [] then Eof
    else if LineLength(s) > max then TooLong
    else Decoded(s[..LineLength(s)], decode)
  }

  /** `read` bytes have been taken from `s`, none of them a newline. */
  ghost predicate Midway(s: seq<Byte>, read: nat) {
    read <= |s| && forall i :: 0 <= i < read ==> s[i] != NEWLINE
  }

  lemma {:induction false} LineLengthIs(s: seq<Byte>, n: nat)
    requires n <= |s| && (s != [] ==> n > 0)
    requires forall i :: 0 <= i < n - 1 ==> s[i] != NEWLINE
    requires n > 0 && s[n - 1] != NEWLINE ==> n == |s|
    ensures LineLength(s) == n
  {
    var m := LineLength(s);
    assert 0 < m < |s| ==> s[m - 1] == NEWLINE;
  }

  lemma AtEnd(s: seq<Byte>)
    requires forall i :: 0 <= i < |s| ==> s[i] != NEWLINE
    ensures LineLength(s) == |s| && s[..|s|] == s && s[|s|..] == []
  {
    LineLengthIs(s, |s|);
  }

  /** What is kept of the first `read` bytes. */
  ghost predicate Kept(s: seq<Byte>, read: nat, max: nat, bytes: seq<Byte>, tooLong: bool)
    requires read <= |s|
  {
    && (tooLong <==> read > max)
    && bytes == if tooLong then [] else s[..read]
  }

  /** Keeps a chunk, or gives up the line once it exceeds the limit. */
  method Take(bytes: seq<Byte>, tooLong: bool, chunk: seq<Byte>, max: nat, ghost s: seq<Byte>, ghost read: nat)
    returns (more: seq<Byte>, over: bool)
    requires read + |chunk| <= |s| && Kept(s, read, max, bytes, tooLong) && s[..read] + chunk == s[..read + |chunk|]
    ensures Kept(s, read + |chunk|, max, more, over)
  {
    if tooLong {
      return bytes, true;
    }
    var remaining := SaturatingSub(max, |bytes|);
    if |chunk| <= remaining {
      more, over := bytes + chunk, false;
    } else {
      more, over := [], true;
    }
  }

  /**
   Reads one line. Whatever chunks the reader yields, the outcome and the bytes consumed depend only
   on the stream and the limit: a line is too long exactly when it exceeds the limit with its newline,
   and the next read starts right behind that newline.
   */
  method ReadBoundedLine(reader: Reader, max: nat, decode: seq<Byte> -> Option<string>) returns (outcome: Outcome)
    modifies reader
    ensures outcome != IoError ==> outcome == Expected(old(reader.stream), max, decode)
    ensures outcome != IoError ==> reader.stream == old(reader.stream)[LineLength(old(reader.stream))..]
  {
    ghost var s := reader.stream;
    ghost var read: nat := 0;
    var bytes: seq<Byte> := [];
    var tooLong := false;
    while true
      invariant Midway(s, read) && reader.stream == s[read..]
      invariant Kept(s, read, max, bytes, tooLong)
      decreases |reader.stream|
    {
      var filled := reader.FillBuf();
      if filled.None? {
        return IoError;
      }
      var available := filled.value;
      if available == [] {
        AtEnd(s);
        assert s[..read] == s;
        return if tooLong then TooLong else if bytes == [] then Eof else Decoded(bytes, decode);
      }
      var newline := FirstNewline(available);
      var consumed := if newline.Some? then newline.value + 1 else |available|;
      Chunk(s, read, available, consumed);
      bytes, tooLong := Take(bytes, tooLong, available[..consumed], max, s, read);
      reader.Consume(consumed);
      read := read + consumed;
      assert reader.stream == s[read..];
      if newline.Some? {
        LineLengthIs(s, read);
        return if tooLong then TooLong else Decoded(bytes, decode);
      }
    }
  }

  lemma Chunk(s: seq<Byte>, read: nat, available: seq<Byte>, consumed: nat)
    requires Midway(s, read) && available <= s[read..] && consumed <= |available|
    ensures s[..read] + available[..consumed] == s[..read + consumed]
    ensures forall i :: 0 <= i < consumed ==> s[read + i] == available[i]
  {
    assert s == s[..read] + s[read..];
    assert available[..consumed] == s[read..][..consumed];
    assert forall i :: 0 <= i < consumed ==> s[read..][i] == available[i];
  }

  // ---- The reading loop ------------------------------------------------------------------------

  /** What the reader thread sends: one outcome per line, up to the end or the first undecodable line. */
  function Events(s: seq<Byte>, max: nat, decode: seq<Byte> -> Option<string>): seq<Outcome>
    decreases |s|
  {
    var outcome := Expected(s, max, decode);
    if outcome == Eof || outcome == InvalidData then [outcome]
    else [outcome] + Events(s[LineLength(s)..], max, decode)
  }

  /**
   What is sent of all the events a stream calls for: the first ones, but for a last one that reports a
   failed read; and all of them unless a read fails or the receiver goes away.
   */
  ghost predicate Sent(all: seq<Outcome>, events: seq<Outcome>, receives: nat -> bool) {
    && events != [] && Front(events) <= all
    && (forall k :: 0 <= k < |events| - 1 ==> receives(k))
    && (Last(events) != IoError ==> events <= all)
    && (Last(events) != IoError && receives(|events| - 1) ==> events == all)
  }

  /** The events sent so far leave `rest`. */
  ghost predicate Underway(all: seq<Outcome>, events: seq<Outcome>, rest: seq<Outcome>, receives: nat -> bool) {
    all == events + rest && forall k :: 0 <= k < |events| ==> receives(k)
  }

  predicate Stops(outcome: Outcome) {
    outcome == Eof || outcome == InvalidData || outcome == IoError
  }

  /** The events behind the first one. */
  function Later(s: seq<Byte>, max: nat, decode: seq<Byte> -> Option<string>): seq<Outcome> {
    if Stops(Expected(s, max, decode)) then [] else Events(s[LineLength(s)..], max, decode)
  }

  lemma EventsOf(s: seq<Byte>, max: nat, decode: seq<Byte> -> Option<string>)
    ensures Events(s, max, decode) == [Expected(s, max, decode)] + Later(s, max, decode)
    ensures !Stops(Expected(s, max, decode)) ==> |s[LineLength(s)..]| < |s|
  {
  }

  lemma SendOne(all: seq<Outcome>, events: seq<Outcome>, next: Outcome, later: seq<Outcome>, receives: nat -> bool, outcome: Outcome)
    requires Underway(all, events, [next] + later, receives)
    requires outcome == IoError || outcome == next
    requires Stops(next) ==> later == []
    ensures Stops(outcome) || !receives(|events|) ==> Sent(all, events + [outcome], receives)
    ensures !Stops(outcome) && receives(|events|) ==> Underway(all, events + [outcome], later, receives)
  {
    Associative(events, [next], later);
    assert Front(events + [outcome]) == events;
  }

  /** The reader thread. `receives(k)` tells whether the receiver is still there for event `k`. */
  method StdinReadLoop(reader: Reader, max: nat, decode: seq<Byte> -> Option<string>, receives: nat -> bool)
    returns (events: seq<Outcome>)
    modifies reader
    ensures Sent(Events(old(reader.stream), max, decode), events, receives)
  {
    events := [];
    ghost var all := Events(reader.stream, max, decode);
    ghost var rest := all;
    while true
      invariant Underway(all, events, rest, receives) && rest == Events(reader.stream, max, decode)
      decreases |reader.stream|
    {
      ghost var s := reader.stream;
      EventsOf(s, max, decode);
      rest := Later(s, max, decode);
      var outcome := ReadBoundedLine(reader, max, decode);
      SendOne(all, events, Expected(s, max, decode), rest, receives, outcome);
      events := events + [outcome];
      if Stops(outcome) || !receives(|events| - 1) {
        return;
      }
    }
  }

  /** A line is refused for its length exactly when it exceeds the limit, newline included. */
  lemma TooLongExactly(line: seq<Byte>, rest: seq<Byte>, max: nat, decode: seq<Byte> -> Option<string>)
    requires 10 !in line
    ensures Expected(line + [10] + rest, max, decode) == TooLong <==> |line| + 1 > max
    ensures (line + [10] + rest)[LineLength(line + [10] + rest)..] == rest
    ensures |line| + 1 <= max ==>
              Expected(line + [10] + rest, max, decode)
              == if decode(line + [10]).Some? then Line(decode(line + [10]).value) else InvalidData
  {
    var s := line + [NEWLINE] + rest;
    LineLengthIs(s, |line| + 1);
    assert s[..|line| + 1] == line + [NEWLINE];
  }

  /** The last line needs no newline, and behind it the stream ends. */
  lemma LastLineExactly(line: seq<Byte>, max: nat, decode: seq<Byte> -> Option<string>)
    requires 10 !in line
    ensures LineLength(line) == |line|
    ensures Expected(line, max, decode)
         == if |line| == 0 then Eof
            else if |line| > max then TooLong
            else if decode(line).Some? then Line(decode(line).value) else InvalidData
    ensures Events([], max, decode) == [Eof]
  {
    AtEnd(line);
  }

  /** Every line is answered for itself, in order, and reading goes on behind a line that was too long. */
  lemma EventsByLine(line: seq<Byte>, rest: seq<Byte>, max: nat, decode: seq<Byte> -> Option<string>)
    requires NEWLINE !in line
    ensures var answer := if |line| + 1 > max then TooLong else Decoded(line + [NEWLINE], decode);
            Events(line + [NEWLINE] + rest, max, decode)
            == if answer == InvalidData then [answer] else [answer] + Events(rest, max, decode)
  {
    TooLongExactly(line, rest, max, decode);
  }
}
