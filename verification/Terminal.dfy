/**
 What the terminal is shown: complete SGR sequences are cut from a display copy of tool output, and
 text of the application's own is made safe to print.
 */
module Terminal {
  import opened Base

  const ESC: Byte := 0x1b
  const BEL: Byte := 0x07
  const BRACKET: Byte := 0x5b // [
  const LETTER_M: Byte := 0x6d
  const BACKSLASH: Byte := 0x5c
  const C1: Byte := 0xc2 // lead byte of the two-byte C1 controls

  // ---- The scanner's pieces --------------------------------------------------------------------

  predicate IsParameter(b: Byte) {
    0x30 <= b <= 0x39 || b == 0x3b || b == 0x3a
  }

  /** `Some(osc)` if a control string starts here. */
  function StringStart(b: seq<Byte>, at: nat): Option<bool> {
    if at + 2 > |b| then None
    else if (b[at] == ESC && b[at + 1] == 0x5d) || (b[at] == C1 && b[at + 1] == 0x9d) then Some(true)
    else if || (b[at] == ESC && (b[at + 1] == 0x50 || b[at + 1] == 0x58 || b[at + 1] == 0x5e || b[at + 1] == 0x5f))
            || (b[at] == C1 && (b[at + 1] == 0x90 || b[at + 1] == 0x98 || b[at + 1] == 0x9e || b[at + 1] == 0x9f))
    then Some(false)
    else None
  }

  /** The length of the terminator at a place, zero if there is none. */
  function Terminator(b: seq<Byte>, at: nat, osc: bool): (n: nat)
    ensures at + n <= |b| || n == 0
    ensures n > 0 ==> at < |b|
  {
    if at >= |b| then 0
    else if osc && b[at] == BEL then 1
    else if at + 2 <= |b| && ((b[at] == ESC && b[at + 1] == BACKSLASH) || (b[at] == C1 && b[at + 1] == 0x9c)) then 2
    else 0
  }

  predicate SequenceStart(b: seq<Byte>, at: nat) {
    at + 2 <= |b| && b[at] == ESC && b[at + 1] == BRACKET
  }

  // ---- The grammar -----------------------------------------------------------------------------

  /** Complete SGR; another or unfinished control sequence; a control string; any other byte. */
  datatype Kind = Sgr | Partial | Control(osc: bool) | Plain

  datatype Token = Token(kind: Kind, text: seq<Byte>)

  ghost predicate AllParameters(t: seq<Byte>, from: nat, to: nat)
    requires to <= |t|
  {
    forall i :: from <= i < to ==> IsParameter(t[i])
  }

  /** No terminator starts in the payload before `to`. */
  ghost predicate Unterminated(t: seq<Byte>, osc: bool, to: nat) {
    forall i :: 2 <= i < to ==> Terminator(t, i, osc) == 0
  }

  /** The payload runs up to a terminator of length `n` that closes the text. */
  ghost predicate ClosedBy(t: seq<Byte>, osc: bool, n: nat) {
    1 <= n <= |t| - 2 && Terminator(t, |t| - n, osc) == n && Unterminated(t, osc, |t| - n)
  }

  ghost predicate IsControl(t: seq<Byte>, osc: bool, rest: seq<Byte>) {
    && |t| >= 2 && StringStart(t, 0) == Some(osc)
    && ((rest == [] && Unterminated(t, osc, |t|)) || exists n :: ClosedBy(t, osc, n))
  }

  /** `token` is a token of the grammar when `rest` follows it. */
  ghost predicate IsToken(token: Token, rest: seq<Byte>) {
    var t := token.text;
    match token.kind
    case Sgr => |t| >= 3 && SequenceStart(t, 0) && AllParameters(t, 2, |t| - 1) && Last(t) == LETTER_M
    case Partial =>
      && |t| >= 2 && SequenceStart(t, 0) && AllParameters(t, 2, |t|)
      && (rest != [] ==> !IsParameter(rest[0]) && rest[0] != LETTER_M)
    case Control(osc) => IsControl(t, osc, rest)
    case Plain => |t| == 1 && StringStart(t + rest, 0).None? && !SequenceStart(t + rest, 0)
  }

  /** A reading of the whole text as tokens. */
  ghost predicate Reads(tokens: seq<Token>, b: seq<Byte>)
    decreases |tokens|
  {
    if tokens == [] then b == []
    else
      && tokens[0].text <= b
      && IsToken(tokens[0], b[|tokens[0].text|..])
      && Reads(tokens[1..], b[|tokens[0].text|..])
  }

  /** What is displayed: every token but the complete SGR sequences, byte for byte. */
  function Shown(tokens: seq<Token>): seq<Byte> {
    if tokens == [] then []
    else (if tokens[0].kind.Sgr? then [] else tokens[0].text) + Shown(tokens[1..])
  }

  // ---- Reading token by token ------------------------------------------------------------------

  function ParameterEnd(b: seq<Byte>, at: nat): (end: nat)
    requires at <= |b|
    ensures at <= end <= |b|
    ensures forall i :: at <= i < end ==> IsParameter(b[i])
    ensures end < |b| ==> !IsParameter(b[end])
    decreases |b| - at
  {
    if at < |b| && IsParameter(b[at]) then ParameterEnd(b, at + 1) else at
  }

  function StringEnd(b: seq<Byte>, at: nat, osc: bool): (end: nat)
    requires at <= |b|
    ensures at <= end <= |b|
    decreases |b| - at
  {
    if at == |b| then |b|
    else if Terminator(b, at, osc) > 0 then at + Terminator(b, at, osc)
    else StringEnd(b, at + 1, osc)
  }

  function NextToken(b: seq<Byte>): (token: Token)
    requires b != []
    ensures token.text <= b && token.text != []
  {
    var start := StringStart(b, 0);
    if start.Some? then Token(Control(start.value), b[..StringEnd(b, 2, start.value)])
    else if SequenceStart(b, 0) then
      var end := ParameterEnd(b, 2);
      if end < |b| && b[end] == LETTER_M then Token(Sgr, b[..end + 1]) else Token(Partial, b[..end])
    else Token(Plain, b[..1])
  }

  function Tokens(b: seq<Byte>): seq<Token>
    decreases |b|
  {
    if b == [] then []
    else
      var token := NextToken(b);
      [token] + Tokens(b[|token.text|..])
  }

  lemma {:induction false} StringEndExactly(b: seq<Byte>, at: nat, osc: bool) returns (n: nat)
    requires at <= |b|
    ensures var end := StringEnd(b, at, osc);
            && (n == 0 ==> end == |b| && forall i :: at <= i < end ==> Terminator(b, i, osc) == 0)
            && (n > 0 ==> at <= end - n && Terminator(b, end - n, osc) == n && forall i :: at <= i < end - n ==> Terminator(b, i, osc) == 0)
    decreases |b| - at
  {
    n := 0;
    if at < |b| {
      n := Terminator(b, at, osc);
      if n == 0 {
        n := StringEndExactly(b, at + 1, osc);
      }
    }
  }

  /** A terminator is seen the same way in a text and in a prefix that contains it. */
  lemma TerminatorInPrefix(b: seq<Byte>, end: nat, i: nat, osc: bool)
    requires end <= |b| && i < end
    ensures Terminator(b[..end], i, osc) > 0 ==> Terminator(b, i, osc) == Terminator(b[..end], i, osc)
    ensures i + Terminator(b, i, osc) <= end ==> Terminator(b[..end], i, osc) == Terminator(b, i, osc)
  {
  }

  lemma ControlIsToken(b: seq<Byte>, osc: bool)
    requires |b| >= 2 && StringStart(b, 0) == Some(osc)
    ensures var end := StringEnd(b, 2, osc);
            IsControl(b[..end], osc, b[end..])
  {
    var n := StringEndExactly(b, 2, osc);
    var t := b[..StringEnd(b, 2, osc)];
    forall i | 2 <= i < |t| - n
      ensures Terminator(t, i, osc) == 0
    {
      TerminatorInPrefix(b, |t|, i, osc);
    }
    if n > 0 {
      TerminatorInPrefix(b, |t|, |t| - n, osc);
      assert ClosedBy(t, osc, n);
    }
  }

  lemma NextIsToken(b: seq<Byte>)
    requires b != []
    ensures IsToken(NextToken(b), b[|NextToken(b).text|..])
  {
    var token := NextToken(b);
    if token.kind.Control? {
      ControlIsToken(b, token.kind.osc);
    } else if token.kind.Plain? {
      assert token.text + b[1..] == b;
    }
  }

  lemma ControlIsNext(t: seq<Byte>, osc: bool, rest: seq<Byte>)
    requires IsControl(t, osc, rest)
    ensures StringStart(t + rest, 0) == Some(osc) && StringEnd(t + rest, 2, osc) == |t|
  {
    var b := t + rest;
    if n :| ClosedBy(t, osc, n) {
      TerminatorOutside(t, rest, osc, n);
      StringStops(b, 2, osc, |t|, n);
    } else {
      assert b == t;
      StringStops(b, 2, osc, |t|, 0);
    }
  }

  lemma SequenceIsNext(t: seq<Byte>, rest: seq<Byte>, end: nat)
    requires 2 <= end <= |t| && SequenceStart(t, 0) && AllParameters(t, 2, end)
    requires end < |t + rest| ==> !IsParameter((t + rest)[end])
    ensures StringStart(t + rest, 0).None? && SequenceStart(t + rest, 0) && ParameterEnd(t + rest, 2) == end
  {
    var b := t + rest;
    assert b[0] == t[0] && b[1] == t[1];
    assert forall i :: 2 <= i < end ==> b[i] == t[i];
    ParametersStop(b, 2, end);
  }

  /** Two tokens that start the same text are the same token. */
  lemma TokenIsNext(token: Token, b: seq<Byte>)
    requires token.text <= b && IsToken(token, b[|token.text|..])
    ensures b != [] && token == NextToken(b)
  {
    var t, rest := token.text, b[|token.text|..];
    assert b == t + rest && b[..|t|] == t;
    match token.kind
    case Plain =>
    case Sgr => SequenceIsNext(t, rest, |t| - 1);
    case Partial => SequenceIsNext(t, rest, |t|);
    case Control(osc) => ControlIsNext(t, osc, rest);
  }

  lemma TerminatorOutside(t: seq<Byte>, rest: seq<Byte>, osc: bool, n: nat)
    requires ClosedBy(t, osc, n)
    ensures Terminator(t + rest, |t| - n, osc) == n
    ensures forall i :: 2 <= i < |t| - n ==> Terminator(t + rest, i, osc) == 0
  {
    var b := t + rest;
    assert b[..|t|] == t;
    forall i | 2 <= i < |t| - n
      ensures Terminator(b, i, osc) == 0
    {
      assert b[i] == t[i] && b[i + 1] == t[i + 1];
      assert Terminator(t, i, osc) == 0;
    }
    TerminatorInPrefix(b, |t|, |t| - n, osc);
  }

  lemma {:induction false} ParametersStop(b: seq<Byte>, at: nat, end: nat)
    requires at <= end <= |b| && (forall i :: at <= i < end ==> IsParameter(b[i]))
    requires end < |b| ==> !IsParameter(b[end])
    ensures ParameterEnd(b, at) == end
    decreases end - at
  {
    if at < end {
      ParametersStop(b, at + 1, end);
    }
  }

  lemma {:induction false} StringStops(b: seq<Byte>, at: nat, osc: bool, end: nat, n: nat)
    requires n <= end <= |b| && at <= end - n
    requires forall i :: at <= i < end - n ==> Terminator(b, i, osc) == 0
    requires if n == 0 then end == |b| else Terminator(b, end - n, osc) == n
    ensures StringEnd(b, at, osc) == end
    decreases end - at
  {
    if at < end - n {
      StringStops(b, at + 1, osc, end, n);
    }
  }

  /** Every text has exactly one reading. */
  lemma {:induction false} OneReading(tokens: seq<Token>, b: seq<Byte>)
    ensures Reads(tokens, b) <==> tokens == Tokens(b)
    decreases |b|, |tokens|
  {
    if b == [] {
      if tokens != [] && Reads(tokens, b) {
        TokenIsNext(tokens[0], b);
      }
    } else {
      var next := NextToken(b);
      NextIsToken(b);
      var rest := b[|next.text|..];
      if tokens != [] {
        if tokens[0].text <= b && IsToken(tokens[0], b[|tokens[0].text|..]) {
          TokenIsNext(tokens[0], b);
        }
        OneReading(tokens[1..], rest);
        assert tokens == [tokens[0]] + tokens[1..];
      }
    }
  }

  // ---- The grammar byte by byte ----------------------------------------------------------------

  /** A control sequence closed by `m` is one SGR token exactly if its parameters are digits, `;` and `:`. */
  lemma SgrExactly(parameters: seq<Byte>)
    ensures var t := [0x1b, 0x5b] + parameters + [0x6d];
            NextToken(t) == Token(Sgr, t) <==> forall p :: p in parameters ==> 0x30 <= p <= 0x39 || p == 0x3a || p == 0x3b
  {
    var t := [0x1b, 0x5b] + parameters + [0x6d];
    var end := ParameterEnd(t, 2);
    assert forall i :: 2 <= i < |t| - 1 ==> t[i] == parameters[i - 2];
    if forall p :: p in parameters ==> 0x30 <= p <= 0x39 || p == 0x3a || p == 0x3b {
      forall i | 2 <= i < |t| - 1
        ensures IsParameter(t[i])
      {
        assert t[i] in parameters;
      }
      assert t[|t| - 1] == 0x6d;
      ParametersStop(t, 2, |t| - 1);
      assert t[..|t|] == t;
    } else if end == |t| - 1 {
      forall p | p in parameters
        ensures 0x30 <= p <= 0x39 || p == 0x3a || p == 0x3b
      {
        var i :| 0 <= i < |parameters| && parameters[i] == p;
        assert IsParameter(t[i + 2]);
      }
    } else {
      assert NextToken(t).kind.Sgr? ==> |NextToken(t).text| == end + 1;
    }
  }

  /** Operating system commands, and the four other control strings, each in its 7-bit and its 8-bit form. */
  lemma StringStartsExactly(b: seq<Byte>)
    requires |b| >= 2
    ensures NextToken(b).kind == Control(true) <==> b[..2] in {[0x1b, 0x5d], [0xc2, 0x9d]}
    ensures NextToken(b).kind == Control(false)
       <==> b[..2] in {[0x1b, 0x50], [0x1b, 0x58], [0x1b, 0x5e], [0x1b, 0x5f], [0xc2, 0x90], [0xc2, 0x98], [0xc2, 0x9e], [0xc2, 0x9f]}
  {
    assert b[..2] == [b[0], b[1]];
  }

  /** A control string runs up to its first terminator: ST in either form, or BEL after an operating system command. */
  lemma StringEndsExactly(b: seq<Byte>, at: nat, osc: bool)
    requires at < |b|
    ensures Terminator(b, at, osc) == 1 <==> osc && b[at] == 0x07
    ensures Terminator(b, at, osc) == 2 <==> at + 2 <= |b| && b[at..at + 2] in {[0x1b, 0x5c], [0xc2, 0x9c]}
    ensures Terminator(b, at, osc) <= 2
  {
    if at + 2 <= |b| {
      assert b[at..at + 2] == [b[at], b[at + 1]];
    }
  }

  // ---- The display copy ------------------------------------------------------------------------

  lemma {:induction false} ShownAppend(tokens: seq<Token>, token: Token)
    ensures Shown(tokens + [token]) == Shown(tokens) + if token.kind.Sgr? then [] else token.text
  {
    if tokens != [] {
      assert (tokens + [token])[1..] == tokens[1..] + [token];
      ShownAppend(tokens[1..], token);
    }
  }

  method ControlStringEnd(b: seq<Byte>, start: nat, osc: bool) returns (cursor: nat)
    requires start <= |b|
    ensures cursor == StringEnd(b, start, osc)
  {
    cursor := start;
    while cursor < |b|
      invariant start <= cursor <= |b|
      invariant StringEnd(b, start, osc) == StringEnd(b, cursor, osc)
    {
      if osc && b[cursor] == BEL {
        return cursor + 1;
      }
      if cursor + 2 <= |b| && ((b[cursor] == ESC && b[cursor + 1] == BACKSLASH) || (b[cursor] == C1 && b[cursor + 1] == 0x9c)) {
        return cursor + 2;
      }
      cursor := cursor + 1;
    }
  }

  method ParametersEnd(b: seq<Byte>, start: nat) returns (end: nat)
    requires start <= |b|
    ensures end == ParameterEnd(b, start)
  {
    end := start;
    while end < |b| && IsParameter(b[end])
      invariant start <= end <= |b|
      invariant ParameterEnd(b, start) == ParameterEnd(b, end)
    {
      end := end + 1;
    }
  }

  lemma StartShifts(b: seq<Byte>, at: nat)
    requires at <= |b|
    ensures StringStart(b, at) == StringStart(b[at..], 0)
    ensures SequenceStart(b, at) == SequenceStart(b[at..], 0)
  {
  }

  lemma {:induction false} ParameterEndShifts(b: seq<Byte>, at: nat, k: nat)
    requires at + k <= |b|
    ensures ParameterEnd(b, at + k) == at + ParameterEnd(b[at..], k)
    decreases |b| - at - k
  {
    if at + k < |b| && IsParameter(b[at + k]) {
      ParameterEndShifts(b, at, k + 1);
    }
  }

  lemma {:induction false} StringEndShifts(b: seq<Byte>, at: nat, k: nat, osc: bool)
    requires at + k <= |b|
    ensures StringEnd(b, at + k, osc) == at + StringEnd(b[at..], k, osc)
    decreases |b| - at - k
  {
    assert Terminator(b, at + k, osc) == Terminator(b[at..], k, osc);
    if at + k < |b| && Terminator(b, at + k, osc) == 0 {
      StringEndShifts(b, at, k + 1, osc);
    }
  }

  ghost predicate HasSgr(tokens: seq<Token>) {
    exists k :: 0 <= k < |tokens| && tokens[k].kind.Sgr?
  }

  lemma HasSgrAppend(tokens: seq<Token>, token: Token)
    ensures HasSgr(tokens + [token]) <==> HasSgr(tokens) || token.kind.Sgr?
  {
    if HasSgr(tokens) {
      var k :| 0 <= k < |tokens| && tokens[k].kind.Sgr?;
      assert (tokens + [token])[k].kind.Sgr?;
    }
    if token.kind.Sgr? {
      assert (tokens + [token])[|tokens|].kind.Sgr?;
    }
  }

  function OrEmpty(display: Option<seq<Byte>>): seq<Byte> {
    if display.Some? then display.value else []
  }

  /** What has been shown when the scanner stands at `cursor` and has copied up to `copied`. */
  ghost predicate Copied(b: seq<Byte>, tokens: seq<Token>, cursor: nat, copied: nat, display: Option<seq<Byte>>) {
    && copied <= cursor <= |b|
    && Shown(tokens) == OrEmpty(display) + b[copied..cursor]
    && (display.None? ==> copied == 0)
    && (display.Some? <==> HasSgr(tokens))
    && Cut(b, copied)
  }

  lemma CopyPlain(b: seq<Byte>, tokens: seq<Token>, cursor: nat, copied: nat, display: Option<seq<Byte>>, token: Token)
    requires Copied(b, tokens, cursor, copied, display)
    requires !token.kind.Sgr? && cursor + |token.text| <= |b| && b[cursor..cursor + |token.text|] == token.text
    ensures Copied(b, tokens + [token], cursor + |token.text|, copied, display)
  {
    ShownAppend(tokens, token);
    HasSgrAppend(tokens, token);
    assert b[copied..cursor] + token.text == b[copied..cursor + |token.text|];
    Associative(OrEmpty(display), b[copied..cursor], token.text);
  }

  lemma CopySgr(b: seq<Byte>, tokens: seq<Token>, cursor: nat, copied: nat, display: Option<seq<Byte>>, token: Token)
    requires Copied(b, tokens, cursor, copied, display)
    requires token.kind.Sgr? && cursor + |token.text| <= |b| && |token.text| > 0 && b[cursor + |token.text| - 1] < 0x80
    ensures var next := cursor + |token.text|;
            Copied(b, tokens + [token], next, next, Some(OrEmpty(display) + b[copied..cursor]))
  {
    var next := cursor + |token.text|;
    ShownAppend(tokens, token);
    HasSgrAppend(tokens, token);
    assert b[next..next] == [];
  }

  /** The tokens read so far are the start of the only reading. */
  ghost predicate ReadSoFar(b: seq<Byte>, tokens: seq<Token>, cursor: nat) {
    cursor <= |b| && Tokens(b) == tokens + Tokens(b[cursor..])
  }

  lemma ReadOne(b: seq<Byte>, tokens: seq<Token>, cursor: nat)
    requires ReadSoFar(b, tokens, cursor) && cursor < |b|
    ensures var token := NextToken(b[cursor..]);
            && cursor + |token.text| <= |b| && b[cursor..cursor + |token.text|] == token.text
            && ReadSoFar(b, tokens + [token], cursor + |token.text|)
  {
    var token := NextToken(b[cursor..]);
    var next := cursor + |token.text|;
    assert b[cursor..][|token.text|..] == b[next..];
    assert b[cursor..][..|token.text|] == b[cursor..next];
    Associative(tokens, [token], Tokens(b[next..]));
  }

  /** Next to an ASCII byte, or at the very start or end. */
  predicate Cut(b: seq<Byte>, i: nat) {
    i <= |b| && (i == 0 || i == |b| || b[i] < 0x80 || b[i - 1] < 0x80)
  }

  lemma AllRead(b: seq<Byte>, tokens: seq<Token>)
    requires ReadSoFar(b, tokens, |b|)
    ensures forall other: seq<Token> :: Reads(other, b) <==> other == tokens
  {
    assert b[|b|..] == [] && tokens + [] == tokens;
    forall other: seq<Token>
      ensures Reads(other, b) <==> other == tokens
    {
      OneReading(other, b);
    }
  }

  /** One round of the scanner: is the next token a complete SGR sequence, and where does it end? */
  method ReadToken(b: seq<Byte>, cursor: nat) returns (sgr: bool, end: nat)
    requires cursor < |b|
    ensures sgr <==> NextToken(b[cursor..]).kind.Sgr?
    ensures end == cursor + |NextToken(b[cursor..]).text|
    ensures sgr ==> b[cursor] < 0x80 && b[end - 1] < 0x80
  {
    StartShifts(b, cursor);
    var start := StringStart(b, cursor);
    if start.Some? {
      StringEndShifts(b, cursor, 2, start.value);
      end := ControlStringEnd(b, cursor + 2, start.value);
      sgr := false;
    } else if SequenceStart(b, cursor) {
      ParameterEndShifts(b, cursor, 2);
      end := ParametersEnd(b, cursor + 2);
      sgr := end < |b| && b[end] == LETTER_M;
      if sgr {
        end := end + 1;
      }
    } else {
      sgr, end := false, cursor + 1;
    }
  }

  ghost predicate Scanned(b: seq<Byte>, tokens: seq<Token>, cursor: nat, copied: nat, display: Option<seq<Byte>>) {
    && ReadSoFar(b, tokens, cursor)
    && Copied(b, tokens, cursor, copied, display)
    && (Utf8(b) ==> Utf8(OrEmpty(display)))
  }

  lemma SgrStep(b: seq<Byte>, tokens: seq<Token>, cursor: nat, copied: nat, display: Option<seq<Byte>>, token: Token, end: nat)
    requires Scanned(b, tokens, cursor, copied, display) && cursor < end == cursor + |token.text|
    requires ReadSoFar(b, tokens + [token], end)
    requires token.kind.Sgr? && b[cursor] < 0x80 && b[end - 1] < 0x80
    ensures Scanned(b, tokens + [token], end, end, Some(OrEmpty(display) + b[copied..cursor]))
  {
    PieceIsText(b, copied, cursor, OrEmpty(display));
    CopySgr(b, tokens, cursor, copied, display, token);
  }

  lemma OtherStep(b: seq<Byte>, tokens: seq<Token>, cursor: nat, copied: nat, display: Option<seq<Byte>>, token: Token, end: nat)
    requires Scanned(b, tokens, cursor, copied, display) && cursor < end == cursor + |token.text|
    requires ReadSoFar(b, tokens + [token], end) && b[cursor..end] == token.text && !token.kind.Sgr?
    ensures Scanned(b, tokens + [token], end, copied, display)
  {
    CopyPlain(b, tokens, cursor, copied, display, token);
  }

  /** Copies what stands before a complete SGR sequence and skips it; passes over any other token. */
  method ScanToken(b: seq<Byte>, cursor: nat, copied: nat, display: Option<seq<Byte>>, ghost tokens: seq<Token>)
    returns (next: nat, through: nat, more: Option<seq<Byte>>)
    requires cursor < |b| && Scanned(b, tokens, cursor, copied, display)
    ensures next > cursor && Scanned(b, tokens + [NextToken(b[cursor..])], next, through, more)
  {
    ReadOne(b, tokens, cursor);
    var sgr;
    sgr, next := ReadToken(b, cursor);
    if sgr {
      SgrStep(b, tokens, cursor, copied, display, NextToken(b[cursor..]), next);
      through, more := next, Some(OrEmpty(display) + b[copied..cursor]);
    } else {
      OtherStep(b, tokens, cursor, copied, display, NextToken(b[cursor..]), next);
      through, more := copied, display;
    }
  }

  lemma NothingScanned(b: seq<Byte>)
    ensures Scanned(b, [], 0, 0, None)
  {
    assert b[0..] == b && b[0..0] == [];
    assert AllChars([]) && Utf8([]);
  }

  /** Copies the tail, or borrows the input if nothing was cut. */
  method FinishDisplay(b: seq<Byte>, copied: nat, out: Option<seq<Byte>>, ghost tokens: seq<Token>)
    returns (display: seq<Byte>, borrowed: bool)
    requires Scanned(b, tokens, |b|, copied, out)
    ensures display == Shown(tokens) && (borrowed <==> !HasSgr(tokens))
    ensures borrowed ==> display == b
    ensures Utf8(b) ==> Utf8(display)
  {
    if out.Some? {
      PieceIsText(b, copied, |b|, out.value);
      assert b[copied..] == b[copied..|b|];
      display, borrowed := out.value + b[copied..], false;
    } else {
      assert b[0..|b|] == b;
      display, borrowed := b, true;
    }
  }

  /**
   The display text of a tool output: what its one reading shows. The input is borrowed exactly when
   the reading holds no complete SGR sequence, and valid UTF-8 stays valid: no cut splits a character.
   */
  method ToolOutputDisplayText(b: seq<Byte>) returns (display: seq<Byte>, borrowed: bool)
    ensures forall tokens: seq<Token> :: Reads(tokens, b) ==> display == Shown(tokens)
    ensures forall tokens: seq<Token> :: Reads(tokens, b) ==> (borrowed <==> !HasSgr(tokens))
    ensures borrowed ==> display == b
    ensures Utf8(b) ==> Utf8(display)
  {
    var cursor: nat, copied: nat := 0, 0;
    var out: Option<seq<Byte>> := None;
    ghost var tokens: seq<Token> := [];
    NothingScanned(b);
    while cursor < |b|
      invariant Scanned(b, tokens, cursor, copied, out)
      decreases |b| - cursor
    {
      ghost var token := NextToken(b[cursor..]);
      cursor, copied, out := ScanToken(b, cursor, copied, out, tokens);
      tokens := tokens + [token];
    }
    AllRead(b, tokens);
    display, borrowed := FinishDisplay(b, copied, out, tokens);
  }

  // ---- UTF-8 -----------------------------------------------------------------------------------

  predicate IsContinuation(b: Byte) {
    0x80 <= b <= 0xbf
  }

  /** One well-formed character (Table 3-7 of the Unicode Standard). */
  predicate IsChar(t: seq<Byte>) {
    if |t| == 1 then t[0] <= 0x7f
    else if |t| == 2 then 0xc2 <= t[0] <= 0xdf && IsContinuation(t[1])
    else if |t| == 3 then
      && 0xe0 <= t[0] <= 0xef && IsContinuation(t[2])
      && (if t[0] == 0xe0 then 0xa0 <= t[1] <= 0xbf else if t[0] == 0xed then 0x80 <= t[1] <= 0x9f else IsContinuation(t[1]))
    else
      && |t| == 4 && 0xf0 <= t[0] <= 0xf4 && IsContinuation(t[2]) && IsContinuation(t[3])
      && (if t[0] == 0xf0 then 0x90 <= t[1] <= 0xbf else if t[0] == 0xf4 then 0x80 <= t[1] <= 0x8f else IsContinuation(t[1]))
  }

  ghost predicate AllChars(chars: seq<seq<Byte>>) {
    forall k :: 0 <= k < |chars| ==> IsChar(chars[k])
  }

  /** Valid UTF-8 is a row of well-formed characters. */
  ghost predicate Utf8(b: seq<Byte>) {
    exists chars :: AllChars(chars) && Concat(chars) == b
  }

  lemma {:induction false} ConcatConcat<T>(a: seq<seq<T>>, b: seq<seq<T>>)
    ensures Concat(a + b) == Concat(a) + Concat(b)
  {
    if b == [] {
      assert a + b == a;
    } else {
      ConcatConcat(a, Front(b));
      assert Front(a + b) == a + Front(b) && Last(a + b) == Last(b);
      Associative(Concat(a), Concat(Front(b)), Last(b));
    }
  }

  lemma Utf8Concat(a: seq<Byte>, b: seq<Byte>)
    requires Utf8(a) && Utf8(b)
    ensures Utf8(a + b)
  {
    var x :| AllChars(x) && Concat(x) == a;
    var y :| AllChars(y) && Concat(y) == b;
    ConcatConcat(x, y);
    assert AllChars(x + y);
  }

  /** A cut beside an ASCII byte never falls inside a character. */
  lemma NotInside(front: seq<Byte>, last: seq<Byte>, i: nat)
    requires IsChar(last) && Cut(front + last, i)
    ensures i <= |front| || i == |front| + |last|
  {
    var b := front + last;
    assert forall j :: |front| <= j < |b| ==> b[j] == last[j - |front|];
    assert |last| > 1 ==> forall j :: 0 <= j < |last| ==> last[j] >= 0x80;
  }

  lemma {:induction false} CutChars(chars: seq<seq<Byte>>, i: nat) returns (k: nat)
    requires AllChars(chars) && Cut(Concat(chars), i)
    ensures k <= |chars| && Concat(chars[..k]) == Concat(chars)[..i] && Concat(chars[k..]) == Concat(chars)[i..]
  {
    if i == |Concat(chars)| {
      k := |chars|;
      assert chars[..k] == chars && chars[k..] == [];
    } else {
      var front, last := Concat(Front(chars)), Last(chars);
      var b := front + last;
      NotInside(front, last, i);
      assert i < |front| ==> b[i] == front[i];
      assert 0 < i ==> b[i - 1] == front[i - 1];
      k := CutChars(Front(chars), i);
      assert Front(chars)[..k] == chars[..k];
      assert Front(chars)[k..] == Front(chars[k..]) && Last(chars[k..]) == last;
      assert b[..i] == front[..i] && b[i..] == front[i..] + last;
    }
  }

  /** Text may be cut beside any ASCII byte: no character is split. */
  lemma Utf8Cut(b: seq<Byte>, i: nat)
    requires Utf8(b) && Cut(b, i)
    ensures Utf8(b[..i]) && Utf8(b[i..])
  {
    var chars :| AllChars(chars) && Concat(chars) == b;
    var k := CutChars(chars, i);
    assert AllChars(chars[..k]) && AllChars(chars[k..]);
  }

  /** A piece between two cuts may be appended. */
  lemma PieceIsText(b: seq<Byte>, from: nat, to: nat, before: seq<Byte>)
    requires from <= to && Cut(b, from) && Cut(b, to)
    ensures Utf8(b) && Utf8(before) ==> Utf8(before + b[from..to])
  {
    if Utf8(b) && Utf8(before) {
      Utf8Cut(b, from);
      var rest := b[from..];
      assert to < |b| ==> rest[to - from] == b[to];
      assert from < to ==> rest[to - from - 1] == b[to - 1];
      Utf8Cut(rest, to - from);
      assert rest[..to - from] == b[from..to];
      Utf8Concat(before, b[from..to]);
    }
  }

  // ---- Making text safe ------------------------------------------------------------------------

  predicate Unsafe(c: char, layout: bool) {
    if layout && (c == '\n' || c == '\t') then false
    else
      || c <= '\U{1F}' || '\U{7F}' <= c <= '\U{9F}'
      || c == '\U{061C}' || c == '\U{200E}' || c == '\U{200F}'
      || '\U{202A}' <= c <= '\U{202E}' || '\U{2066}' <= c <= '\U{2069}'
  }

  function HexDigit(n: nat): char
    requires n < 16
  {
    "0123456789ABCDEF"[n]
  }

  /** The last `width` hexadecimal digits. */
  function Hex(n: nat, width: nat): string {
    if width == 0 then "" else Hex(n / 16, width - 1) + [HexDigit(n % 16)]
  }

  function DigitValue(c: char): nat {
    if '0' <= c <= '9' then c as int - '0' as int else if 'A' <= c <= 'F' then c as int - 'A' as int + 10 else 0
  }

  /** The number hexadecimal digits spell. */
  function HexValue(digits: string): nat {
    if digits == "" then 0 else 16 * HexValue(Front(digits)) + DigitValue(Last(digits))
  }

  function Power16(width: nat): nat {
    if width == 0 then 1 else 16 * Power16(width - 1)
  }

  /** A number that fits is spelled by its digits. */
  lemma {:induction false} HexSpells(n: nat, width: nat)
    requires n < Power16(width)
    ensures |Hex(n, width)| == width && HexValue(Hex(n, width)) == n
  {
    if width > 0 {
      HexSpells(n / 16, width - 1);
      assert Front(Hex(n, width)) == Hex(n / 16, width - 1);
      assert DigitValue(HexDigit(n % 16)) == n % 16;
    }
  }

  /** Every unsafe character fits four digits, and they spell it. */
  lemma EscapedSpells(c: char, layout: bool)
    requires Unsafe(c, layout)
    ensures c as int < 0x1_0000
    ensures |Escaped(c)| == 8 && Escaped(c)[..3] == "\\u{" && Escaped(c)[7] == '}'
    ensures HexValue(Escaped(c)[3..7]) == c as int
  {
    assert Power16(4) == 0x1_0000 by {
      assert Power16(2) == 256;
      assert Power16(3) == 4096;
    }
    HexSpells(c as int, 4);
    assert Escaped(c)[3..7] == Hex(c as int, 4);
  }

  function Escaped(c: char): string {
    "\\u{" + Hex(c as int, 4) + "}"
  }

  predicate Safe(s: string, layout: bool) {
    forall i :: 0 <= i < |s| ==> !Unsafe(s[i], layout)
  }

  function Image(c: char, layout: bool): string {
    if Unsafe(c, layout) then Escaped(c) else [c]
  }

  function Images(s: string, layout: bool): string {
    if s == "" then "" else Images(Front(s), layout) + Image(Last(s), layout)
  }

  /** No control character but the allowed layout, and no character that changes the direction of text. */
  ghost predicate Printable(c: char, layout: bool) {
    var point := c as int;
    if layout && (point == 0x0A || point == 0x09) then true
    else
      && !(0x00 <= point <= 0x1F) && !(0x7F <= point <= 0x9F)
      && point != 0x061C && point != 0x200E && point != 0x200F
      && !(0x202A <= point <= 0x202E) && !(0x2066 <= point <= 0x2069)
  }

  lemma SafeExactly(s: string, layout: bool)
    ensures Safe(s, layout) <==> forall c :: c in s ==> Printable(c, layout)
  {
    assert forall c: char :: Unsafe(c, layout) <==> !Printable(c, layout);
  }

  /** Escapes unsafe characters; text without any is borrowed as it is. */
  method TerminalSafe(value: string, layout: bool) returns (safe: string, borrowed: bool)
    ensures Safe(safe, layout) && safe == Images(value, layout)
    ensures forall c :: c in safe ==> Printable(c, layout)
    ensures borrowed <==> forall c :: c in value ==> Printable(c, layout)
    ensures borrowed ==> safe == value
  {
    ImagesAreSafe(value, layout);
    SafeExactly(value, layout);
    SafeExactly(Images(value, layout), layout);
    if Safe(value, layout) {
      ImagesOfSafe(value, layout);
      return value, true;
    }
    safe := "";
    assert value[..0] == "";
    for i := 0 to |value|
      invariant safe == Images(value[..i], layout)
    {
      assert Front(value[..i + 1]) == value[..i] && Last(value[..i + 1]) == value[i];
      if Unsafe(value[i], layout) {
        safe := safe + Escaped(value[i]);
      } else {
        safe := safe + [value[i]];
      }
    }
    assert value[..|value|] == value;
    borrowed := false;
  }

  lemma {:induction false} ImagesAreSafe(s: string, layout: bool)
    ensures Safe(Images(s, layout), layout)
  {
    if s != "" {
      ImagesAreSafe(Front(s), layout);
      EscapedIsSafe(Last(s), layout);
    }
  }

  lemma {:induction false} HexIsSafe(n: nat, width: nat, layout: bool)
    ensures Safe(Hex(n, width), layout)
  {
    if width > 0 {
      HexIsSafe(n / 16, width - 1, layout);
      assert forall d :: 0 <= d < 16 ==> !Unsafe("0123456789ABCDEF"[d], layout);
    }
  }

  lemma EscapedIsSafe(c: char, layout: bool)
    ensures Safe(Escaped(c), layout)
  {
    HexIsSafe(c as int, 4, layout);
  }

  lemma {:induction false} ImagesOfSafe(s: string, layout: bool)
    requires Safe(s, layout)
    ensures Images(s, layout) == s
  {
    if s != "" {
      ImagesOfSafe(Front(s), layout);
      assert Front(s) + [Last(s)] == s;
    }
  }

  /** Making safe text safe again changes nothing. */
  lemma SafeIsIdempotent(s: string, layout: bool)
    ensures Images(Images(s, layout), layout) == Images(s, layout)
  {
    ImagesAreSafe(s, layout);
    ImagesOfSafe(Images(s, layout), layout);
  }
}
