/** Goal steering prompts: template fields are replaced once, and user text is escaped. */
module Template {
  import opened Base

  const OPEN := "{{ "
  const CLOSE := " }}"

  /** The first place where `part` occurs, if it occurs at all. */
  function Find(s: string, part: string): (at: Option<nat>)
    ensures at.Some? ==> FirstAt(s, part, at.value)
    ensures at.None? ==> !Occurs(s, part)
  {
    FindFrom(s, part, 0)
  }

  predicate Occurs(s: string, part: string) {
    exists i :: 0 <= i <= |s| && OccursAt(s, part, i)
  }

  ghost predicate FirstAt(s: string, part: string, i: nat) {
    OccursAt(s, part, i) && forall j :: 0 <= j < i ==> !OccursAt(s, part, j)
  }

  function FindFrom(s: string, part: string, from: nat): (at: Option<nat>)
    requires from <= |s|
    ensures at.Some? ==> OccursAt(s, part, at.value) && forall j :: from <= j < at.value ==> !OccursAt(s, part, j)
    ensures at.None? ==> forall j :: from <= j <= |s| ==> !OccursAt(s, part, j)
    decreases |s| - from
  {
    if OccursAt(s, part, from) then Some(from)
    else if from == |s| then None
    else FindFrom(s, part, from + 1)
  }

  // ---- What a template says --------------------------------------------------------------------

  /** Literal text followed by a named field. */
  datatype Piece = Piece(literal: string, name: string)

  function Written(piece: Piece): string {
    piece.literal + OPEN + piece.name + CLOSE
  }

  /** No field is left: nothing opens, or what opens first is never closed. */
  ghost predicate HasNoField(tail: string) {
    !Occurs(tail, OPEN) || exists i: nat :: FirstAt(tail, OPEN, i) && i + |OPEN| <= |tail| && !Occurs(tail[i + |OPEN|..], CLOSE)
  }

  /** The text starts with this piece: its field is the first that opens, closed at the first close. */
  ghost predicate StartsWith(template: string, piece: Piece) {
    && |Written(piece)| <= |template|
    && template[..|Written(piece)|] == Written(piece)
    && FirstAt(template, OPEN, |piece.literal|)
    && FirstAt(template[|piece.literal| + |OPEN|..], CLOSE, |piece.name|)
  }

  /** A reading of a template: its pieces, and a tail without fields. */
  ghost predicate Reads(pieces: seq<Piece>, tail: string, template: string) {
    if pieces == [] then template == tail && HasNoField(tail)
    else StartsWith(template, pieces[0]) && Reads(pieces[1..], tail, template[|Written(pieces[0])|..])
  }

  lemma FirstIsUnique(s: string, part: string, i: nat, j: nat)
    requires FirstAt(s, part, i) && FirstAt(s, part, j)
    ensures i == j
  {
  }

  lemma OnePiece(template: string, a: Piece, b: Piece)
    requires StartsWith(template, a) && StartsWith(template, b)
    ensures a == b
  {
    FirstIsUnique(template, OPEN, |a.literal|, |b.literal|);
    FirstIsUnique(template[|a.literal| + |OPEN|..], CLOSE, |a.name|, |b.name|);
    SplitPiece(a);
    SplitPiece(b);
    assert Written(a) == Written(b);
  }

  lemma SplitPiece(piece: Piece)
    ensures var w := Written(piece);
            && |w| == |piece.literal| + |OPEN| + |piece.name| + |CLOSE|
            && w[..|piece.literal|] == piece.literal
            && w[|piece.literal| + |OPEN|..|w| - |CLOSE|] == piece.name
  {
  }

  lemma FieldOrNone(template: string, piece: Piece)
    requires StartsWith(template, piece)
    ensures !HasNoField(template)
  {
    var at := |piece.literal|;
    assert Occurs(template, OPEN);
    assert Occurs(template[at + |OPEN|..], CLOSE);
    forall i: nat | FirstAt(template, OPEN, i)
      ensures i == at
    {
      FirstIsUnique(template, OPEN, i, at);
    }
  }

  /** A template has at most one reading. */
  lemma {:induction false} OneReading(a: seq<Piece>, s: string, b: seq<Piece>, t: string, template: string)
    requires Reads(a, s, template) && Reads(b, t, template)
    ensures a == b && s == t
    decreases |a|
  {
    if a == [] {
      if b != [] {
        FieldOrNone(template, b[0]);
      }
    } else {
      FieldOrNone(template, a[0]);
      OnePiece(template, a[0], b[0]);
      OneReading(a[1..], s, b[1..], t, template[|Written(a[0])|..]);
      assert a == [a[0]] + a[1..] && b == [b[0]] + b[1..];
    }
  }

  /** A field is written between double braces with one space inside. */
  lemma FieldReads(literal: string, name: string, tail: string)
    requires forall j :: 0 <= j < |name| ==> !OccursAt(name + " }}" + tail, " }}", j)
    requires forall j :: 0 <= j < |literal| ==> !OccursAt(literal + "{{ " + name + " }}" + tail, "{{ ", j)
    requires !Occurs(tail, "{{ ")
    ensures Reads([Piece(literal, name)], tail, literal + "{{ " + name + " }}" + tail)
  {
    var piece, template := Piece(literal, name), literal + "{{ " + name + " }}" + tail;
    var w := Written(piece);
    assert template[..|w|] == w && template[|w|..] == tail;
    assert template[|literal|..|literal| + 3] == "{{ ";
    var field := template[|literal| + 3..];
    assert field == name + " }}" + tail;
    assert field[|name|..|name| + 3] == " }}";
    assert StartsWith(template, piece);
    assert [piece][1..] == [];
  }

  // ---- Rendering -------------------------------------------------------------------------------

  type Values = seq<(string, string)>

  /** The first value given for a name. */
  function ValueOf(values: Values, name: string): Option<string> {
    if values == [] then None
    else if values[0].0 == name then Some(values[0].1)
    else ValueOf(values[1..], name)
  }

  /** Among several values of a name the first is used. */
  lemma {:induction false} ValueOfExactly(values: Values, name: string, i: nat)
    requires i <= |values| && forall j :: 0 <= j < i ==> values[j].0 != name
    ensures i < |values| && values[i].0 == name ==> ValueOf(values, name) == Some(values[i].1)
    ensures i == |values| ==> ValueOf(values, name) == None
  {
    if i > 0 {
      ValueOfExactly(values[1..], name, i - 1);
    }
  }

  /** A known field becomes its value; an unknown one stays as it was written. */
  function Shown(piece: Piece, values: Values): string {
    var value := ValueOf(values, piece.name);
    piece.literal + if value.Some? then value.value else OPEN + piece.name + CLOSE
  }

  function Rendered(pieces: seq<Piece>, tail: string, values: Values): string {
    if pieces == [] then tail else Shown(pieces[0], values) + Rendered(pieces[1..], tail, values)
  }

  function Prefix(pieces: seq<Piece>, values: Values): string {
    Rendered(pieces, "", values)
  }

  lemma {:induction false} RenderedAppend(a: seq<Piece>, b: seq<Piece>, tail: string, values: Values)
    ensures Rendered(a + b, tail, values) == Prefix(a, values) + Rendered(b, tail, values)
  {
    if a == [] {
      assert a + b == b;
    } else {
      assert (a + b)[0] == a[0] && (a + b)[1..] == a[1..] + b;
      RenderedAppend(a[1..], b, tail, values);
      Associative(Shown(a[0], values), Prefix(a[1..], values), Rendered(b, tail, values));
    }
  }

  /** A substituted value stands verbatim in its place, whatever it contains: it is never scanned again. */
  lemma ValueInPlace(pieces: seq<Piece>, tail: string, values: Values, i: nat)
    requires i < |pieces| && ValueOf(values, pieces[i].name).Some?
    ensures Rendered(pieces, tail, values)
         == Prefix(pieces[..i], values) + pieces[i].literal + ValueOf(values, pieces[i].name).value + Rendered(pieces[i + 1..], tail, values)
  {
    assert pieces == pieces[..i] + pieces[i..];
    RenderedAppend(pieces[..i], pieces[i..], tail, values);
    assert pieces[i..][1..] == pieces[i + 1..];
    Associative(Prefix(pieces[..i], values), pieces[i].literal, ValueOf(values, pieces[i].name).value);
  }

  ghost predicate ReadsFrom(pieces: seq<Piece>, remaining: string, template: string) {
    forall more, tail :: Reads(more, tail, remaining) ==> Reads(pieces + more, tail, template)
  }

  lemma {:induction false} ReadOneMore(pieces: seq<Piece>, piece: Piece, remaining: string, template: string)
    requires ReadsFrom(pieces, remaining, template) && StartsWith(remaining, piece)
    ensures ReadsFrom(pieces + [piece], remaining[|Written(piece)|..], template)
  {
    var rest := remaining[|Written(piece)|..];
    forall more, tail | Reads(more, tail, rest)
      ensures Reads(pieces + [piece] + more, tail, template)
    {
      assert ([piece] + more)[0] == piece && ([piece] + more)[1..] == more;
      assert Reads([piece] + more, tail, remaining);
      assert pieces + ([piece] + more) == pieces + [piece] + more;
    }
  }

  lemma FoundPiece(remaining: string, start: nat, end: nat)
    requires FirstAt(remaining, OPEN, start) && FirstAt(remaining[start + |OPEN|..], CLOSE, end)
    ensures var field := remaining[start + |OPEN|..];
            var piece := Piece(remaining[..start], field[..end]);
            StartsWith(remaining, piece) && remaining[|Written(piece)|..] == field[end + |CLOSE|..]
    ensures remaining[start..start + |OPEN| + end + |CLOSE|] == OPEN + remaining[start + |OPEN|..][..end] + CLOSE
  {
    var field := remaining[start + |OPEN|..];
    assert remaining == remaining[..start] + OPEN + field;
    assert field == field[..end] + CLOSE + field[end + |CLOSE|..];
  }

  lemma Conclude(pieces: seq<Piece>, remaining: string, template: string, values: Values, rendered: string)
    requires ReadsFrom(pieces, remaining, template) && HasNoField(remaining)
    requires rendered == Prefix(pieces, values) + remaining
    ensures Reads(pieces, remaining, template) && rendered == Rendered(pieces, remaining, values)
  {
    assert Reads([], remaining, remaining);
    assert pieces + [] == pieces;
    RenderedAppend(pieces, [], remaining, values);
  }

  lemma AppendShown(pieces: seq<Piece>, piece: Piece, values: Values)
    ensures Prefix(pieces + [piece], values) == Prefix(pieces, values) + Shown(piece, values)
  {
    RenderedAppend(pieces, [piece], "", values);
    assert [piece][1..] == [];
    assert Rendered([piece], "", values) == Shown(piece, values);
  }

  /** Renders a template: its one reading, field by field. The reading is returned as evidence. */
  method RenderTemplate(template: string, values: Values) returns (rendered: string, ghost pieces: seq<Piece>, ghost tail: string)
    ensures Reads(pieces, tail, template)
    ensures rendered == Rendered(pieces, tail, values)
    ensures forall p, t :: Reads(p, t, template) ==> rendered == Rendered(p, t, values)
  {
    rendered, pieces := "", [];
    var remaining := template;
    var done := false;
    assert forall more: seq<Piece> :: [] + more == more;
    while !done
      invariant ReadsFrom(pieces, remaining, template)
      invariant rendered == Prefix(pieces, values)
      invariant done ==> HasNoField(remaining)
      decreases |remaining|, !done
    {
      var start := Find(remaining, OPEN);
      if start.None? {
        done := true;
      } else {
        var field := remaining[start.value + |OPEN|..];
        var end := Find(field, CLOSE);
        if end.None? {
          done := true;
        } else {
          FoundPiece(remaining, start.value, end.value);
          ghost var piece := Piece(remaining[..start.value], field[..end.value]);
          ReadOneMore(pieces, piece, remaining, template);
          AppendShown(pieces, piece, values);
          var value := ValueOf(values, field[..end.value]);
          rendered := rendered + (remaining[..start.value]
                                  + if value.Some? then value.value
                                    else remaining[start.value..start.value + |OPEN| + end.value + |CLOSE|]);
          pieces := pieces + [piece];
          remaining := field[end.value + |CLOSE|..];
        }
      }
    }
    rendered := rendered + remaining;
    tail := remaining;
    Conclude(pieces, remaining, template, values, rendered);
    forall p, t | Reads(p, t, template)
      ensures rendered == Rendered(p, t, values)
    {
      OneReading(p, t, pieces, tail, template);
    }
  }

  // ---- Escaping --------------------------------------------------------------------------------

  function Replace(s: string, c: char, with: string): string {
    if s == "" then "" else (if s[0] == c then with else [s[0]]) + Replace(s[1..], c, with)
  }

  /** The three replacements in the order the engine makes them. */
  function EscapeXmlText(s: string): string {
    Replace(Replace(Replace(s, '&', "&amp;"), '<', "&lt;"), '>', "&gt;")
  }

  function Entity(c: char): string {
    if c == '&' then "&amp;" else if c == '<' then "&lt;" else if c == '>' then "&gt;" else [c]
  }

  function Entities(s: string): string {
    if s == "" then "" else Entity(s[0]) + Entities(s[1..])
  }

  lemma {:induction false} ReplaceConcat(a: string, b: string, c: char, with: string)
    ensures Replace(a + b, c, with) == Replace(a, c, with) + Replace(b, c, with)
  {
    if a == "" {
      assert a + b == b;
    } else {
      assert (a + b)[0] == a[0] && (a + b)[1..] == a[1..] + b;
      ReplaceConcat(a[1..], b, c, with);
      Associative(if a[0] == c then with else [a[0]], Replace(a[1..], c, with), Replace(b, c, with));
    }
  }

  lemma {:induction false} ReplaceNone(s: string, c: char, with: string)
    requires c !in s
    ensures Replace(s, c, with) == s
  {
    if s != "" {
      ReplaceNone(s[1..], c, with);
      assert [s[0]] + s[1..] == s;
    }
  }

  lemma ReplaceOne(x: char, c: char, with: string)
    ensures Replace([x], c, with) == if x == c then with else [x]
  {
    assert [x][1..] == "";
  }

  lemma EntityByReplacing(x: char)
    ensures EscapeXmlText([x]) == Entity(x)
  {
    ReplaceOne(x, '&', "&amp;");
    ReplaceOne(x, '<', "&lt;");
    ReplaceOne(x, '>', "&gt;");
    ReplaceNone("&amp;", '<', "&lt;");
    ReplaceNone("&amp;", '>', "&gt;");
    ReplaceNone("&lt;", '>', "&gt;");
  }

  /** Replacing `&` first makes the three passes act on every character once. */
  lemma {:induction false} EscapesEachOnce(s: string)
    ensures EscapeXmlText(s) == Entities(s)
  {
    if s != "" {
      EscapesEachOnce(s[1..]);
      EntityByReplacing(s[0]);
      assert s == [s[0]] + s[1..];
      ReplaceConcat([s[0]], s[1..], '&', "&amp;");
      var a, b := Replace([s[0]], '&', "&amp;"), Replace(s[1..], '&', "&amp;");
      ReplaceConcat(a, b, '<', "&lt;");
      ReplaceConcat(Replace(a, '<', "&lt;"), Replace(b, '<', "&lt;"), '>', "&gt;");
    }
  }

  /** Reads entities back. */
  function Unescape(s: string): string
    decreases |s|
  {
    if s == "" then ""
    else if |s| >= 5 && s[..5] == "&amp;" then "&" + Unescape(s[5..])
    else if |s| >= 4 && s[..4] == "&lt;" then "<" + Unescape(s[4..])
    else if |s| >= 4 && s[..4] == "&gt;" then ">" + Unescape(s[4..])
    else [s[0]] + Unescape(s[1..])
  }

  lemma UnescapeEntity(c: char, rest: string)
    ensures Unescape(Entity(c) + rest) == [c] + Unescape(rest)
  {
    var s := Entity(c) + rest;
    assert s[|Entity(c)|..] == rest && s[..|Entity(c)|] == Entity(c);
    if c == '<' || c == '>' {
      assert s[1] != 'a';
      assert |s| >= 5 ==> s[..5][1] == s[1];
    }
    assert |s| >= 5 ==> s[..5][0] == s[0];
    assert |s| >= 4 ==> s[..4][0] == s[0] && s[..4][1] == s[1];
  }

  /** Escaping loses nothing. */
  lemma {:induction false} EscapeRoundTrip(s: string)
    ensures Unescape(EscapeXmlText(s)) == s
  {
    EscapesEachOnce(s);
    if s != "" {
      EscapeRoundTrip(s[1..]);
      EscapesEachOnce(s[1..]);
      UnescapeEntity(s[0], Entities(s[1..]));
    }
  }

  /** Escaped text can neither open nor close a tag. */
  lemma {:induction false} EscapedHasNoTags(s: string)
    ensures '<' !in EscapeXmlText(s) && '>' !in EscapeXmlText(s)
  {
    EscapesEachOnce(s);
    if s != "" {
      EscapedHasNoTags(s[1..]);
      EscapesEachOnce(s[1..]);
    }
  }

  // ---- The prompts -----------------------------------------------------------------------------

  datatype Status = Active | BudgetLimited | Paused | Blocked | UsageLimited | Complete

  /** What was captured of a goal when the turn was admitted. */
  datatype Goal = Goal(objective: string, status: Status, tokenBudget: Option<int>, tokensUsed: int, secondsUsed: int)

  function Decimal(n: int): string {
    if n < 0 then "-" + Digits(-n) else Digits(n)
  }

  function TokenBudgetText(goal: Goal): string {
    if goal.tokenBudget.Some? then Decimal(goal.tokenBudget.value) else "none"
  }

  function RemainingTokens(goal: Goal): string {
    if goal.tokenBudget.None? then "unbounded"
    else Decimal(if goal.tokenBudget.value > goal.tokensUsed then goal.tokenBudget.value - goal.tokensUsed else 0)
  }

  function ContinuationValues(goal: Goal): Values {
    [("objective", EscapeXmlText(goal.objective)), ("tokens_used", Decimal(goal.tokensUsed)),
     ("token_budget", TokenBudgetText(goal)), ("remaining_tokens", RemainingTokens(goal))]
  }

  function BudgetLimitValues(goal: Goal): Values {
    [("objective", EscapeXmlText(goal.objective)), ("time_used_seconds", Decimal(goal.secondsUsed)),
     ("tokens_used", Decimal(goal.tokensUsed)), ("token_budget", TokenBudgetText(goal))]
  }

  function IntegerOf(text: string): int {
    if text != "" && text[0] == '-' then 0 - NumberOf(text[1..]) else NumberOf(text)
  }

  /** A decimal number reads back. */
  lemma DecimalSpells(n: int)
    ensures IntegerOf(Decimal(n)) == n
  {
    var size: nat := if n < 0 then -n else n;
    DigitsSpell(size);
    assert Digits(size)[0] in Digits(size);
    if n < 0 {
      assert Decimal(n)[1..] == Digits(-n);
    }
  }

  /** Which field shows what: counters as they are, a missing budget by name, what remains never below zero. */
  lemma FieldsShow(goal: Goal)
    ensures var values := ContinuationValues(goal);
            && ValueOf(values, "objective") == Some(EscapeXmlText(goal.objective))
            && ValueOf(values, "tokens_used") == Some(Decimal(goal.tokensUsed))
            && ValueOf(values, "token_budget") == Some(if goal.tokenBudget.Some? then Decimal(goal.tokenBudget.value) else "none")
            && ValueOf(values, "remaining_tokens")
               == Some(if goal.tokenBudget.None? then "unbounded"
                       else if goal.tokensUsed >= goal.tokenBudget.value then Decimal(0)
                       else Decimal(goal.tokenBudget.value - goal.tokensUsed))
    ensures var values := BudgetLimitValues(goal);
            && ValueOf(values, "objective") == Some(EscapeXmlText(goal.objective))
            && ValueOf(values, "time_used_seconds") == Some(Decimal(goal.secondsUsed))
            && ValueOf(values, "tokens_used") == Some(Decimal(goal.tokensUsed))
            && ValueOf(values, "token_budget") == Some(if goal.tokenBudget.Some? then Decimal(goal.tokenBudget.value) else "none")
  {
    var a, b := ContinuationValues(goal), BudgetLimitValues(goal);
    ValueOfExactly(a, "objective", 0);
    ValueOfExactly(a, "tokens_used", 1);
    ValueOfExactly(a, "token_budget", 2);
    ValueOfExactly(a, "remaining_tokens", 3);
    ValueOfExactly(b, "objective", 0);
    ValueOfExactly(b, "time_used_seconds", 1);
    ValueOfExactly(b, "tokens_used", 2);
    ValueOfExactly(b, "token_budget", 3);
  }

  /** The template has a reading, and the text is what it renders to. */
  ghost predicate Renders(text: string, template: string, values: Values) {
    && (exists pieces: seq<Piece>, tail: string :: Reads(pieces, tail, template))
    && (forall pieces: seq<Piece>, tail: string :: Reads(pieces, tail, template) ==> text == Rendered(pieces, tail, values))
  }

  /** At every field named `objective` of the template the prompt has the escaped objective, complete. */
  ghost predicate ShowsObjective(prompt: string, template: string, objective: string, values: Values) {
    forall pieces: seq<Piece>, tail: string, i :: Reads(pieces, tail, template) && 0 <= i < |pieces| && pieces[i].name == "objective"
      ==> prompt == Prefix(pieces[..i], values) + pieces[i].literal + EscapeXmlText(objective) + Rendered(pieces[i + 1..], tail, values)
  }

  /** A prompt rendered with the escaped objective as its first value shows it in its place. */
  lemma ObjectiveInPlace(prompt: string, template: string, objective: string, values: Values)
    requires values != [] && values[0] == ("objective", EscapeXmlText(objective))
    requires Renders(prompt, template, values)
    ensures ShowsObjective(prompt, template, objective, values)
    ensures Unescape(EscapeXmlText(objective)) == objective
    ensures '<' !in EscapeXmlText(objective) && '>' !in EscapeXmlText(objective)
  {
    forall pieces: seq<Piece>, tail: string, i | Reads(pieces, tail, template) && 0 <= i < |pieces| && pieces[i].name == "objective"
      ensures prompt == Prefix(pieces[..i], values) + pieces[i].literal + EscapeXmlText(objective) + Rendered(pieces[i + 1..], tail, values)
    {
      ValueInPlace(pieces, tail, values, i);
    }
    EscapeRoundTrip(objective);
    EscapedHasNoTags(objective);
  }

  method ContinuationPrompt(template: string, goal: Goal) returns (prompt: string)
    ensures ShowsObjective(prompt, template, goal.objective, ContinuationValues(goal))
    ensures Renders(prompt, template, ContinuationValues(goal))
  {
    ghost var pieces, tail;
    prompt, pieces, tail := RenderTemplate(template, ContinuationValues(goal));
    ObjectiveInPlace(prompt, template, goal.objective, ContinuationValues(goal));
  }

  method BudgetLimitPrompt(template: string, goal: Goal) returns (prompt: string)
    ensures ShowsObjective(prompt, template, goal.objective, BudgetLimitValues(goal))
    ensures Renders(prompt, template, BudgetLimitValues(goal))
  {
    ghost var pieces, tail;
    prompt, pieces, tail := RenderTemplate(template, BudgetLimitValues(goal));
    ObjectiveInPlace(prompt, template, goal.objective, BudgetLimitValues(goal));
  }

  /**
   The steering message: only active and budget-limited goals have one, and the user's objective
   reaches it escaped, complete, and in its place.
   */
  method SteeringMessage(continuation: string, budgetLimit: string, goal: Goal) returns (prompt: Option<string>)
    ensures prompt.Some? <==> goal.status.Active? || goal.status.BudgetLimited?
    ensures goal.status.Active? ==> ShowsObjective(prompt.value, continuation, goal.objective, ContinuationValues(goal))
    ensures goal.status.BudgetLimited? ==> ShowsObjective(prompt.value, budgetLimit, goal.objective, BudgetLimitValues(goal))
  {
    if goal.status.Active? {
      var text := ContinuationPrompt(continuation, goal);
      prompt := Some(text);
    } else if goal.status.BudgetLimited? {
      var text := BudgetLimitPrompt(budgetLimit, goal);
      prompt := Some(text);
    } else {
      prompt := None;
    }
  }
}
