/**
 What rows contribute, told by the projection alone: it splits wherever no response and no call is
 split, plain rows stand in their place, and each kind of row and a whole response says its own.
 */
module Contribution {
  import opened Base
  import opened History
  import opened ActiveView
  import opened Units
  import opened Projection
  import opened ProjectionLoop
  import opened Pairing
  import opened Frame

  // ---- Cutting a view --------------------------------------------------------------------------

  /** No response and no call has rows on both sides. */
  ghost predicate Apart(a: seq<Row>, b: seq<Row>) {
    forall x, y :: x in a && y in b ==>
      && !(IsModelRow(x) && IsModelRow(y) && x.payload.response == y.payload.response)
      && !(x.payload.ToolCall? && y.payload.ToolOutput? && x.payload.call == y.payload.call)
  }

  lemma BothSound(a: seq<Row>, b: seq<Row>)
    requires WellFormed(a + b) && Folded(a + b)
    ensures WellFormed(a) && Folded(a) && WellFormed(b) && Folded(b)
    ensures forall row :: row in a + b <==> row in a || row in b
    ensures forall x :: (x in a ==> x.id !in CompactedIds(a) && x.id !in CompactedIds(a + b))
                        && (x in b ==> x.id !in CompactedIds(b) && x.id !in CompactedIds(a + b))
  {
    var h := a + b;
    assert forall i :: 0 <= i < |a| ==> h[i] == a[i];
    assert forall i :: 0 <= i < |b| ==> h[|a| + i] == b[i];
    NothingDead(a + b);
    NothingDead(a);
    NothingDead(b);
  }

  lemma CallComesFirst(a: seq<Row>, b: seq<Row>, output: Row, call: Row)
    requires WellFormed(a + b) && output in a && call in b && output.payload.ToolOutput? && call.payload.ToolCall?
    ensures output.payload.call != call.payload.call
  {
    var i :| 0 <= i < |a| && a[i] == output;
    var j :| 0 <= j < |b| && b[j] == call;
    assert (a + b)[i] == output && (a + b)[|a| + j] == call;
  }

  lemma AnsweredInPart(a: seq<Row>, b: seq<Row>, call: Row)
    requires WellFormed(a + b) && Folded(a + b) && Apart(a, b) && call.payload.ToolCall?
    ensures call in a ==> (call.payload.call in AnsweredCalls(a, CompactedIds(a)) <==> call.payload.call in AnsweredCalls(a + b, CompactedIds(a + b)))
    ensures call in b ==> (call.payload.call in AnsweredCalls(b, CompactedIds(b)) <==> call.payload.call in AnsweredCalls(a + b, CompactedIds(a + b)))
  {
    BothSound(a, b);
    forall output | output in a && output.payload.ToolOutput? && call in b
      ensures output.payload.call != call.payload.call
    {
      CallComesFirst(a, b, output, call);
    }
  }

  lemma FilterFront<T>(a: seq<T>, b: seq<T>, p: T -> bool, q: T -> bool)
    requires (forall x :: x in a ==> p(x) == q(x)) && forall x :: x in b ==> !q(x)
    ensures Filter(a + b, q) == Filter(a, p)
  {
    FilterConcat(a, b, q);
    FilterNone(b, q);
    FilterAgree(a, p, q);
    assert Filter(a, q) + [] == Filter(a, q);
  }

  lemma FilterBack<T>(a: seq<T>, b: seq<T>, p: T -> bool, q: T -> bool)
    requires (forall x :: x in b ==> p(x) == q(x)) && forall x :: x in a ==> !q(x)
    ensures Filter(a + b, q) == Filter(b, p)
  {
    FilterConcat(a, b, q);
    FilterNone(a, q);
    FilterAgree(b, p, q);
    assert [] + Filter(b, q) == Filter(b, q);
  }

  lemma GroupAgrees(a: seq<Row>, b: seq<Row>, part: seq<Row>, images: bool, reasoning: map<ResponseId, Continuation>, r: ResponseId)
    requires WellFormed(a + b) && Folded(a + b) && Apart(a, b) && (part == a || part == b)
    ensures forall x :: x in part ==> InGroup(ScopeOf(part, images, reasoning), r)(x) == InGroup(ScopeOf(a + b, images, reasoning), r)(x)
  {
    BothSound(a, b);
    forall x | x in part
      ensures InGroup(ScopeOf(part, images, reasoning), r)(x) == InGroup(ScopeOf(a + b, images, reasoning), r)(x)
    {
      if x.payload.ToolCall? {
        AnsweredInPart(a, b, x);
      }
    }
  }

  lemma FrontGroup(a: seq<Row>, b: seq<Row>, images: bool, reasoning: map<ResponseId, Continuation>, row: Row)
    requires WellFormed(a + b) && Folded(a + b) && Apart(a, b) && row in a && IsModelRow(row)
    ensures Group(a, ScopeOf(a, images, reasoning), row.payload.response) == Group(a + b, ScopeOf(a + b, images, reasoning), row.payload.response)
  {
    var r := row.payload.response;
    GroupAgrees(a, b, a, images, reasoning, r);
    FilterFront(a, b, InGroup(ScopeOf(a, images, reasoning), r), InGroup(ScopeOf(a + b, images, reasoning), r));
  }

  lemma BackGroup(a: seq<Row>, b: seq<Row>, images: bool, reasoning: map<ResponseId, Continuation>, row: Row)
    requires WellFormed(a + b) && Folded(a + b) && Apart(a, b) && row in b && IsModelRow(row)
    ensures Group(b, ScopeOf(b, images, reasoning), row.payload.response) == Group(a + b, ScopeOf(a + b, images, reasoning), row.payload.response)
  {
    var r := row.payload.response;
    GroupAgrees(a, b, b, images, reasoning, r);
    FilterBack(a, b, InGroup(ScopeOf(b, images, reasoning), r), InGroup(ScopeOf(a + b, images, reasoning), r));
  }

  lemma FrontCall(a: seq<Row>, b: seq<Row>, images: bool, reasoning: map<ResponseId, Continuation>, row: Row)
    requires WellFormed(a + b) && Folded(a + b) && Apart(a, b) && row in a && row.payload.ToolOutput?
    ensures FindCall(a, ScopeOf(a, images, reasoning), row.payload.call) == FindCall(a + b, ScopeOf(a + b, images, reasoning), row.payload.call)
  {
    var c := row.payload.call;
    BothSound(a, b);
    forall x | x in b && x.payload.ToolCall?
      ensures x.payload.call != c
    {
      CallComesFirst(a, b, row, x);
    }
    FilterFront(a, b, IsCall(ScopeOf(a, images, reasoning), c), IsCall(ScopeOf(a + b, images, reasoning), c));
  }

  lemma BackCall(a: seq<Row>, b: seq<Row>, images: bool, reasoning: map<ResponseId, Continuation>, row: Row)
    requires WellFormed(a + b) && Folded(a + b) && Apart(a, b) && row in b && row.payload.ToolOutput?
    ensures FindCall(b, ScopeOf(b, images, reasoning), row.payload.call) == FindCall(a + b, ScopeOf(a + b, images, reasoning), row.payload.call)
  {
    var c := row.payload.call;
    BothSound(a, b);
    FilterBack(a, b, IsCall(ScopeOf(b, images, reasoning), c), IsCall(ScopeOf(a + b, images, reasoning), c));
  }

  /** The rows of the front say in the whole view what they say by themselves. */
  lemma FrontEmits(a: seq<Row>, b: seq<Row>, images: bool, reasoning: map<ResponseId, Continuation>)
    requires WellFormed(a + b) && Folded(a + b) && Apart(a, b)
    ensures Emit(a + b, ScopeOf(a + b, images, reasoning), a) == Project(a, images, reasoning)
  {
    var sc, hsc := ScopeOf(a, images, reasoning), ScopeOf(a + b, images, reasoning);
    BothSound(a, b);
    forall row | row in a
      ensures SameSurroundings(a, sc, a + b, hsc, row)
    {
      if IsModelRow(row) {
        FrontGroup(a, b, images, reasoning, row);
      }
      if row.payload.ToolOutput? {
        FrontCall(a, b, images, reasoning, row);
      }
    }
    EmitSame(a, sc, a + b, hsc, a);
    FoldedProjection(a, images, reasoning);
  }

  lemma BackEmits(a: seq<Row>, b: seq<Row>, images: bool, reasoning: map<ResponseId, Continuation>)
    requires WellFormed(a + b) && Folded(a + b) && Apart(a, b)
    ensures Emit(a + b, ScopeOf(a + b, images, reasoning), b) == Project(b, images, reasoning)
  {
    var sc, hsc := ScopeOf(b, images, reasoning), ScopeOf(a + b, images, reasoning);
    BothSound(a, b);
    forall row | row in b
      ensures SameSurroundings(b, sc, a + b, hsc, row)
    {
      if IsModelRow(row) {
        BackGroup(a, b, images, reasoning, row);
      }
      if row.payload.ToolOutput? {
        BackCall(a, b, images, reasoning, row);
      }
    }
    EmitSame(b, sc, a + b, hsc, b);
    FoldedProjection(b, images, reasoning);
  }

  /** Cut where no response and no call is split, the projection is that of the two parts, one behind the other. */
  lemma CutProjection(a: seq<Row>, b: seq<Row>, images: bool, reasoning: map<ResponseId, Continuation>)
    requires WellFormed(a + b) && Folded(a + b) && Apart(a, b)
    ensures Project(a + b, images, reasoning) == Project(a, images, reasoning) + Project(b, images, reasoning)
  {
    FoldedProjection(a + b, images, reasoning);
    EmitConcat(a + b, ScopeOf(a + b, images, reasoning), a, b);
    FrontEmits(a, b, images, reasoning);
    BackEmits(a, b, images, reasoning);
  }

  // ---- A row in its place ----------------------------------------------------------------------

  /** No call of the response has an output in the list. */
  ghost predicate NothingAnswered(h: seq<Row>, r: ResponseId) {
    forall x, o :: x in h && o in h && x.payload.ToolCall? && x.payload.response == r && o.payload.ToolOutput?
      ==> o.payload.call != x.payload.call
  }

  /** Inputs, checkpoints, errors and state rows, and the text of a response none of whose calls is answered. */
  ghost predicate SpeaksForItself(a: seq<Row>, row: Row, b: seq<Row>) {
    if row.payload.AssistantMessage? then NothingAnswered(a + b, row.payload.response)
    else !row.payload.ToolCall? && !row.payload.ToolOutput?
  }

  lemma {:induction false} EmitAgrees(v: seq<Row>, sc: Scope, w: seq<Row>, wsc: Scope, rows: seq<Row>)
    requires forall row :: row in rows ==> Said(v, sc, row) == Said(w, wsc, row)
    ensures Emit(v, sc, rows) == Emit(w, wsc, rows)
  {
    if rows != [] {
      EmitAgrees(v, sc, w, wsc, Front(rows));
    }
  }

  lemma {:induction false} NoCalls(group: seq<Row>)
    requires forall row :: row in group ==> !row.payload.ToolCall?
    ensures GroupCalls(group) == []
  {
    if group != [] {
      NoCalls(Front(group));
    }
  }

  /** A response none of whose calls is answered does not call. */
  lemma NotCalling(h: seq<Row>, sc: Scope, r: ResponseId)
    requires forall x :: x in h && x.payload.ToolCall? && x.payload.response == r ==> x.payload.call !in sc.answered
    ensures !Calling(h, sc, r)
  {
    NoCalls(Group(h, sc, r));
  }

  /** Its texts are said as they are, and its open calls are silent. */
  lemma NotCallingSays(h: seq<Row>, sc: Scope, row: Row)
    requires IsModelRow(row) && row.id !in sc.dead
    requires forall x :: x in h && x.payload.ToolCall? && x.payload.response == row.payload.response ==> x.payload.call !in sc.answered
    ensures Said(h, sc, row) == if row.payload.AssistantMessage? then [Assistant(ContentText(row.payload.content))] else []
  {
    NotCalling(h, sc, row.payload.response);
  }

  lemma MiddleOut<T>(a: seq<T>, x: T, b: seq<T>, p: T -> bool)
    requires !p(x)
    ensures Filter(a + [x] + b, p) == Filter(a + b, p)
  {
    FilterConcat(a + [x], b, p);
    FilterConcat(a, [x], p);
    FilterNone([x], p);
    FilterConcat(a, b, p);
    assert Filter(a, p) + [] == Filter(a, p);
  }

  /** The other rows see the same outputs with and without the row. */
  lemma SameScope(a: seq<Row>, row: Row, b: seq<Row>, images: bool, reasoning: map<ResponseId, Continuation>)
    requires WellFormed(a + [row] + b) && Folded(a + [row] + b) && !row.payload.ToolOutput?
    ensures WellFormed(a + b) && Folded(a + b)
    ensures forall x :: x in a + [row] + b <==> x == row || x in a + b
    ensures forall x :: x in a + [row] + b ==> x.id !in ScopeOf(a + [row] + b, images, reasoning).dead
    ensures forall x :: x in a + b ==> x.id !in ScopeOf(a + b, images, reasoning).dead
    ensures ScopeOf(a + b, images, reasoning).answered == ScopeOf(a + [row] + b, images, reasoning).answered
  {
    var h, g := a + [row] + b, a + b;
    assert forall i :: 0 <= i < |a| ==> h[i] == g[i];
    assert forall i :: |a| <= i < |g| ==> h[i + 1] == g[i];
    assert h[|a|] == row;
    assert h == a + ([row] + b);
    NothingDead(h);
    NothingDead(g);
  }

  lemma OthersSaySame(a: seq<Row>, row: Row, b: seq<Row>, images: bool, reasoning: map<ResponseId, Continuation>, x: Row)
    requires WellFormed(a + [row] + b) && Folded(a + [row] + b) && SpeaksForItself(a, row, b) && x in a + b
    ensures Said(a + [row] + b, ScopeOf(a + [row] + b, images, reasoning), x) == Said(a + b, ScopeOf(a + b, images, reasoning), x)
  {
    var h, g := a + [row] + b, a + b;
    var hsc, gsc := ScopeOf(h, images, reasoning), ScopeOf(g, images, reasoning);
    SameScope(a, row, b, images, reasoning);
    if IsModelRow(x) && row.payload.AssistantMessage? && x.payload.response == row.payload.response {
      NotCallingSays(h, hsc, x);
      NotCallingSays(g, gsc, x);
    } else {
      if IsModelRow(x) {
        var r := x.payload.response;
        MiddleOut(a, row, b, InGroup(hsc, r));
        FilterAgree(g, InGroup(gsc, r), InGroup(hsc, r));
      }
      if x.payload.ToolOutput? {
        MiddleOut(a, row, b, IsCall(hsc, x.payload.call));
        FilterAgree(g, IsCall(gsc, x.payload.call), IsCall(hsc, x.payload.call));
      }
      SaysTheSame(g, gsc, h, hsc, x);
    }
  }

  lemma OneRow(row: Row, images: bool, reasoning: map<ResponseId, Continuation>)
    requires !Names(row, row.id)
    ensures row.id !in ScopeOf([row], images, reasoning).dead
    ensures Project([row], images, reasoning) == Said([row], ScopeOf([row], images, reasoning), row)
  {
    NothingDead([row]);
    FoldedProjection([row], images, reasoning);
    assert Front([row]) == [];
  }

  /** Rows of these kinds say the same in every view. */
  lemma SaidAnywhere(h: seq<Row>, sc: Scope, row: Row)
    requires row.id !in sc.dead
    ensures row.payload.UserTurn? || row.payload.SteerTurn? ==> Said(h, sc, row) == [UserMessage(row.payload.content, sc.images)]
    ensures row.payload.InterAgent? ==> Said(h, sc, row) == [Agent(row.payload.text)]
    ensures row.payload.ErrorRow? ==> Said(h, sc, row) == [Assistant("Previous run ended with an error: " + row.payload.text)]
    ensures row.payload.StateRow? ==> Said(h, sc, row) == []
    ensures row.payload.ToolOutput? && FindCall(h, sc, row.payload.call) == [] ==> Said(h, sc, row) == []
    ensures row.payload.ToolCall? && Group(h, sc, row.payload.response) == [] ==> Said(h, sc, row) == []
    ensures row.payload.Compaction? ==> Said(h, sc, row) == CheckpointMessages(row.payload, sc.images)
  {
  }

  lemma SaysItself(a: seq<Row>, row: Row, b: seq<Row>, images: bool, reasoning: map<ResponseId, Continuation>)
    requires WellFormed(a + [row] + b) && Folded(a + [row] + b) && SpeaksForItself(a, row, b)
    ensures Said(a + [row] + b, ScopeOf(a + [row] + b, images, reasoning), row) == Project([row], images, reasoning)
  {
    var h := a + [row] + b;
    SameScope(a, row, b, images, reasoning);
    assert row in h && !Names(row, row.id);
    OneRow(row, images, reasoning);
    SaysAlike(h, ScopeOf(h, images, reasoning), [row], ScopeOf([row], images, reasoning), row);
  }

  /** Such a row says the same wherever none of its response's calls is answered. */
  lemma SaysAlike(v: seq<Row>, sc: Scope, w: seq<Row>, wsc: Scope, row: Row)
    requires row.id !in sc.dead && row.id !in wsc.dead && sc.images == wsc.images
    requires !row.payload.ToolCall? && !row.payload.ToolOutput?
    requires row.payload.AssistantMessage? ==> forall x :: x in v && x.payload.ToolCall? && x.payload.response == row.payload.response ==> x.payload.call !in sc.answered
    requires row.payload.AssistantMessage? ==> forall x :: x in w && x.payload.ToolCall? && x.payload.response == row.payload.response ==> x.payload.call !in wsc.answered
    ensures Said(v, sc, row) == Said(w, wsc, row)
  {
    if row.payload.AssistantMessage? {
      NotCallingSays(v, sc, row);
      NotCallingSays(w, wsc, row);
    } else {
      SaidAnywhere(v, sc, row);
      SaidAnywhere(w, wsc, row);
    }
  }

  /**
   Such a row contributes exactly what it says by itself, in one place, and changes nothing else; if
   nothing is split there, that place is right behind everything the rows before it say.
   */
  lemma RowInPlace(a: seq<Row>, row: Row, b: seq<Row>, images: bool, reasoning: map<ResponseId, Continuation>)
    returns (before: seq<Message>, behind: seq<Message>)
    requires WellFormed(a + [row] + b) && Folded(a + [row] + b) && SpeaksForItself(a, row, b)
    ensures Project(a + [row] + b, images, reasoning) == before + Project([row], images, reasoning) + behind
    ensures Project(a + b, images, reasoning) == before + behind
    ensures Apart(a, b) ==> before == Project(a, images, reasoning) && behind == Project(b, images, reasoning)
  {
    var h, g := a + [row] + b, a + b;
    var hsc, gsc := ScopeOf(h, images, reasoning), ScopeOf(g, images, reasoning);
    SameScope(a, row, b, images, reasoning);
    before, behind := Emit(g, gsc, a), Emit(g, gsc, b);
    forall x | x in g
      ensures Said(h, hsc, x) == Said(g, gsc, x)
    {
      OthersSaySame(a, row, b, images, reasoning, x);
    }
    EmitAgrees(h, hsc, g, gsc, a);
    EmitAgrees(h, hsc, g, gsc, b);
    SaysItself(a, row, b, images, reasoning);
    FoldedProjection(h, images, reasoning);
    FoldedProjection(g, images, reasoning);
    EmitConcat(g, gsc, a, b);
    EmitConcat(h, hsc, a + [row], b);
    EmitConcat(h, hsc, a, [row]);
    assert Front([row]) == [] && Emit(h, hsc, [row]) == Said(h, hsc, row);
    if Apart(a, b) {
      FrontEmits(a, b, images, reasoning);
      BackEmits(a, b, images, reasoning);
    }
  }

  // ---- What each kind of row says --------------------------------------------------------------

  const IsText: ContentPart -> bool := (part: ContentPart) => part.Text?
  const IsImage: ContentPart -> bool := (part: ContentPart) => part.Image?

  function TextOf(part: ContentPart): string {
    if part.Text? then part.text else ""
  }

  /** The lines of the text parts, in order. */
  function LinesOf(texts: seq<ContentPart>): (lines: seq<string>)
    ensures |lines| == |texts|
  {
    seq(|texts|, i requires 0 <= i < |texts| => TextOf(texts[i]))
  }

  lemma {:induction false} TextsAreLines(content: seq<ContentPart>)
    ensures TextsOf(content) == LinesOf(Filter(content, IsText))
  {
    if content != [] {
      var first, rest := content[0], content[1..];
      TextsAreLines(rest);
      assert content == [first] + rest;
      FilterConcat([first], rest, IsText);
      OneSelected(first, IsText);
      LinesPrepend(first, Filter(rest, IsText));
    }
  }

  lemma LinesPrepend(first: ContentPart, rest: seq<ContentPart>)
    ensures LinesOf([first] + rest) == [TextOf(first)] + LinesOf(rest)
    ensures LinesOf([] + rest) == LinesOf(rest)
  {
    assert [] + rest == rest;
  }

  lemma OneSelected<T>(x: T, p: T -> bool)
    ensures Filter([x], p) == if p(x) then [x] else []
  {
    assert Front([x]) == [] && Filter([], p) == [];
  }

  lemma {:induction false} ImagesCounted(content: seq<ContentPart>)
    ensures ImageCount(content) == |Filter(content, IsImage)|
  {
    if content != [] {
      ImagesCounted(content[1..]);
      assert content == [content[0]] + content[1..];
      FilterConcat([content[0]], content[1..], IsImage);
      OneSelected(content[0], IsImage);
    }
  }

  /** One message: the text parts line by line, with the images, or with a note that counts them. */
  ghost predicate SaysContent(message: Message, content: seq<ContentPart>, images: bool) {
    var text := JoinLines(LinesOf(Filter(content, IsText)));
    var pictures := |Filter(content, IsImage)|;
    message == if pictures == 0 then User(text)
               else if images then UserParts(content)
               else User(text + (if text == "" then "" else "\n") + "[" + Digits(pictures)
                         + " image input(s) omitted because the selected model does not support images]")
  }

  /** A checkpoint says its inputs in order and then its note, or what its layout replays. */
  ghost predicate SaysCheckpoint(messages: seq<Message>, layout: Layout, preserved: seq<string>, summary: string, images: bool) {
    match layout
    case UserAnchored =>
      && |messages| == |preserved| + 1
      && (forall i :: 0 <= i < |preserved| ==> messages[i] == User(preserved[i]))
      && messages[|preserved|] == CheckpointNote(summary)
    case LegacyPrefix => messages == [CheckpointNote(summary)]
    case ClmCheckpoint(snapshot, _) =>
      && |messages| == |snapshot|
      && (forall i :: 0 <= i < |snapshot| ==>
            messages[i] == if snapshot[i].SnapshotParts? && !images
                           then Replayed(SnapshotUser(JoinLines(LinesOf(Filter(snapshot[i].parts, IsText)))))
                           else Replayed(snapshot[i]))
  }

  lemma SnapshotSays(snapshot: seq<SnapshotMessage>, images: bool, i: nat)
    requires i < |snapshot|
    ensures SnapshotMessages(snapshot, images)[i]
         == if snapshot[i].SnapshotParts? && !images
            then Replayed(SnapshotUser(JoinLines(LinesOf(Filter(snapshot[i].parts, IsText)))))
            else Replayed(snapshot[i])
  {
    if snapshot[i].SnapshotParts? {
      TextsAreLines(snapshot[i].parts);
    }
  }

  lemma LayoutSays(row: Row, images: bool)
    requires row.payload.Compaction?
    ensures SaysCheckpoint(CheckpointMessages(row.payload, images), row.payload.layout, row.payload.preserved, row.payload.summary, images)
  {
    if row.payload.layout.ClmCheckpoint? {
      var snapshot := row.payload.layout.snapshot;
      forall i | 0 <= i < |snapshot|
        ensures SnapshotMessages(snapshot, images)[i]
             == if snapshot[i].SnapshotParts? && !images
                then Replayed(SnapshotUser(JoinLines(LinesOf(Filter(snapshot[i].parts, IsText)))))
                else Replayed(snapshot[i])
      {
        SnapshotSays(snapshot, images, i);
      }
    }
  }

  lemma MessageSays(content: seq<ContentPart>, images: bool)
    ensures SaysContent(UserMessage(content, images), content, images)
  {
    TextsAreLines(content);
    ImagesCounted(content);
  }

  lemma InputContribution(row: Row, content: seq<ContentPart>, images: bool, reasoning: map<ResponseId, Continuation>)
    requires row.payload == UserTurn(content) || row.payload == SteerTurn(content)
    ensures |Project([row], images, reasoning)| == 1 && SaysContent(Project([row], images, reasoning)[0], content, images)
  {
    OneRow(row, images, reasoning);
    MessageSays(content, images);
    SaidAnywhere([row], ScopeOf([row], images, reasoning), row);
  }

  lemma TextContribution(row: Row, content: seq<ContentPart>, images: bool, reasoning: map<ResponseId, Continuation>)
    requires row.payload.AssistantMessage? && row.payload.content == content
    ensures Project([row], images, reasoning) == [Assistant(JoinLines(LinesOf(Filter(content, IsText))))]
  {
    OneRow(row, images, reasoning);
    TextsAreLines(content);
    NotCallingSays([row], ScopeOf([row], images, reasoning), row);
  }

  lemma CheckpointContribution(row: Row, images: bool, reasoning: map<ResponseId, Continuation>)
    requires row.payload.Compaction? && !Names(row, row.id)
    ensures SaysCheckpoint(Project([row], images, reasoning), row.payload.layout, row.payload.preserved, row.payload.summary, images)
  {
    OneRow(row, images, reasoning);
    LayoutSays(row, images);
    SaidAnywhere([row], ScopeOf([row], images, reasoning), row);
  }

  /** A call without its output says nothing, nor does an output without its call. */
  lemma OpenContribution(row: Row, images: bool, reasoning: map<ResponseId, Continuation>)
    requires row.payload.ToolCall? || row.payload.ToolOutput?
    ensures Project([row], images, reasoning) == []
  {
    var sc := ScopeOf([row], images, reasoning);
    OneRow(row, images, reasoning);
    if row.payload.ToolCall? {
      FilterNone([row], InGroup(sc, row.payload.response));
    } else {
      FilterNone([row], IsCall(sc, row.payload.call));
    }
    SaidAnywhere([row], sc, row);
  }

  lemma PlainContribution(row: Row, images: bool, reasoning: map<ResponseId, Continuation>)
    requires row.payload.InterAgent? || row.payload.ErrorRow? || row.payload.StateRow?
    ensures row.payload.InterAgent? ==> Project([row], images, reasoning) == [Agent(row.payload.text)]
    ensures row.payload.ErrorRow? ==> Project([row], images, reasoning) == [Assistant("Previous run ended with an error: " + row.payload.text)]
    ensures row.payload.StateRow? ==> Project([row], images, reasoning) == []
  {
    OneRow(row, images, reasoning);
    SaidAnywhere([row], ScopeOf([row], images, reasoning), row);
  }

  /** What each kind of row says by itself. */
  lemma RowSays(row: Row, images: bool, reasoning: map<ResponseId, Continuation>)
    requires !Names(row, row.id)
    ensures var messages := Project([row], images, reasoning);
            match row.payload
            case UserTurn(content) => |messages| == 1 && SaysContent(messages[0], content, images)
            case SteerTurn(content) => |messages| == 1 && SaysContent(messages[0], content, images)
            case InterAgent(_, text) => messages == [Agent(text)]
            case AssistantMessage(_, content) => messages == [Assistant(JoinLines(LinesOf(Filter(content, IsText))))]
            case ToolCall(_, _, _, _, _) => messages == []
            case ToolOutput(_, _, _, _) => messages == []
            case Compaction(layout, preserved, summary, _) => SaysCheckpoint(messages, layout, preserved, summary, images)
            case ErrorRow(text) => messages == [Assistant("Previous run ended with an error: " + text)]
            case StateRow(_) => messages == []
  {
    match row.payload
    case UserTurn(content) => InputContribution(row, content, images, reasoning);
    case SteerTurn(content) => InputContribution(row, content, images, reasoning);
    case AssistantMessage(_, content) => TextContribution(row, content, images, reasoning);
    case Compaction(_, _, _, _) => CheckpointContribution(row, images, reasoning);
    case InterAgent(_, _) => PlainContribution(row, images, reasoning);
    case ErrorRow(_) => PlainContribution(row, images, reasoning);
    case ToolCall(_, _, _, _, _) => OpenContribution(row, images, reasoning);
    case ToolOutput(_, _, _, _) => OpenContribution(row, images, reasoning);
    case StateRow(_) => PlainContribution(row, images, reasoning);
  }

  // ---- What a whole response says --------------------------------------------------------------

  const IsToolCall: Row -> bool := (row: Row) => row.payload.ToolCall?
  const IsOutput: Row -> bool := (row: Row) => row.payload.ToolOutput?
  const HasText: Row -> bool := (row: Row) => row.payload.AssistantMessage? && Spoken(row) != ""

  /** The text of an assistant row. */
  function Spoken(row: Row): string {
    if row.payload.AssistantMessage? then JoinLines(LinesOf(Filter(row.payload.content, IsText))) else ""
  }

  function SpokenLines(rows: seq<Row>): (lines: seq<string>)
    ensures |lines| == |rows|
  {
    seq(|rows|, i requires 0 <= i < |rows| => Spoken(rows[i]))
  }

  ghost predicate IsAnswer(call: Row, output: Row) {
    call.payload.ToolCall? && output.payload.ToolOutput? && call.payload.call == output.payload.call
  }

  ghost predicate IsAnswered(h: seq<Row>, call: Row) {
    exists output :: output in h && IsAnswer(call, output)
  }

  ghost predicate Answering(h: seq<Row>, output: Row) {
    exists call :: call in h && IsAnswer(call, output)
  }

  /** The view is one response with at least one call, and every call has its output. */
  ghost predicate IsResponse(h: seq<Row>, r: ResponseId) {
    && WellFormed(h)
    && (forall row :: row in h ==> (IsModelRow(row) && row.payload.response == r) || row.payload.ToolOutput?)
    && (forall call {:trigger IsAnswered(h, call)} :: call in h && call.payload.ToolCall? ==> IsAnswered(h, call))
    && (forall output {:trigger Answering(h, output)} :: output in h && output.payload.ToolOutput? ==> Answering(h, output))
    && (exists call :: call in h && call.payload.ToolCall?)
  }

  /** What projecting a response depends on. */
  ghost predicate Setting(h: seq<Row>, r: ResponseId, sc: Scope) {
    && IsResponse(h, r)
    && (forall row :: row in h ==> row.id !in sc.dead)
    && (forall call :: call in h && call.payload.ToolCall? ==> call.payload.call in sc.answered)
  }

  lemma ResponseSetting(h: seq<Row>, r: ResponseId, images: bool, reasoning: map<ResponseId, Continuation>)
    requires IsResponse(h, r)
    ensures Folded(h) && Setting(h, r, ScopeOf(h, images, reasoning))
  {
    var sc := ScopeOf(h, images, reasoning);
    assert forall row :: row in h ==> !row.payload.Compaction?;
    NothingDead(h);
    forall call | call in h && call.payload.ToolCall?
      ensures call.payload.call in sc.answered
    {
      assert IsAnswered(h, call);
    }
  }

  lemma ResponseGroup(h: seq<Row>, r: ResponseId, sc: Scope)
    requires Setting(h, r, sc)
    ensures forall row :: row in h ==> (InGroup(sc, r)(row) <==> !row.payload.ToolOutput?)
  {
  }

  lemma {:induction false} CallsAreReplayed(group: seq<Row>)
    ensures |GroupCalls(group)| == |Filter(group, IsToolCall)|
    ensures forall k :: 0 <= k < |GroupCalls(group)| ==>
              Filter(group, IsToolCall)[k].payload.ToolCall? && GroupCalls(group)[k] == ReplayedCall(Filter(group, IsToolCall)[k])
  {
    if group != [] {
      CallsAreReplayed(Front(group));
    }
  }

  /** The joined text of a group: its non-empty texts, line by line, if it has any assistant row. */
  lemma {:induction false} TextIsJoined(group: seq<Row>)
    ensures NonEmpty(GroupText(group)) == if Filter(group, HasText) == [] then None else Some(JoinLines(SpokenLines(Filter(group, HasText))))
  {
    if group != [] {
      TextIsJoined(Front(group));
      var row, before := Last(group), Filter(Front(group), HasText);
      if row.payload.AssistantMessage? {
        TextsAreLines(row.payload.content);
        if HasText(row) {
          LinesAppend(before, row);
        }
      }
    }
  }

  lemma LinesAppend(rows: seq<Row>, row: Row)
    ensures SpokenLines(rows + [row]) == SpokenLines(rows) + [Spoken(row)]
    ensures JoinLines(SpokenLines(rows + [row]))
         == if rows == [] then Spoken(row) else JoinLines(SpokenLines(rows)) + "\n" + Spoken(row)
  {
    assert SpokenLines(rows + [row]) == SpokenLines(rows) + [Spoken(row)];
    if rows != [] {
      JoinLinesConcat(SpokenLines(rows), [Spoken(row)]);
    }
  }

  /** A row of a calling response speaks for the response if it is the first, or not at all. */
  lemma CallingRowSays(h: seq<Row>, sc: Scope, row: Row)
    requires IsModelRow(row) && row.id !in sc.dead && Calling(h, sc, row.payload.response)
    ensures var group := Group(h, sc, row.payload.response);
            Said(h, sc, row) == if group != [] && group[0] == row then [GroupMessage(group, sc, row.payload.response)] else []
  {
  }

  lemma ResponseStarts(h: seq<Row>, r: ResponseId, sc: Scope)
    requires Setting(h, r, sc)
    ensures h != [] && !h[0].payload.ToolOutput? && Calling(h, sc, r)
    ensures Group(h, sc, r) != [] && Group(h, sc, r)[0] == h[0]
  {
    ResponseGroup(h, r, sc);
    FirstIsModelRow(h, r);
    FirstSelected(h, InGroup(sc, r));
    var call :| call in h && call.payload.ToolCall?;
    CallsAreReplayed(Group(h, sc, r));
    assert call in Filter(Group(h, sc, r), IsToolCall);
  }

  /** Only the first row and the outputs of a response say anything. */
  lemma ResponseRowSays(h: seq<Row>, r: ResponseId, sc: Scope, row: Row)
    requires Setting(h, r, sc) && row in h && !row.payload.ToolOutput?
    ensures h != [] && Said(h, sc, row) == if row == h[0] then [GroupMessage(Group(h, sc, r), sc, r)] else []
  {
    ResponseStarts(h, r, sc);
    CallingRowSays(h, sc, row);
  }

  lemma FirstIsModelRow(h: seq<Row>, r: ResponseId)
    requires IsResponse(h, r)
    ensures h != [] && !h[0].payload.ToolOutput?
  {
    var some :| some in h && some.payload.ToolCall?;
    assert h[0].payload.ToolOutput? ==> Answering(h, h[0]);
    forall call | call in h && call.payload.ToolCall?
      ensures !IsAnswer(call, h[0])
    {
      var i :| 0 <= i < |h| && h[i] == call;
    }
  }

  lemma {:induction false} FirstSelected<T>(s: seq<T>, p: T -> bool)
    requires s != [] && p(s[0])
    ensures Filter(s, p) != [] && Filter(s, p)[0] == s[0]
  {
    if |s| > 1 {
      FirstSelected(Front(s), p);
    }
  }

  /** Silent rows may be left out. */
  lemma {:induction false} EmitSpeaking(h: seq<Row>, sc: Scope, rows: seq<Row>, p: Row -> bool)
    requires forall row :: row in rows && !p(row) ==> Said(h, sc, row) == []
    ensures Emit(h, sc, rows) == Emit(h, sc, Filter(rows, p))
  {
    if rows != [] {
      EmitSpeaking(h, sc, Front(rows), p);
      EmitAppend(h, sc, Filter(Front(rows), p), Last(rows));
    }
  }

  lemma EmitAppend(h: seq<Row>, sc: Scope, rows: seq<Row>, row: Row)
    ensures Emit(h, sc, rows + [row]) == Emit(h, sc, rows) + Said(h, sc, row)
  {
    assert Front(rows + [row]) == rows && Last(rows + [row]) == row;
  }

  lemma RestIsSilent(h: seq<Row>, r: ResponseId, sc: Scope)
    requires Setting(h, r, sc)
    ensures forall row :: row in h[1..] && !IsOutput(row) ==> Said(h, sc, row) == []
  {
    forall row | row in h[1..] && !IsOutput(row)
      ensures Said(h, sc, row) == []
    {
      var i :| 0 <= i < |h| - 1 && h[1..][i] == row;
      assert h[i + 1] == row && row.id != h[0].id;
      ResponseRowSays(h, r, sc, row);
    }
  }

  lemma OutputsBehind(first: Row, rest: seq<Row>)
    requires !IsOutput(first)
    ensures Filter([first] + rest, IsOutput) == Filter(rest, IsOutput)
  {
    FilterConcat([first], rest, IsOutput);
    OneSelected(first, IsOutput);
    assert [] + Filter(rest, IsOutput) == Filter(rest, IsOutput);
  }

  lemma EmitFirst(h: seq<Row>, sc: Scope, first: Row, rest: seq<Row>)
    ensures Emit(h, sc, [first] + rest) == Said(h, sc, first) + Emit(h, sc, rest)
  {
    EmitConcat(h, sc, [first], rest);
    EmitOne(h, sc, [first]);
  }

  lemma EmitOne(h: seq<Row>, sc: Scope, one: seq<Row>)
    requires |one| == 1
    ensures Emit(h, sc, one) == Said(h, sc, one[0])
  {
    var said := Said(h, sc, one[0]);
    assert Front(one) == [] && Last(one) == one[0];
    assert Emit(h, sc, []) + said == said;
  }

  /** The response speaks at its first row, and then its outputs do. */
  lemma ResponseEmits(h: seq<Row>, r: ResponseId, sc: Scope)
    requires Setting(h, r, sc)
    ensures Emit(h, sc, h) == [GroupMessage(Group(h, sc, r), sc, r)] + Emit(h, sc, Filter(h, IsOutput))
  {
    ResponseStarts(h, r, sc);
    var first, rest := h[0], h[1..];
    assert h == [first] + rest;
    ResponseRowSays(h, r, sc, first);
    RestIsSilent(h, r, sc);
    EmitSpeaking(h, sc, rest, IsOutput);
    OutputsBehind(first, rest);
    EmitFirst(h, sc, first, rest);
  }

  lemma {:induction false} ConcatOnes<T>(parts: seq<seq<T>>)
    requires forall i :: 0 <= i < |parts| ==> |parts[i]| == 1
    ensures |Concat(parts)| == |parts|
    ensures forall k :: 0 <= k < |parts| ==> Concat(parts)[k] == parts[k][0]
  {
    if parts != [] {
      ConcatOnes(Front(parts));
    }
  }

  lemma OneEach(h: seq<Row>, sc: Scope, rows: seq<Row>)
    requires forall i :: 0 <= i < |rows| ==> |Said(h, sc, rows[i])| == 1
    ensures |Emit(h, sc, rows)| == |rows|
    ensures forall k :: 0 <= k < |rows| ==> Emit(h, sc, rows)[k] == Said(h, sc, rows[k])[0]
  {
    EmitIsConcat(h, sc, rows);
    ConcatOnes(Sayings(h, sc, rows));
  }

  /** The provider-facing id of a call: the model's own, or the canonical one if that is blank. */
  ghost predicate ShownAs(id: string, call: Row)
    requires call.payload.ToolCall?
  {
    id == if forall c :: c in call.payload.modelCallId ==> IsWhitespace(c) then call.payload.call else call.payload.modelCallId
  }

  /** An output is said under the id and the tool of its call, with its own status, text and metadata. */
  ghost predicate SaysResult(message: Message, call: Row, output: Row)
    requires call.payload.ToolCall? && output.payload.ToolOutput?
  {
    && message.Tool? && ShownAs(message.callId, call)
    && message.source == call.payload.call && message.toolName == call.payload.toolName
    && message.status == output.payload.status && message.outputText == output.payload.outputText
    && message.metadata == output.payload.metadata
  }

  lemma OutputSays(h: seq<Row>, sc: Scope, r: ResponseId, output: Row)
    requires Setting(h, r, sc)
    requires output in h && output.payload.ToolOutput?
    ensures |Said(h, sc, output)| == 1
    ensures exists call :: call in h && IsAnswer(call, output) && SaysResult(Said(h, sc, output)[0], call, output)
  {
    assert Answering(h, output);
    var call :| call in h && IsAnswer(call, output);
    FoundCall(h, sc, call);
    assert Said(h, sc, output) == [ToolMessage(output.payload, NameOf(call))];
    assert SaysResult(ToolMessage(output.payload, NameOf(call)), call, output);
  }

  /** The message of the response: its text, its calls in order under their ids, its private reasoning. */
  ghost predicate SaysCalls(message: Message, calls: seq<Row>, texts: seq<Row>, continuation: Option<Continuation>) {
    && message.AssistantToolCalls? && |message.calls| == |calls|
    && (forall k :: 0 <= k < |calls| ==>
          && calls[k].payload.ToolCall? && ShownAs(message.calls[k].callId, calls[k])
          && message.calls[k].source == calls[k].payload.call && message.calls[k].toolName == calls[k].payload.toolName
          && message.calls[k].arguments == calls[k].payload.arguments)
    && message.content == (if texts == [] then None else Some(JoinLines(SpokenLines(texts))))
    && message.continuation == continuation
  }

  lemma MessageOfGroup(group: seq<Row>, r: ResponseId, sc: Scope)
    ensures SaysCalls(GroupMessage(group, sc, r), Filter(group, IsToolCall), Filter(group, HasText),
                      if r in sc.reasoning then Some(sc.reasoning[r]) else None)
  {
    CallsAreReplayed(group);
    TextIsJoined(group);
  }

  lemma GroupSays(h: seq<Row>, r: ResponseId, sc: Scope)
    requires Setting(h, r, sc)
    ensures SaysCalls(GroupMessage(Group(h, sc, r), sc, r), Filter(h, IsToolCall), Filter(h, HasText),
                      if r in sc.reasoning then Some(sc.reasoning[r]) else None)
  {
    ResponseGroup(h, r, sc);
    FilterThrough(h, InGroup(sc, r), IsToolCall);
    FilterThrough(h, InGroup(sc, r), HasText);
    MessageOfGroup(Group(h, sc, r), r, sc);
  }

  /** The results follow the outputs. */
  ghost predicate SaysResults(h: seq<Row>, messages: seq<Message>, outputs: seq<Row>) {
    && |messages| == |outputs|
    && forall k :: 0 <= k < |outputs| ==> ResultFor(h, messages[k], outputs[k])
  }

  ghost predicate ResultFor(h: seq<Row>, message: Message, output: Row) {
    exists call :: call in h && IsAnswer(call, output) && SaysResult(message, call, output)
  }

  lemma ResultsFollow(h: seq<Row>, sc: Scope, r: ResponseId, outputs: seq<Row>)
    requires Setting(h, r, sc) && forall output :: output in outputs ==> output in h && output.payload.ToolOutput?
    ensures SaysResults(h, Emit(h, sc, outputs), outputs)
  {
    forall i | 0 <= i < |outputs|
      ensures |Said(h, sc, outputs[i])| == 1 && ResultFor(h, Said(h, sc, outputs[i])[0], outputs[i])
    {
      OutputSays(h, sc, r, outputs[i]);
    }
    OneEach(h, sc, outputs);
  }

  /** A whole response says one message with its text and calls, and then one result for each output. */
  lemma ResponseSays(h: seq<Row>, r: ResponseId, images: bool, reasoning: map<ResponseId, Continuation>)
    requires IsResponse(h, r)
    ensures var messages := Project(h, images, reasoning);
            && messages != []
            && SaysCalls(messages[0], Filter(h, IsToolCall), Filter(h, HasText), if r in reasoning then Some(reasoning[r]) else None)
            && SaysResults(h, messages[1..], Filter(h, IsOutput))
  {
    var sc, outputs := ScopeOf(h, images, reasoning), Filter(h, IsOutput);
    ResponseSetting(h, r, images, reasoning);
    ResponseStarts(h, r, sc);
    FoldedProjection(h, images, reasoning);
    ResponseEmits(h, r, sc);
    GroupSays(h, r, sc);
    ResultsFollow(h, sc, r, outputs);
    assert Project(h, images, reasoning)[1..] == Emit(h, sc, outputs);
  }
}
