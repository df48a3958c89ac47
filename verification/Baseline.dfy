/**
 The provider token baseline: when the usage a provider reported for one response may stand for the
 rows it saw, and which messages must be counted on top of it.
 */
module Baseline {
  import opened Base
  import opened History
  import opened ActiveView
  import opened Units
  import opened Projection
  import opened ProjectionLoop
  import opened Pairing
  import opened Selection
  import opened Frame

  /** The rows no compaction row of the list names. */
  function ActiveRows(h: seq<Row>): (active: seq<Row>)
    ensures Folded(active)
  {
    Filter(h, Keeps(CompactedIds(h)))
  }

  /** All rows of a folded view are active. */
  lemma FoldedIsActive(h: seq<Row>)
    requires Folded(h)
    ensures ActiveRows(h) == h
  {
    NothingDead(h);
    FilterAll(h, Keeps(CompactedIds(h)));
  }

  predicate OfResponse(row: Row, r: ResponseId) {
    IsModelRow(row) && row.payload.response == r
  }

  /** Rows counted locally: not seen by the provider and not written by it. */
  function Local(known: set<ItemId>, r: ResponseId): Row -> bool {
    (row: Row) => row.id !in known && !OfResponse(row, r)
  }

  ghost predicate HasCall(h: seq<Row>, c: CallId) {
    exists row :: row in h && row.payload.ToolCall? && row.payload.call == c
  }

  /** A row the baseline cannot account for. */
  ghost predicate Ends(h: seq<Row>, r: ResponseId, row: Row) {
    || (IsModelRow(row) && row.payload.response != r)
    || row.payload.Compaction?
    || (row.payload.ToolOutput? && !HasCall(h, row.payload.call))
  }

  /** When a baseline taken for response `r` over the rows `known` may be reused for `h`. */
  ghost predicate Reusable(h: seq<Row>, known: set<ItemId>, r: ResponseId) {
    && LatestResponse(h) == Some(r)
    && (forall id :: id in known ==> exists row :: row in h && row.id == id)
    && (forall row :: row in h && row.id !in known ==> !Ends(h, r, row))
  }

  // ---- The lookup ------------------------------------------------------------------------------

  function NamesOf(rows: seq<Row>): map<CallId, (string, string)> {
    if rows == [] then map[]
    else
      var before := NamesOf(Front(rows));
      if Last(rows).payload.ToolCall? then before[Last(rows).payload.call := NameOf(Last(rows))] else before
  }

  lemma {:induction false} NamesOfExactly(rows: seq<Row>, c: CallId)
    ensures c in NamesOf(rows) <==> HasCall(rows, c)
    ensures c in NamesOf(rows) ==> exists row :: row in rows && row.payload.ToolCall? && row.payload.call == c && NamesOf(rows)[c] == NameOf(row)
  {
    if rows != [] {
      NamesOfExactly(Front(rows), c);
      assert rows == Front(rows) + [Last(rows)];
      assert forall x :: x in rows <==> x in Front(rows) || x == Last(rows);
    }
  }

  lemma FoundSays(h: seq<Row>, sc: Scope, row: Row, call: Row)
    requires row.payload.ToolOutput? && row.id !in sc.dead && call.payload.ToolCall?
    requires FindCall(h, sc, row.payload.call) != [] && FindCall(h, sc, row.payload.call)[0] == call
    ensures RowMessages(h, sc, row) == [ToolMessage(row.payload, NameOf(call))]
  {
  }

  /** The name found for an output is the one its projected result carries. */
  lemma NamedResult(h: seq<Row>, sc: Scope, row: Row)
    requires WellFormed(h) && Folded(h) && sc.dead == CompactedIds(h) && sc.answered == AnsweredCalls(h, sc.dead)
    requires row in h && row.payload.ToolOutput? && row.payload.call in NamesOf(h)
    ensures RowMessages(h, sc, row) == [ToolMessage(row.payload, NamesOf(h)[row.payload.call])]
  {
    var c := row.payload.call;
    NothingDead(h);
    NamesOfExactly(h, c);
    var call :| call in h && call.payload.ToolCall? && call.payload.call == c && NamesOf(h)[c] == NameOf(call);
    assert c in AnsweredCalls(h, sc.dead);
    FoundCall(h, sc, call);
    FoundSays(h, sc, row, call);
  }

  lemma LocalStep(h: seq<Row>, sc: Scope, known: set<ItemId>, r: ResponseId, n: nat)
    requires n < |h|
    ensures Emit(h, sc, Filter(h[..n + 1], Local(known, r)))
         == Emit(h, sc, Filter(h[..n], Local(known, r))) + if Local(known, r)(h[n]) then Said(h, sc, h[n]) else []
  {
    assert Front(h[..n + 1]) == h[..n] && Last(h[..n + 1]) == h[n];
    var before := Filter(h[..n], Local(known, r));
    assert Front(before + [h[n]]) == before && Last(before + [h[n]]) == h[n];
  }

  /** The scope messages of a folded view are projected in. */
  ghost predicate Describes(sc: Scope, h: seq<Row>) {
    sc.dead == CompactedIds(h) && sc.answered == AnsweredCalls(h, sc.dead)
  }

  /** Rows outside responses speak for themselves only. */
  lemma SpeaksAlone(h: seq<Row>, sc: Scope, row: Row)
    requires !IsModelRow(row)
    ensures Said(h, sc, row) == RowMessages(h, sc, row)
  {
  }

  /** What one unseen row adds, or nothing if the baseline cannot be used. */
  method LocalMessage(ghost h: seq<Row>, ghost sc: Scope, names: map<CallId, (string, string)>, images: bool,
                      r: ResponseId, row: Row)
    returns (message: Option<seq<Message>>)
    requires WellFormed(h) && Folded(h) && Describes(sc, h) && sc.images == images
    requires names == NamesOf(h) && row in h
    ensures message.Some? <==> !Ends(h, r, row)
    ensures message.Some? ==> message.value == if OfResponse(row, r) then [] else RowMessages(h, sc, row)
    ensures message.Some? && !OfResponse(row, r) ==> !IsModelRow(row)
  {
    NothingDead(h);
    match row.payload
    case UserTurn(content) => message := Some([UserMessage(content, images)]);
    case SteerTurn(content) => message := Some([UserMessage(content, images)]);
    case InterAgent(_, text) => message := Some([Agent(text)]);
    case AssistantMessage(response, _) => message := if response == r then Some([]) else None;
    case ToolCall(_, response, _, _, _) => message := if response == r then Some([]) else None;
    case Compaction(_, _, _, _) => message := None;
    case ToolOutput(call, _, _, _) =>
      NamesOfExactly(h, call);
      if call !in names {
        return None;
      }
      NamedResult(h, sc, row);
      message := Some([ToolMessage(row.payload, names[call])]);
    case ErrorRow(text) => message := Some([Assistant(ERROR_PREFIX + text)]);
    case StateRow(_) => message := Some([]);
  }

  ghost predicate Accounted(h: seq<Row>, known: set<ItemId>, r: ResponseId, n: nat)
    requires n <= |h|
  {
    forall i :: 0 <= i < n && h[i].id !in known ==> !Ends(h, r, h[i])
  }

  ghost predicate CountedLocally(h: seq<Row>, sc: Scope, known: set<ItemId>, r: ResponseId, n: nat, messages: seq<Message>)
    requires n <= |h|
  {
    messages == Emit(h, sc, Filter(h[..n], Local(known, r)))
  }

  lemma CountOne(h: seq<Row>, sc: Scope, known: set<ItemId>, r: ResponseId, n: nat, messages: seq<Message>, more: seq<Message>)
    requires n < |h| && CountedLocally(h, sc, known, r, n, messages)
    requires more == if Local(known, r)(h[n]) then Said(h, sc, h[n]) else []
    ensures CountedLocally(h, sc, known, r, n + 1, messages + more)
  {
    LocalStep(h, sc, known, r, n);
  }

  /** Adds what row `n` says, or gives up on the baseline. */
  method LocalNext(active: seq<Row>, ghost sc: Scope, names: map<CallId, (string, string)>, known: set<ItemId>, r: ResponseId,
                   images: bool, n: nat, before: seq<Message>)
    returns (messages: Option<seq<Message>>)
    requires WellFormed(active) && Folded(active) && Describes(sc, active) && sc.images == images && names == NamesOf(active)
    requires n < |active| && CountedLocally(active, sc, known, r, n, before)
    ensures messages.Some? <==> active[n].id in known || !Ends(active, r, active[n])
    ensures messages.Some? ==> CountedLocally(active, sc, known, r, n + 1, messages.value)
  {
    if active[n].id in known {
      CountOne(active, sc, known, r, n, before, []);
      assert before + [] == before;
      return Some(before);
    }
    var message := LocalMessage(active, sc, names, images, r, active[n]);
    if message.None? {
      return None;
    }
    if !OfResponse(active[n], r) {
      SpeaksAlone(active, sc, active[n]);
    }
    CountOne(active, sc, known, r, n, before, message.value);
    messages := Some(before + message.value);
  }

  /** One pass over the active rows. */
  method LocalPass(active: seq<Row>, known: set<ItemId>, r: ResponseId, images: bool, ghost sc: Scope)
    returns (local: Option<seq<Message>>)
    requires WellFormed(active) && Folded(active) && Describes(sc, active) && sc.images == images
    ensures local.Some? <==> Accounted(active, known, r, |active|)
    ensures local.Some? ==> CountedLocally(active, sc, known, r, |active|, local.value)
  {
    var names := NamesOf(active);
    var messages: seq<Message> := [];
    assert active[..0] == [];
    for n := 0 to |active|
      invariant Accounted(active, known, r, n)
      invariant CountedLocally(active, sc, known, r, n, messages)
    {
      var next := LocalNext(active, sc, names, known, r, images, n, messages);
      if next.None? {
        return None;
      }
      messages := next.value;
    }
    local := Some(messages);
  }

  function IdsOf(rows: seq<Row>): set<ItemId> {
    set row | row in rows :: row.id
  }

  lemma ReusableExactly(h: seq<Row>, known: set<ItemId>, r: ResponseId)
    ensures Reusable(h, known, r) <==> LatestResponse(h) == Some(r) && known <= IdsOf(h) && Accounted(h, known, r, |h|)
  {
    assert forall row :: row in h <==> exists i :: 0 <= i < |h| && h[i] == row;
    assert known <= IdsOf(h) <==> forall id :: id in known ==> exists row :: row in h && row.id == id;
  }

  /**
   The messages to count on top of the baseline. They are exactly what the unseen rows that are not
   part of the response say in the projection of the whole view.
   */
  method LocalMessages(h: seq<Row>, known: set<ItemId>, r: ResponseId, images: bool,
                       ghost reasoning: map<ResponseId, Continuation>)
    returns (local: Option<seq<Message>>)
    requires WellFormed(h)
    ensures local.Some? <==> Reusable(ActiveRows(h), known, r)
    ensures local.Some? ==> local.value == Emit(ActiveRows(h), ScopeOf(ActiveRows(h), images, reasoning),
                                                Filter(ActiveRows(h), Local(known, r)))
  {
    var active := ActiveRows(h);
    ReusableExactly(active, known, r);
    if LatestResponse(active) != Some(r) || !(known <= IdsOf(active)) {
      return None;
    }
    WellFormedSelection(h, Keeps(CompactedIds(h)));
    local := LocalPass(active, known, r, images, ScopeOf(active, images, reasoning));
    assert active[..|active|] == active;
  }

  /** When a baseline may be reused, told from the rows alone. */
  lemma ReusableByKind(h: seq<Row>, known: set<ItemId>, r: ResponseId)
    ensures Reusable(h, known, r)
       <==> && (exists i :: 0 <= i < |h| && WritesFor(h[i], r)
                            && forall j :: i < j < |h| ==> !(h[j].payload.AssistantMessage? || h[j].payload.ToolCall?))
            && (forall id :: id in known ==> exists row :: row in h && row.id == id)
            && (forall row :: row in h && row.id !in known ==>
                  match row.payload
                  case AssistantMessage(response, _) => response == r
                  case ToolCall(_, response, _, _, _) => response == r
                  case ToolOutput(call, _, _, _) => exists c :: c in h && c.payload.ToolCall? && c.payload.call == call
                  case Compaction(_, _, _, _) => false
                  case _ => true)
  {
    LatestByPlace(h, r);
    forall row | row in h
      ensures Ends(h, r, row) <==> !(match row.payload
                                     case AssistantMessage(response, _) => response == r
                                     case ToolCall(_, response, _, _, _) => response == r
                                     case ToolOutput(call, _, _, _) => exists c :: c in h && c.payload.ToolCall? && c.payload.call == call
                                     case Compaction(_, _, _, _) => false
                                     case _ => true)
    {
    }
  }

  lemma LatestByPlace(h: seq<Row>, r: ResponseId)
    ensures LatestResponse(h) == Some(r)
       <==> exists i :: 0 <= i < |h| && WritesFor(h[i], r)
                        && forall j :: i < j < |h| ==> !(h[j].payload.AssistantMessage? || h[j].payload.ToolCall?)
  {
    if i :| 0 <= i < |h| && WritesFor(h[i], r) && forall j :: i < j < |h| ==> !(h[j].payload.AssistantMessage? || h[j].payload.ToolCall?) {
      LatestResponseExactly(h, i);
    }
    if LatestResponse(h) == Some(r) {
      var i := LatestFound(h);
      LatestResponseExactly(h, i);
      assert WritesFor(h[i], r);
    }
  }

  lemma {:induction false} LatestFound(h: seq<Row>) returns (i: nat)
    requires LatestResponse(h).Some?
    ensures i < |h| && (h[i].payload.AssistantMessage? || h[i].payload.ToolCall?)
    ensures forall j :: i < j < |h| ==> !(h[j].payload.AssistantMessage? || h[j].payload.ToolCall?)
  {
    if IsModelRow(Last(h)) {
      i := |h| - 1;
    } else {
      i := LatestFound(Front(h));
    }
  }

  // ---- When a baseline stops being used --------------------------------------------------------

  lemma {:induction false} LastOf(rows: seq<Row>, p: Row -> bool) returns (i: nat)
    requires exists row :: row in rows && p(row)
    ensures i < |rows| && p(rows[i]) && forall j :: i < j < |rows| ==> !p(rows[j])
  {
    if p(Last(rows)) {
      i := |rows| - 1;
    } else {
      i := LastOf(Front(rows), p);
    }
  }

  /** A row behind which no compaction is appended stays in view. */
  lemma StaysInView(view: seq<Row>, rows: seq<Row>, i: nat)
    requires Folded(view) && i < |rows|
    requires forall j :: i < j < |rows| ==> !rows[j].payload.Compaction?
    ensures rows[i] in IngestAll(view, rows)
  {
    RunFromView(view, rows);
    var log := view + rows;
    SurvivorsExactly(log, rows[i]);
    assert log[|view| + i] == rows[i];
    assert Unnamed(log, rows[i].id, |view| + i + 1, |log|);
  }

  /** Once a compaction or another response has been appended, the baseline is never used again. */
  lemma NeverReusedAfter(view: seq<Row>, rows: seq<Row>, known: set<ItemId>, r: ResponseId)
    requires Continues(view, rows)
    requires forall row :: row in rows ==> row.id !in known
    requires exists row :: row in rows && (row.payload.Compaction? || (IsModelRow(row) && row.payload.response != r))
    ensures !Reusable(IngestAll(view, rows), known, r)
  {
    var i: nat;
    if exists row :: row in rows && row.payload.Compaction? {
      i := LastOf(rows, (row: Row) => row.payload.Compaction?);
    } else {
      var row :| row in rows && IsModelRow(row) && row.payload.response != r;
      i :| 0 <= i < |rows| && rows[i] == row;
      assert forall j :: 0 <= j < |rows| ==> rows[j] in rows;
    }
    StaysInView(view, rows, i);
  }

  lemma {:induction false} PlainAppend(view: seq<Row>, rows: seq<Row>)
    requires forall row :: row in rows ==> !row.payload.Compaction?
    ensures IngestAll(view, rows) == view + rows
  {
    if rows == [] {
      assert view + rows == view;
    } else {
      PlainAppend(view, Front(rows));
      assert view + Front(rows) + [Last(rows)] == view + rows;
    }
  }

  lemma {:induction false} LatestAppend(view: seq<Row>, rows: seq<Row>, r: ResponseId)
    requires LatestResponse(view) == Some(r)
    requires forall row :: row in rows && IsModelRow(row) ==> row.payload.response == r
    ensures LatestResponse(view + rows) == Some(r)
  {
    if rows == [] {
      assert view + rows == view;
    } else {
      LatestAppend(view, Front(rows), r);
      assert Front(view + rows) == view + Front(rows) && Last(view + rows) == Last(rows);
    }
  }

  /** A usable baseline stays usable exactly as long as only rows it can account for are appended. */
  lemma ReusedExactlyWhile(view: seq<Row>, rows: seq<Row>, known: set<ItemId>, r: ResponseId)
    requires Continues(view, rows) && Reusable(view, known, r)
    requires forall row :: row in rows ==> row.id !in known
    ensures Reusable(IngestAll(view, rows), known, r) <==> forall row :: row in rows ==> !Ends(view + rows, r, row)
  {
    if exists row :: row in rows && (row.payload.Compaction? || (IsModelRow(row) && row.payload.response != r)) {
      NeverReusedAfter(view, rows, known, r);
    } else {
      PlainAppend(view, rows);
      LatestAppend(view, rows, r);
      forall row | row in view && row.id !in known
        ensures !Ends(view + rows, r, row)
      {
        assert !Ends(view, r, row);
      }
    }
  }

  // ---- Agreement with a full recomputation -----------------------------------------------------

  /** The baseline was taken over all of `v`, for a response that had written nothing yet. */
  ghost predicate Sampled(v: seq<Row>, known: set<ItemId>, r: ResponseId) {
    known == IdsOf(v) && forall row :: row in v ==> !OfResponse(row, r)
  }

  /** A call of `v` that was still open is answered behind it. */
  ghost predicate AnsweredLate(v: seq<Row>, tail: seq<Row>) {
    exists call, output :: IsLate(v, tail, call, output)
  }

  ghost predicate IsLate(v: seq<Row>, tail: seq<Row>, call: Row, output: Row) {
    call in v && call.payload.ToolCall? && output in tail && output.payload.ToolOutput? && output.payload.call == call.payload.call
  }

  lemma SampledAnswers(v: seq<Row>, tail: seq<Row>, call: Row)
    requires Folded(v) && Folded(v + tail) && !AnsweredLate(v, tail)
    requires call in v && call.payload.ToolCall?
    ensures call.payload.call in AnsweredCalls(v, CompactedIds(v)) <==> call.payload.call in AnsweredCalls(v + tail, CompactedIds(v + tail))
  {
    NothingDead(v);
    NothingDead(v + tail);
    forall output | output in v + tail && output.payload.ToolOutput? && output.payload.call == call.payload.call
      ensures output in v
    {
      assert !IsLate(v, tail, call, output);
    }
  }

  lemma PrefixFolded(v: seq<Row>, tail: seq<Row>)
    requires Folded(v + tail)
    ensures Folded(v)
  {
    assert forall row :: row in v ==> row in v + tail;
  }

  lemma SampledGroup(v: seq<Row>, tail: seq<Row>, sc: Scope, hsc: Scope, q: ResponseId)
    requires WellFormed(v + tail) && Folded(v + tail) && !AnsweredLate(v, tail)
    requires Describes(sc, v) && Describes(hsc, v + tail)
    requires forall row :: row in tail ==> !OfResponse(row, q)
    ensures Group(v, sc, q) == Group(v + tail, hsc, q)
  {
    var h := v + tail;
    PrefixFolded(v, tail);
    NothingDead(v);
    NothingDead(h);
    forall x | x in v
      ensures InGroup(sc, q)(x) == InGroup(hsc, q)(x)
    {
      assert x in h;
      if x.payload.ToolCall? {
        SampledAnswers(v, tail, x);
      }
    }
    FilterAgree(v, InGroup(sc, q), InGroup(hsc, q));
    FilterConcat(v, tail, InGroup(hsc, q));
    FilterNone(tail, InGroup(hsc, q));
    assert Group(v, sc, q) + [] == Group(v, sc, q);
  }

  lemma SampledCall(v: seq<Row>, tail: seq<Row>, sc: Scope, hsc: Scope, row: Row)
    requires WellFormed(v + tail) && Folded(v + tail)
    requires Describes(sc, v) && Describes(hsc, v + tail)
    requires row in v && row.payload.ToolOutput?
    ensures FindCall(v, sc, row.payload.call) == FindCall(v + tail, hsc, row.payload.call)
  {
    var c, h := row.payload.call, v + tail;
    PrefixFolded(v, tail);
    NothingDead(v);
    NothingDead(h);
    assert row in h;
    assert c in sc.answered && c in hsc.answered;
    forall x | x in v
      ensures IsCall(sc, c)(x) == IsCall(hsc, c)(x)
    {
      assert x in h;
    }
    forall x | x in tail
      ensures !IsCall(hsc, c)(x)
    {
      var i :| 0 <= i < |v| && v[i] == row;
      var j :| 0 <= j < |tail| && tail[j] == x;
      assert h[i] == row && h[|v| + j] == x;
    }
    FilterAgree(v, IsCall(sc, c), IsCall(hsc, c));
    FilterConcat(v, tail, IsCall(hsc, c));
    FilterNone(tail, IsCall(hsc, c));
    assert FindCall(v, sc, c) + [] == FindCall(v, sc, c);
  }

  lemma SampledSurroundings(v: seq<Row>, tail: seq<Row>, r: ResponseId, sc: Scope, hsc: Scope, row: Row)
    requires WellFormed(v + tail) && Folded(v + tail) && !AnsweredLate(v, tail)
    requires Describes(sc, v) && Describes(hsc, v + tail) && sc.images == hsc.images && sc.reasoning == hsc.reasoning
    requires forall x :: x in v ==> !OfResponse(x, r)
    requires forall x :: x in tail && IsModelRow(x) ==> x.payload.response == r
    requires row in v
    ensures SameSurroundings(v, sc, v + tail, hsc, row)
  {
    PrefixFolded(v, tail);
    NothingDead(v);
    NothingDead(v + tail);
    assert row in v + tail;
    if IsModelRow(row) {
      SampledGroup(v, tail, sc, hsc, row.payload.response);
    }
    if row.payload.ToolOutput? {
      SampledCall(v, tail, sc, hsc, row);
    }
  }

  lemma SaidIsEmitted(h: seq<Row>, sc: Scope, rows: seq<Row>, i: nat, message: Message)
    requires i < |rows| && message in Said(h, sc, rows[i])
    ensures message in Emit(h, sc, rows)
  {
    EmitIsConcat(h, sc, rows);
    ConcatExactly(Sayings(h, sc, rows), message);
    assert message in Sayings(h, sc, rows)[i];
  }

  /** The response of a replayed call speaks at the first of its rows, not behind the call. */
  lemma CallSpeaks(h: seq<Row>, sc: Scope, i: nat) returns (f: nat, message: Message)
    requires WellFormed(h) && i < |h| && h[i].payload.ToolCall? && InGroup(sc, h[i].payload.response)(h[i])
    ensures f <= i && message in Said(h, sc, h[f]) && message.AssistantToolCalls?
    ensures exists k :: 0 <= k < |message.calls| && message.calls[k].source == h[i].payload.call
  {
    var r := h[i].payload.response;
    var at := CallsInHistoryOrder(h, sc, r);
    var k :| 0 <= k < |at| && GroupCalls(Group(h, sc, r))[k] == ReplayedCall(h[i]);
    var e := CallingHasEntry(h, sc, r);
    f, message := e.index, e.value;
    assert message.calls[k].source == h[i].payload.call;
    FirstIsEarliest(h, sc, r, f, i);
    assert h[f] in Group(h, sc, r);
    assert GroupMessages(h, sc, h[f]) == [message];
  }

  /** The response of a call answered late speaks among the rows of `v`, and it replays that call. */
  lemma LateCallSpeaks(v: seq<Row>, tail: seq<Row>, hsc: Scope, call: Row, output: Row) returns (message: Message)
    requires WellFormed(v + tail) && Folded(v + tail) && Describes(hsc, v + tail) && IsLate(v, tail, call, output)
    ensures message in Emit(v + tail, hsc, v) && message.AssistantToolCalls?
    ensures exists k :: 0 <= k < |message.calls| && message.calls[k].source == call.payload.call
  {
    var h := v + tail;
    NothingDead(h);
    assert call in h && output in h && call.payload.call in hsc.answered;
    var i :| 0 <= i < |v| && v[i] == call;
    assert h[i] == call;
    var f;
    f, message := CallSpeaks(h, hsc, i);
    assert v[f] == h[f];
    SaidIsEmitted(h, hsc, v, f, message);
  }

  /** An open call is not replayed. */
  lemma OpenCallIsSilent(v: seq<Row>, tail: seq<Row>, sc: Scope, call: Row, output: Row, message: Message)
    requires WellFormed(v + tail) && Folded(v) && Describes(sc, v) && IsLate(v, tail, call, output)
    requires message in KeyValues(ProjectedEntries(v, sc)) && message.AssistantToolCalls?
    ensures forall k :: 0 <= k < |message.calls| ==> message.calls[k].source != call.payload.call
  {
    var entries := ProjectedEntries(v, sc);
    var p :| 0 <= p < |entries| && entries[p].value == message;
    var r := CallsOfEntry(v, sc, p);
    var at := CallsInHistoryOrder(v, sc, r);
    forall k | 0 <= k < |message.calls|
      ensures message.calls[k].source != call.payload.call
    {
      assert v[at[k]].payload.call in sc.answered;
      OneOutput(v, tail, output);
    }
  }

  lemma OneOutput(v: seq<Row>, tail: seq<Row>, output: Row)
    requires WellFormed(v + tail) && output in tail && output.payload.ToolOutput?
    ensures output.payload.call !in AnsweredCalls(v, CompactedIds(v))
  {
    var j :| 0 <= j < |tail| && tail[j] == output;
    assert (v + tail)[|v| + j] == output;
    forall other | other in v && other.payload.ToolOutput?
      ensures other.payload.call != output.payload.call
    {
      var i :| 0 <= i < |v| && v[i] == other;
      assert (v + tail)[i] == other;
    }
  }

  /** If nothing is answered late, the rows of `v` say what they said when they were sent. */
  lemma SampledSaysSame(v: seq<Row>, tail: seq<Row>, r: ResponseId, sc: Scope, hsc: Scope)
    requires WellFormed(v + tail) && Folded(v + tail)
    requires Describes(sc, v) && Describes(hsc, v + tail) && sc.images == hsc.images && sc.reasoning == hsc.reasoning
    requires forall x :: x in v ==> !OfResponse(x, r)
    requires forall x :: x in tail && IsModelRow(x) ==> x.payload.response == r
    requires !AnsweredLate(v, tail)
    ensures Emit(v + tail, hsc, v) == Emit(v, sc, v)
  {
    forall row | row in v
      ensures SameSurroundings(v, sc, v + tail, hsc, row)
    {
      SampledSurroundings(v, tail, r, sc, hsc, row);
    }
    EmitSame(v, sc, v + tail, hsc, v);
  }

  /** If something is, they do not. */
  lemma LateSaysMore(v: seq<Row>, tail: seq<Row>, sc: Scope, hsc: Scope)
    requires WellFormed(v + tail) && Folded(v + tail) && Folded(v)
    requires Describes(sc, v) && Describes(hsc, v + tail)
    requires AnsweredLate(v, tail)
    ensures Emit(v + tail, hsc, v) != KeyValues(ProjectedEntries(v, sc))
  {
    var call, output :| IsLate(v, tail, call, output);
    var message := LateCallSpeaks(v, tail, hsc, call, output);
    if message in KeyValues(ProjectedEntries(v, sc)) {
      OpenCallIsSilent(v, tail, sc, call, output, message);
    }
  }

  /** What is counted locally is the tail, without the response's own rows. */
  lemma LocalIsTail(v: seq<Row>, tail: seq<Row>, known: set<ItemId>, r: ResponseId)
    requires WellFormed(v + tail) && known == IdsOf(v)
    ensures Filter(v + tail, Local(known, r)) == Filter(tail, (row: Row) => !OfResponse(row, r))
  {
    TailIsNew(v, tail, known);
    FilterConcat(v, tail, Local(known, r));
    FilterNone(v, Local(known, r));
    FilterAgree(tail, Local(known, r), (row: Row) => !OfResponse(row, r));
  }

  lemma TailIsOwn(v: seq<Row>, tail: seq<Row>, known: set<ItemId>, r: ResponseId)
    requires WellFormed(v + tail) && known == IdsOf(v) && Reusable(v + tail, known, r)
    ensures forall row :: row in tail && IsModelRow(row) ==> row.payload.response == r
  {
    TailIsNew(v, tail, known);
    forall x | x in tail && IsModelRow(x)
      ensures x.payload.response == r
    {
      assert x in v + tail && !Ends(v + tail, r, x);
    }
  }

  /**
   The baseline against a full recomputation. If it was taken over the view `v` and is reused for
   `v + tail`, the locally counted messages are what the tail says apart from the response's own rows;
   and the full projection is the one that was sent, followed by what the tail says, exactly if no
   call that was open in `v` is answered in the tail.
   */
  lemma ReuseCoversProjection(v: seq<Row>, tail: seq<Row>, known: set<ItemId>, r: ResponseId, images: bool,
                              reasoning: map<ResponseId, Continuation>)
    requires WellFormed(v + tail) && Folded(v + tail)
    requires Sampled(v, known, r) && Reusable(v + tail, known, r)
    ensures var h, sc := v + tail, ScopeOf(v + tail, images, reasoning);
            && (Project(h, images, reasoning) == Project(v, images, reasoning) + Emit(h, sc, tail) <==> !AnsweredLate(v, tail))
            && Filter(h, Local(known, r)) == Filter(tail, (row: Row) => !OfResponse(row, r))
  {
    var h := v + tail;
    var sc, hsc := ScopeOf(v, images, reasoning), ScopeOf(h, images, reasoning);
    PrefixFolded(v, tail);
    TailIsOwn(v, tail, known, r);
    LocalIsTail(v, tail, known, r);
    FoldedProjection(v, images, reasoning);
    FoldedProjection(h, images, reasoning);
    EmitConcat(h, hsc, v, tail);
    if AnsweredLate(v, tail) {
      LateSaysMore(v, tail, sc, hsc);
      SameFront(Emit(h, hsc, v), Project(v, images, reasoning), Emit(h, hsc, tail));
    } else {
      SampledSaysSame(v, tail, r, sc, hsc);
    }
  }

  lemma SameFront<T>(a: seq<T>, b: seq<T>, c: seq<T>)
    ensures a + c == b + c ==> a == b
  {
    if a + c == b + c {
      assert |a| == |b|;
      assert (a + c)[..|a|] == a && (b + c)[..|b|] == b;
    }
  }

  lemma TailIsNew(v: seq<Row>, tail: seq<Row>, known: set<ItemId>)
    requires WellFormed(v + tail) && known == IdsOf(v)
    ensures forall row :: row in tail ==> row.id !in known
  {
    var h := v + tail;
    forall row | row in tail
      ensures row.id !in known
    {
      var j :| 0 <= j < |tail| && tail[j] == row;
      assert h[|v| + j] == row;
      assert forall i :: 0 <= i < |v| ==> h[i] == v[i] && h[i].id != row.id;
    }
  }
}
