/** No orphan tool traffic: calls and results of a projection pair up one to one, calls first. */
module Pairing {
  import opened Base
  import opened StableSort
  import opened History
  import opened ActiveView
  import opened Units
  import opened Projection
  import opened ProjectionLoop

  /** Message `p` replays a call that message `q` answers. */
  predicate Answers(call: ModelToolCall, result: Message) {
    result.Tool? && result.source == call.source && result.callId == call.callId && result.toolName == call.toolName
  }

  ghost predicate CallsAnswered(m: seq<Message>) {
    forall p, k :: 0 <= p < |m| && m[p].AssistantToolCalls? && 0 <= k < |m[p].calls|
      ==> exists q :: p < q < |m| && Answers(m[p].calls[k], m[q])
  }

  ghost predicate ResultsCalled(m: seq<Message>) {
    forall q :: 0 <= q < |m| && m[q].Tool?
      ==> exists p, k :: 0 <= p < q && m[p].AssistantToolCalls? && 0 <= k < |m[p].calls| && Answers(m[p].calls[k], m[q])
  }

  ghost predicate ResultsDistinct(m: seq<Message>) {
    forall p, q :: 0 <= p < q < |m| && m[p].Tool? && m[q].Tool? ==> m[p].source != m[q].source
  }

  ghost predicate CallsDistinct(m: seq<Message>) {
    forall p, q, k, l :: 0 <= p <= q < |m| && m[p].AssistantToolCalls? && m[q].AssistantToolCalls?
                         && 0 <= k < |m[p].calls| && 0 <= l < |m[q].calls| && (p, k) != (q, l)
      ==> m[p].calls[k].source != m[q].calls[l].source
  }

  /** Each call has exactly one result, behind it, and each result has exactly one call, before it. */
  ghost predicate Paired(m: seq<Message>) {
    CallsAnswered(m) && ResultsCalled(m) && ResultsDistinct(m) && CallsDistinct(m)
  }

  // ---- Where messages come from --------------------------------------------------------------

  lemma RowsFromExactly(h: seq<Row>, sc: Scope, e: Entry)
    ensures e in RowsFrom(h, sc, |h|) <==> exists i :: 0 <= i < |h| && e in RowEntries(h, sc, i)
  {
    ConcatExactly(RowParts(h, sc, |h|), e);
  }

  /** The entry of an answered output row. */
  ghost predicate IsResultEntry(h: seq<Row>, sc: Scope, i: nat, e: Entry) {
    && i < |h| && h[i].payload.ToolOutput? && h[i].id !in sc.dead
    && FindCall(h, sc, h[i].payload.call) != [] && FindCall(h, sc, h[i].payload.call)[0].payload.ToolCall?
    && e == Keyed(i, 1, ToolMessage(h[i].payload, NameOf(FindCall(h, sc, h[i].payload.call)[0])))
  }

  /** Among row entries only those of output rows are results, and none replays calls. */
  lemma RowEntryKind(h: seq<Row>, sc: Scope, i: nat, e: Entry)
    requires i < |h| && e in RowEntries(h, sc, i)
    ensures !e.value.AssistantToolCalls?
    ensures e.value.Tool? ==> IsResultEntry(h, sc, i, e)
  {
    var row := h[i];
    var messages := RowMessages(h, sc, row);
    var k :| 0 <= k < |messages| && RowEntries(h, sc, i)[k] == e;
    if row.payload.ToolOutput? {
      var calls := FindCall(h, sc, row.payload.call);
      assert calls != [] && calls[0] in calls;
    }
  }

  lemma ResultEntryAlone(h: seq<Row>, sc: Scope, i: nat, e: Entry)
    requires IsResultEntry(h, sc, i, e)
    ensures RowEntries(h, sc, i) == [e]
  {
    assert RowMessages(h, sc, h[i]) == [e.value];
  }

  lemma ResultEntryExists(h: seq<Row>, sc: Scope, i: nat, e: Entry)
    requires IsResultEntry(h, sc, i, e)
    ensures e in ProjectedEntries(h, sc)
  {
    ResultEntryAlone(h, sc, i, e);
    assert e in RowEntries(h, sc, i);
    RowsFromExactly(h, sc, e);
    SortMembers(GroupsFrom(h, sc, |h|) + RowsFrom(h, sc, |h|));
  }

  /** A row yields at most one result, at its own place. */
  lemma ResultAtOwnPlace(h: seq<Row>, sc: Scope, i: nat, e: Entry)
    requires i < |h| && e.value.Tool?
    ensures multiset(RowEntries(h, sc, i))[e] <= if e.index == i then 1 else 0
  {
    var entries := RowEntries(h, sc, i);
    if e in entries {
      RowEntryKind(h, sc, i, e);
      ResultEntryAlone(h, sc, i, e);
    }
    assert e !in entries ==> multiset(entries)[e] == 0;
  }

  lemma ResultCount(h: seq<Row>, sc: Scope, e: Entry)
    requires e.value.Tool?
    ensures multiset(RowsFrom(h, sc, |h|))[e] <= 1
  {
    forall i | 0 <= i < |h|
      ensures multiset(RowParts(h, sc, |h|)[i])[e] <= if i == e.index then 1 else 0
    {
      ResultAtOwnPlace(h, sc, i, e);
    }
    ConcatOnce(RowParts(h, sc, |h|), e, e.index);
  }

  lemma GroupEntryKind(h: seq<Row>, sc: Scope, e: Entry)
    requires e in GroupsFrom(h, sc, |h|)
    ensures e.value.AssistantToolCalls?
  {
    GroupsFromExactly(h, sc, |h|, e);
    var i :| 0 <= i < |h| && GroupEntries(h, sc, i) == [e];
    assert GroupEntries(h, sc, i)[0] == e;
  }

  /** What stands at a place of the projection. */
  lemma EntryKind(h: seq<Row>, sc: Scope, e: Entry)
    requires e in ProjectedEntries(h, sc)
    ensures e.value.Tool? ==> exists i :: IsResultEntry(h, sc, i, e)
    ensures e.value.AssistantToolCalls? ==> exists r :: IsGroupEntry(h, sc, r, e)
  {
    SortMembers(GroupsFrom(h, sc, |h|) + RowsFrom(h, sc, |h|));
    if e in GroupsFrom(h, sc, |h|) {
      GroupEntryKind(h, sc, e);
      GroupEntryExactly(h, sc, e);
    } else {
      RowsFromExactly(h, sc, e);
      var i :| 0 <= i < |h| && e in RowEntries(h, sc, i);
      RowEntryKind(h, sc, i, e);
    }
  }

  /** No call or result message is projected twice. */
  lemma EntryOnce(h: seq<Row>, sc: Scope, e: Entry)
    requires e.value.Tool? || e.value.AssistantToolCalls?
    ensures multiset(ProjectedEntries(h, sc))[e] <= 1
  {
    var groups, rows := GroupsFrom(h, sc, |h|), RowsFrom(h, sc, |h|);
    SortSorted(groups + rows);
    GroupsFromSorted(h, sc, |h|);
    DistinctCount(groups, e);
    if e in groups {
      GroupEntryKind(h, sc, e);
    }
    if e.value.Tool? {
      ResultCount(h, sc, e);
    } else {
      RowsFromExactly(h, sc, e);
      if i :| 0 <= i < |h| && e in RowEntries(h, sc, i) {
        RowEntryKind(h, sc, i, e);
      }
    }
    assert e !in groups ==> multiset(groups)[e] == 0;
    assert e !in rows ==> multiset(rows)[e] == 0;
  }

  // ---- The theorem ---------------------------------------------------------------------------

  lemma {:induction false} GroupCallsExactly(group: seq<Row>) returns (at: seq<nat>)
    ensures |at| == |GroupCalls(group)|
    ensures forall k :: 0 <= k < |at| ==> at[k] < |group| && group[at[k]].payload.ToolCall?
                                          && GroupCalls(group)[k] == ReplayedCall(group[at[k]])
    ensures forall k, l :: 0 <= k < l < |at| ==> at[k] < at[l]
    ensures forall i :: 0 <= i < |group| && group[i].payload.ToolCall? ==> i in at
  {
    if group == [] {
      at := [];
    } else {
      at := GroupCallsExactly(Front(group));
      if Last(group).payload.ToolCall? {
        at := at + [|group| - 1];
      }
    }
  }

  /** The calls of a response message stand in history order. */
  lemma CallsInHistoryOrder(h: seq<Row>, sc: Scope, r: ResponseId) returns (at: seq<nat>)
    ensures var calls := GroupCalls(Group(h, sc, r));
            && |at| == |calls|
            && (forall k :: 0 <= k < |at| ==> at[k] < |h| && h[at[k]].payload.ToolCall?)
            && (forall k :: 0 <= k < |at| ==> InGroup(sc, r)(h[at[k]]) && calls[k] == ReplayedCall(h[at[k]]))
            && (forall k, l :: 0 <= k < l < |at| ==> at[k] < at[l])
            && (forall i :: 0 <= i < |h| && h[i].payload.ToolCall? && InGroup(sc, r)(h[i])
                            ==> exists k :: 0 <= k < |calls| && calls[k] == ReplayedCall(h[i]))
  {
    var group := Group(h, sc, r);
    var inGroup := GroupCallsExactly(group);
    var inHistory := FilterPlaces(h, InGroup(sc, r));
    at := seq(|inGroup|, k requires 0 <= k < |inGroup| => inHistory[inGroup[k]]);
    forall k | 0 <= k < |at|
      ensures InGroup(sc, r)(h[at[k]])
    {
      assert group[inGroup[k]] in group;
    }
    forall i | 0 <= i < |h| && h[i].payload.ToolCall? && InGroup(sc, r)(h[i])
      ensures exists k :: 0 <= k < |GroupCalls(group)| && GroupCalls(group)[k] == ReplayedCall(h[i])
    {
      assert h[i] in group;
      var j :| 0 <= j < |group| && group[j] == h[i];
      var k :| 0 <= k < |inGroup| && inGroup[k] == j;
      assert GroupCalls(group)[k] == ReplayedCall(h[i]);
    }
  }

  lemma FirstIsEarliest(h: seq<Row>, sc: Scope, r: ResponseId, f: nat, i: nat)
    requires WellFormed(h)
    requires f < |h| && Group(h, sc, r) != [] && Group(h, sc, r)[0] == h[f]
    requires i < |h| && InGroup(sc, r)(h[i])
    ensures f <= i
  {
    var at := FilterPlaces(h, InGroup(sc, r));
    assert h[i] in Group(h, sc, r);
    var k :| 0 <= k < |at| && Group(h, sc, r)[k] == h[i];
    assert h[at[k]].id == h[i].id && h[at[0]].id == h[f].id;
  }

  lemma FoundCall(h: seq<Row>, sc: Scope, row: Row)
    requires WellFormed(h)
    requires row in h && row.payload.ToolCall? && IsCall(sc, row.payload.call)(row)
    ensures FindCall(h, sc, row.payload.call) != [] && FindCall(h, sc, row.payload.call)[0] == row
  {
    var found := FindCall(h, sc, row.payload.call);
    assert row in found;
    assert found[0] in found;
    SameCall(h, found[0], row);
  }

  /** A message with the smaller key stands first. */
  lemma KeyOrder(h: seq<Row>, sc: Scope, a: Entry, b: Entry, p: nat, q: nat)
    requires p < |ProjectedEntries(h, sc)| && ProjectedEntries(h, sc)[p] == a
    requires q < |ProjectedEntries(h, sc)| && ProjectedEntries(h, sc)[q] == b
    requires Before(a, b)
    ensures p < q
  {
    SortSorted(GroupsFrom(h, sc, |h|) + RowsFrom(h, sc, |h|));
  }

  /** The result of a replayed call. */
  lemma CallHasResult(h: seq<Row>, sc: Scope, r: ResponseId, e: Entry, k: nat) returns (result: Entry)
    requires WellFormed(h) && sc.answered == AnsweredCalls(h, sc.dead)
    requires IsGroupEntry(h, sc, r, e) && k < |GroupCalls(Group(h, sc, r))|
    ensures exists j :: IsResultEntry(h, sc, j, result)
    ensures Answers(GroupCalls(Group(h, sc, r))[k], result.value)
    ensures Before(e, result)
  {
    var at := CallsInHistoryOrder(h, sc, r);
    var i := at[k];
    var call := h[i].payload.call;
    FirstIsEarliest(h, sc, r, e.index, i);
    assert call in AnsweredCalls(h, sc.dead);
    var output :| output in h && output.id !in sc.dead && output.payload.ToolOutput? && output.payload.call == call;
    var j :| 0 <= j < |h| && h[j] == output;
    FoundCall(h, sc, h[i]);
    result := Keyed(j, 1, ToolMessage(output.payload, NameOf(h[i])));
    assert IsResultEntry(h, sc, j, result);
  }

  /** The replayed call behind a result. */
  lemma ResultHasCall(h: seq<Row>, sc: Scope, j: nat, e: Entry) returns (r: ResponseId, k: nat)
    requires WellFormed(h) && IsResultEntry(h, sc, j, e)
    ensures Calling(h, sc, r) && k < |GroupCalls(Group(h, sc, r))|
    ensures Answers(GroupCalls(Group(h, sc, r))[k], e.value)
    ensures exists i :: 0 <= i < j && InGroup(sc, r)(h[i])
  {
    var found := FindCall(h, sc, h[j].payload.call);
    assert found[0] in found;
    var i :| 0 <= i < |h| && h[i] == found[0];
    r := h[i].payload.response;
    assert InGroup(sc, r)(h[i]);
    var at := CallsInHistoryOrder(h, sc, r);
    k :| 0 <= k < |GroupCalls(Group(h, sc, r))| && GroupCalls(Group(h, sc, r))[k] == ReplayedCall(h[i]);
  }

  lemma CallingHasEntry(h: seq<Row>, sc: Scope, r: ResponseId) returns (e: Entry)
    requires Calling(h, sc, r)
    ensures IsGroupEntry(h, sc, r, e) && e in ProjectedEntries(h, sc)
  {
    var group := Group(h, sc, r);
    assert group[0] in group;
    var f :| 0 <= f < |h| && h[f] == group[0];
    e := Keyed(f, 1, GroupMessage(group, sc, r));
    assert IsGroupEntry(h, sc, r, e);
    GroupEntryExactly(h, sc, e);
    SortMembers(GroupsFrom(h, sc, |h|) + RowsFrom(h, sc, |h|));
  }

  lemma SamePosition(h: seq<Row>, sc: Scope, p: nat, q: nat)
    requires p < q < |ProjectedEntries(h, sc)|
    requires ProjectedEntries(h, sc)[p].value.Tool? || ProjectedEntries(h, sc)[p].value.AssistantToolCalls?
    ensures ProjectedEntries(h, sc)[p] != ProjectedEntries(h, sc)[q]
  {
    EntryOnce(h, sc, ProjectedEntries(h, sc)[p]);
    if ProjectedEntries(h, sc)[p] == ProjectedEntries(h, sc)[q] {
      TwoPlaces(ProjectedEntries(h, sc), p, q);
    }
  }

  /** The projected result of call `k` of the response at place `p`. */
  lemma ProjectedAnswer(h: seq<Row>, sc: Scope, p: nat, r: ResponseId, k: nat) returns (q: nat)
    requires WellFormed(h) && sc.answered == AnsweredCalls(h, sc.dead)
    requires p < |ProjectedEntries(h, sc)| && IsGroupEntry(h, sc, r, ProjectedEntries(h, sc)[p])
    requires k < |GroupCalls(Group(h, sc, r))|
    ensures p < q < |ProjectedEntries(h, sc)| && Answers(GroupCalls(Group(h, sc, r))[k], ProjectedEntries(h, sc)[q].value)
  {
    var e := ProjectedEntries(h, sc)[p];
    var result := CallHasResult(h, sc, r, e, k);
    var j: nat :| IsResultEntry(h, sc, j, result);
    ResultEntryExists(h, sc, j, result);
    q :| 0 <= q < |ProjectedEntries(h, sc)| && ProjectedEntries(h, sc)[q] == result;
    KeyOrder(h, sc, e, result, p, q);
  }

  lemma ProjectedCallsAnswered(h: seq<Row>, sc: Scope)
    requires WellFormed(h) && sc.answered == AnsweredCalls(h, sc.dead)
    ensures CallsAnswered(KeyValues(ProjectedEntries(h, sc)))
  {
    var m := KeyValues(ProjectedEntries(h, sc));
    forall p, k | 0 <= p < |m| && m[p].AssistantToolCalls? && 0 <= k < |m[p].calls|
      ensures exists q :: p < q < |m| && Answers(m[p].calls[k], m[q])
    {
      var r := CallsOfEntry(h, sc, p);
      var q := ProjectedAnswer(h, sc, p, r, k);
    }
  }

  lemma ProjectedResultsCalled(h: seq<Row>, sc: Scope)
    requires WellFormed(h)
    ensures ResultsCalled(KeyValues(ProjectedEntries(h, sc)))
  {
    var entries := ProjectedEntries(h, sc);
    var m := KeyValues(entries);
    forall q | 0 <= q < |m| && m[q].Tool?
      ensures exists p, k :: 0 <= p < q && m[p].AssistantToolCalls? && 0 <= k < |m[p].calls| && Answers(m[p].calls[k], m[q])
    {
      assert entries[q] in entries;
      EntryKind(h, sc, entries[q]);
      var j: nat :| IsResultEntry(h, sc, j, entries[q]);
      var r, k := ResultHasCall(h, sc, j, entries[q]);
      var e := CallingHasEntry(h, sc, r);
      var i :| 0 <= i < j && InGroup(sc, r)(h[i]);
      FirstIsEarliest(h, sc, r, e.index, i);
      var p :| 0 <= p < |entries| && entries[p] == e;
      KeyOrder(h, sc, e, entries[q], p, q);
      assert Answers(m[p].calls[k], m[q]);
    }
  }

  lemma ProjectedResultsDistinct(h: seq<Row>, sc: Scope)
    requires WellFormed(h)
    ensures ResultsDistinct(KeyValues(ProjectedEntries(h, sc)))
  {
    var entries := ProjectedEntries(h, sc);
    var m := KeyValues(entries);
    forall p, q | 0 <= p < q < |m| && m[p].Tool? && m[q].Tool?
      ensures m[p].source != m[q].source
    {
      assert entries[p] in entries && entries[q] in entries;
      EntryKind(h, sc, entries[p]);
      EntryKind(h, sc, entries[q]);
      SamePosition(h, sc, p, q);
      var i: nat :| IsResultEntry(h, sc, i, entries[p]);
      var j: nat :| IsResultEntry(h, sc, j, entries[q]);
    }
  }

  /** Calls replayed under one source are the same call of the same message. */
  lemma SameSource(h: seq<Row>, sc: Scope, r: ResponseId, k: nat, q: ResponseId, l: nat)
    requires WellFormed(h)
    requires k < |GroupCalls(Group(h, sc, r))| && l < |GroupCalls(Group(h, sc, q))|
    requires GroupCalls(Group(h, sc, r))[k].source == GroupCalls(Group(h, sc, q))[l].source
    ensures r == q && k == l
  {
    var a := CallsInHistoryOrder(h, sc, r);
    var b := CallsInHistoryOrder(h, sc, q);
    SameCall(h, h[a[k]], h[b[l]]);
    assert h[a[k]].id == h[b[l]].id && a[k] == b[l];
    SamePlaceOfCall(h, sc, r, k, l, a, b);
  }

  lemma SamePlaceOfCall(h: seq<Row>, sc: Scope, r: ResponseId, k: nat, l: nat, a: seq<nat>, b: seq<nat>)
    requires WellFormed(h) && k < |a| && l < |b| && |a| == |b| == |GroupCalls(Group(h, sc, r))|
    requires forall i :: 0 <= i < |a| ==> a[i] < |h| && h[a[i]].payload.ToolCall?
    requires forall i :: 0 <= i < |b| ==> b[i] < |h| && h[b[i]].payload.ToolCall?
    requires forall i :: 0 <= i < |a| ==> GroupCalls(Group(h, sc, r))[i] == ReplayedCall(h[a[i]]) == ReplayedCall(h[b[i]])
    requires forall i, j :: 0 <= i < j < |b| ==> b[i] < b[j]
    requires a[k] == b[l]
    ensures k == l
  {
    SameCall(h, h[a[k]], h[b[k]]);
    assert h[a[k]].id == h[b[k]].id;
  }

  /** Two places of one response's entry are one place. */
  lemma OnePlace(h: seq<Row>, sc: Scope, p: nat, q: nat, r: ResponseId)
    requires WellFormed(h) && p <= q < |ProjectedEntries(h, sc)|
    requires IsGroupEntry(h, sc, r, ProjectedEntries(h, sc)[p]) && IsGroupEntry(h, sc, r, ProjectedEntries(h, sc)[q])
    ensures p == q
  {
    GroupEntryUnique(h, sc, r, ProjectedEntries(h, sc)[p], r, ProjectedEntries(h, sc)[q]);
    if p < q {
      SamePosition(h, sc, p, q);
    }
  }

  /** Two different calls of one projection have different sources. */
  lemma CallsDiffer(h: seq<Row>, sc: Scope, p: nat, k: nat, q: nat, l: nat, r: ResponseId, s: ResponseId)
    requires WellFormed(h)
    requires p <= q < |ProjectedEntries(h, sc)| && (p, k) != (q, l)
    requires IsGroupEntry(h, sc, r, ProjectedEntries(h, sc)[p]) && IsGroupEntry(h, sc, s, ProjectedEntries(h, sc)[q])
    requires k < |GroupCalls(Group(h, sc, r))| && l < |GroupCalls(Group(h, sc, s))|
    ensures GroupCalls(Group(h, sc, r))[k].source != GroupCalls(Group(h, sc, s))[l].source
  {
    if GroupCalls(Group(h, sc, r))[k].source == GroupCalls(Group(h, sc, s))[l].source {
      SameSource(h, sc, r, k, s, l);
      OnePlace(h, sc, p, q, r);
    }
  }

  lemma CallsOfEntry(h: seq<Row>, sc: Scope, p: nat) returns (r: ResponseId)
    requires p < |ProjectedEntries(h, sc)| && ProjectedEntries(h, sc)[p].value.AssistantToolCalls?
    ensures IsGroupEntry(h, sc, r, ProjectedEntries(h, sc)[p])
    ensures ProjectedEntries(h, sc)[p].value.calls == GroupCalls(Group(h, sc, r))
  {
    EntryKind(h, sc, ProjectedEntries(h, sc)[p]);
    r :| IsGroupEntry(h, sc, r, ProjectedEntries(h, sc)[p]);
  }

  lemma ProjectedCallsDistinct(h: seq<Row>, sc: Scope)
    requires WellFormed(h)
    ensures CallsDistinct(KeyValues(ProjectedEntries(h, sc)))
  {
    var m := KeyValues(ProjectedEntries(h, sc));
    forall p: nat, q: nat, k: nat, l: nat | p <= q < |m| && m[p].AssistantToolCalls? && m[q].AssistantToolCalls?
                        && k < |m[p].calls| && l < |m[q].calls| && (p, k) != (q, l)
      ensures m[p].calls[k].source != m[q].calls[l].source
    {
      var r := CallsOfEntry(h, sc, p);
      var s := CallsOfEntry(h, sc, q);
      CallsDiffer(h, sc, p, k, q, l, r, s);
    }
  }

  /** No orphan tool traffic, for every well-formed history. */
  lemma NoOrphans(h: seq<Row>, images: bool, reasoning: map<ResponseId, Continuation>)
    requires WellFormed(h)
    ensures Paired(Project(h, images, reasoning))
  {
    var sc := ScopeOf(h, images, reasoning);
    ProjectedCallsAnswered(h, sc);
    ProjectedResultsCalled(h, sc);
    ProjectedResultsDistinct(h, sc);
    ProjectedCallsDistinct(h, sc);
  }

  /** ... and for every selection of its rows, whichever ids are selected or excluded. */
  lemma NoOrphansInSelection(h: seq<Row>, keep: Row -> bool, images: bool, reasoning: map<ResponseId, Continuation>)
    requires WellFormed(h)
    ensures Paired(Project(Filter(h, keep), images, reasoning))
  {
    WellFormedSelection(h, keep);
    NoOrphans(Filter(h, keep), images, reasoning);
  }
}
