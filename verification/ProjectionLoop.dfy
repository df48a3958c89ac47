/** The projection as the engine computes it: three hash maps, two passes and a final sort. */
module ProjectionLoop {
  import opened Base
  import opened StableSort
  import opened History
  import opened ActiveView
  import opened Units
  import opened Projection

  type CallEntry = Keyed<ModelToolCall>

  /** The answered calls of a response among the first `n` rows, with their places. */
  function CallEntries(h: seq<Row>, sc: Scope, r: ResponseId, n: nat): seq<CallEntry>
    requires n <= |h|
  {
    if n == 0 then []
    else CallEntries(h, sc, r, n - 1)
         + if h[n - 1].payload.ToolCall? && InGroup(sc, r)(h[n - 1]) then [Keyed(n - 1, 0, ReplayedCall(h[n - 1]))] else []
  }

  lemma GroupStep(h: seq<Row>, sc: Scope, r: ResponseId, n: nat)
    requires n < |h|
    ensures Group(h[..n + 1], sc, r) == Group(h[..n], sc, r) + if InGroup(sc, r)(h[n]) then [h[n]] else []
  {
    assert Front(h[..n + 1]) == h[..n] && Last(h[..n + 1]) == h[n];
  }

  lemma GroupAppend(group: seq<Row>, row: Row)
    ensures GroupCalls(group + [row]) == GroupCalls(group) + if row.payload.ToolCall? then [ReplayedCall(row)] else []
    ensures GroupText(group + [row])
         == if row.payload.AssistantMessage? then Some(JoinText(GroupText(group), ContentText(row.payload.content)))
            else GroupText(group)
  {
    assert Front(group + [row]) == group && Last(group + [row]) == row;
  }

  lemma {:induction false} CallEntriesSorted(h: seq<Row>, sc: Scope, r: ResponseId, n: nat)
    requires n <= |h|
    ensures StrictlySorted(CallEntries(h, sc, r, n))
    ensures forall e :: e in CallEntries(h, sc, r, n) ==> e.index < n
  {
    if n > 0 {
      CallEntriesSorted(h, sc, r, n - 1);
    }
  }

  /** One more row, in the group or not, is one more call, or none, on both sides. */
  lemma SameCallsStep(before: seq<CallEntry>, group: seq<Row>, n: nat, row: Row, member: bool)
    requires KeyValues(before) == GroupCalls(group)
    ensures KeyValues(before + if row.payload.ToolCall? && member then [Keyed(n, 0, ReplayedCall(row))] else [])
         == GroupCalls(group + if member then [row] else [])
  {
    GroupAppend(group, row);
    if row.payload.ToolCall? && member {
      KeyValuesConcat(before, [Keyed(n, 0, ReplayedCall(row))]);
    } else {
      assert before + [] == before && group + [] == group;
    }
  }

  lemma {:induction false} CallEntriesAreGroupCalls(h: seq<Row>, sc: Scope, r: ResponseId, n: nat)
    requires n <= |h|
    ensures KeyValues(CallEntries(h, sc, r, n)) == GroupCalls(Group(h[..n], sc, r))
  {
    if n > 0 {
      var m, row := n - 1, h[n - 1];
      CallEntriesAreGroupCalls(h, sc, r, m);
      GroupStep(h, sc, r, m);
      SameCallsStep(CallEntries(h, sc, r, m), Group(h[..m], sc, r), m, row, InGroup(sc, r)(row));
      assert CallEntries(h, sc, r, n)
          == CallEntries(h, sc, r, m) + if row.payload.ToolCall? && InGroup(sc, r)(row) then [Keyed(m, 0, ReplayedCall(row))] else [];
    }
  }

  // ---- First pass ----------------------------------------------------------------------------

  ghost predicate CallsGathered(calls: map<ResponseId, seq<CallEntry>>, h: seq<Row>, sc: Scope, n: nat)
    requires n <= |h|
  {
    forall r :: Tracks(calls, r, CallEntries(h, sc, r, n))
  }

  ghost predicate TextGathered(texts: map<ResponseId, string>, r: ResponseId, text: Option<string>) {
    && (r in texts <==> text.Some?)
    && (r in texts ==> texts[r] == text.value)
  }

  ghost predicate TextsGathered(texts: map<ResponseId, string>, h: seq<Row>, sc: Scope, n: nat)
    requires n <= |h|
  {
    forall r :: TextGathered(texts, r, GroupText(Group(h[..n], sc, r)))
  }

  ghost predicate FirstFound(first: map<ResponseId, nat>, r: ResponseId, h: seq<Row>, group: seq<Row>) {
    && (r in first <==> group != [])
    && (r in first ==> first[r] < |h| && h[first[r]] == group[0])
  }

  ghost predicate FirstsFound(first: map<ResponseId, nat>, h: seq<Row>, sc: Scope, n: nat)
    requires n <= |h|
  {
    forall r :: FirstFound(first, r, h[..n], Group(h[..n], sc, r))
  }

  function Sooner(first: map<ResponseId, nat>, r: ResponseId, index: nat): map<ResponseId, nat> {
    first[r := if r in first && first[r] < index then first[r] else index]
  }

  function AddText(texts: map<ResponseId, string>, r: ResponseId, next: string): map<ResponseId, string> {
    texts[r := JoinText(if r in texts then Some(texts[r]) else None, next)]
  }

  lemma CallsStep(calls: map<ResponseId, seq<CallEntry>>, h: seq<Row>, sc: Scope, n: nat)
    requires n < |h| && CallsGathered(calls, h, sc, n)
    ensures var row := h[n];
            CallsGathered(if row.payload.ToolCall? && InGroup(sc, row.payload.response)(row)
                          then Push(calls, row.payload.response, Keyed(n, 0, ReplayedCall(row))) else calls,
                          h, sc, n + 1)
  {
    var row := h[n];
    var next := if row.payload.ToolCall? && InGroup(sc, row.payload.response)(row)
                then Push(calls, row.payload.response, Keyed(n, 0, ReplayedCall(row))) else calls;
    forall r: ResponseId {:trigger CallEntries(h, sc, r, n + 1)}
      ensures Tracks(next, r, CallEntries(h, sc, r, n + 1))
    {
      assert Tracks(calls, r, CallEntries(h, sc, r, n));
    }
  }

  lemma TextsStep(texts: map<ResponseId, string>, h: seq<Row>, sc: Scope, n: nat)
    requires n < |h| && TextsGathered(texts, h, sc, n)
    ensures var row := h[n];
            TextsGathered(if row.payload.AssistantMessage? && row.id !in sc.dead
                          then AddText(texts, row.payload.response, ContentText(row.payload.content)) else texts,
                          h, sc, n + 1)
  {
    var row := h[n];
    var next := if row.payload.AssistantMessage? && row.id !in sc.dead
                then AddText(texts, row.payload.response, ContentText(row.payload.content)) else texts;
    forall r: ResponseId {:trigger Group(h[..n + 1], sc, r)}
      ensures TextGathered(next, r, GroupText(Group(h[..n + 1], sc, r)))
    {
      GroupStep(h, sc, r, n);
      var before := Group(h[..n], sc, r);
      assert TextGathered(texts, r, GroupText(before));
      GroupAppend(before, row);
      assert before + [] == before;
    }
  }

  lemma FirstsStep(first: map<ResponseId, nat>, h: seq<Row>, sc: Scope, n: nat)
    requires n < |h| && FirstsFound(first, h, sc, n)
    ensures var row := h[n];
            FirstsFound(if IsModelRow(row) && InGroup(sc, row.payload.response)(row)
                        then Sooner(first, row.payload.response, n) else first,
                        h, sc, n + 1)
  {
    var row := h[n];
    var next := if IsModelRow(row) && InGroup(sc, row.payload.response)(row)
                then Sooner(first, row.payload.response, n) else first;
    forall r: ResponseId {:trigger Group(h[..n + 1], sc, r)}
      ensures FirstFound(next, r, h[..n + 1], Group(h[..n + 1], sc, r))
    {
      GroupStep(h, sc, r, n);
      assert FirstFound(first, r, h[..n], Group(h[..n], sc, r));
    }
  }

  /** Gathers first places, texts and answered calls of every response. */
  method Gather(h: seq<Row>, sc: Scope)
    returns (calls: map<ResponseId, seq<CallEntry>>, first: map<ResponseId, nat>, texts: map<ResponseId, string>)
    ensures CallsGathered(calls, h, sc, |h|)
    ensures FirstsFound(first, h, sc, |h|)
    ensures TextsGathered(texts, h, sc, |h|)
  {
    calls, first, texts := map[], map[], map[];
    for n := 0 to |h|
      invariant CallsGathered(calls, h, sc, n)
      invariant FirstsFound(first, h, sc, n)
      invariant TextsGathered(texts, h, sc, n)
    {
      CallsStep(calls, h, sc, n);
      FirstsStep(first, h, sc, n);
      TextsStep(texts, h, sc, n);
      var row := h[n];
      if row.id !in sc.dead {
        match row.payload
        case AssistantMessage(response, content) =>
          first := Sooner(first, response, n);
          texts := AddText(texts, response, ContentText(content));
        case ToolCall(call, response, _, _, _) =>
          if call in sc.answered {
            first := Sooner(first, response, n);
            calls := Push(calls, response, Keyed(n, 0, ReplayedCall(row)));
          }
        case _ =>
      }
    }
  }

  // ---- Second pass ---------------------------------------------------------------------------

  lemma GroupsFromExactly(h: seq<Row>, sc: Scope, n: nat, e: Entry)
    requires n <= |h|
    ensures e in GroupsFrom(h, sc, n) <==> exists i :: 0 <= i < n && GroupEntries(h, sc, i) == [e]
  {
    ConcatExactly(GroupParts(h, sc, n), e);
    forall i | 0 <= i < n
      ensures e in GroupParts(h, sc, n)[i] <==> GroupEntries(h, sc, i) == [e]
    {
      assert |GroupEntries(h, sc, i)| <= 1;
    }
  }

  lemma GroupsFromSorted(h: seq<Row>, sc: Scope, n: nat)
    requires n <= |h|
    ensures StrictlySorted(GroupsFrom(h, sc, n))
  {
    ConcatStrict(GroupParts(h, sc, n));
  }

  /** The entry of a response stands at its first row. */
  ghost predicate IsGroupEntry(h: seq<Row>, sc: Scope, r: ResponseId, e: Entry) {
    && e.index < |h|
    && Calling(h, sc, r)
    && Group(h, sc, r) != [] && Group(h, sc, r)[0] == h[e.index]
    && e == Keyed(e.index, 1, GroupMessage(Group(h, sc, r), sc, r))
  }

  lemma GroupEntryExactly(h: seq<Row>, sc: Scope, e: Entry)
    ensures e in GroupsFrom(h, sc, |h|) <==> exists r :: IsGroupEntry(h, sc, r, e)
  {
    GroupsFromExactly(h, sc, |h|, e);
    if e in GroupsFrom(h, sc, |h|) {
      var i :| 0 <= i < |h| && GroupEntries(h, sc, i) == [e];
      assert GroupEntries(h, sc, i)[0] == e && |GroupMessages(h, sc, h[i])| == 1;
      assert IsGroupEntry(h, sc, h[i].payload.response, e);
    }
    if r :| IsGroupEntry(h, sc, r, e) {
      assert Group(h, sc, r)[0] in Group(h, sc, r);
      assert GroupMessages(h, sc, h[e.index]) == [e.value];
      assert GroupEntries(h, sc, e.index) == [e];
    }
  }

  lemma GroupEntryUnique(h: seq<Row>, sc: Scope, r: ResponseId, e: Entry, q: ResponseId, x: Entry)
    requires WellFormed(h)
    requires IsGroupEntry(h, sc, r, e) && IsGroupEntry(h, sc, q, x)
    ensures r == q <==> e.index == x.index
    ensures r == q ==> e == x
  {
    var a, b := Group(h, sc, r)[0], Group(h, sc, q)[0];
    assert a in Group(h, sc, r) && b in Group(h, sc, q);
    assert h[e.index].id == a.id && h[x.index].id == b.id;
  }

  /** `at` gives every response with answered calls its entry. */
  ghost predicate EntriesByResponse(h: seq<Row>, sc: Scope, at: map<ResponseId, Entry>) {
    && (forall r :: r in at <==> Calling(h, sc, r))
    && (forall r :: r in at ==> IsGroupEntry(h, sc, r, at[r]))
  }

  lemma EntriesSpread(h: seq<Row>, sc: Scope, at: map<ResponseId, Entry>)
    requires WellFormed(h) && EntriesByResponse(h, sc, at)
    ensures Spread(at)
  {
    forall r, q | r in at && q in at && r != q
      ensures !SameKey(at[r], at[q])
    {
      GroupEntryUnique(h, sc, r, at[r], q, at[q]);
    }
  }

  lemma EntriesAreGroups(h: seq<Row>, sc: Scope, at: map<ResponseId, Entry>, e: Entry)
    requires WellFormed(h) && EntriesByResponse(h, sc, at)
    ensures e in GroupsFrom(h, sc, |h|) <==> exists r :: r in at && e == at[r]
  {
    GroupEntryExactly(h, sc, e);
    if r :| IsGroupEntry(h, sc, r, e) {
      GroupEntryUnique(h, sc, r, e, r, at[r]);
    }
  }

  // ---- Names of replayed calls ---------------------------------------------------------------

  type CallNames = map<CallId, (string, string)>

  function AddNames(names: CallNames, calls: seq<ModelToolCall>): CallNames {
    if calls == [] then names
    else AddNames(names, Front(calls))[Last(calls).source := (Last(calls).callId, Last(calls).toolName)]
  }

  ghost predicate DistinctSources(calls: seq<ModelToolCall>) {
    forall x, y :: x in calls && y in calls && x.source == y.source ==> x == y
  }

  lemma {:induction false} AddNamesExactly(names: CallNames, calls: seq<ModelToolCall>, c: CallId)
    requires DistinctSources(calls)
    ensures c in AddNames(names, calls) <==> c in names || exists x :: x in calls && x.source == c
    ensures forall x :: x in calls && x.source == c ==> c in AddNames(names, calls) && AddNames(names, calls)[c] == (x.callId, x.toolName)
    ensures (forall x :: x in calls ==> x.source != c) && c in names ==> AddNames(names, calls)[c] == names[c]
  {
    if calls != [] {
      assert forall x :: x in calls <==> x in Front(calls) || x == Last(calls);
      AddNamesExactly(names, Front(calls), c);
    }
  }

  lemma {:induction false} CallEntriesExactly(h: seq<Row>, sc: Scope, r: ResponseId, n: nat, x: ModelToolCall)
    requires n <= |h|
    ensures x in KeyValues(CallEntries(h, sc, r, n))
       <==> exists i :: 0 <= i < n && h[i].payload.ToolCall? && InGroup(sc, r)(h[i]) && x == ReplayedCall(h[i])
  {
    if n > 0 {
      CallEntriesExactly(h, sc, r, n - 1, x);
      var before := CallEntries(h, sc, r, n - 1);
      if h[n - 1].payload.ToolCall? && InGroup(sc, r)(h[n - 1]) {
        var last := Keyed(n - 1, 0, ReplayedCall(h[n - 1]));
        KeyValuesConcat(before, [last]);
        assert KeyValues([last]) == [last.value];
      } else {
        assert before + [] == before;
      }
    }
  }

  /** Which calls are named, once the responses in `done` have been visited. */
  ghost predicate NamesHold(names: CallNames, h: seq<Row>, sc: Scope, done: set<ResponseId>) {
    && (forall c :: c in names ==> exists row :: row in h && IsCall(sc, c)(row) && row.payload.response in done)
    && (forall row :: row in h && row.payload.ToolCall? && IsCall(sc, row.payload.call)(row) && row.payload.response in done
          ==> row.payload.call in names && names[row.payload.call] == NameOf(row))
  }

  lemma SameCall(h: seq<Row>, a: Row, b: Row)
    requires WellFormed(h) && a in h && b in h
    requires a.payload.ToolCall? && b.payload.ToolCall? && a.payload.call == b.payload.call
    ensures a == b
  {
    var i :| 0 <= i < |h| && h[i] == a;
    var j :| 0 <= j < |h| && h[j] == b;
  }

  lemma SourcesDiffer(h: seq<Row>, sc: Scope, r: ResponseId, x: ModelToolCall, y: ModelToolCall)
    requires WellFormed(h)
    requires x in KeyValues(CallEntries(h, sc, r, |h|)) && y in KeyValues(CallEntries(h, sc, r, |h|))
    requires x.source == y.source
    ensures x == y
  {
    CallEntriesExactly(h, sc, r, |h|, x);
    CallEntriesExactly(h, sc, r, |h|, y);
  }

  lemma NamedBefore(names: CallNames, h: seq<Row>, sc: Scope, done: set<ResponseId>, r: ResponseId, c: CallId)
    requires WellFormed(h) && NamesHold(names, h, sc, done)
    requires DistinctSources(KeyValues(CallEntries(h, sc, r, |h|)))
    requires c in AddNames(names, KeyValues(CallEntries(h, sc, r, |h|)))
    ensures exists row :: row in h && IsCall(sc, c)(row) && row.payload.response in done + {r}
  {
    var calls := KeyValues(CallEntries(h, sc, r, |h|));
    AddNamesExactly(names, calls, c);
    if x :| x in calls && x.source == c {
      CallEntriesExactly(h, sc, r, |h|, x);
      var i :| 0 <= i < |h| && h[i].payload.ToolCall? && InGroup(sc, r)(h[i]) && x == ReplayedCall(h[i]);
      assert h[i] in h && IsCall(sc, c)(h[i]);
    } else {
      var row :| row in h && IsCall(sc, c)(row) && row.payload.response in done;
    }
  }

  lemma NamedAfter(names: CallNames, h: seq<Row>, sc: Scope, done: set<ResponseId>, r: ResponseId, row: Row)
    requires WellFormed(h) && NamesHold(names, h, sc, done) && r !in done
    requires DistinctSources(KeyValues(CallEntries(h, sc, r, |h|)))
    requires row in h && row.payload.ToolCall? && IsCall(sc, row.payload.call)(row) && row.payload.response in done + {r}
    ensures var next := AddNames(names, KeyValues(CallEntries(h, sc, r, |h|)));
            row.payload.call in next && next[row.payload.call] == NameOf(row)
  {
    var c, calls := row.payload.call, KeyValues(CallEntries(h, sc, r, |h|));
    AddNamesExactly(names, calls, c);
    if row.payload.response == r {
      var i :| 0 <= i < |h| && h[i] == row;
      CallEntriesExactly(h, sc, r, |h|, ReplayedCall(row));
    } else {
      forall other | other in h && other.payload.ToolCall? && other.payload.call == c
        ensures other == row
      {
        SameCall(h, other, row);
      }
      forall x | x in calls
        ensures x.source != c
      {
        CallEntriesExactly(h, sc, r, |h|, x);
      }
    }
  }

  lemma NamesStep(names: CallNames, h: seq<Row>, sc: Scope, done: set<ResponseId>, r: ResponseId)
    requires WellFormed(h) && NamesHold(names, h, sc, done) && r !in done
    ensures NamesHold(AddNames(names, KeyValues(CallEntries(h, sc, r, |h|))), h, sc, done + {r})
  {
    var calls := KeyValues(CallEntries(h, sc, r, |h|));
    forall x, y | x in calls && y in calls && x.source == y.source
      ensures x == y
    {
      SourcesDiffer(h, sc, r, x, y);
    }
    forall c | c in AddNames(names, calls)
      ensures exists row :: row in h && IsCall(sc, c)(row) && row.payload.response in done + {r}
    {
      NamedBefore(names, h, sc, done, r, c);
    }
    forall row | row in h && row.payload.ToolCall? && IsCall(sc, row.payload.call)(row) && row.payload.response in done + {r}
      ensures row.payload.call in AddNames(names, calls) && AddNames(names, calls)[row.payload.call] == NameOf(row)
    {
      NamedAfter(names, h, sc, done, r, row);
    }
  }

  // ---- The whole projection ------------------------------------------------------------------

  /** The gathered maps describe the entry of one response. */
  lemma GatheredEntry(h: seq<Row>, sc: Scope, calls: map<ResponseId, seq<CallEntry>>, first: map<ResponseId, nat>,
                      texts: map<ResponseId, string>, r: ResponseId)
    requires CallsGathered(calls, h, sc, |h|) && FirstsFound(first, h, sc, |h|) && TextsGathered(texts, h, sc, |h|)
    ensures r in calls <==> Calling(h, sc, r)
    ensures r in calls ==> r in first && Sort(calls[r]) == calls[r] == CallEntries(h, sc, r, |h|)
    ensures r in calls ==> IsGroupEntry(h, sc, r, Keyed(first[r], 1, AssistantToolCalls(
                                                                       if r in texts then NonEmpty(Some(texts[r])) else None,
                                                                       KeyValues(calls[r]), Lookup(sc.reasoning, r))))
  {
    assert h[..|h|] == h;
    var entries := CallEntries(h, sc, r, |h|);
    assert Tracks(calls, r, entries);
    assert FirstFound(first, r, h[..|h|], Group(h[..|h|], sc, r));
    assert TextGathered(texts, r, GroupText(Group(h[..|h|], sc, r)));
    CallEntriesAreGroupCalls(h, sc, r, |h|);
    CallEntriesSorted(h, sc, r, |h|);
    assert |KeyValues(entries)| == |entries|;
    SortIdentity(entries);
  }

  function EntryOf(sc: Scope, calls: map<ResponseId, seq<CallEntry>>, first: map<ResponseId, nat>,
                   texts: map<ResponseId, string>, r: ResponseId): Entry
    requires r in calls && r in first
  {
    Keyed(first[r], 1, AssistantToolCalls(if r in texts then NonEmpty(Some(texts[r])) else None,
                                          KeyValues(calls[r]), Lookup(sc.reasoning, r)))
  }

  /** Response names, map of entries and gathered calls agree. */
  ghost predicate Gathered(h: seq<Row>, sc: Scope, calls: map<ResponseId, seq<CallEntry>>, first: map<ResponseId, nat>,
                           texts: map<ResponseId, string>, at: map<ResponseId, Entry>)
  {
    && at.Keys == calls.Keys <= first.Keys
    && (forall r :: r in calls ==> Sort(calls[r]) == calls[r] == CallEntries(h, sc, r, |h|))
    && (forall r :: r in calls ==> at[r] == EntryOf(sc, calls, first, texts, r))
  }

  lemma GatheredEntries(h: seq<Row>, sc: Scope, calls: map<ResponseId, seq<CallEntry>>, first: map<ResponseId, nat>,
                        texts: map<ResponseId, string>)
    returns (at: map<ResponseId, Entry>)
    requires WellFormed(h)
    requires CallsGathered(calls, h, sc, |h|) && FirstsFound(first, h, sc, |h|) && TextsGathered(texts, h, sc, |h|)
    ensures Gathered(h, sc, calls, first, texts, at)
    ensures EntriesByResponse(h, sc, at) && Spread(at)
  {
    forall r
      ensures Ready(h, sc, calls, first, texts, r)
    {
      GatheredEntry(h, sc, calls, first, texts, r);
    }
    at := map r | r in calls.Keys && r in first :: EntryOf(sc, calls, first, texts, r);
    ReadyEntries(h, sc, calls, first, texts, at);
    EntriesSpread(h, sc, at);
  }

  /** What the maps hold for one response. */
  ghost predicate Ready(h: seq<Row>, sc: Scope, calls: map<ResponseId, seq<CallEntry>>, first: map<ResponseId, nat>,
                        texts: map<ResponseId, string>, r: ResponseId)
  {
    && (r in calls <==> Calling(h, sc, r))
    && (r in calls ==> r in first && Sort(calls[r]) == calls[r] == CallEntries(h, sc, r, |h|)
                       && IsGroupEntry(h, sc, r, EntryOf(sc, calls, first, texts, r)))
  }

  lemma ReadyEntries(h: seq<Row>, sc: Scope, calls: map<ResponseId, seq<CallEntry>>, first: map<ResponseId, nat>,
                     texts: map<ResponseId, string>, at: map<ResponseId, Entry>)
    requires forall r :: Ready(h, sc, calls, first, texts, r)
    requires forall r :: r in at <==> r in calls && r in first
    requires forall r :: r in at ==> r in calls && r in first && at[r] == EntryOf(sc, calls, first, texts, r)
    ensures Gathered(h, sc, calls, first, texts, at)
    ensures EntriesByResponse(h, sc, at)
  {
    forall r
      ensures r in at <==> r in calls
      ensures r in at <==> Calling(h, sc, r)
      ensures r in at ==> IsGroupEntry(h, sc, r, at[r])
    {
      assert Ready(h, sc, calls, first, texts, r);
    }
    forall r | r in calls
      ensures r in first && Sort(calls[r]) == calls[r] == CallEntries(h, sc, r, |h|) && at[r] == EntryOf(sc, calls, first, texts, r)
    {
      assert Ready(h, sc, calls, first, texts, r);
    }
    assert at.Keys == calls.Keys;
  }

  /** What the second pass has made of the responses in `done`. */
  ghost predicate Passed(h: seq<Row>, sc: Scope, at: map<ResponseId, Entry>, done: set<ResponseId>, projected: seq<Entry>, names: CallNames) {
    Holds(at, done, projected) && NamesHold(names, h, sc, done)
  }

  lemma PassedStep(h: seq<Row>, sc: Scope, at: map<ResponseId, Entry>, done: set<ResponseId>, projected: seq<Entry>, names: CallNames,
                   r: ResponseId)
    requires WellFormed(h) && Spread(at) && Passed(h, sc, at, done, projected, names)
    requires r in at && r !in done
    ensures Passed(h, sc, at, done + {r}, projected + [at[r]], AddNames(names, KeyValues(CallEntries(h, sc, r, |h|))))
  {
    NamesStep(names, h, sc, done, r);
    HoldsOneMore(at, done, projected, r);
  }

  /** The message and the call names of one response. */
  method AddResponse(ghost h: seq<Row>, sc: Scope, calls: map<ResponseId, seq<CallEntry>>, first: map<ResponseId, nat>,
                     texts: map<ResponseId, string>, ghost at: map<ResponseId, Entry>, ghost done: set<ResponseId>,
                     response: ResponseId, before: seq<Entry>, known: CallNames)
    returns (projected: seq<Entry>, names: CallNames)
    requires WellFormed(h) && Gathered(h, sc, calls, first, texts, at) && Spread(at)
    requires response in calls && response !in done && Passed(h, sc, at, done, before, known)
    ensures Passed(h, sc, at, done + {response}, projected, names)
  {
    PassedStep(h, sc, at, done, before, known, response);
    var toolCalls := KeyValues(Sort(calls[response]));
    var content := if response in texts then NonEmpty(Some(texts[response])) else None;
    projected := before + [Keyed(first[response], 1, AssistantToolCalls(content, toolCalls, Lookup(sc.reasoning, response)))];
    names := AddNames(known, toolCalls);
  }

  /** Second pass: one message per response with answered calls, in hash-map order. */
  method GroupPass(ghost h: seq<Row>, sc: Scope, calls: map<ResponseId, seq<CallEntry>>, first: map<ResponseId, nat>,
                   texts: map<ResponseId, string>, ghost at: map<ResponseId, Entry>)
    returns (projected: seq<Entry>, names: CallNames)
    requires WellFormed(h)
    requires Gathered(h, sc, calls, first, texts, at) && Spread(at)
    ensures Passed(h, sc, at, at.Keys, projected, names)
  {
    projected, names := [], map[];
    var left := calls.Keys;
    ghost var done: set<ResponseId> := {};
    while left != {}
      invariant done + left == calls.Keys && done !! left
      invariant Passed(h, sc, at, done, projected, names)
    {
      var response :| response in left;
      left := left - {response};
      // Every response with calls has a first place; the guard is the engine's own.
      if response in first {
        projected, names := AddResponse(h, sc, calls, first, texts, at, done, response, projected, names);
      }
      done := done + {response};
    }
  }

  // ---- Third pass ----------------------------------------------------------------------------

  ghost predicate CallingKeys(h: seq<Row>, sc: Scope, keys: set<ResponseId>) {
    forall r :: r in keys <==> Calling(h, sc, r)
  }

  lemma {:induction false} CallingGroup(group: seq<Row>, row: Row)
    requires row in group && row.payload.ToolCall?
    ensures GroupCalls(group) != []
  {
    assert group == Front(group) + [Last(group)];
    if row in Front(group) {
      CallingGroup(Front(group), row);
    }
  }

  /** The response of an answered call replays calls. */
  lemma AnsweredCallIsCalling(h: seq<Row>, sc: Scope, c: CallId, row: Row)
    requires row in h && IsCall(sc, c)(row)
    ensures Calling(h, sc, row.payload.response)
  {
    assert row in Group(h, sc, row.payload.response);
    CallingGroup(Group(h, sc, row.payload.response), row);
  }

  lemma NamesFindCalls(names: CallNames, h: seq<Row>, sc: Scope, keys: set<ResponseId>, c: CallId)
    requires CallingKeys(h, sc, keys) && NamesHold(names, h, sc, keys)
    ensures c in names <==> FindCall(h, sc, c) != []
    ensures c in names ==> FindCall(h, sc, c)[0].payload.ToolCall? && names[c] == NameOf(FindCall(h, sc, c)[0])
  {
    var found := FindCall(h, sc, c);
    if c in names {
      var row :| row in h && IsCall(sc, c)(row) && row.payload.response in keys;
      assert row in found;
    }
    if found != [] {
      assert found[0] in found;
      AnsweredCallIsCalling(h, sc, c, found[0]);
    }
  }

  /** Where a checkpoint row speaks: older layouts at the earliest replaced row still listed. */
  method CheckpointEntriesOf(h: seq<Row>, sc: Scope, index: nat) returns (entries: seq<Entry>)
    requires index < |h| && h[index].payload.Compaction? && h[index].id !in sc.dead
    ensures entries == RowEntries(h, sc, index)
  {
    var payload := h[index].payload;
    var earliest := FirstNamed(h, Named(h[index]));
    var insertion := if earliest < |h| then earliest else index;
    match payload.layout {
      case ClmCheckpoint(snapshot, _) => entries := Enumerate(SnapshotMessages(snapshot, sc.images), insertion, 0);
      case UserAnchored => entries := Enumerate(AnchorMessages(payload.preserved, payload.summary), index, 0);
      case LegacyPrefix => entries := [Keyed(insertion, 0, CheckpointNote(payload.summary))];
    }
  }

  method OutputEntriesOf(h: seq<Row>, sc: Scope, index: nat, names: CallNames, ghost keys: set<ResponseId>)
    returns (entries: seq<Entry>)
    requires index < |h| && h[index].payload.ToolOutput? && h[index].id !in sc.dead
    requires CallingKeys(h, sc, keys) && NamesHold(names, h, sc, keys)
    ensures entries == RowEntries(h, sc, index)
  {
    var call := h[index].payload.call;
    NamesFindCalls(names, h, sc, keys, call);
    entries := if call in names then [Keyed(index, 1, ToolMessage(h[index].payload, names[call]))] else [];
  }

  function One(index: nat, message: Message): seq<Entry> {
    [Keyed(index, 1, message)]
  }

  /** The entries one row adds in the third pass. */
  method RowEntriesOf(h: seq<Row>, sc: Scope, index: nat, calls: map<ResponseId, seq<CallEntry>>, names: CallNames)
    returns (entries: seq<Entry>)
    requires index < |h|
    requires CallingKeys(h, sc, calls.Keys) && NamesHold(names, h, sc, calls.Keys)
    ensures entries == RowEntries(h, sc, index)
  {
    var row := h[index];
    if row.id in sc.dead {
      entries := [];
    } else if row.payload.Compaction? {
      entries := CheckpointEntriesOf(h, sc, index);
    } else if row.payload.ToolOutput? {
      entries := OutputEntriesOf(h, sc, index, names, calls.Keys);
    } else {
      entries := match row.payload
        case UserTurn(content) => One(index, UserMessage(content, sc.images))
        case SteerTurn(content) => One(index, UserMessage(content, sc.images))
        case AssistantMessage(response, content) => if response in calls then [] else One(index, Assistant(ContentText(content)))
        case InterAgent(_, text) => One(index, Agent(text))
        case ErrorRow(text) => One(index, Assistant(ERROR_PREFIX + text))
        case _ => [];
    }
  }

  lemma RowsFromStep(h: seq<Row>, sc: Scope, n: nat)
    requires n < |h|
    ensures RowsFrom(h, sc, n + 1) == RowsFrom(h, sc, n) + RowEntries(h, sc, n)
  {
    assert RowParts(h, sc, n + 1) == RowParts(h, sc, n) + [RowEntries(h, sc, n)];
    ConcatAppend(RowParts(h, sc, n), RowEntries(h, sc, n));
  }

  /** Third pass: the messages of single rows behind those of the responses. */
  method RowPass(h: seq<Row>, sc: Scope, calls: map<ResponseId, seq<CallEntry>>, names: CallNames, groups: seq<Entry>)
    returns (projected: seq<Entry>)
    requires CallingKeys(h, sc, calls.Keys) && NamesHold(names, h, sc, calls.Keys)
    ensures projected == groups + RowsFrom(h, sc, |h|)
  {
    projected := groups;
    for index := 0 to |h|
      invariant projected == groups + RowsFrom(h, sc, index)
    {
      ghost var before := RowsFrom(h, sc, index);
      RowsFromStep(h, sc, index);
      var entries := RowEntriesOf(h, sc, index, calls, names);
      Associative(groups, before, entries);
      projected := projected + entries;
    }
  }

  /**
   The projection as computed. Whatever order the hash maps are walked in, the result is the stable
   key order of response messages and row messages.
   */
  method ProjectModelMessages(h: seq<Row>, images: bool, reasoning: map<ResponseId, Continuation>)
    returns (messages: seq<Message>)
    requires WellFormed(h)
    ensures messages == Project(h, images, reasoning)
  {
    var sc := ScopeOf(h, images, reasoning);
    var calls, first, texts := Gather(h, sc);
    ghost var at := GatheredEntries(h, sc, calls, first, texts);
    var groups, names := GroupPass(h, sc, calls, first, texts, at);
    var projected := RowPass(h, sc, calls, names, groups);
    GroupsFromSorted(h, sc, |h|);
    forall e
      ensures e in GroupsFrom(h, sc, |h|) <==> exists r :: r in at && e == at[r]
    {
      EntriesAreGroups(h, sc, at, e);
    }
    HoldsAll(at, groups, GroupsFrom(h, sc, |h|), RowsFrom(h, sc, |h|));
    messages := KeyValues(Sort(projected));
  }
}
