/** The context manager: the active view, its bookkeeping, and how committed pages change them. */
module ContextManager {
  import opened Base
  import opened History
  import opened ActiveView
  import opened Projection
  import opened ProjectionLoop
  import opened Frame

  datatype Change = Unchanged | Appended | Compacted

  datatype Delta = Delta(change: Change, steers: seq<ItemId>, agents: seq<ItemId>)

  /** What a context manager holds; the revision is a digest of the rows. */
  datatype State = State(rows: seq<Row>, cursor: Option<int>, count: nat,
                         reasoning: map<ResponseId, Continuation>, revision: string)

  datatype Page = Page(rows: seq<Row>, next: Option<int>)

  function RowIds(rows: seq<Row>): (ids: seq<ItemId>)
    ensures |ids| == |rows|
  {
    seq(|rows|, i requires 0 <= i < |rows| => rows[i].id)
  }

  const IsSteerRow: Row -> bool := (row: Row) => row.payload.SteerTurn?
  const IsAgentRow: Row -> bool := (row: Row) => row.payload.InterAgent?

  ghost predicate HoldsCompaction(rows: seq<Row>) {
    exists row :: row in rows && row.payload.Compaction?
  }

  /** What a page changed, told from the page alone. */
  ghost predicate Describes(delta: Delta, rows: seq<Row>) {
    && (delta.change == Unchanged <==> rows == [])
    && (delta.change == Compacted <==> HoldsCompaction(rows))
    && delta.steers == RowIds(Filter(rows, IsSteerRow))
    && delta.agents == RowIds(Filter(rows, IsAgentRow))
  }

  /** The delta names the steer and the agent rows in order, and tells whether anything was replaced. */
  lemma DeltaExactly(delta: Delta, rows: seq<Row>) returns (steers: seq<nat>, agents: seq<nat>)
    requires Describes(delta, rows)
    ensures delta.change == Compacted <==> exists i :: 0 <= i < |rows| && rows[i].payload.Compaction?
    ensures delta.change == Unchanged <==> |rows| == 0
    ensures |steers| == |delta.steers| && |agents| == |delta.agents|
    ensures forall k :: 0 <= k < |steers| ==> steers[k] < |rows| && rows[steers[k]].id == delta.steers[k]
    ensures forall k :: 0 <= k < |agents| ==> agents[k] < |rows| && rows[agents[k]].id == delta.agents[k]
    ensures forall k, l :: 0 <= k < l < |steers| ==> steers[k] < steers[l]
    ensures forall k, l :: 0 <= k < l < |agents| ==> agents[k] < agents[l]
    ensures forall i :: 0 <= i < |rows| ==> (i in steers <==> rows[i].payload.SteerTurn?)
    ensures forall i :: 0 <= i < |rows| ==> (i in agents <==> rows[i].payload.InterAgent?)
  {
    steers := PlacesOf(rows, IsSteerRow);
    PlacesAreOfKind(rows, IsSteerRow, steers);
    agents := PlacesOf(rows, IsAgentRow);
    PlacesAreOfKind(rows, IsAgentRow, agents);
    assert HoldsCompaction(rows) ==> exists i :: 0 <= i < |rows| && rows[i].payload.Compaction?;
  }

  /** `at` gives the places of all rows of a kind, rising; `chosen` are those rows. */
  ghost predicate ArePlaces(rows: seq<Row>, p: Row -> bool, chosen: seq<Row>, at: seq<nat>) {
    && |at| == |chosen|
    && (forall k :: 0 <= k < |at| ==> at[k] < |rows| && rows[at[k]] == chosen[k])
    && (forall k, l :: 0 <= k < l < |at| ==> at[k] < at[l])
    && (forall i :: 0 <= i < |rows| && p(rows[i]) ==> i in at)
  }

  lemma PlacesAppend(rows: seq<Row>, row: Row, p: Row -> bool, chosen: seq<Row>, at: seq<nat>)
    requires ArePlaces(rows, p, chosen, at)
    ensures if p(row) then ArePlaces(rows + [row], p, chosen + [row], at + [|rows|]) else ArePlaces(rows + [row], p, chosen, at)
  {
  }

  lemma {:induction false} PlacesOf(rows: seq<Row>, p: Row -> bool) returns (at: seq<nat>)
    ensures ArePlaces(rows, p, Filter(rows, p), at)
  {
    if rows == [] {
      at := [];
    } else {
      at := PlacesOf(Front(rows), p);
      PlacesAppend(Front(rows), Last(rows), p, Filter(Front(rows), p), at);
      assert Front(rows) + [Last(rows)] == rows;
      at := if p(Last(rows)) then at + [|rows| - 1] else at;
    }
  }

  lemma PlacesAreOfKind(rows: seq<Row>, p: Row -> bool, at: seq<nat>)
    requires ArePlaces(rows, p, Filter(rows, p), at)
    ensures forall i :: 0 <= i < |rows| ==> (i in at <==> p(rows[i]))
  {
    forall k | 0 <= k < |at|
      ensures p(rows[at[k]])
    {
      assert Filter(rows, p)[k] in Filter(rows, p);
    }
  }

  /** The state after one page. */
  function Committed(s: State, page: Page, digest: seq<Row> -> string): State
    requires s.count <= MAX_USIZE
  {
    var rows := IngestAll(s.rows, page.rows);
    State(rows, if page.next.Some? then page.next else s.cursor, SaturatingAdd(s.count, |page.rows|, MAX_USIZE),
          IngestReasoning(s.rows, page.rows, s.reasoning), digest(rows))
  }

  lemma RowIdsAppend(rows: seq<Row>, row: Row)
    ensures RowIds(rows + [row]) == RowIds(rows) + [row.id]
  {
  }

  lemma IngestStep(view: seq<Row>, rows: seq<Row>, n: nat, reasoning: map<ResponseId, Continuation>)
    requires n < |rows|
    ensures IngestAll(view, rows[..n + 1]) == IngestRow(IngestAll(view, rows[..n]), rows[n])
    ensures IngestReasoning(view, rows[..n + 1], reasoning)
         == IngestReasoning(view, rows[..n], reasoning) - DroppedResponses(IngestAll(view, rows[..n]), rows[n])
  {
    assert Front(rows[..n + 1]) == rows[..n] && Last(rows[..n + 1]) == rows[n];
  }

  lemma MinusMore<K, V>(m: map<K, V>, a: set<K>, b: set<K>)
    ensures m - a - b == m - (a + b)
  {
  }

  lemma DroppedStep(view: seq<Row>, n: nat, row: Row)
    requires n < |view|
    ensures DroppedResponses(view[..n + 1], row) == DroppedResponses(view[..n], row)
         + if Names(row, view[n].id) && view[n].payload.ToolCall? then {view[n].payload.response} else {}
  {
    assert view[..n + 1] == view[..n] + [view[n]];
    assert forall x :: x in view[..n + 1] <==> x in view[..n] || x == view[n];
  }

  /** What has been noted about the first `n` rows of a page. */
  ghost predicate Noted(rows: seq<Row>, n: nat, compacted: bool, steers: seq<ItemId>, agents: seq<ItemId>)
    requires n <= |rows|
  {
    && (compacted <==> HoldsCompaction(rows[..n]))
    && steers == RowIds(Filter(rows[..n], IsSteerRow))
    && agents == RowIds(Filter(rows[..n], IsAgentRow))
  }

  lemma NotedStep(rows: seq<Row>, n: nat, compacted: bool, steers: seq<ItemId>, agents: seq<ItemId>)
    requires n < |rows| && Noted(rows, n, compacted, steers, agents)
    ensures Noted(rows, n + 1, compacted || rows[n].payload.Compaction?,
                  if rows[n].payload.SteerTurn? then steers + [rows[n].id] else steers,
                  if rows[n].payload.InterAgent? then agents + [rows[n].id] else agents)
  {
    FilterStep(rows, n, IsSteerRow);
    FilterStep(rows, n, IsAgentRow);
    RowIdsAppend(Filter(rows[..n], IsSteerRow), rows[n]);
    RowIdsAppend(Filter(rows[..n], IsAgentRow), rows[n]);
    assert rows[..n + 1] == rows[..n] + [rows[n]];
  }

  method NoteRow(rows: seq<Row>, n: nat, compacted: bool, steers: seq<ItemId>, agents: seq<ItemId>)
    returns (c: bool, s: seq<ItemId>, a: seq<ItemId>)
    requires n < |rows| && Noted(rows, n, compacted, steers, agents)
    ensures Noted(rows, n + 1, c, s, a)
  {
    NotedStep(rows, n, compacted, steers, agents);
    c, s, a := compacted || rows[n].payload.Compaction?, steers, agents;
    if rows[n].payload.SteerTurn? {
      s := s + [rows[n].id];
    } else if rows[n].payload.InterAgent? {
      a := a + [rows[n].id];
    }
  }

  class ContextManager {
    const digest: seq<Row> -> string
    var rows: seq<Row>
    var revision: string
    var cursor: Option<int>
    var count: nat
    var reasoning: map<ResponseId, Continuation>

    /** The revision identifies the rows, and the count fits a machine word. */
    ghost predicate Valid()
      reads this
    {
      revision == digest(rows) && count <= MAX_USIZE
    }

    ghost function Contents(): State
      reads this
    {
      State(rows, cursor, count, reasoning, revision)
    }

    constructor FromActiveHistory(digest: seq<Row> -> string, rows: seq<Row>, cursor: Option<int>, count: nat)
      requires count <= MAX_USIZE
      ensures Valid() && this.digest == digest
      ensures Contents() == State(rows, cursor, count, map[], digest(rows))
    {
      this.digest := digest;
      this.rows, this.revision, this.cursor, this.count, this.reasoning := rows, digest(rows), cursor, count, map[];
    }

    constructor Clone(other: ContextManager)
      requires other.Valid()
      ensures Valid() && digest == other.digest && Contents() == other.Contents()
    {
      digest := other.digest;
      rows, revision, cursor, count, reasoning := other.rows, other.revision, other.cursor, other.count, other.reasoning;
    }

    method ClearContinuations()
      requires Valid()
      modifies this`reasoning
      ensures Valid() && reasoning == map[]
    {
      reasoning := map[];
    }

    method RecordContinuation(response: ResponseId, continuation: Continuation)
      requires Valid()
      modifies this`reasoning
      ensures Valid() && reasoning == old(reasoning)[response := continuation]
    {
      reasoning := reasoning[response := continuation];
    }

    /** Drops the named rows, and the private reasoning of every response that loses a call. */
    method RetainUnnamed(row: Row)
      requires row.payload.Compaction?
      modifies this`rows, this`reasoning
      ensures rows == Retain(old(rows), Named(row))
      ensures reasoning == old(reasoning) - DroppedResponses(old(rows), row)
    {
      var view, left, named := rows, reasoning, Named(row);
      ghost var all := reasoning;
      var kept: seq<Row> := [];
      assert view[..0] == [];
      for n := 0 to |view|
        invariant kept == Retain(view[..n], named)
        invariant left == all - DroppedResponses(view[..n], row)
      {
        FilterStep(view, n, Keeps(named));
        DroppedStep(view, n, row);
        if view[n].id !in named {
          kept := kept + [view[n]];
        } else if view[n].payload.ToolCall? {
          MinusMore(all, DroppedResponses(view[..n], row), {view[n].payload.response});
          left := left - {view[n].payload.response};
        }
      }
      assert view[..|view|] == view;
      rows, reasoning := kept, left;
    }

    method IngestOne(row: Row)
      modifies this`rows, this`reasoning
      ensures rows == IngestRow(old(rows), row)
      ensures reasoning == old(reasoning) - DroppedResponses(old(rows), row)
    {
      if row.payload.Compaction? {
        var at := FirstNamed(rows, Named(row));
        RetainUnnamed(row);
        at := Min(at, |rows|);
        rows := rows[..at] + [row] + rows[at..];
      } else {
        assert DroppedResponses(rows, row) == {};
        rows := rows + [row];
      }
    }

    /** Applies one page of rows read behind the cursor. */
    method IngestCommittedDelta(page: Page) returns (delta: Delta)
      requires Valid()
      modifies this
      ensures Valid() && Contents() == Committed(old(Contents()), page, digest)
      ensures Describes(delta, page.rows)
      ensures count == if old(count) + |page.rows| > MAX_USIZE then MAX_USIZE else old(count) + |page.rows|
      ensures cursor == if page.next.Some? then page.next else old(cursor)
      ensures revision == digest(rows)
    {
      if page.rows == [] {
        cursor := if page.next.Some? then page.next else cursor;
        return Delta(Unchanged, [], []);
      }
      var compacted, steers: seq<ItemId>, agents: seq<ItemId> := false, [], [];
      ghost var view, kept := rows, reasoning;
      assert page.rows[..0] == [];
      for n := 0 to |page.rows|
        invariant rows == IngestAll(view, page.rows[..n])
        invariant reasoning == IngestReasoning(view, page.rows[..n], kept)
        invariant Noted(page.rows, n, compacted, steers, agents)
        invariant count == old(count) && cursor == old(cursor)
      {
        var row := page.rows[n];
        IngestStep(view, page.rows, n, kept);
        compacted, steers, agents := NoteRow(page.rows, n, compacted, steers, agents);
        IngestOne(row);
      }
      assert page.rows[..|page.rows|] == page.rows;
      count := SaturatingAdd(count, |page.rows|, MAX_USIZE);
      cursor := if page.next.Some? then page.next else cursor;
      revision := digest(rows);
      delta := Delta(if compacted then Compacted else Appended, steers, agents);
    }

    /** All projected messages. */
    method ModelMessages(images: bool) returns (messages: seq<Message>)
      requires WellFormed(rows)
      ensures messages == Project(rows, images, reasoning)
    {
      messages := ProjectModelMessages(rows, images, reasoning);
    }

    /** The projection of the rows that are not excluded. */
    method ModelMessagesExcluding(excluded: set<ItemId>, images: bool) returns (messages: seq<Message>)
      requires WellFormed(rows)
      ensures messages == Project(Retain(rows, excluded), images, reasoning)
    {
      WellFormedSelection(rows, Keeps(excluded));
      messages := ProjectModelMessages(Filter(rows, Keeps(excluded)), images, reasoning);
    }

    /** The projection of the selected rows, in view order whatever the order of `ids`. */
    method ModelMessagesForItems(ids: seq<ItemId>, images: bool) returns (messages: seq<Message>)
      requires WellFormed(rows)
      ensures messages == Project(Filter(rows, (row: Row) => row.id in ids), images, reasoning)
    {
      WellFormedSelection(rows, (row: Row) => row.id in ids);
      messages := ProjectModelMessages(Filter(rows, (row: Row) => row.id in ids), images, reasoning);
    }

    /** The projection as it would be after a user-anchored checkpoint; this manager does not change. */
    method ModelMessagesAfterCompaction(id: ItemId, preserved: seq<string>, summary: string, replaced: seq<ItemId>,
                                        excluded: set<ItemId>, images: bool)
      returns (messages: seq<Message>)
      requires Valid() && WellFormed(rows) && FreshIn(rows, id)
      ensures messages == Previewed(rows, Row(id, Compaction(UserAnchored, preserved, summary, replaced)), excluded, images, reasoning)
    {
      var row := Row(id, Compaction(UserAnchored, preserved, summary, replaced));
      var projected := new ContextManager.Clone(this);
      CheckpointWellFormed(rows, row);
      assert IngestAll(rows, [row]) == IngestRow(rows, row) by {
        assert Front([row]) == [] && Last([row]) == row;
      }
      assert IngestReasoning(rows, [row], reasoning) == reasoning - DroppedResponses(rows, row) by {
        assert Front([row]) == [] && Last([row]) == row;
      }
      var _ := projected.IngestCommittedDelta(Page([row], cursor));
      messages := projected.ModelMessagesExcluding(excluded, images);
    }
  }

  // ---- Pages -----------------------------------------------------------------------------------

  function CommittedAll(s: State, pages: seq<Page>, digest: seq<Row> -> string): (r: State)
    requires s.count <= MAX_USIZE
    ensures r.count <= MAX_USIZE
  {
    if pages == [] then s else Committed(CommittedAll(s, Front(pages), digest), Last(pages), digest)
  }

  function RowsOf(pages: seq<Page>): seq<Row> {
    if pages == [] then [] else RowsOf(Front(pages)) + Last(pages).rows
  }

  function LastCursor(pages: seq<Page>, cursor: Option<int>): Option<int> {
    if pages == [] then cursor
    else if Last(pages).next.Some? then Last(pages).next
    else LastCursor(Front(pages), cursor)
  }

  /**
   How the stream is split into pages does not matter: view, count, revision and retained reasoning
   depend on the rows alone, and the cursor is the last one reported.
   */
  lemma {:induction false} PagesOnlyAddUp(s: State, pages: seq<Page>, digest: seq<Row> -> string)
    requires s.count <= MAX_USIZE && s.revision == digest(s.rows)
    ensures CommittedAll(s, pages, digest)
         == Committed(s, Page(RowsOf(pages), LastCursor(pages, s.cursor)), digest)
  {
    if pages != [] {
      PagesOnlyAddUp(s, Front(pages), digest);
      IngestConcat(s.rows, RowsOf(Front(pages)), Last(pages).rows);
      ReasoningConcat(s.rows, RowsOf(Front(pages)), Last(pages).rows, s.reasoning);
    }
  }

  /** Two splits of one stream that end at the same cursor lead to the same state. */
  lemma SplitsAgree(s: State, a: seq<Page>, b: seq<Page>, digest: seq<Row> -> string)
    requires s.count <= MAX_USIZE && s.revision == digest(s.rows)
    requires RowsOf(a) == RowsOf(b) && LastCursor(a, s.cursor) == LastCursor(b, s.cursor)
    ensures CommittedAll(s, a, digest) == CommittedAll(s, b, digest)
  {
    PagesOnlyAddUp(s, a, digest);
    PagesOnlyAddUp(s, b, digest);
  }

  /** Some row of the stream names a call of the response that was in the view or came before it. */
  ghost predicate LosesCall(view: seq<Row>, rows: seq<Row>, r: ResponseId) {
    exists i, call :: 0 <= i < |rows| && call in view + rows[..i] && IsCallOf(call, r)
                     && rows[i].payload.Compaction? && call.id in rows[i].payload.replaced
  }

  predicate IsCallOf(row: Row, r: ResponseId) {
    row.payload.ToolCall? && row.payload.response == r
  }

  /** A row that no later row of the stream names is still in view. */
  lemma {:induction false} StillInView(view: seq<Row>, rows: seq<Row>, row: Row)
    requires row in view + rows
    requires forall i :: 0 <= i < |rows| && row in view + rows[..i] ==> !Names(rows[i], row.id)
    ensures row in IngestAll(view, rows)
  {
    if rows != [] {
      var n := |rows| - 1;
      IngestMembers(IngestAll(view, Front(rows)), Last(rows));
      if row != Last(rows) {
        assert view + rows == (view + Front(rows)) + [Last(rows)];
        assert !Names(rows[n], row.id);
        forall i | 0 <= i < n && row in view + Front(rows)[..i]
          ensures !Names(Front(rows)[i], row.id)
        {
          assert Front(rows)[..i] == rows[..i];
        }
        StillInView(view, Front(rows), row);
      }
    }
  }

  /** The view holds nothing but what was in it and what was appended. */
  lemma {:induction false} InViewWasAppended(view: seq<Row>, rows: seq<Row>)
    ensures forall row :: row in IngestAll(view, rows) ==> row in view + rows
  {
    if rows != [] {
      InViewWasAppended(view, Front(rows));
      IngestMembers(IngestAll(view, Front(rows)), Last(rows));
    }
  }

  /** One more row loses a call of the response, or the rows before it did. */
  lemma LosesCallStep(view: seq<Row>, rows: seq<Row>, r: ResponseId)
    requires rows != []
    ensures LosesCall(view, rows, r)
       <==> || LosesCall(view, Front(rows), r)
            || exists call :: call in view + Front(rows) && IsCallOf(call, r) && Names(Last(rows), call.id)
  {
    var n := |rows| - 1;
    assert rows[..n] == Front(rows);
    if i, call :| 0 <= i < |rows| && call in view + rows[..i] && IsCallOf(call, r) && Names(rows[i], call.id) {
      assert i < n ==> Front(rows)[..i] == rows[..i] && Front(rows)[i] == rows[i];
    }
    if i, call :| 0 <= i < n && call in view + Front(rows)[..i] && IsCallOf(call, r) && Names(Front(rows)[i], call.id) {
      assert Front(rows)[..i] == rows[..i] && Front(rows)[i] == rows[i];
    }
  }

  /** While no call was lost, the last row drops the response exactly if it names one of its calls. */
  lemma DropsCall(view: seq<Row>, rows: seq<Row>, r: ResponseId, row: Row)
    requires !LosesCall(view, rows, r)
    ensures r in DroppedResponses(IngestAll(view, rows), row)
       <==> exists call :: call in view + rows && IsCallOf(call, r) && Names(row, call.id)
  {
    InViewWasAppended(view, rows);
    if call :| call in view + rows && IsCallOf(call, r) && Names(row, call.id) {
      StillInView(view, rows, call);
    }
  }

  /**
   Private reasoning is kept exactly for the responses no call of which was ever named, told from the
   stream alone: no row of it names a call that was in the view at the start or appended before it.
   */
  lemma {:induction false} ReasoningKeptExactly(view: seq<Row>, rows: seq<Row>, reasoning: map<ResponseId, Continuation>, r: ResponseId)
    ensures r in IngestReasoning(view, rows, reasoning) <==> r in reasoning && !LosesCall(view, rows, r)
    ensures r in IngestReasoning(view, rows, reasoning) ==> IngestReasoning(view, rows, reasoning)[r] == reasoning[r]
  {
    if rows != [] {
      ReasoningKeptExactly(view, Front(rows), reasoning, r);
      LosesCallStep(view, rows, r);
      if !LosesCall(view, Front(rows), r) {
        DropsCall(view, Front(rows), r, Last(rows));
      }
    }
  }

  // ---- Preview and commit ----------------------------------------------------------------------

  /** No row has this id and no row names it. */
  ghost predicate FreshIn(view: seq<Row>, id: ItemId) {
    forall row :: row in view ==> row.id != id && !Names(row, id)
  }

  /** The messages of the view with the checkpoint ingested and the excluded rows left out. */
  function Previewed(view: seq<Row>, checkpoint: Row, excluded: set<ItemId>, images: bool,
                     reasoning: map<ResponseId, Continuation>): seq<Message>
  {
    Project(Retain(IngestRow(view, checkpoint), excluded), images, reasoning - DroppedResponses(view, checkpoint))
  }

  lemma CheckpointWellFormed(view: seq<Row>, checkpoint: Row)
    requires WellFormed(view) && FreshIn(view, checkpoint.id) && checkpoint.payload.Compaction?
    ensures WellFormed(IngestRow(view, checkpoint))
  {
    WellFormedSelection(view, Keeps(Named(checkpoint)));
    var kept := Retain(view, Named(checkpoint));
    var at := Min(FirstNamed(view, Named(checkpoint)), |kept|);
    forall i | 0 <= i < |kept|
      ensures kept[i].id != checkpoint.id
    {
      assert kept[i] in kept;
    }
    InsertedWellFormed(kept, at, checkpoint);
  }

  /** Two rows of `kept` with a row put in at one place, unless one of them is that row. */
  lemma InsertedPair(kept: seq<Row>, at: nat, checkpoint: Row, i: nat, j: nat)
    requires at <= |kept| && i <= |kept| && j <= |kept| && i != j && checkpoint.payload.Compaction?
    requires WellFormed(kept) && forall k :: 0 <= k < |kept| ==> kept[k].id != checkpoint.id
    ensures var w := kept[..at] + [checkpoint] + kept[at..];
            && w[i].id != w[j].id
            && (w[i].payload.ToolCall? && w[j].payload.ToolCall? ==> w[i].payload.call != w[j].payload.call)
            && (w[i].payload.ToolOutput? && w[j].payload.ToolOutput? ==> w[i].payload.call != w[j].payload.call)
            && (w[i].payload.ToolCall? && w[j].payload.ToolOutput? && w[i].payload.call == w[j].payload.call ==> i < j)
  {
    var w := kept[..at] + [checkpoint] + kept[at..];
    assert w[at] == checkpoint;
    assert i < at ==> w[i] == kept[i];
    assert j < at ==> w[j] == kept[j];
    assert i > at ==> w[i] == kept[i - 1];
    assert j > at ==> w[j] == kept[j - 1];
  }

  lemma InsertedWellFormed(kept: seq<Row>, at: nat, checkpoint: Row)
    requires WellFormed(kept) && at <= |kept| && checkpoint.payload.Compaction?
    requires forall i :: 0 <= i < |kept| ==> kept[i].id != checkpoint.id
    ensures WellFormed(kept[..at] + [checkpoint] + kept[at..])
  {
    var w := kept[..at] + [checkpoint] + kept[at..];
    forall i: nat, j: nat | i < |w| && j < |w| && i != j
      ensures w[i].id != w[j].id
      ensures w[i].payload.ToolCall? && w[j].payload.ToolCall? ==> w[i].payload.call != w[j].payload.call
      ensures w[i].payload.ToolOutput? && w[j].payload.ToolOutput? ==> w[i].payload.call != w[j].payload.call
      ensures w[i].payload.ToolCall? && w[j].payload.ToolOutput? && w[i].payload.call == w[j].payload.call ==> i < j
    {
      InsertedPair(kept, at, checkpoint, i, j);
    }
  }

  lemma FoldedSelection(h: seq<Row>, keep: Row -> bool)
    requires Folded(h)
    ensures Folded(Filter(h, keep))
  {
  }

  /** A checkpoint that may be ingested under any fresh id. */
  ghost predicate Proposes(view: seq<Row>, id: ItemId, payload: Payload, excluded: set<ItemId>) {
    && payload.Compaction? && id !in payload.replaced
    && FreshIn(view, id) && id !in excluded
  }

  lemma IngestFolds(view: seq<Row>, checkpoint: Row)
    requires Folded(view) && FreshIn(view, checkpoint.id) && !Names(checkpoint, checkpoint.id)
    ensures Folded(IngestRow(view, checkpoint))
  {
    IngestMembers(view, checkpoint);
  }

  /** Where a checkpoint stands once excluded rows are left out. */
  lemma ExcludedPlace(view: seq<Row>, id: ItemId, payload: Payload, excluded: set<ItemId>)
    requires Proposes(view, id, payload, excluded)
    ensures var row := Row(id, payload);
            var at := FirstNamed(view, Named(row));
            Retain(IngestRow(view, row), excluded)
            == Retain(view[..at], excluded) + [row] + Retain(Retain(view[at..], Named(row)), excluded)
  {
    var row := Row(id, payload);
    var at := FirstNamed(view, Named(row));
    CheckpointPlace(view, row);
    FilterConcat(view[..at] + [row], Retain(view[at..], Named(row)), Keeps(excluded));
    FilterConcat(view[..at], [row], Keeps(excluded));
    FilterAll([row], Keeps(excluded));
  }

  lemma PreviewFolds(view: seq<Row>, id: ItemId, payload: Payload, excluded: set<ItemId>)
    requires Folded(view) && Proposes(view, id, payload, excluded)
    ensures Folded(Retain(IngestRow(view, Row(id, payload)), excluded))
  {
    IngestFolds(view, Row(id, payload));
    FoldedSelection(IngestRow(view, Row(id, payload)), Keeps(excluded));
  }

  lemma JoinRenames(before: seq<Row>, a: Row, b: Row, behind: seq<Row>)
    requires a.payload == b.payload && a.payload.Compaction?
    ensures Renames(before + [a] + behind, before + [b] + behind, |before|)
  {
  }

  lemma PreviewRenames(view: seq<Row>, previewId: ItemId, id: ItemId, payload: Payload, excluded: set<ItemId>)
    returns (at: nat)
    requires Proposes(view, previewId, payload, excluded) && Proposes(view, id, payload, excluded)
    ensures Renames(Retain(IngestRow(view, Row(previewId, payload)), excluded), Retain(IngestRow(view, Row(id, payload)), excluded), at)
  {
    var preview, row := Row(previewId, payload), Row(id, payload);
    assert Named(preview) == Named(row);
    ExcludedPlace(view, previewId, payload, excluded);
    ExcludedPlace(view, id, payload, excluded);
    var place := FirstNamed(view, Named(row));
    var before, behind := Retain(view[..place], excluded), Retain(Retain(view[place..], Named(row)), excluded);
    at := |before|;
    JoinRenames(before, preview, row, behind);
  }

  /** The reviewed projection is the projection after the same checkpoint is ingested under its own id. */
  lemma PreviewIsCommit(view: seq<Row>, previewId: ItemId, id: ItemId, payload: Payload, excluded: set<ItemId>, images: bool,
                        reasoning: map<ResponseId, Continuation>)
    requires Folded(view)
    requires Proposes(view, previewId, payload, excluded) && Proposes(view, id, payload, excluded)
    ensures Previewed(view, Row(previewId, payload), excluded, images, reasoning)
         == Previewed(view, Row(id, payload), excluded, images, reasoning)
  {
    var at := PreviewRenames(view, previewId, id, payload, excluded);
    PreviewFolds(view, previewId, payload, excluded);
    PreviewFolds(view, id, payload, excluded);
    assert DroppedResponses(view, Row(previewId, payload)) == DroppedResponses(view, Row(id, payload));
    RenamedProjection(Retain(IngestRow(view, Row(previewId, payload)), excluded),
                      Retain(IngestRow(view, Row(id, payload)), excluded), at,
                      images, reasoning - DroppedResponses(view, Row(id, payload)));
  }
}
