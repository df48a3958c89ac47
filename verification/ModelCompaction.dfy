/**
 Applying a model-written compaction: the source is chosen before sampling, checked again at the
 commit, and the context either takes exactly the reviewed checkpoint or stays as it was.
 */
module ModelCompaction {
  import opened Base
  import opened History
  import opened ActiveView
  import opened Units
  import opened Selection
  import opened Projection
  import opened Frame
  import opened Contribution
  import opened Baseline
  import opened ContextManager
  import opened Tokens
  import Checkpoint

  // ---- The checkpoint --------------------------------------------------------------------------

  predicate Contains(s: string, part: string) {
    exists i :: 0 <= i <= |s| && OccursAt(s, part, i)
  }

  predicate BodyAccepted(body: string) {
    !IsBlank(body) && !Contains(body, Checkpoint.SOURCE_RECORDS_BEGIN) && !Contains(body, Checkpoint.SOURCE_RECORDS_END)
  }

  const FIRST_ID := "\n\nHistorical evidence in this conversation: first_item_id="
  const LAST_ID := "; last_item_id="
  const REFERENCE_NOTE := ". Use read_history to retrieve original records. These references do not establish success, approval, or verification."

  function CheckpointText(body: string, items: seq<Row>): string {
    if items == [] then body
    else body + FIRST_ID + items[0].id + LAST_ID + Last(items).id + REFERENCE_NOTE
  }

  function Chosen(ids: seq<ItemId>): Row -> bool {
    (row: Row) => row.id in ids
  }

  function SnapshotInputs(messages: seq<SnapshotMessage>): seq<string> {
    if messages == [] then []
    else
      (match messages[0]
       case SnapshotUser(text) => [text]
       case SnapshotAgent(text) => [text]
       case SnapshotParts(parts) => [ContentText(parts)]
       case SnapshotOther(_) => [])
      + SnapshotInputs(messages[1..])
  }

  function NonBlank(text: string): seq<string> {
    if IsBlank(text) then [] else [text]
  }

  /** The input texts a replaced row hands on to the checkpoint. */
  function InputsOf(row: Row): seq<string> {
    match row.payload
    case UserTurn(content) => NonBlank(ContentText(content))
    case SteerTurn(content) => NonBlank(ContentText(content))
    case InterAgent(trigger, text) => if trigger then NonBlank(text) else []
    case Compaction(layout, preserved, _, _) =>
      (match layout
       case ClmCheckpoint(snapshot, protectedPrefix) => SnapshotInputs(snapshot[..Min(protectedPrefix, |snapshot|)])
       case UserAnchored => preserved
       case LegacyPrefix => [])
    case _ => []
  }

  function InputsFrom(rows: seq<Row>): seq<string> {
    if rows == [] then [] else InputsFrom(Front(rows)) + InputsOf(Last(rows))
  }

  function PreservedInputs(view: seq<Row>, ids: seq<ItemId>): seq<string> {
    InputsFrom(Filter(ActiveRows(view), Chosen(ids)))
  }

  /** The row a compaction commits. */
  function CheckpointRow(view: seq<Row>, id: ItemId, body: string, source: seq<ItemId>): Row {
    Row(id, Compaction(UserAnchored, PreservedInputs(view, source), CheckpointText(body, Filter(view, Chosen(source))), source))
  }

  // ---- What is handed on, kind by kind ---------------------------------------------------------

  lemma {:induction false} InputsConcat(a: seq<Row>, b: seq<Row>)
    ensures InputsFrom(a + b) == InputsFrom(a) + InputsFrom(b)
  {
    if b == [] {
      assert a + b == a;
    } else {
      assert Front(a + b) == a + Front(b) && Last(a + b) == Last(b);
      InputsConcat(a, Front(b));
      Associative(InputsFrom(a), InputsFrom(Front(b)), InputsOf(Last(b)));
    }
  }

  lemma {:induction false} SnapshotConcat(a: seq<SnapshotMessage>, b: seq<SnapshotMessage>)
    ensures SnapshotInputs(a + b) == SnapshotInputs(a) + SnapshotInputs(b)
  {
    if a == [] {
      assert a + b == b;
    } else {
      assert (a + b)[0] == a[0] && (a + b)[1..] == a[1..] + b;
      SnapshotConcat(a[1..], b);
      assert SnapshotInputs(a) == SnapshotInputs([a[0]]) + SnapshotInputs(a[1..]) by {
        assert [a[0]][1..] == [];
      }
      assert SnapshotInputs(a + b) == SnapshotInputs([a[0]]) + SnapshotInputs(a[1..] + b) by {
        assert [a[0]][1..] == [];
      }
      Associative(SnapshotInputs([a[0]]), SnapshotInputs(a[1..]), SnapshotInputs(b));
    }
  }

  /** Of a replayed message the text is handed on, if it was an input. */
  lemma SnapshotByKind(message: SnapshotMessage)
    ensures SnapshotInputs([message])
         == match message
            case SnapshotUser(text) => [text]
            case SnapshotAgent(text) => [text]
            case SnapshotParts(parts) => [JoinLines(LinesOf(Filter(parts, IsText)))]
            case SnapshotOther(_) => []
  {
    assert [message][1..] == [];
    if message.SnapshotParts? {
      TextsAreLines(message.parts);
    }
  }

  /** A text is handed on unless it is blank. */
  ghost predicate HandsOn(inputs: seq<string>, text: string) {
    inputs == if forall c :: c in text ==> IsWhitespace(c) then [] else [text]
  }

  /** What one row hands on to the checkpoint that replaces it. */
  lemma InputsByKind(row: Row)
    ensures var inputs := InputsFrom([row]);
            match row.payload
            case UserTurn(content) => HandsOn(inputs, JoinLines(LinesOf(Filter(content, IsText))))
            case SteerTurn(content) => HandsOn(inputs, JoinLines(LinesOf(Filter(content, IsText))))
            case InterAgent(trigger, text) => if trigger then HandsOn(inputs, text) else inputs == []
            case Compaction(layout, preserved, _, _) =>
              (match layout
               case UserAnchored => inputs == preserved
               case LegacyPrefix => inputs == []
               case ClmCheckpoint(snapshot, prefix) => inputs == SnapshotInputs(if prefix < |snapshot| then snapshot[..prefix] else snapshot))
            case _ => inputs == []
  {
    assert Front([row]) == [] && InputsFrom([row]) == InputsOf(row);
    match row.payload
    case UserTurn(content) => TextsAreLines(content);
    case SteerTurn(content) => TextsAreLines(content);
    case Compaction(layout, _, _, _) =>
      assert layout.ClmCheckpoint? ==> layout.snapshot[..|layout.snapshot|] == layout.snapshot;
    case _ =>
  }

  lemma Inside(body: string, a: string, x: string, b: string, y: string, c: string)
    ensures var text := body + a + x + b + y + c;
            body <= text && OccursAt(text, x, |body| + |a|) && OccursAt(text, y, |body| + |a| + |x| + |b|)
  {
    var text := body + a + x + b + y + c;
    assert text[..|body|] == body;
    assert text[|body| + |a|..|body| + |a| + |x|] == x;
    assert text[|body| + |a| + |x| + |b|..|body| + |a| + |x| + |b| + |y|] == y;
  }

  /** The note starts with the accepted text and, over a selection, goes on to name its first and its last row. */
  lemma NoteKeepsBody(body: string, items: seq<Row>) returns (i: nat, j: nat)
    ensures body <= CheckpointText(body, items)
    ensures items == [] ==> CheckpointText(body, items) == body
    ensures items != [] ==> |body| < i && i + |items[0].id| < j
    ensures items != [] ==> OccursAt(CheckpointText(body, items), items[0].id, i)
    ensures items != [] ==> OccursAt(CheckpointText(body, items), items[|items| - 1].id, j)
  {
    i, j := 0, 0;
    if items != [] {
      Inside(body, FIRST_ID, items[0].id, LAST_ID, Last(items).id, REFERENCE_NOTE);
      i := |body| + |FIRST_ID|;
      j := i + |items[0].id| + |LAST_ID|;
    }
  }

  // ---- The commit ------------------------------------------------------------------------------

  const PAGE_LIMIT := 200

  /** Where reading resumes. */
  function Position(cursor: Option<int>): int {
    if cursor.Some? then cursor.value else 0
  }

  /** The page of log rows behind the cursor. */
  function PageAfter(log: seq<Row>, cursor: Option<int>): Page
    requires 0 <= Position(cursor) <= |log|
  {
    var upto := Min(Position(cursor) + PAGE_LIMIT, |log|);
    Page(log[Position(cursor)..upto], Some(upto))
  }

  /** A page holds the next rows of the log, at most 200, and reading resumes behind them. */
  lemma PageExactly(log: seq<Row>, cursor: Option<int>)
    requires 0 <= Position(cursor) <= |log|
    ensures var page, from := PageAfter(log, cursor), if cursor.Some? then cursor.value else 0;
            && |page.rows| == (if |log| - from < 200 then |log| - from else 200)
            && (forall i :: 0 <= i < |page.rows| ==> page.rows[i] == log[from + i])
            && page.next == Some(from + |page.rows|)
  {
  }

  /** The durable, append-only log. */
  class HistoryStore {
    var log: seq<Row>

    constructor (log: seq<Row>)
      ensures this.log == log
    {
      this.log := log;
    }

    method Append(rows: seq<Row>)
      modifies this
      ensures log == old(log) + rows
    {
      log := log + rows;
    }
  }

  /** What the host learns from outside: settlement, admission, the commit, the read, and other writers. */
  datatype World = World(settled: bool, admitted: bool, committed: bool, readable: bool, others: seq<Row>, id: ItemId)

  datatype Outcome = Applied | Rejected | Stopped

  predicate Permits(world: World) {
    world.settled && world.admitted && world.committed
  }

  /** The token bounds a usable checkpoint must meet. */
  predicate Usable(before: nat, after: nat, request: nat, limit: nat)
    requires request <= MAX_U32
  {
    after < before && SaturatingAdd(SaturatingSub(request, before), after, MAX_U32) < limit
  }

  predicate Active(view: seq<Row>, source: seq<ItemId>) {
    source != [] && forall id :: id in source ==> id in IdsOf(ActiveRows(view))
  }

  datatype Budget = Budget(estimate: seq<Message> -> nat, images: bool, request: nat, limit: nat)

  function Before(view: seq<Row>, reasoning: map<ResponseId, Continuation>, budget: Budget): nat {
    Clamp(budget.estimate(Project(view, budget.images, reasoning)))
  }

  function After(view: seq<Row>, reasoning: map<ResponseId, Continuation>, budget: Budget, checkpoint: Row): nat {
    Clamp(budget.estimate(Previewed(view, checkpoint, {}, budget.images, reasoning)))
  }

  /** What a proposal must meet before it is committed. */
  ghost predicate Acceptable(view: seq<Row>, reasoning: map<ResponseId, Continuation>, budget: Budget, preview: ItemId,
                             body: string, source: seq<ItemId>)
    requires budget.request <= MAX_U32
  {
    && Active(view, source) && BodyAccepted(body)
    && Usable(Before(view, reasoning, budget), After(view, reasoning, budget, CheckpointRow(view, preview, body, source)),
              budget.request, budget.limit)
  }

  /** Eligible are rows of the view that no checkpoint in it replaces; there must be some. */
  lemma ActiveExactly(view: seq<Row>, source: seq<ItemId>)
    ensures Active(view, source)
       <==> |source| > 0 && forall id :: id in source ==> exists row :: row in view && row.id == id && !ReplacedIn(view, id)
  {
    forall id
      ensures id in IdsOf(ActiveRows(view)) <==> exists row :: row in view && row.id == id && !ReplacedIn(view, id)
    {
      assert id in CompactedIds(view) <==> ReplacedIn(view, id);
    }
  }

  /** A note is refused exactly if it is blank or contains the host's own framing. */
  lemma BodyAcceptedExactly(body: string)
    ensures BodyAccepted(body)
       <==> && (exists c :: c in body && !IsWhitespace(c))
            && forall i :: 0 <= i <= |body| ==>
                 !OccursAt(body, "<<<SOURCE_RECORDS_BEGIN>>>", i) && !OccursAt(body, "<<<SOURCE_RECORDS_END>>>", i)
  {
  }

  /** A checkpoint is usable exactly if it shrinks the projection and brings the request below the limit. */
  lemma UsableExactly(before: nat, after: nat, request: nat, limit: nat)
    requires request <= 0xFFFF_FFFF && limit <= 0xFFFF_FFFF
    ensures Usable(before, after, request, limit)
       <==> after < before && (if request > before then request - before else 0) + after < limit
  {
  }

  ghost predicate ReplacedIn(view: seq<Row>, id: ItemId) {
    exists row :: row in view && row.payload.Compaction? && id in row.payload.replaced
  }

  /** Does the proposal shrink the projection, and the request below its limit? */
  method Review(context: ContextManager, budget: Budget, preview: ItemId, body: string, source: seq<ItemId>) returns (ok: bool)
    requires context.Valid() && WellFormed(context.rows) && FreshIn(context.rows, preview)
    requires budget.request <= MAX_U32
    ensures ok == Usable(Before(context.rows, context.reasoning, budget),
                         After(context.rows, context.reasoning, budget, CheckpointRow(context.rows, preview, body, source)),
                         budget.request, budget.limit)
  {
    var row := CheckpointRow(context.rows, preview, body, source);
    var now := context.ModelMessages(budget.images);
    var later := context.ModelMessagesAfterCompaction(preview, row.payload.preserved, row.payload.summary, source, {}, budget.images);
    ok := Usable(Clamp(budget.estimate(now)), Clamp(budget.estimate(later)), budget.request, budget.limit);
  }

  /** The checks before the commit, in order. */
  method Accept(context: ContextManager, budget: Budget, preview: ItemId, body: string, source: seq<ItemId>) returns (ok: bool)
    requires context.Valid() && WellFormed(context.rows) && FreshIn(context.rows, preview)
    requires budget.request <= MAX_U32
    ensures ok == Acceptable(context.rows, context.reasoning, budget, preview, body, source)
  {
    if !Active(context.rows, source) || !BodyAccepted(body) {
      return false;
    }
    ok := Review(context, budget, preview, body, source);
  }

  /** Settlement, admission, the durable commit, and the page read back. */
  method Commit(context: ContextManager, store: HistoryStore, row: Row, world: World) returns (outcome: Outcome)
    requires context.Valid() && 0 <= Position(context.cursor) <= |store.log|
    modifies context, store
    ensures context.Valid() && outcome != Rejected
    ensures outcome == Applied <==> world.settled && world.admitted && world.committed && world.readable
    ensures store.log == old(store.log) + if Permits(world) then world.others + [row] else []
    ensures outcome == Applied ==> context.Contents() == Committed(old(context.Contents()), PageAfter(store.log, old(context.cursor)), context.digest)
    ensures outcome != Applied ==> context.Contents() == old(context.Contents())
  {
    if !world.settled || !world.admitted || !world.committed {
      return Stopped;
    }
    store.Append(world.others + [row]);
    if !world.readable {
      return Stopped;
    }
    var page := PageAfter(store.log, context.cursor);
    var _ := context.IngestCommittedDelta(page);
    outcome := Applied;
  }

  /**
   Accept or leave unchanged. A rejected or failed proposal leaves the context as it was; an accepted
   one is appended behind whatever other writers committed first, and the context reads the next page.
   */
  method Apply(context: ContextManager, store: HistoryStore, budget: Budget, preview: ItemId, body: string,
               source: seq<ItemId>, world: World)
    returns (outcome: Outcome)
    requires context.Valid() && WellFormed(context.rows) && FreshIn(context.rows, preview)
    requires 0 <= Position(context.cursor) <= |store.log| && budget.request <= MAX_U32
    modifies context, store
    ensures context.Valid()
    ensures outcome == Rejected <==> !old(Acceptable(context.rows, context.reasoning, budget, preview, body, source))
    ensures outcome == Applied <==> old(Acceptable(context.rows, context.reasoning, budget, preview, body, source)) && Permits(world) && world.readable
    ensures store.log == old(store.log) + if outcome != Rejected && Permits(world)
                                          then world.others + [old(CheckpointRow(context.rows, world.id, body, source))] else []
    ensures outcome == Applied ==> context.Contents() == Committed(old(context.Contents()), PageAfter(store.log, old(context.cursor)), context.digest)
    ensures outcome != Applied ==> context.Contents() == old(context.Contents())
    ensures outcome == Applied && world.others == [] && CaughtUp(old(context.Contents()), old(store.log), preview, world.id, source) ==>
              AsReviewed(old(context.Contents()), context.Contents(), budget, preview, body, source)
  {
    ghost var before, log := context.Contents(), store.log;
    var ok := Accept(context, budget, preview, body, source);
    if !ok {
      return Rejected;
    }
    outcome := Commit(context, store, CheckpointRow(context.rows, world.id, body, source), world);
    if outcome == Applied && world.others == [] && CaughtUp(before, log, preview, world.id, source) {
      CommittedAsReviewed(before, log, budget, preview, body, source, world, context.digest);
    }
  }

  // ---- Nothing is lost in the review -----------------------------------------------------------

  /** A caught-up context that applies a reviewed checkpoint projects to exactly what was reviewed. */
  lemma AppliedAsReviewed(view: seq<Row>, reasoning: map<ResponseId, Continuation>, budget: Budget, preview: ItemId, id: ItemId,
                          body: string, source: seq<ItemId>)
    requires Folded(view) && budget.request <= MAX_U32
    requires FreshIn(view, preview) && FreshIn(view, id) && preview !in source && id !in source
    requires Acceptable(view, reasoning, budget, preview, body, source)
    ensures var row := CheckpointRow(view, id, body, source);
            var after := Project(IngestRow(view, row), budget.images, reasoning - DroppedResponses(view, row));
            && after == Previewed(view, CheckpointRow(view, preview, body, source), {}, budget.images, reasoning)
            && Clamp(budget.estimate(after)) < Before(view, reasoning, budget)
            && budget.request - Before(view, reasoning, budget) + Clamp(budget.estimate(after)) < budget.limit
  {
    var row := CheckpointRow(view, id, body, source);
    PreviewIsCommit(view, preview, id, row.payload, {}, budget.images, reasoning);
    NothingExcluded(IngestRow(view, row));
  }

  /** The context has read the whole log, and the checkpoint's ids are new to it. */
  ghost predicate CaughtUp(s: State, log: seq<Row>, preview: ItemId, id: ItemId, source: seq<ItemId>) {
    && Folded(s.rows) && s.count <= MAX_USIZE && Position(s.cursor) == |log|
    && FreshIn(s.rows, preview) && FreshIn(s.rows, id) && preview !in source && id !in source
  }

  /** The projection is the one the budget check was made on. */
  ghost predicate AsReviewed(before: State, after: State, budget: Budget, preview: ItemId, body: string, source: seq<ItemId>) {
    Project(after.rows, budget.images, after.reasoning)
    == Previewed(before.rows, CheckpointRow(before.rows, preview, body, source), {}, budget.images, before.reasoning)
  }

  lemma LastPage(log: seq<Row>, appended: seq<Row>, cursor: Option<int>)
    requires Position(cursor) == |log| && |appended| == 1
    ensures PageAfter(log + appended, cursor).rows == appended
  {
  }

  lemma OneRowIngested(view: seq<Row>, one: seq<Row>, reasoning: map<ResponseId, Continuation>)
    requires |one| == 1
    ensures IngestAll(view, one) == IngestRow(view, one[0])
    ensures IngestReasoning(view, one, reasoning) == reasoning - DroppedResponses(view, one[0])
  {
    assert Front(one) == [] && Last(one) == one[0];
  }

  /** Commit and read-back together: without other writers a caught-up context ends up as it was reviewed. */
  lemma CommittedAsReviewed(s: State, log: seq<Row>, budget: Budget, preview: ItemId, body: string, source: seq<ItemId>,
                            world: World, digest: seq<Row> -> string)
    requires CaughtUp(s, log, preview, world.id, source) && budget.request <= MAX_U32 && world.others == []
    requires Acceptable(s.rows, s.reasoning, budget, preview, body, source)
    ensures var appended := world.others + [CheckpointRow(s.rows, world.id, body, source)];
            AsReviewed(s, Committed(s, PageAfter(log + appended, s.cursor), digest), budget, preview, body, source)
  {
    var row := CheckpointRow(s.rows, world.id, body, source);
    LastPage(log, world.others + [row], s.cursor);
    OneRowIngested(s.rows, world.others + [row], s.reasoning);
    AppliedAsReviewed(s.rows, s.reasoning, budget, preview, world.id, body, source);
  }

  lemma NothingExcluded(h: seq<Row>)
    ensures Retain(h, {}) == h
  {
    FilterAll(h, Keeps({}));
  }

  // ---- Selection stability ---------------------------------------------------------------------

  /** No appended row joins a response that already has a selected row. */
  ghost predicate LeavesAlone(view: seq<Row>, rows: seq<Row>, ids: set<ItemId>) {
    forall x, a, r :: x in rows && a in view && a.id in ids && InResponse(view, a, r) ==> !InResponse(view + rows, x, r)
  }

  /** A row's response is settled by the rows up to it. */
  lemma EarlierResponse(view: seq<Row>, rows: seq<Row>, a: Row, r: ResponseId)
    requires WellFormed(view + rows) && a in view
    ensures InResponse(view + rows, a, r) <==> InResponse(view, a, r)
  {
    var log := view + rows;
    if InResponse(log, a, r) && a.payload.ToolOutput? {
      var c :| c in log && c.payload.ToolCall? && c.payload.call == a.payload.call && c.payload.response == r;
      var i :| 0 <= i < |view| && view[i] == a;
      var j :| 0 <= j < |log| && log[j] == c;
      assert log[i] == a;
      assert view[j] == c;
    }
  }

  lemma ViewResponse(view: seq<Row>, rows: seq<Row>, a: Row, r: ResponseId)
    requires Continues(view, rows) && InResponse(IngestAll(view, rows), a, r)
    ensures InResponse(view + rows, a, r)
  {
    ViewFromLog(view, rows);
  }

  /** Every row in view was appended. */
  lemma ViewFromLog(view: seq<Row>, rows: seq<Row>)
    requires Folded(view)
    ensures forall x :: x in IngestAll(view, rows) ==> x in view + rows
  {
    RunFromView(view, rows);
    forall x | x in IngestAll(view, rows)
      ensures x in view + rows
    {
      SurvivorsExactly(view + rows, x);
    }
  }

  lemma NewRowsUnselected(view: seq<Row>, rows: seq<Row>, ids: set<ItemId>, x: Row)
    requires WellFormed(view + rows) && ids <= IdsOf(view) && x in view + rows && x.id in ids
    ensures x in view
  {
    var a :| a in view && a.id == x.id;
    assert a in view + rows;
    SameRow(view + rows, a, x);
  }

  /** A whole selection stays whole whatever is appended, as long as its responses are left alone. */
  lemma StaysWhole(view: seq<Row>, rows: seq<Row>, ids: set<ItemId>)
    requires Continues(view, rows) && Whole(view, ids) && ids <= IdsOf(view)
    requires LeavesAlone(view, rows, ids)
    ensures Whole(IngestAll(view, rows), ids)
  {
    var w := IngestAll(view, rows);
    ViewFromLog(view, rows);
    forall a, b, r | a in w && b in w && InResponse(w, a, r) && InResponse(w, b, r) && a.id in ids
      ensures b.id in ids
    {
      ViewResponse(view, rows, a, r);
      ViewResponse(view, rows, b, r);
      NewRowsUnselected(view, rows, ids, a);
      EarlierResponse(view, rows, a, r);
      if b in view {
        EarlierResponse(view, rows, b, r);
      }
    }
  }

  /** Appended rows write no further text or call of a selected response. */
  ghost predicate NewResponses(view: seq<Row>, rows: seq<Row>, ids: set<ItemId>) {
    forall x, a, r :: x in rows && a in view && a.id in ids && InResponse(view, a, r) ==> !OfResponse(x, r)
  }

  /** Outputs of settled calls are all in view, so later outputs answer later calls. */
  lemma LaterOutput(view: seq<Row>, rows: seq<Row>, x: Row, call: Row)
    requires WellFormed(view + rows) && AllAnswered(view)
    requires x in rows && x.payload.ToolOutput?
    requires call in view + rows && call.payload.ToolCall? && call.payload.call == x.payload.call
    ensures call in rows
  {
    var log := view + rows;
    forall o | o in view && o.payload.ToolOutput?
      ensures o.payload.call != x.payload.call
    {
      var i :| 0 <= i < |view| && view[i] == o;
      var j :| 0 <= j < |rows| && rows[j] == x;
      assert log[i] == o && log[|view| + j] == x;
    }
  }

  lemma SettledLeavesAlone(view: seq<Row>, rows: seq<Row>, ids: set<ItemId>)
    requires WellFormed(view + rows) && AllAnswered(view) && NewResponses(view, rows, ids)
    ensures LeavesAlone(view, rows, ids)
  {
    forall x, a, r | x in rows && a in view && a.id in ids && InResponse(view, a, r)
      ensures !InResponse(view + rows, x, r)
    {
      assert forall c :: c in rows ==> !OfResponse(c, r);
      if InResponse(view + rows, x, r) {
        var c :| c in view + rows && c.payload.ToolCall? && c.payload.call == x.payload.call && c.payload.response == r;
        LaterOutput(view, rows, x, c);
      }
    }
  }

  lemma SelectionIsWhole(view: seq<Row>)
    requires WellFormed(view) && Folded(view)
    ensures Whole(view, Ids(ModelSelection(view)))
  {
    var compacted := CompactedIds(view);
    var active := ActivePlaces(view, compacted);
    assert compacted + {} == compacted;
    UnitsAreWhole(view, {}, Filter(UnitsOf(active), Avoids(ModelProtected(active))));
  }

  lemma SelectedIsActive(view: seq<Row>, id: ItemId)
    requires WellFormed(view) && id in ModelSelection(view)
    ensures var active := ActivePlaces(view, CompactedIds(view));
            Settled(active) && exists k :: k in active && k.value.id == id
  {
    ActiveUnique(view, CompactedIds(view));
    var active := ActivePlaces(view, CompactedIds(view));
    SelectedAreActive(active, ModelProtected(active), id);
  }

  lemma PlaceInView(active: seq<Place>, view: seq<Row>, id: ItemId)
    requires KeyValues(active) == view && exists k :: k in active && k.value.id == id
    ensures id in IdsOf(view)
  {
    var k :| k in active && k.value.id == id;
    RowOfPlace(active, k);
  }

  /** Only rows of the view are selected, and none while a call is open. */
  lemma SelectedInView(view: seq<Row>, id: ItemId)
    requires WellFormed(view) && Folded(view) && id in ModelSelection(view)
    ensures id in IdsOf(view) && AllAnswered(view)
  {
    SelectedIsActive(view, id);
    FoldedActive(view);
    var active := ActivePlaces(view, CompactedIds(view));
    SettledExactly(active);
    PlaceInView(active, view, id);
  }

  lemma SelectionOfView(view: seq<Row>)
    requires WellFormed(view) && Folded(view)
    ensures Ids(ModelSelection(view)) <= IdsOf(view)
    ensures Whole(view, Ids(ModelSelection(view)))
    ensures ModelSelection(view) != [] ==> AllAnswered(view)
  {
    SelectionIsWhole(view);
    forall id | id in Ids(ModelSelection(view))
      ensures id in IdsOf(view)
    {
      SelectedInView(view, id);
    }
    if ModelSelection(view) != [] {
      SelectedInView(view, ModelSelection(view)[0]);
    }
  }

  /**
   Selection stability. A source chosen before sampling stays closed under call/output and
   same-response grouping after any run of committed rows that extends no selected response.
   */
  lemma SelectionStays(view: seq<Row>, rows: seq<Row>)
    requires Continues(view, rows)
    requires NewResponses(view, rows, Ids(ModelSelection(view)))
    ensures Whole(IngestAll(view, rows), Ids(ModelSelection(view)))
  {
    assert view == (view + rows)[..|view|];
    WellFormedPrefix(view + rows, |view|);
    SelectionOfView(view);
    if ModelSelection(view) != [] {
      SettledLeavesAlone(view, rows, Ids(ModelSelection(view)));
    }
    StaysWhole(view, rows, Ids(ModelSelection(view)));
  }

  /** The commit accepts a stale selection only if every selected row is still in view. */
  lemma RefusedOnceGone(view: seq<Row>, rows: seq<Row>, source: seq<ItemId>, id: ItemId)
    requires Continues(view, rows) && id in source
    requires exists row :: row in rows && Names(row, id)
    requires id in IdsOf(view)
    ensures !Active(IngestAll(view, rows), source)
  {
    var w, log := IngestAll(view, rows), view + rows;
    var a :| a in view && a.id == id;
    var k :| 0 <= k < |view| && view[k] == a;
    var row :| row in rows && Names(row, id);
    var j :| 0 <= j < |rows| && rows[j] == row;
    assert log[k] == a && log[|view| + j] == row;
    if id in IdsOf(ActiveRows(w)) {
      var x :| x in ActiveRows(w) && x.id == id;
      RunFromView(view, rows);
      SurvivorsExactly(log, x);
    }
  }

  // ---- Selection, append, commit ---------------------------------------------------------------

  /** A checkpoint over the source, committed behind `rows`. */
  ghost predicate CommitsBehind(view: seq<Row>, rows: seq<Row>, checkpoint: Row) {
    && Continues(view, rows + [checkpoint])
    && checkpoint.payload.Compaction?
    && Named(checkpoint) == Ids(ModelSelection(view))
  }

  lemma CommitReplaces(view: seq<Row>, rows: seq<Row>, checkpoint: Row)
    requires CommitsBehind(view, rows, checkpoint)
    requires NewResponses(view, rows, Ids(ModelSelection(view)))
    ensures Replaces(IngestAll(view, rows), checkpoint)
  {
    var w, log := IngestAll(view, rows), view + rows + [checkpoint];
    assert view + (rows + [checkpoint]) == log;
    WellFormedPrefix(log, |view + rows|);
    assert log[..|view + rows|] == view + rows;
    EarlierNames(view + rows, checkpoint);
    RunKeepsViewSound(view, rows);
    SelectionStays(view, rows);
    ViewFromLog(view, rows);
    LastIsFresh(view + rows, checkpoint);
  }

  lemma EarlierNames(log: seq<Row>, last: Row)
    requires NamesEarlier(log + [last])
    ensures NamesEarlier(log)
  {
    forall i, j | 0 <= i < |log| && 0 <= j < |log| && Names(log[i], log[j].id)
      ensures j < i
    {
      assert (log + [last])[i] == log[i] && (log + [last])[j] == log[j];
    }
  }

  lemma LastIsFresh(log: seq<Row>, last: Row)
    requires WellFormed(log + [last]) && NamesEarlier(log + [last])
    ensures !Names(last, last.id)
    ensures FreshIn(log, last.id)
  {
    var all := log + [last];
    assert all[|log|] == last;
    forall row | row in log
      ensures row.id != last.id && !Names(row, last.id)
    {
      var i :| 0 <= i < |log| && log[i] == row;
      assert all[i] == row;
    }
  }

  /**
   The whole path: a source selected in `view`, any run `rows` that extends no selected response, and
   a checkpoint over that source. Everything not replaced says what it said just before the commit.
   */
  lemma CommittedFrame(view: seq<Row>, rows: seq<Row>, checkpoint: Row, images: bool, reasoning: map<ResponseId, Continuation>)
    requires CommitsBehind(view, rows, checkpoint)
    requires NewResponses(view, rows, Ids(ModelSelection(view)))
    ensures var w := IngestAll(view, rows);
            var at := FirstNamed(w, Named(checkpoint));
            var sc := ScopeOf(w, images, reasoning);
            && IngestAll(view, rows + [checkpoint]) == IngestRow(w, checkpoint)
            && Project(IngestRow(w, checkpoint), images, reasoning - DroppedResponses(w, checkpoint))
               == Emit(w, sc, w[..at]) + CheckpointMessages(checkpoint.payload, images)
                  + Emit(w, sc, Retain(w[at..], Named(checkpoint)))
  {
    CommitReplaces(view, rows, checkpoint);
    CompactionFrame(IngestAll(view, rows), checkpoint, images, reasoning);
    assert Front(rows + [checkpoint]) == rows && Last(rows + [checkpoint]) == checkpoint;
  }

  // ---- What the checkpoint carries over --------------------------------------------------------

  /** A source chosen for a model-written note replaces no input text of its own; only anchors carry over. */
  lemma {:induction false} OnlyAnchorsCarryOver(rows: seq<Row>)
    requires forall row :: row in rows ==> Replaceable(row) || IsModelRow(row) || row.payload.ToolOutput?
    ensures InputsFrom(rows) == AnchorsOf(rows)
  {
    if rows != [] {
      OnlyAnchorsCarryOver(Front(rows));
    }
  }

  function AnchorsOf(rows: seq<Row>): seq<string> {
    if rows == [] then []
    else AnchorsOf(Front(rows)) + if Last(rows).payload.Compaction? && Last(rows).payload.layout.UserAnchored?
                                  then Last(rows).payload.preserved else []
  }

  /** The preserved inputs of a model-requested compaction are exactly the anchors of replaced checkpoints. */
  lemma PreservedAreAnchors(view: seq<Row>)
    requires WellFormed(view) && Folded(view)
    ensures PreservedInputs(view, ModelSelection(view)) == AnchorsOf(Filter(view, Chosen(ModelSelection(view))))
  {
    FoldedIsActive(view);
    forall row | row in view && row.id in ModelSelection(view)
      ensures Replaceable(row) || IsModelRow(row) || row.payload.ToolOutput?
    {
      ModelSelectionExactly(view, row);
    }
    OnlyAnchorsCarryOver(Filter(view, Chosen(ModelSelection(view))));
  }

  lemma NoteEnds(body: string, items: seq<Row>)
    requires items != []
    ensures CheckpointText(body, items) != "" && Last(CheckpointText(body, items)) == '.'
  {
  }

  /** A note the host accepts never looks framed, so its projection for the model is the note itself. */
  lemma AcceptedNoteIsUnframed(body: string, items: seq<Row>, codec: Checkpoint.Codec)
    requires BodyAccepted(body)
    ensures Checkpoint.Split(CheckpointText(body, items), codec).None?
    ensures Checkpoint.Projected(CheckpointText(body, items), codec) == CheckpointText(body, items)
  {
    if items == [] {
      Checkpoint.NoMarkerIsUnframed(body, codec);
    } else {
      NoteEnds(body, items);
      Checkpoint.OpenEndIsUnframed(CheckpointText(body, items), codec);
    }
  }
}
