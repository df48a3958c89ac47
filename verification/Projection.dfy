/** How a view is projected to provider messages with native tool call and result pairing. */
module Projection {
  import opened Base
  import opened StableSort
  import opened History
  import opened ActiveView
  import opened Units

  type Entry = Keyed<Message>

  /** What the projection of every single row depends on besides the row itself. */
  datatype Scope = Scope(dead: set<ItemId>, answered: set<CallId>, images: bool, reasoning: map<ResponseId, Continuation>)

  function AnsweredCalls(h: seq<Row>, dead: set<ItemId>): set<CallId> {
    set row | row in h && row.id !in dead && row.payload.ToolOutput? :: row.payload.call
  }

  function ScopeOf(h: seq<Row>, images: bool, reasoning: map<ResponseId, Continuation>): Scope {
    Scope(CompactedIds(h), AnsweredCalls(h, CompactedIds(h)), images, reasoning)
  }

  // ---- Response groups -----------------------------------------------------------------------

  /** Text rows and answered calls of a response. */
  function InGroup(sc: Scope, r: ResponseId): Row -> bool {
    (row: Row) => && row.id !in sc.dead
                  && IsModelRow(row) && row.payload.response == r
                  && (row.payload.ToolCall? ==> row.payload.call in sc.answered)
  }

  function Group(h: seq<Row>, sc: Scope, r: ResponseId): seq<Row> {
    Filter(h, InGroup(sc, r))
  }

  function ReplayedCall(row: Row): ModelToolCall
    requires row.payload.ToolCall?
  {
    ModelToolCall(row.payload.call, ReplayId(row.payload.modelCallId, row.payload.call),
                  row.payload.toolName, row.payload.arguments)
  }

  function GroupCalls(group: seq<Row>): seq<ModelToolCall> {
    if group == [] then []
    else GroupCalls(Front(group)) + if Last(group).payload.ToolCall? then [ReplayedCall(Last(group))] else []
  }

  function JoinText(text: Option<string>, next: string): string {
    if text.None? then next
    else if next == "" then text.value
    else if text.value == "" then next
    else text.value + "\n" + next
  }

  function GroupText(group: seq<Row>): Option<string> {
    if group == [] then None
    else if Last(group).payload.AssistantMessage?
    then Some(JoinText(GroupText(Front(group)), ContentText(Last(group).payload.content)))
    else GroupText(Front(group))
  }

  function NonEmpty(text: Option<string>): Option<string> {
    if text == Some("") then None else text
  }

  function Lookup(m: map<ResponseId, Continuation>, r: ResponseId): Option<Continuation> {
    if r in m then Some(m[r]) else None
  }

  function GroupMessage(group: seq<Row>, sc: Scope, r: ResponseId): Message {
    AssistantToolCalls(NonEmpty(GroupText(group)), GroupCalls(group), Lookup(sc.reasoning, r))
  }

  predicate Calling(h: seq<Row>, sc: Scope, r: ResponseId) {
    GroupCalls(Group(h, sc, r)) != []
  }

  // ---- Single rows ---------------------------------------------------------------------------

  function IsCall(sc: Scope, c: CallId): Row -> bool {
    (row: Row) => row.id !in sc.dead && row.payload.ToolCall? && row.payload.call == c && c in sc.answered
  }

  function FindCall(h: seq<Row>, sc: Scope, c: CallId): seq<Row> {
    Filter(h, IsCall(sc, c))
  }

  function ToolMessage(output: Payload, name: (string, string)): Message
    requires output.ToolOutput?
  {
    Tool(output.call, name.0, name.1, output.status, output.outputText, output.metadata)
  }

  function NameOf(row: Row): (string, string)
    requires row.payload.ToolCall?
  {
    (ReplayId(row.payload.modelCallId, row.payload.call), row.payload.toolName)
  }

  function OutputMessages(h: seq<Row>, sc: Scope, output: Payload): seq<Message>
    requires output.ToolOutput?
  {
    var calls := FindCall(h, sc, output.call);
    if calls == [] then [] else assert calls[0] in calls; [ToolMessage(output, NameOf(calls[0]))]
  }

  function Downgrade(m: SnapshotMessage, images: bool): SnapshotMessage {
    if m.SnapshotParts? && !images then SnapshotUser(ContentText(m.parts)) else m
  }

  function SnapshotMessages(snapshot: seq<SnapshotMessage>, images: bool): (r: seq<Message>)
    ensures |r| == |snapshot|
  {
    seq(|snapshot|, i requires 0 <= i < |snapshot| => Replayed(Downgrade(snapshot[i], images)))
  }

  function AnchorMessages(preserved: seq<string>, summary: string): (r: seq<Message>)
    ensures |r| == |preserved| + 1
  {
    seq(|preserved|, i requires 0 <= i < |preserved| => User(preserved[i])) + [CheckpointNote(summary)]
  }

  function CheckpointMessages(checkpoint: Payload, images: bool): seq<Message>
    requires checkpoint.Compaction?
  {
    match checkpoint.layout
    case ClmCheckpoint(snapshot, _) => SnapshotMessages(snapshot, images)
    case UserAnchored => AnchorMessages(checkpoint.preserved, checkpoint.summary)
    case LegacyPrefix => [CheckpointNote(checkpoint.summary)]
  }

  const ERROR_PREFIX := "Previous run ended with an error: "

  /** The messages a row contributes by itself; responses with calls speak through their group. */
  function RowMessages(h: seq<Row>, sc: Scope, row: Row): seq<Message> {
    if row.id in sc.dead then []
    else match row.payload
      case UserTurn(content) => [UserMessage(content, sc.images)]
      case SteerTurn(content) => [UserMessage(content, sc.images)]
      case InterAgent(_, text) => [Agent(text)]
      case AssistantMessage(r, content) => if Calling(h, sc, r) then [] else [Assistant(ContentText(content))]
      case ToolCall(_, _, _, _, _) => []
      case ToolOutput(_, _, _, _) => OutputMessages(h, sc, row.payload)
      case Compaction(_, _, _, _) => CheckpointMessages(row.payload, sc.images)
      case ErrorRow(text) => [Assistant(ERROR_PREFIX + text)]
      case StateRow(_) => []
  }

  /** The message of a response with answered calls, at the first of its rows. */
  function GroupMessages(h: seq<Row>, sc: Scope, row: Row): seq<Message> {
    if !IsModelRow(row) then []
    else
      var r := row.payload.response;
      var group := Group(h, sc, r);
      if group != [] && group[0] == row && Calling(h, sc, r) then [GroupMessage(group, sc, r)] else []
  }

  // ---- Keyed entries -------------------------------------------------------------------------

  /** Consecutive priorities from `priority` on. */
  function Enumerate(messages: seq<Message>, index: nat, priority: nat): (r: seq<Entry>)
    ensures |r| == |messages|
    ensures forall i :: 0 <= i < |r| ==> r[i] == Keyed(index, priority + i, messages[i])
  {
    seq(|messages|, i requires 0 <= i < |messages| => Keyed(index, priority + i, messages[i]))
  }

  /** Older layouts go back to the earliest replaced row that is still in the list. */
  function CheckpointIndex(h: seq<Row>, i: nat): nat
    requires i < |h|
  {
    if h[i].payload.Compaction? && !h[i].payload.layout.UserAnchored? then
      var at := FirstNamed(h, Named(h[i]));
      if at < |h| then at else i
    else i
  }

  function RowPriority(row: Row): nat {
    if row.payload.Compaction? then 0 else 1
  }

  function RowEntries(h: seq<Row>, sc: Scope, i: nat): seq<Entry>
    requires i < |h|
  {
    Enumerate(RowMessages(h, sc, h[i]), CheckpointIndex(h, i), RowPriority(h[i]))
  }

  function GroupEntries(h: seq<Row>, sc: Scope, i: nat): seq<Entry>
    requires i < |h|
  {
    Enumerate(GroupMessages(h, sc, h[i]), i, 1)
  }

  function RowParts(h: seq<Row>, sc: Scope, n: nat): (parts: seq<seq<Entry>>)
    requires n <= |h|
    ensures |parts| == n && forall i :: 0 <= i < n ==> parts[i] == RowEntries(h, sc, i)
  {
    seq(n, i requires 0 <= i < n => RowEntries(h, sc, i))
  }

  function GroupParts(h: seq<Row>, sc: Scope, n: nat): (parts: seq<seq<Entry>>)
    requires n <= |h|
    ensures |parts| == n && forall i :: 0 <= i < n ==> parts[i] == GroupEntries(h, sc, i)
  {
    seq(n, i requires 0 <= i < n => GroupEntries(h, sc, i))
  }

  function RowsFrom(h: seq<Row>, sc: Scope, n: nat): seq<Entry>
    requires n <= |h|
  {
    Concat(RowParts(h, sc, n))
  }

  function GroupsFrom(h: seq<Row>, sc: Scope, n: nat): seq<Entry>
    requires n <= |h|
  {
    Concat(GroupParts(h, sc, n))
  }

  /** Response messages, then row messages, in stable key order. */
  function ProjectedEntries(h: seq<Row>, sc: Scope): seq<Entry> {
    Sort(GroupsFrom(h, sc, |h|) + RowsFrom(h, sc, |h|))
  }

  function Project(h: seq<Row>, images: bool, reasoning: map<ResponseId, Continuation>): seq<Message> {
    KeyValues(ProjectedEntries(h, ScopeOf(h, images, reasoning)))
  }
}
