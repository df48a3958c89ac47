/** Canonical history rows and the provider messages they are projected to. */
module History {
  import opened Base

  // Identifiers are represented by their display text, which is how the engine compares call ids.
  type ItemId = string
  type CallId = string
  type ResponseId = string

  /** Private provider reasoning kept in memory for one committed tool response. */
  type Continuation = string

  datatype ContentPart = Text(text: string) | Image(mimeType: string, data: string)

  datatype SnapshotMessage =
    | SnapshotUser(text: string)
    | SnapshotAgent(text: string)
    | SnapshotParts(parts: seq<ContentPart>)
    | SnapshotOther(text: string)

  datatype Layout =
    | LegacyPrefix
    | UserAnchored
    | ClmCheckpoint(snapshot: seq<SnapshotMessage>, protectedPrefix: nat)

  datatype ToolStatus = Completed | Failed | Denied | Cancelled

  datatype Payload =
    | UserTurn(content: seq<ContentPart>)
    | SteerTurn(content: seq<ContentPart>)
    | InterAgent(trigger: bool, text: string)
    | AssistantMessage(response: ResponseId, content: seq<ContentPart>)
    | ToolCall(call: CallId, response: ResponseId, modelCallId: string, toolName: string, arguments: string)
    | ToolOutput(call: CallId, status: ToolStatus, outputText: string, metadata: string)
    | Compaction(layout: Layout, preserved: seq<string>, summary: string, replaced: seq<ItemId>)
    | ErrorRow(text: string)
    | StateRow(kind: string)

  datatype Row = Row(id: ItemId, payload: Payload)

  // `source` is the canonical call behind a replayed tool call or result. Providers may reuse call
  // ids, so pairing is stated on the source; erasing it gives the message that is sent.
  datatype ModelToolCall = ModelToolCall(source: CallId, callId: string, toolName: string, arguments: string)

  // Tool results and checkpoint notes carry what their text is assembled from.
  datatype Message =
    | User(text: string)
    | UserParts(parts: seq<ContentPart>)
    | Agent(text: string)
    | Assistant(text: string)
    | AssistantToolCalls(content: Option<string>, calls: seq<ModelToolCall>, continuation: Option<Continuation>)
    | Tool(source: CallId, callId: string, toolName: string, status: ToolStatus, outputText: string, metadata: string)
    | CheckpointNote(summary: string)
    | Replayed(message: SnapshotMessage)

  predicate Names(row: Row, id: ItemId) {
    row.payload.Compaction? && id in row.payload.replaced
  }

  predicate IsModelRow(row: Row) {
    row.payload.AssistantMessage? || row.payload.ToolCall?
  }

  /** The history preconditions: unique rows, unique calls, one output per call, call before output. */
  ghost predicate WellFormed(h: seq<Row>) {
    && (forall i, j :: 0 <= i < j < |h| ==> h[i].id != h[j].id)
    && (forall i, j :: 0 <= i < j < |h| && h[i].payload.ToolCall? && h[j].payload.ToolCall?
          ==> h[i].payload.call != h[j].payload.call)
    && (forall i, j :: 0 <= i < j < |h| && h[i].payload.ToolOutput? && h[j].payload.ToolOutput?
          ==> h[i].payload.call != h[j].payload.call)
    && (forall i, j :: (0 <= i < |h| && 0 <= j < |h| && h[i].payload.ToolCall? && h[j].payload.ToolOutput?
                        && h[i].payload.call == h[j].payload.call) ==> i < j)
  }

  /** No compaction row names a row of the same view: nothing is left to filter out. */
  ghost predicate Folded(h: seq<Row>) {
    forall a, b :: a in h && b in h ==> !Names(a, b.id)
  }

  /** A row belongs to a response as its text, as one of its calls, or as the output of such a call. */
  ghost predicate InResponse(h: seq<Row>, row: Row, r: ResponseId) {
    || (IsModelRow(row) && row.payload.response == r)
    || (row.payload.ToolOutput?
        && exists c :: c in h && c.payload.ToolCall? && c.payload.call == row.payload.call && c.payload.response == r)
  }

  /** `ids` never splits a response from its calls or a call from its output. */
  ghost predicate Whole(h: seq<Row>, ids: set<ItemId>) {
    forall a, b, r :: a in h && b in h && InResponse(h, a, r) && InResponse(h, b, r) && a.id in ids ==> b.id in ids
  }

  /** The response of the last model row. */
  function LatestResponse(h: seq<Row>): Option<ResponseId> {
    if h == [] then None
    else if IsModelRow(Last(h)) then Some(Last(h).payload.response)
    else LatestResponse(Front(h))
  }

  /** Every call in the history has its output. */
  ghost predicate AllAnswered(h: seq<Row>) {
    forall c :: c in h && c.payload.ToolCall? ==> exists o :: o in h && o.payload.ToolOutput? && o.payload.call == c.payload.call
  }

  lemma WellFormedSelection(h: seq<Row>, keep: Row -> bool)
    requires WellFormed(h)
    ensures WellFormed(Filter(h, keep))
  {
    var at := FilterPlaces(h, keep);
  }

  lemma WellFormedPrefix(h: seq<Row>, n: nat)
    requires WellFormed(h) && n <= |h|
    ensures WellFormed(h[..n])
  {
  }

  lemma SameRow(h: seq<Row>, a: Row, b: Row)
    requires WellFormed(h)
    requires a in h && b in h && a.id == b.id
    ensures a == b
  {
    var i :| 0 <= i < |h| && h[i] == a;
    var j :| 0 <= j < |h| && h[j] == b;
  }

  predicate IsWhitespace(c: char) {
    || '\t' <= c <= '\r' || c == ' ' || c == '\U{85}' || c == '\U{A0}' || c == '\U{1680}'
    || '\U{2000}' <= c <= '\U{200A}' || c == '\U{2028}' || c == '\U{2029}' || c == '\U{202F}'
    || c == '\U{205F}' || c == '\U{3000}'
  }

  predicate IsBlank(s: string) {
    forall c :: c in s ==> IsWhitespace(c)
  }

  /** The provider-facing id a call is replayed under. */
  function ReplayId(modelCallId: string, call: CallId): string {
    if IsBlank(modelCallId) then call else modelCallId
  }

  function TextsOf(content: seq<ContentPart>): seq<string> {
    if content == [] then []
    else (if content[0].Text? then [content[0].text] else []) + TextsOf(content[1..])
  }

  function JoinLines(lines: seq<string>): string {
    if lines == [] then ""
    else if |lines| == 1 then lines[0]
    else lines[0] + "\n" + JoinLines(lines[1..])
  }

  /** Lines are joined by single newlines. */
  lemma {:induction false} JoinLinesConcat(a: seq<string>, b: seq<string>)
    requires a != [] && b != []
    ensures JoinLines(a + b) == JoinLines(a) + "\n" + JoinLines(b)
  {
    if |a| == 1 {
      assert (a + b)[1..] == b;
    } else {
      assert (a + b)[1..] == a[1..] + b;
      JoinLinesConcat(a[1..], b);
    }
  }

  function ContentText(content: seq<ContentPart>): string {
    JoinLines(TextsOf(content))
  }

  function ImageCount(content: seq<ContentPart>): nat {
    if content == [] then 0
    else (if content[0].Image? then 1 else 0) + ImageCount(content[1..])
  }

  function UserMessage(content: seq<ContentPart>, supportsImages: bool): Message {
    var omitted := ImageCount(content);
    if supportsImages && omitted > 0 then UserParts(content)
    else if omitted == 0 then User(ContentText(content))
    else
      var text := ContentText(content);
      User(text + (if text == "" then "" else "\n") + "[" + Digits(omitted)
           + " image input(s) omitted because the selected model does not support images]")
  }
}
