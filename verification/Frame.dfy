/**
 What a compaction does to the projected messages: everything that is kept speaks exactly as before,
 and the checkpoint speaks at the place of the earliest row it replaced.
 */
module Frame {
  import opened Base
  import opened StableSort
  import opened History
  import opened ActiveView
  import opened Units
  import opened Projection

  /** Everything one row says: its response's message if it is the first row of it, and its own. */
  function Said(h: seq<Row>, sc: Scope, row: Row): seq<Message> {
    GroupMessages(h, sc, row) + RowMessages(h, sc, row)
  }

  /** What `rows` say, one after the other. */
  function Emit(h: seq<Row>, sc: Scope, rows: seq<Row>): seq<Message> {
    if rows == [] then [] else Emit(h, sc, Front(rows)) + Said(h, sc, Last(rows))
  }

  lemma {:induction false} EmitConcat(h: seq<Row>, sc: Scope, a: seq<Row>, b: seq<Row>)
    ensures Emit(h, sc, a + b) == Emit(h, sc, a) + Emit(h, sc, b)
  {
    if b == [] {
      assert a + b == a;
    } else {
      assert Front(a + b) == a + Front(b) && Last(a + b) == Last(b);
      EmitConcat(h, sc, a, Front(b));
      Associative(Emit(h, sc, a), Emit(h, sc, Front(b)), Said(h, sc, Last(b)));
    }
  }

  // ---- A folded view is projected row by row ---------------------------------------------------

  function Part(h: seq<Row>, sc: Scope, i: nat): seq<Entry>
    requires i < |h|
  {
    GroupEntries(h, sc, i) + RowEntries(h, sc, i)
  }

  function Parts(h: seq<Row>, sc: Scope, n: nat): (parts: seq<seq<Entry>>)
    requires n <= |h|
    ensures |parts| == n && forall i :: 0 <= i < n ==> parts[i] == Part(h, sc, i)
  {
    seq(n, i requires 0 <= i < n => Part(h, sc, i))
  }

  /** Joining two lists of parts pairwise keeps all elements. */
  lemma {:induction false} Interleaved<T>(a: seq<seq<T>>, b: seq<seq<T>>, c: seq<seq<T>>)
    requires |a| == |b| == |c|
    requires forall i :: 0 <= i < |c| ==> c[i] == a[i] + b[i]
    ensures multiset(Concat(c)) == multiset(Concat(a) + Concat(b))
  {
    if c != [] {
      Interleaved(Front(a), Front(b), Front(c));
    }
  }

  /** In a folded view every checkpoint speaks at its own place. */
  lemma OwnPlace(h: seq<Row>, i: nat)
    requires Folded(h) && i < |h|
    ensures CheckpointIndex(h, i) == i
  {
    var at := FirstNamed(h, Named(h[i]));
    if h[i].payload.Compaction? && at < |h| {
      assert h[i] in h && h[at] in h;
      assert Names(h[i], h[at].id);
    }
  }

  /** A row speaks for its response or for itself, never both. */
  lemma OneVoice(h: seq<Row>, sc: Scope, row: Row)
    ensures GroupMessages(h, sc, row) == [] || RowMessages(h, sc, row) == []
  {
  }

  lemma PartSorted(h: seq<Row>, sc: Scope, i: nat)
    requires Folded(h) && i < |h|
    ensures StrictlySorted(Part(h, sc, i))
    ensures forall e :: e in Part(h, sc, i) ==> e.index == i
  {
    OwnPlace(h, i);
    OneVoice(h, sc, h[i]);
  }

  lemma {:induction false} ConcatValues<T>(parts: seq<seq<Keyed<T>>>, values: seq<seq<T>>)
    requires |parts| == |values|
    requires forall i :: 0 <= i < |parts| ==> KeyValues(parts[i]) == values[i]
    ensures KeyValues(Concat(parts)) == Concat(values)
  {
    if parts != [] {
      ConcatValues(Front(parts), Front(values));
      KeyValuesConcat(Concat(Front(parts)), Last(parts));
    }
  }

  lemma PartSays(h: seq<Row>, sc: Scope, i: nat)
    requires i < |h|
    ensures KeyValues(Part(h, sc, i)) == Said(h, sc, h[i])
  {
    KeyValuesConcat(GroupEntries(h, sc, i), RowEntries(h, sc, i));
    assert KeyValues(GroupEntries(h, sc, i)) == GroupMessages(h, sc, h[i]);
    assert KeyValues(RowEntries(h, sc, i)) == RowMessages(h, sc, h[i]);
  }

  function Sayings(h: seq<Row>, sc: Scope, rows: seq<Row>): (r: seq<seq<Message>>)
    ensures |r| == |rows| && forall i :: 0 <= i < |rows| ==> r[i] == Said(h, sc, rows[i])
  {
    seq(|rows|, i requires 0 <= i < |rows| => Said(h, sc, rows[i]))
  }

  lemma {:induction false} EmitIsConcat(h: seq<Row>, sc: Scope, rows: seq<Row>)
    ensures Emit(h, sc, rows) == Concat(Sayings(h, sc, rows))
  {
    if rows != [] {
      EmitIsConcat(h, sc, Front(rows));
      assert Front(Sayings(h, sc, rows)) == Sayings(h, sc, Front(rows));
    }
  }

  /** The projection of a folded view is what its rows say in view order: the sort moves nothing. */
  lemma FoldedProjection(h: seq<Row>, images: bool, reasoning: map<ResponseId, Continuation>)
    requires Folded(h)
    ensures Project(h, images, reasoning) == Emit(h, ScopeOf(h, images, reasoning), h)
  {
    var sc := ScopeOf(h, images, reasoning);
    forall i | 0 <= i < |h|
      ensures StrictlySorted(Parts(h, sc, |h|)[i])
      ensures forall e :: e in Parts(h, sc, |h|)[i] ==> e.index == i
    {
      PartSorted(h, sc, i);
    }
    ConcatStrict(Parts(h, sc, |h|));
    Interleaved(GroupParts(h, sc, |h|), RowParts(h, sc, |h|), Parts(h, sc, |h|));
    SortIs(GroupsFrom(h, sc, |h|) + RowsFrom(h, sc, |h|), Concat(Parts(h, sc, |h|)));
    forall i | 0 <= i < |h|
      ensures KeyValues(Parts(h, sc, |h|)[i]) == Sayings(h, sc, h)[i]
    {
      PartSays(h, sc, i);
    }
    ConcatValues(Parts(h, sc, |h|), Sayings(h, sc, h));
    EmitIsConcat(h, sc, h);
  }

  // ---- Two views in which a row says the same ----------------------------------------------------

  /** Views that show a row the same surroundings. */
  ghost predicate SameSurroundings(v: seq<Row>, sc: Scope, w: seq<Row>, wsc: Scope, row: Row) {
    && row.id !in sc.dead && row.id !in wsc.dead
    && sc.images == wsc.images
    && (IsModelRow(row) ==>
          && Group(v, sc, row.payload.response) == Group(w, wsc, row.payload.response)
          && Lookup(sc.reasoning, row.payload.response) == Lookup(wsc.reasoning, row.payload.response))
    && (row.payload.ToolOutput? ==> FindCall(v, sc, row.payload.call) == FindCall(w, wsc, row.payload.call))
  }

  lemma SaysTheSame(v: seq<Row>, sc: Scope, w: seq<Row>, wsc: Scope, row: Row)
    requires SameSurroundings(v, sc, w, wsc, row)
    ensures Said(v, sc, row) == Said(w, wsc, row)
  {
  }

  lemma {:induction false} EmitSame(v: seq<Row>, sc: Scope, w: seq<Row>, wsc: Scope, rows: seq<Row>)
    requires forall row :: row in rows ==> SameSurroundings(v, sc, w, wsc, row)
    ensures Emit(v, sc, rows) == Emit(w, wsc, rows)
  {
    if rows != [] {
      EmitSame(v, sc, w, wsc, Front(rows));
      SaysTheSame(v, sc, w, wsc, Last(rows));
    }
  }

  // ---- The frame -------------------------------------------------------------------------------

  /** A checkpoint row with a new id that replaces whole units of a sound view. */
  ghost predicate Replaces(v: seq<Row>, checkpoint: Row) {
    && WellFormed(v) && Folded(v)
    && checkpoint.payload.Compaction?
    && !Names(checkpoint, checkpoint.id)
    && (forall row :: row in v ==> row.id != checkpoint.id && !Names(row, checkpoint.id))
    && Whole(v, Named(checkpoint))
  }

  lemma CheckpointFolds(v: seq<Row>, checkpoint: Row)
    requires Replaces(v, checkpoint)
    ensures Folded(IngestRow(v, checkpoint))
  {
    IngestMembers(v, checkpoint);
  }

  /** In a folded view no row is hidden. */
  lemma NothingDead(h: seq<Row>)
    requires Folded(h)
    ensures forall row :: row in h ==> row.id !in CompactedIds(h)
  {
  }

  /** Replacing whole units keeps a response together: either all its rows go or none. */
  lemma KeptResponse(v: seq<Row>, checkpoint: Row, row: Row, r: ResponseId, other: Row)
    requires Replaces(v, checkpoint)
    requires row in v && InResponse(v, row, r) && !Names(checkpoint, row.id)
    requires other in v && InResponse(v, other, r)
    ensures !Names(checkpoint, other.id)
  {
    assert other.id in Named(checkpoint) <==> Names(checkpoint, other.id);
    assert row.id in Named(checkpoint) <==> Names(checkpoint, row.id);
  }

  /** Selecting rows that all survive gives the same rows before and after the checkpoint. */
  lemma SelectionSurvives(v: seq<Row>, checkpoint: Row, p: Row -> bool)
    requires checkpoint.payload.Compaction? && !p(checkpoint)
    requires forall row :: row in v && p(row) ==> !Names(checkpoint, row.id)
    ensures Filter(IngestRow(v, checkpoint), p) == Filter(v, p)
  {
    var kept := Retain(v, Named(checkpoint));
    var at := Min(FirstNamed(v, Named(checkpoint)), |kept|);
    FilterThrough(v, Keeps(Named(checkpoint)), p);
    assert kept == kept[..at] + kept[at..];
    FilterConcat(kept[..at], kept[at..], p);
    FilterConcat(kept[..at] + [checkpoint], kept[at..], p);
    FilterConcat(kept[..at], [checkpoint], p);
    FilterNone([checkpoint], p);
    assert Filter(kept[..at], p) + [] == Filter(kept[..at], p);
  }

  lemma StillAnswered(v: seq<Row>, checkpoint: Row, call: Row)
    requires Replaces(v, checkpoint)
    requires call in v && call.payload.ToolCall? && !Names(checkpoint, call.id)
    ensures var w := IngestRow(v, checkpoint);
            call.payload.call in AnsweredCalls(v, CompactedIds(v)) <==> call.payload.call in AnsweredCalls(w, CompactedIds(w))
  {
    var w := IngestRow(v, checkpoint);
    IngestMembers(v, checkpoint);
    CheckpointFolds(v, checkpoint);
    NothingDead(v);
    NothingDead(w);
    if output :| output in v && output.payload.ToolOutput? && output.payload.call == call.payload.call {
      KeptResponse(v, checkpoint, call, call.payload.response, output);
    }
  }

  lemma KeptGroup(v: seq<Row>, checkpoint: Row, images: bool, reasoning: map<ResponseId, Continuation>,
                  after: map<ResponseId, Continuation>, row: Row)
    requires Replaces(v, checkpoint)
    requires row in v && IsModelRow(row) && !Names(checkpoint, row.id)
    ensures var w := IngestRow(v, checkpoint);
            Group(v, ScopeOf(v, images, reasoning), row.payload.response) == Group(w, ScopeOf(w, images, after), row.payload.response)
  {
    var r, w := row.payload.response, IngestRow(v, checkpoint);
    var sc, wsc := ScopeOf(v, images, reasoning), ScopeOf(w, images, after);
    IngestMembers(v, checkpoint);
    CheckpointFolds(v, checkpoint);
    NothingDead(v);
    NothingDead(w);
    forall x | x in v && IsModelRow(x) && x.payload.response == r
      ensures !Names(checkpoint, x.id) && InGroup(sc, r)(x) == InGroup(wsc, r)(x)
    {
      KeptResponse(v, checkpoint, row, r, x);
      if x.payload.ToolCall? {
        StillAnswered(v, checkpoint, x);
      }
    }
    FilterAgree(v, InGroup(sc, r), InGroup(wsc, r));
    SelectionSurvives(v, checkpoint, InGroup(wsc, r));
  }

  lemma KeptCall(v: seq<Row>, checkpoint: Row, images: bool, reasoning: map<ResponseId, Continuation>,
                 after: map<ResponseId, Continuation>, row: Row)
    requires Replaces(v, checkpoint)
    requires row in v && row.payload.ToolOutput? && !Names(checkpoint, row.id)
    ensures var w := IngestRow(v, checkpoint);
            FindCall(v, ScopeOf(v, images, reasoning), row.payload.call) == FindCall(w, ScopeOf(w, images, after), row.payload.call)
  {
    var c, w := row.payload.call, IngestRow(v, checkpoint);
    var sc, wsc := ScopeOf(v, images, reasoning), ScopeOf(w, images, after);
    IngestMembers(v, checkpoint);
    CheckpointFolds(v, checkpoint);
    NothingDead(v);
    NothingDead(w);
    assert row in w;
    assert c in sc.answered && c in wsc.answered;
    forall x | x in v && x.payload.ToolCall? && x.payload.call == c
      ensures !Names(checkpoint, x.id) && IsCall(sc, c)(x) && IsCall(wsc, c)(x)
    {
      KeptResponse(v, checkpoint, row, x.payload.response, x);
    }
    FilterAgree(v, IsCall(sc, c), IsCall(wsc, c));
    SelectionSurvives(v, checkpoint, IsCall(wsc, c));
  }

  lemma KeptSurroundings(v: seq<Row>, checkpoint: Row, images: bool, reasoning: map<ResponseId, Continuation>, row: Row)
    requires Replaces(v, checkpoint)
    requires row in v && !Names(checkpoint, row.id)
    ensures var w := IngestRow(v, checkpoint);
            SameSurroundings(v, ScopeOf(v, images, reasoning),
                             w, ScopeOf(w, images, reasoning - DroppedResponses(v, checkpoint)), row)
  {
    var w, after := IngestRow(v, checkpoint), reasoning - DroppedResponses(v, checkpoint);
    IngestMembers(v, checkpoint);
    CheckpointFolds(v, checkpoint);
    NothingDead(v);
    NothingDead(w);
    if IsModelRow(row) {
      KeptGroup(v, checkpoint, images, reasoning, after, row);
      if row.payload.response in DroppedResponses(v, checkpoint) {
        var dropped :| dropped in v && Names(checkpoint, dropped.id) && dropped.payload.ToolCall?
                       && dropped.payload.response == row.payload.response;
        KeptResponse(v, checkpoint, row, row.payload.response, dropped);
      }
    }
    if row.payload.ToolOutput? {
      KeptCall(v, checkpoint, images, reasoning, after, row);
    }
  }

  /**
   The compaction frame. After ingesting a checkpoint over whole units the projection is what the
   rows before it said in the old view, the checkpoint, and what the kept rows behind it said.
   */
  lemma CompactionFrame(v: seq<Row>, checkpoint: Row, images: bool, reasoning: map<ResponseId, Continuation>)
    requires Replaces(v, checkpoint)
    ensures var at := FirstNamed(v, Named(checkpoint));
            var sc := ScopeOf(v, images, reasoning);
            Project(IngestRow(v, checkpoint), images, reasoning - DroppedResponses(v, checkpoint))
            == Emit(v, sc, v[..at]) + CheckpointMessages(checkpoint.payload, images)
               + Emit(v, sc, Retain(v[at..], Named(checkpoint)))
  {
    var at := FirstNamed(v, Named(checkpoint));
    var w, after := IngestRow(v, checkpoint), reasoning - DroppedResponses(v, checkpoint);
    var sc, wsc := ScopeOf(v, images, reasoning), ScopeOf(w, images, after);
    var before, behind := v[..at], Retain(v[at..], Named(checkpoint));
    CheckpointFolds(v, checkpoint);
    FoldedProjection(w, images, after);
    CheckpointPlace(v, checkpoint);
    KeptRowsSaySame(v, checkpoint, images, reasoning);
    EmitConcat(w, wsc, before + [checkpoint], behind);
    EmitConcat(w, wsc, before, [checkpoint]);
    CheckpointSays(v, checkpoint, images, after);
  }

  lemma AloneSays(h: seq<Row>, sc: Scope, row: Row)
    requires row.payload.Compaction? && row.id !in sc.dead
    ensures Emit(h, sc, [row]) == CheckpointMessages(row.payload, sc.images)
  {
    assert Front([row]) == [] && Last([row]) == row;
  }

  lemma CheckpointSays(v: seq<Row>, checkpoint: Row, images: bool, after: map<ResponseId, Continuation>)
    requires Replaces(v, checkpoint)
    ensures var w := IngestRow(v, checkpoint);
            Emit(w, ScopeOf(w, images, after), [checkpoint]) == CheckpointMessages(checkpoint.payload, images)
  {
    var w := IngestRow(v, checkpoint);
    CheckpointFolds(v, checkpoint);
    IngestMembers(v, checkpoint);
    NothingDead(w);
    AloneSays(w, ScopeOf(w, images, after), checkpoint);
  }

  lemma KeptRowsSaySame(v: seq<Row>, checkpoint: Row, images: bool, reasoning: map<ResponseId, Continuation>)
    requires Replaces(v, checkpoint)
    ensures var at := FirstNamed(v, Named(checkpoint));
            var sc := ScopeOf(v, images, reasoning);
            var w := IngestRow(v, checkpoint);
            var wsc := ScopeOf(w, images, reasoning - DroppedResponses(v, checkpoint));
            && Emit(w, wsc, v[..at]) == Emit(v, sc, v[..at])
            && Emit(w, wsc, Retain(v[at..], Named(checkpoint))) == Emit(v, sc, Retain(v[at..], Named(checkpoint)))
  {
    var at := FirstNamed(v, Named(checkpoint));
    var w := IngestRow(v, checkpoint);
    var sc, wsc := ScopeOf(v, images, reasoning), ScopeOf(w, images, reasoning - DroppedResponses(v, checkpoint));
    var before, behind := v[..at], Retain(v[at..], Named(checkpoint));
    forall row | row in before || row in behind
      ensures SameSurroundings(v, sc, w, wsc, row)
    {
      KeptSurroundings(v, checkpoint, images, reasoning, row);
    }
    EmitSame(v, sc, w, wsc, before);
    EmitSame(v, sc, w, wsc, behind);
  }

  // ---- The preview -----------------------------------------------------------------------------

  /** The same list with the row at one place renamed. */
  ghost predicate Renames(a: seq<Row>, b: seq<Row>, at: nat) {
    && |a| == |b| && at < |a|
    && a[at].payload == b[at].payload && a[at].payload.Compaction?
    && (forall i :: 0 <= i < |a| && i != at ==> a[i] == b[i])
  }

  lemma RenamedSelection(a: seq<Row>, b: seq<Row>, at: nat, p: Row -> bool)
    requires Renames(a, b, at) && !p(a[at]) && !p(b[at])
    ensures Filter(a, p) == Filter(b, p)
  {
    assert a == a[..at] + [a[at]] + a[at + 1..];
    assert b == b[..at] + [b[at]] + b[at + 1..];
    assert a[..at] == b[..at] && a[at + 1..] == b[at + 1..];
    FilterNone([a[at]], p);
    FilterNone([b[at]], p);
    FilterConcat(a[..at], [a[at]], p);
    FilterConcat(b[..at], [b[at]], p);
    FilterConcat(a[..at] + [a[at]], a[at + 1..], p);
    FilterConcat(b[..at] + [b[at]], b[at + 1..], p);
  }

  lemma RenamedScope(a: seq<Row>, b: seq<Row>, at: nat)
    requires Renames(a, b, at) && Folded(a) && Folded(b)
    ensures CompactedIds(a) == CompactedIds(b)
    ensures AnsweredCalls(a, CompactedIds(a)) == AnsweredCalls(b, CompactedIds(b))
  {
    RenamedNames(a, b, at);
    RenamedNames(b, a, at);
    NothingDead(a);
    NothingDead(b);
    RenamedAnswers(a, b, at);
    RenamedAnswers(b, a, at);
  }

  lemma RenamedNames(a: seq<Row>, b: seq<Row>, at: nat)
    requires Renames(a, b, at)
    ensures CompactedIds(a) <= CompactedIds(b)
  {
    forall id | id in CompactedIds(a)
      ensures id in CompactedIds(b)
    {
      var row :| row in a && Names(row, id);
      var i :| 0 <= i < |a| && a[i] == row;
      assert b[i] in b && Names(b[i], id);
    }
  }

  lemma RenamedAnswers(a: seq<Row>, b: seq<Row>, at: nat)
    requires Renames(a, b, at)
    requires forall row :: row in b ==> row.id !in CompactedIds(b)
    ensures AnsweredCalls(a, CompactedIds(a)) <= AnsweredCalls(b, CompactedIds(b))
  {
    forall c | c in AnsweredCalls(a, CompactedIds(a))
      ensures c in AnsweredCalls(b, CompactedIds(b))
    {
      var row :| row in a && row.payload.ToolOutput? && row.payload.call == c;
      var i :| 0 <= i < |a| && a[i] == row;
      assert b[i] in b && b[i] == row;
    }
  }

  lemma RenamedSays(a: seq<Row>, b: seq<Row>, at: nat, sc: Scope, i: nat)
    requires Renames(a, b, at) && i < |a|
    requires a[i].id !in sc.dead && b[i].id !in sc.dead
    ensures Said(a, sc, a[i]) == Said(b, sc, b[i])
  {
    if i != at {
      if IsModelRow(a[i]) {
        RenamedSelection(a, b, at, InGroup(sc, a[i].payload.response));
      }
      if a[i].payload.ToolOutput? {
        RenamedSelection(a, b, at, IsCall(sc, a[i].payload.call));
      }
      SaysTheSame(a, sc, b, sc, a[i]);
    }
  }

  lemma RenamedEmits(a: seq<Row>, b: seq<Row>, at: nat, sc: Scope)
    requires Renames(a, b, at)
    requires forall i :: 0 <= i < |a| ==> a[i].id !in sc.dead && b[i].id !in sc.dead
    ensures Emit(a, sc, a) == Emit(b, sc, b)
  {
    EmitIsConcat(a, sc, a);
    EmitIsConcat(b, sc, b);
    forall i | 0 <= i < |a|
      ensures Sayings(a, sc, a)[i] == Sayings(b, sc, b)[i]
    {
      RenamedSays(a, b, at, sc, i);
    }
    assert Sayings(a, sc, a) == Sayings(b, sc, b);
  }

  /** The id of a checkpoint row is invisible in the projection of a folded list. */
  lemma RenamedProjection(a: seq<Row>, b: seq<Row>, at: nat, images: bool, reasoning: map<ResponseId, Continuation>)
    requires Renames(a, b, at) && Folded(a) && Folded(b)
    ensures Project(a, images, reasoning) == Project(b, images, reasoning)
  {
    FoldedProjection(a, images, reasoning);
    FoldedProjection(b, images, reasoning);
    RenamedScope(a, b, at);
    NothingDead(a);
    NothingDead(b);
    RenamedEmits(a, b, at, ScopeOf(a, images, reasoning));
  }
}
