/**
 Checkpoints of the older layouts in a list that still holds the rows they replace: they speak at the
 place of the earliest of those rows, so that projecting the list is projecting the folded view.
 */
module OlderLayouts {
  import opened Base
  import opened StableSort
  import opened History
  import opened ActiveView
  import opened Units
  import opened Projection
  import opened ProjectionLoop
  import opened Frame
  import opened Contribution

  /** A replaced row says nothing. */
  lemma ReplacedIsSilent(h: seq<Row>, sc: Scope, row: Row)
    requires row.id in sc.dead
    ensures Said(h, sc, row) == []
  {
    if IsModelRow(row) {
      var group := Group(h, sc, row.payload.response);
      assert group != [] ==> group[0] in group;
    }
  }

  /** What is hidden and what is answered is the same in the list and in the folded view. */
  lemma SameVisible(v: seq<Row>, c: Row)
    requires Replaces(v, c)
    ensures var h, w := v + [c], IngestRow(v, c);
            && (forall row :: row in h ==> (row.id in CompactedIds(h) <==> Names(c, row.id)))
            && (forall row :: row in w <==> row in h && !Names(c, row.id))
            && (forall row :: row in w ==> row.id !in CompactedIds(w))
            && AnsweredCalls(h, CompactedIds(h)) == AnsweredCalls(w, CompactedIds(w))
  {
    var h, w := v + [c], IngestRow(v, c);
    IngestMembers(v, c);
    CheckpointFolds(v, c);
    NothingDead(w);
    forall row | row in h
      ensures row.id in CompactedIds(h) <==> Names(c, row.id)
    {
      assert forall x :: x in v ==> !Names(x, row.id);
    }
  }

  lemma SameSelection(v: seq<Row>, c: Row, p: Row -> bool, q: Row -> bool)
    requires Replaces(v, c) && !p(c)
    requires forall row :: row in v && p(row) ==> !Names(c, row.id)
    requires forall row :: row in IngestRow(v, c) ==> p(row) == q(row)
    ensures Filter(v + [c], p) == Filter(IngestRow(v, c), q)
  {
    FilterConcat(v, [c], p);
    FilterNone([c], p);
    assert Filter(v, p) + [] == Filter(v, p);
    SelectionSurvives(v, c, p);
    FilterAgree(IngestRow(v, c), p, q);
  }

  /** A row that is left says the same in the list and in the folded view. */
  lemma LeftSaysSame(v: seq<Row>, c: Row, images: bool, reasoning: map<ResponseId, Continuation>, row: Row)
    requires Replaces(v, c) && row in v && !Names(c, row.id)
    ensures Said(v + [c], ScopeOf(v + [c], images, reasoning), row)
         == Said(IngestRow(v, c), ScopeOf(IngestRow(v, c), images, reasoning), row)
  {
    var h, w := v + [c], IngestRow(v, c);
    var sc, wsc := ScopeOf(h, images, reasoning), ScopeOf(w, images, reasoning);
    SameVisible(v, c);
    if IsModelRow(row) {
      SameSelection(v, c, InGroup(sc, row.payload.response), InGroup(wsc, row.payload.response));
    }
    if row.payload.ToolOutput? {
      SameSelection(v, c, IsCall(sc, row.payload.call), IsCall(wsc, row.payload.call));
    }
    SaysTheSame(h, sc, w, wsc, row);
  }

  // ---- Where the checkpoint speaks -------------------------------------------------------------

  lemma {:induction false} ConcatUpdate<T>(parts: seq<seq<T>>, at: nat, part: seq<T>)
    requires at < |parts| && parts[at] == []
    ensures multiset(Concat(parts[at := part])) == multiset(Concat(parts)) + multiset(part)
  {
    var longer := parts[at := part];
    if at < |parts| - 1 {
      ConcatUpdate(Front(parts), at, part);
      assert Front(longer) == Front(parts)[at := part] && Last(longer) == Last(parts);
    } else {
      assert Front(longer) == Front(parts) && Last(longer) == part;
    }
  }

  /** The entries of the list, the checkpoint's put at the place it goes back to. */
  function GoneBack(v: seq<Row>, c: Row, sc: Scope, at: nat): (parts: seq<seq<Entry>>)
    requires at < |v|
    ensures |parts| == |v|
  {
    Parts(v + [c], sc, |v|)[at := Part(v + [c], sc, |v|)]
  }

  /** An older layout goes back to the earliest row it replaces. */
  ghost predicate GoesBack(v: seq<Row>, c: Row, at: nat) {
    && Replaces(v, c) && !c.payload.layout.UserAnchored?
    && at < |v| && Names(c, v[at].id) && forall i :: 0 <= i < at ==> !Names(c, v[i].id)
  }

  lemma BackIndex(v: seq<Row>, c: Row, at: nat)
    requires GoesBack(v, c, at)
    ensures CheckpointIndex(v + [c], |v|) == at
    ensures forall i :: 0 <= i < |v| ==> CheckpointIndex(v + [c], i) == i
  {
    var h := v + [c];
    var first := FirstNamed(h, Named(c));
    assert h[at] == v[at] && h[|v|] == c;
    assert forall i :: 0 <= i < at ==> h[i] == v[i];
    forall i | 0 <= i < |v|
      ensures CheckpointIndex(h, i) == i
    {
      assert h[i] in v;
      assert forall row :: row in h ==> !Names(h[i], row.id);
    }
  }

  lemma CheckpointPart(v: seq<Row>, c: Row, sc: Scope, at: nat)
    requires GoesBack(v, c, at) && c.id !in sc.dead
    ensures Part(v + [c], sc, |v|) == Enumerate(CheckpointMessages(c.payload, sc.images), at, 0)
  {
    var h, n := v + [c], |v|;
    BackIndex(v, c, at);
    assert h[n] == c;
    SaidAnywhere(h, sc, c);
    assert GroupEntries(h, sc, n) == [];
    assert RowEntries(h, sc, n) == Enumerate(CheckpointMessages(c.payload, sc.images), at, 0);
  }

  lemma SilentPart(h: seq<Row>, sc: Scope, i: nat)
    requires i < |h| && h[i].id in sc.dead
    ensures Part(h, sc, i) == []
  {
    ReplacedIsSilent(h, sc, h[i]);
    assert |GroupMessages(h, sc, h[i])| == 0 && |RowMessages(h, sc, h[i])| == 0;
  }

  lemma PartOfCheckpoint(v: seq<Row>, c: Row, sc: Scope, at: nat)
    requires GoesBack(v, c, at) && sc.dead == CompactedIds(v + [c])
    ensures Part(v + [c], sc, |v|) == Enumerate(CheckpointMessages(c.payload, sc.images), at, 0)
    ensures Part(v + [c], sc, at) == []
  {
    var h := v + [c];
    SameVisible(v, c);
    assert c in h && h[at] == v[at] && v[at] in h;
    CheckpointPart(v, c, sc, at);
    SilentPart(h, sc, at);
  }

  lemma PartInPlace(v: seq<Row>, c: Row, sc: Scope, at: nat, i: nat)
    requires GoesBack(v, c, at) && i < |v|
    ensures StrictlySorted(Part(v + [c], sc, i)) && forall e: Entry :: e in Part(v + [c], sc, i) ==> e.index == i
  {
    BackIndex(v, c, at);
    OneVoice(v + [c], sc, (v + [c])[i]);
  }

  lemma GoneBackStrict(v: seq<Row>, c: Row, sc: Scope, at: nat)
    requires GoesBack(v, c, at) && sc.dead == CompactedIds(v + [c])
    ensures StrictlySorted(Concat(GoneBack(v, c, sc, at)))
  {
    var parts := GoneBack(v, c, sc, at);
    PartOfCheckpoint(v, c, sc, at);
    forall i | 0 <= i < |parts|
      ensures StrictlySorted(parts[i]) && forall e: Entry :: e in parts[i] ==> e.index == i
    {
      PartInPlace(v, c, sc, at, i);
    }
    ConcatStrict(parts);
  }

  /** Moving the last part into an empty place keeps all elements. */
  lemma MoveInto<T>(all: seq<seq<T>>, front: seq<seq<T>>, last: seq<T>, at: nat)
    requires all == front + [last] && at < |front| && front[at] == []
    ensures multiset(Concat(front[at := last])) == multiset(Concat(all))
  {
    ConcatAppend(front, last);
    ConcatUpdate(front, at, last);
  }

  lemma GoneBackIsMove(v: seq<Row>, c: Row, sc: Scope, at: nat)
    requires GoesBack(v, c, at) && sc.dead == CompactedIds(v + [c])
    ensures multiset(Concat(GoneBack(v, c, sc, at))) == multiset(Concat(Parts(v + [c], sc, |v| + 1)))
  {
    PartOfCheckpoint(v, c, sc, at);
    var front, last := Parts(v + [c], sc, |v|), Part(v + [c], sc, |v|);
    MoveInto(Parts(v + [c], sc, |v| + 1), front, last, at);
  }

  lemma PartsTogether(h: seq<Row>, sc: Scope)
    ensures multiset(GroupsFrom(h, sc, |h|) + RowsFrom(h, sc, |h|)) == multiset(Concat(Parts(h, sc, |h|)))
  {
    Interleaved(GroupParts(h, sc, |h|), RowParts(h, sc, |h|), Parts(h, sc, |h|));
  }

  /** The sort puts the checkpoint's messages where they go back to, and moves nothing else. */
  lemma SortedBack(v: seq<Row>, c: Row, sc: Scope, at: nat)
    requires GoesBack(v, c, at) && sc.dead == CompactedIds(v + [c])
    ensures ProjectedEntries(v + [c], sc) == Concat(GoneBack(v, c, sc, at))
  {
    var h := v + [c];
    GoneBackStrict(v, c, sc, at);
    PartsTogether(h, sc);
    GoneBackIsMove(v, c, sc, at);
    SortIs(GroupsFrom(h, sc, |h|) + RowsFrom(h, sc, |h|), Concat(GoneBack(v, c, sc, at)));
  }

  // ---- The list and the folded view --------------------------------------------------------------

  lemma BackValues(v: seq<Row>, c: Row, sc: Scope, at: nat)
    requires GoesBack(v, c, at) && sc.dead == CompactedIds(v + [c])
    ensures KeyValues(Concat(GoneBack(v, c, sc, at)))
         == Concat(Sayings(v + [c], sc, v)[at := CheckpointMessages(c.payload, sc.images)])
  {
    var h, parts := v + [c], GoneBack(v, c, sc, at);
    var values := Sayings(h, sc, v)[at := CheckpointMessages(c.payload, sc.images)];
    PartOfCheckpoint(v, c, sc, at);
    forall i | 0 <= i < |parts|
      ensures KeyValues(parts[i]) == values[i]
    {
      if i == at {
        assert KeyValues(parts[at]) == CheckpointMessages(c.payload, sc.images);
      } else {
        PartSays(h, sc, i);
      }
    }
    ConcatValues(parts, values);
  }

  lemma {:induction false} ConcatJoin<T>(a: seq<seq<T>>, b: seq<seq<T>>)
    ensures Concat(a + b) == Concat(a) + Concat(b)
  {
    if b == [] {
      assert a + b == a;
    } else {
      assert Front(a + b) == a + Front(b) && Last(a + b) == Last(b);
      ConcatJoin(a, Front(b));
      Associative(Concat(a), Concat(Front(b)), Last(b));
    }
  }

  lemma ConcatThree<T>(s: seq<seq<T>>, at: nat, part: seq<T>)
    requires at < |s|
    ensures Concat(s[at := part]) == Concat(s[..at]) + part + Concat(s[at + 1..])
  {
    assert s[at := part] == s[..at] + [part] + s[at + 1..];
    ConcatJoin(s[..at] + [part], s[at + 1..]);
    ConcatAppend(s[..at], part);
  }

  /** What the list is projected to. */
  lemma ListProjection(v: seq<Row>, c: Row, sc: Scope, at: nat)
    requires GoesBack(v, c, at) && sc.dead == CompactedIds(v + [c])
    ensures KeyValues(ProjectedEntries(v + [c], sc))
         == Emit(v + [c], sc, v[..at]) + CheckpointMessages(c.payload, sc.images) + Emit(v + [c], sc, v[at + 1..])
  {
    var h := v + [c];
    var said := Sayings(h, sc, v);
    SortedBack(v, c, sc, at);
    BackValues(v, c, sc, at);
    ConcatThree(said, at, CheckpointMessages(c.payload, sc.images));
    SayingsCut(h, sc, v, at);
  }

  lemma SayingsCut(h: seq<Row>, sc: Scope, rows: seq<Row>, at: nat)
    requires at < |rows|
    ensures Concat(Sayings(h, sc, rows)[..at]) == Emit(h, sc, rows[..at])
    ensures Concat(Sayings(h, sc, rows)[at + 1..]) == Emit(h, sc, rows[at + 1..])
  {
    EmitIsConcat(h, sc, rows[..at]);
    EmitIsConcat(h, sc, rows[at + 1..]);
    assert Sayings(h, sc, rows)[..at] == Sayings(h, sc, rows[..at]);
    assert Sayings(h, sc, rows)[at + 1..] == Sayings(h, sc, rows[at + 1..]);
  }

  /** What is left says the same, and the rest nothing. */
  lemma LeftEmits(v: seq<Row>, c: Row, images: bool, reasoning: map<ResponseId, Continuation>, rows: seq<Row>)
    requires Replaces(v, c) && forall row :: row in rows ==> row in v
    ensures Emit(v + [c], ScopeOf(v + [c], images, reasoning), rows)
         == Emit(IngestRow(v, c), ScopeOf(IngestRow(v, c), images, reasoning), Retain(rows, Named(c)))
  {
    var h, w := v + [c], IngestRow(v, c);
    var sc, wsc := ScopeOf(h, images, reasoning), ScopeOf(w, images, reasoning);
    SameVisible(v, c);
    forall row | row in rows && !Keeps(Named(c))(row)
      ensures Said(h, sc, row) == []
    {
      assert row in h;
      ReplacedIsSilent(h, sc, row);
    }
    EmitSpeaking(h, sc, rows, Keeps(Named(c)));
    forall row | row in Retain(rows, Named(c))
      ensures Said(h, sc, row) == Said(w, wsc, row)
    {
      LeftSaysSame(v, c, images, reasoning, row);
    }
    EmitAgrees(h, sc, w, wsc, Retain(rows, Named(c)));
  }

  /**
   A checkpoint of an older layout over whole units: projecting the list that still holds the replaced
   rows is projecting the view in which the checkpoint has taken their place.
   */
  lemma ListAgreesWithView(v: seq<Row>, c: Row, images: bool, reasoning: map<ResponseId, Continuation>)
    requires Replaces(v, c) && !c.payload.layout.UserAnchored?
    ensures Project(v + [c], images, reasoning) == Project(IngestRow(v, c), images, reasoning)
  {
    var at := FirstNamed(v, Named(c));
    CheckpointPlace(v, c);
    if at == |v| {
      assert v[..at] == v && v[at..] == [];
      assert IngestRow(v, c) == v + [c];
    } else {
      ListIsView(v, c, at, images, reasoning);
    }
  }

  lemma ListIsView(v: seq<Row>, c: Row, at: nat, images: bool, reasoning: map<ResponseId, Continuation>)
    requires GoesBack(v, c, at) && at == FirstNamed(v, Named(c))
    ensures Project(v + [c], images, reasoning) == Project(IngestRow(v, c), images, reasoning)
  {
    var h, w := v + [c], IngestRow(v, c);
    var sc, wsc := ScopeOf(h, images, reasoning), ScopeOf(w, images, reasoning);
    ListProjection(v, c, sc, at);
    LeftEmits(v, c, images, reasoning, v[..at]);
    LeftEmits(v, c, images, reasoning, v[at + 1..]);
    CheckpointFolds(v, c);
    FoldedProjection(w, images, reasoning);
    ViewEmits(v, c, at, wsc);
  }

  lemma PlaceInView(v: seq<Row>, c: Row, at: nat)
    requires GoesBack(v, c, at) && at == FirstNamed(v, Named(c))
    ensures IngestRow(v, c) == Retain(v[..at], Named(c)) + [c] + Retain(v[at + 1..], Named(c))
  {
    CheckpointPlace(v, c);
    FilterAll(v[..at], Keeps(Named(c)));
    SkipHead(v[at..], Keeps(Named(c)));
    assert v[at..][1..] == v[at + 1..];
  }

  lemma SkipHead<T>(s: seq<T>, p: T -> bool)
    requires s != [] && !p(s[0])
    ensures Filter(s, p) == Filter(s[1..], p)
  {
    assert s == s[..1] + s[1..];
    FilterConcat(s[..1], s[1..], p);
    FilterNone(s[..1], p);
    assert [] + Filter(s[1..], p) == Filter(s[1..], p);
  }

  /** What the view is made of. */
  lemma ViewEmits(v: seq<Row>, c: Row, at: nat, wsc: Scope)
    requires GoesBack(v, c, at) && at == FirstNamed(v, Named(c)) && c.id !in wsc.dead
    ensures Emit(IngestRow(v, c), wsc, IngestRow(v, c))
         == Emit(IngestRow(v, c), wsc, Retain(v[..at], Named(c))) + CheckpointMessages(c.payload, wsc.images)
            + Emit(IngestRow(v, c), wsc, Retain(v[at + 1..], Named(c)))
  {
    var w := IngestRow(v, c);
    PlaceInView(v, c, at);
    EmitConcat(w, wsc, Retain(v[..at], Named(c)) + [c], Retain(v[at + 1..], Named(c)));
    EmitAppend(w, wsc, Retain(v[..at], Named(c)), c);
    SaidAnywhere(w, wsc, c);
  }
}
