/**
 How the append-only stream of rows is folded into the active view. A compaction row drops the
 rows it names and takes the place of the earliest of them.
 */
module ActiveView {
  import opened Base
  import opened History

  function Named(row: Row): set<ItemId> {
    if row.payload.Compaction? then set id | id in row.payload.replaced else {}
  }

  function Keeps(named: set<ItemId>): Row -> bool {
    (row: Row) => row.id !in named
  }

  function Retain(view: seq<Row>, named: set<ItemId>): seq<Row> {
    Filter(view, Keeps(named))
  }

  /** The place of the first row whose id is named, or the length of the view. */
  function FirstNamed(view: seq<Row>, named: set<ItemId>): (at: nat)
    ensures at <= |view|
    ensures forall i :: 0 <= i < at ==> view[i].id !in named
    ensures at < |view| ==> view[at].id in named
  {
    if view == [] then 0
    else if view[0].id in named then 0
    else 1 + FirstNamed(view[1..], named)
  }

  function IngestRow(view: seq<Row>, row: Row): seq<Row> {
    if row.payload.Compaction? then
      var named := Named(row);
      var kept := Retain(view, named);
      var at := Min(FirstNamed(view, named), |kept|);
      kept[..at] + [row] + kept[at..]
    else view + [row]
  }

  function IngestAll(view: seq<Row>, rows: seq<Row>): seq<Row> {
    if rows == [] then view else IngestRow(IngestAll(view, Front(rows)), Last(rows))
  }

  /** Responses whose tool-call rows are dropped when `row` is ingested; their reasoning goes too. */
  function DroppedResponses(view: seq<Row>, row: Row): set<ResponseId> {
    set dropped | dropped in view && Names(row, dropped.id) && dropped.payload.ToolCall? :: dropped.payload.response
  }

  function IngestReasoning(view: seq<Row>, rows: seq<Row>, reasoning: map<ResponseId, Continuation>)
    : map<ResponseId, Continuation>
  {
    if rows == [] then reasoning
    else IngestReasoning(view, Front(rows), reasoning) - DroppedResponses(IngestAll(view, Front(rows)), Last(rows))
  }

  // ---- Page splits ---------------------------------------------------------------------------

  lemma {:induction false} IngestConcat(view: seq<Row>, a: seq<Row>, b: seq<Row>)
    ensures IngestAll(view, a + b) == IngestAll(IngestAll(view, a), b)
  {
    if b == [] {
      assert a + b == a;
    } else {
      assert Front(a + b) == a + Front(b) && Last(a + b) == Last(b);
      IngestConcat(view, a, Front(b));
    }
  }

  lemma {:induction false} ReasoningConcat(view: seq<Row>, a: seq<Row>, b: seq<Row>,
                                           reasoning: map<ResponseId, Continuation>)
    ensures IngestReasoning(view, a + b, reasoning)
         == IngestReasoning(IngestAll(view, a), b, IngestReasoning(view, a, reasoning))
  {
    if b == [] {
      assert a + b == a;
    } else {
      assert Front(a + b) == a + Front(b) && Last(a + b) == Last(b);
      ReasoningConcat(view, a, Front(b), reasoning);
      IngestConcat(view, a, Front(b));
    }
  }

  // ---- One checkpoint ------------------------------------------------------------------------

  /** Everything before the earliest named row is untouched; the rest loses the named rows. */
  lemma CheckpointPlace(view: seq<Row>, row: Row)
    requires row.payload.Compaction?
    ensures var at := FirstNamed(view, Named(row));
            && IngestRow(view, row) == view[..at] + [row] + Retain(view[at..], Named(row))
            && (forall i :: 0 <= i < at ==> view[i].id !in row.payload.replaced)
            && (at < |view| ==> view[at].id in row.payload.replaced)
  {
    var named := Named(row);
    var at := FirstNamed(view, named);
    assert view == view[..at] + view[at..];
    FilterConcat(view[..at], view[at..], Keeps(named));
    FilterAll(view[..at], Keeps(named));
    var rest := Retain(view[at..], named);
    assert Retain(view, named) == view[..at] + rest;
    assert (view[..at] + rest)[..at] == view[..at];
    assert (view[..at] + rest)[at..] == rest;
  }

  lemma IngestMembers(view: seq<Row>, row: Row)
    ensures forall x :: x in IngestRow(view, row) <==> x == row || (x in view && !Names(row, x.id))
  {
    if row.payload.Compaction? {
      var kept := Retain(view, Named(row));
      var at := Min(FirstNamed(view, Named(row)), |kept|);
      assert kept == kept[..at] + kept[at..];
      assert forall x :: x in kept <==> x in kept[..at] || x in kept[at..];
    }
  }

  // ---- Which rows survive --------------------------------------------------------------------

  /** No row appended at or after place `from` (and before `upto`) names this id. */
  ghost predicate Unnamed(log: seq<Row>, id: ItemId, from: nat, upto: nat)
    requires upto <= |log|
  {
    forall j :: from <= j < upto && log[j].payload.Compaction? ==> id !in log[j].payload.replaced
  }

  /** Row `row` was appended at `i` and is not named since. */
  ghost predicate StandsFrom(log: seq<Row>, row: Row, i: nat) {
    i < |log| && log[i] == row && Unnamed(log, row.id, i + 1, |log|)
  }

  /** One more row is one more row that may name. */
  lemma StandsStep(log: seq<Row>, row: Row, i: nat)
    requires log != []
    ensures StandsFrom(log, row, i)
       <==> if i == |log| - 1 then row == Last(log) else StandsFrom(Front(log), row, i) && !Names(Last(log), row.id)
  {
    assert forall j :: 0 <= j < |log| - 1 ==> Front(log)[j] == log[j];
  }

  lemma StandsLonger(log: seq<Row>, row: Row)
    requires log != []
    ensures (exists i :: StandsFrom(log, row, i))
       <==> row == Last(log) || (!Names(Last(log), row.id) && exists i :: StandsFrom(Front(log), row, i))
  {
    StandsStep(log, row, |log| - 1);
    if i: nat :| StandsFrom(log, row, i) {
      StandsStep(log, row, i);
    }
    if i: nat :| StandsFrom(Front(log), row, i) {
      StandsStep(log, row, i);
    }
  }

  lemma {:induction false} Survivors(log: seq<Row>, row: Row)
    ensures row in IngestAll([], log) <==> exists i :: StandsFrom(log, row, i)
  {
    if log != [] {
      Survivors(Front(log), row);
      StandsLonger(log, row);
      IngestMembers(IngestAll([], Front(log)), Last(log));
    }
  }

  /** The view holds exactly the rows of the log that no later row names. */
  lemma SurvivorsExactly(log: seq<Row>, row: Row)
    ensures row in IngestAll([], log)
       <==> exists i :: 0 <= i < |log| && log[i] == row && Unnamed(log, row.id, i + 1, |log|)
  {
    Survivors(log, row);
    assert forall i: nat :: StandsFrom(log, row, i) <==> i < |log| && log[i] == row && Unnamed(log, row.id, i + 1, |log|);
  }

  // ---- In which order ------------------------------------------------------------------------

  /**
   The append position a row stands at. An ordinary row stands where it was appended; a checkpoint
   inherits the position of the earliest row that was still in view when the checkpoint replaced it.
   */
  ghost function Anchor(log: seq<Row>, i: nat): (a: nat)
    requires i < |log|
    ensures a <= i
    decreases i, i + 1
  {
    EarliestReplaced(log, i, i)
  }

  /** The smallest anchor among the rows before place `k` that row `i` takes out of the view. */
  ghost function EarliestReplaced(log: seq<Row>, i: nat, k: nat): (a: nat)
    requires k <= i < |log|
    ensures a <= i
    decreases i, k
  {
    if k == 0 then i
    else
      var rest := EarliestReplaced(log, i, k - 1);
      if Names(log[i], log[k - 1].id) && Unnamed(log, log[k - 1].id, k, i)
      then var own := Anchor(log, k - 1); if own < rest then own else rest
      else rest
  }

  ghost predicate UniqueIds(log: seq<Row>) {
    forall i, j :: 0 <= i < j < |log| ==> log[i].id != log[j].id
  }

  /** `places` tells for each row of the view where among the first `n` log rows it was appended. */
  ghost predicate AnchorOrdered(log: seq<Row>, n: nat, view: seq<Row>, places: seq<nat>)
    requires n <= |log|
  {
    && |places| == |view|
    && (forall p :: 0 <= p < |view| ==> places[p] < n && log[places[p]] == view[p])
    && Rising(Anchors(log, places))
  }

  /** The anchors of the given log places. */
  ghost function Anchors(log: seq<Row>, places: seq<nat>): (r: seq<int>)
    requires forall p :: 0 <= p < |places| ==> places[p] < |log|
    ensures |r| == |places|
    ensures forall p :: 0 <= p < |places| ==> r[p] == Anchor(log, places[p])
  {
    seq(|places|, p requires 0 <= p < |places| => Anchor(log, places[p]))
  }

  ghost predicate Rising(s: seq<int>) {
    forall p, q :: 0 <= p < q < |s| ==> s[p] < s[q]
  }

  function Pick<T>(s: seq<T>, at: seq<nat>): (r: seq<T>)
    requires forall k :: 0 <= k < |at| ==> at[k] < |s|
    ensures |r| == |at|
    ensures forall k :: 0 <= k < |at| ==> r[k] == s[at[k]]
  {
    seq(|at|, k requires 0 <= k < |at| => s[at[k]])
  }

  /** Rising `a`, then `m`, then some of the rising `b` behind its first element, rises. */
  lemma RisingReplace(a: seq<int>, m: int, b: seq<int>, later: seq<nat>)
    requires Rising(a) && Rising(b)
    requires forall p :: 0 <= p < |a| ==> a[p] < m
    requires b != [] ==> m <= b[0]
    requires forall k :: 0 <= k < |later| ==> 0 < later[k] < |b|
    requires forall k, l :: 0 <= k < l < |later| ==> later[k] < later[l]
    ensures Rising(a + [m] + Pick(b, later))
  {
    forall k | 0 <= k < |later|
      ensures m < Pick(b, later)[k]
    {
      var at := later[k];
      assert 0 < at < |b| && Pick(b, later)[k] == b[at];
    }
  }

  lemma {:induction false} EarliestIsBelow(log: seq<Row>, i: nat, k: nat, m: nat)
    requires m < k <= i < |log|
    requires Names(log[i], log[m].id) && Unnamed(log, log[m].id, m + 1, i)
    ensures EarliestReplaced(log, i, k) <= Anchor(log, m)
  {
    if m < k - 1 {
      EarliestIsBelow(log, i, k - 1, m);
    }
  }

  lemma {:induction false} EarliestIsOne(log: seq<Row>, i: nat, k: nat) returns (m: nat)
    requires k <= i < |log|
    ensures EarliestReplaced(log, i, k) == i
         || (m < k && Names(log[i], log[m].id) && Unnamed(log, log[m].id, m + 1, i)
             && EarliestReplaced(log, i, k) == Anchor(log, m))
  {
    m := 0;
    if k > 0 {
      m := EarliestIsOne(log, i, k - 1);
      if Names(log[i], log[k - 1].id) && Unnamed(log, log[k - 1].id, k, i)
         && Anchor(log, k - 1) < EarliestReplaced(log, i, k - 1) {
        m := k - 1;
      }
    }
  }

  lemma {:induction false} OrdinaryAnchor(log: seq<Row>, i: nat, k: nat)
    requires k <= i < |log|
    requires !log[i].payload.Compaction?
    ensures EarliestReplaced(log, i, k) == i
  {
    if k > 0 {
      OrdinaryAnchor(log, i, k - 1);
    }
  }

  /** A row of the log that is in view after the first `m` rows is not named by any of them since. */
  lemma InViewUnnamed(log: seq<Row>, m: nat, k: nat)
    requires UniqueIds(log) && k < m <= |log|
    ensures log[k] in IngestAll([], log[..m]) <==> Unnamed(log, log[k].id, k + 1, m)
  {
    SurvivorsExactly(log[..m], log[k]);
    if log[k] in IngestAll([], log[..m]) {
      var i :| 0 <= i < m && log[..m][i] == log[k] && Unnamed(log[..m], log[k].id, i + 1, m);
      assert i == k;
      forall j | k + 1 <= j < m
        ensures !Names(log[j], log[k].id)
      {
        assert log[..m][j] == log[j];
      }
    }
    assert log[..m][k] == log[k];
    assert Unnamed(log, log[k].id, k + 1, m) ==> Unnamed(log[..m], log[k].id, k + 1, m);
  }

  /** A named row of the view bounds the checkpoint's anchor from above. */
  lemma AnchorBelowNamed(log: seq<Row>, m: nat, view: seq<Row>, places: seq<nat>, p: nat)
    requires UniqueIds(log) && m < |log|
    requires view == IngestAll([], log[..m]) && AnchorOrdered(log, m, view, places)
    requires p < |view| && Names(log[m], view[p].id)
    ensures Anchor(log, m) <= Anchor(log, places[p])
  {
    var q := places[p];
    assert view[p] in view;
    InViewUnnamed(log, m, q);
    EarliestIsBelow(log, m, m, q);
  }

  /** An anchor that is not the checkpoint's own place is that of a named row of the view. */
  lemma AnchorFromNamed(log: seq<Row>, m: nat, view: seq<Row>, places: seq<nat>) returns (p: nat)
    requires UniqueIds(log) && m < |log| && Anchor(log, m) != m
    requires view == IngestAll([], log[..m]) && AnchorOrdered(log, m, view, places)
    ensures p < |view| && Names(log[m], view[p].id) && Anchor(log, m) == Anchor(log, places[p])
  {
    var k := EarliestIsOne(log, m, m);
    InViewUnnamed(log, m, k);
    p :| 0 <= p < |view| && view[p] == log[k];
    assert log[places[p]].id == log[k].id;
    assert places[p] == k;
  }

  lemma AnchorsRise(log: seq<Row>, n: nat, view: seq<Row>, places: seq<nat>, p: nat, q: nat)
    requires n <= |log| && AnchorOrdered(log, n, view, places) && p <= q < |view|
    ensures Anchor(log, places[p]) <= Anchor(log, places[q])
  {
    assert p < q ==> Anchors(log, places)[p] < Anchors(log, places)[q];
  }

  /** A checkpoint's anchor is that of the first view row it names. */
  lemma CheckpointAnchor(log: seq<Row>, m: nat, view: seq<Row>, places: seq<nat>)
    requires UniqueIds(log) && m < |log| && log[m].payload.Compaction?
    requires view == IngestAll([], log[..m]) && AnchorOrdered(log, m, view, places)
    ensures var at := FirstNamed(view, Named(log[m]));
            Anchor(log, m) == if at == |view| then m else Anchor(log, places[at])
  {
    var at := FirstNamed(view, Named(log[m]));
    if at < |view| {
      AnchorBelowNamed(log, m, view, places, at);
    }
    if Anchor(log, m) != m {
      var p := AnchorFromNamed(log, m, view, places);
      assert at <= p;
      AnchorsRise(log, m, view, places, at, p);
    }
  }

  lemma OrderedSplit(log: seq<Row>, m: nat, view: seq<Row>, places: seq<nat>, at: nat)
    requires m <= |log| && AnchorOrdered(log, m, view, places) && at <= |view|
    ensures AnchorOrdered(log, m, view[..at], places[..at])
    ensures AnchorOrdered(log, m, view[at..], places[at..])
  {
    AnchorsSplit(log, places, at);
  }

  /** Rows before the first named one have smaller anchors than the checkpoint. */
  lemma AnchorsAround(log: seq<Row>, m: nat, view: seq<Row>, places: seq<nat>, at: nat)
    requires m < |log| && AnchorOrdered(log, m, view, places) && at <= |view|
    requires Anchor(log, m) == if at == |view| then m else Anchor(log, places[at])
    ensures forall p :: 0 <= p < at ==> Anchors(log, places[..at])[p] < Anchor(log, m)
    ensures view[at..] != [] ==> Anchor(log, m) <= Anchor(log, places[at..][0])
  {
    AnchorsSplit(log, places, at);
    forall p | 0 <= p < at
      ensures Anchors(log, places[..at])[p] < Anchor(log, m)
    {
      assert at < |view| ==> Anchors(log, places)[p] < Anchors(log, places)[at];
    }
  }

  /** What takes the checkpoint's place keeps the order, whatever the view is made of. */
  lemma ReplacedKeepsOrder(log: seq<Row>, m: nat, view: seq<Row>, before: seq<nat>, at: nat, later: seq<nat>)
    returns (places: seq<nat>)
    requires m < |log| && AnchorOrdered(log, m, view, before) && at <= |view|
    requires Anchor(log, m) == if at == |view| then m else Anchor(log, before[at])
    requires forall k :: 0 <= k < |later| ==> 0 < later[k] < |view[at..]|
    requires forall k, l :: 0 <= k < l < |later| ==> later[k] < later[l]
    ensures AnchorOrdered(log, m + 1, view[..at] + [log[m]] + Pick(view[at..], later), places)
  {
    OrderedSplit(log, m, view, before, at);
    AnchorsAround(log, m, view, before, at);
    places := before[..at] + [m] + Pick(before[at..], later);
    OrderJoin(log, m, view[..at], before[..at], view[at..], before[at..], later);
  }

  /** A checkpoint keeps the anchor order: it takes over the anchor of the first row it drops. */
  lemma CheckpointKeepsOrder(log: seq<Row>, m: nat, view: seq<Row>, before: seq<nat>) returns (places: seq<nat>)
    requires UniqueIds(log) && m < |log| && log[m].payload.Compaction?
    requires view == IngestAll([], log[..m]) && AnchorOrdered(log, m, view, before)
    ensures AnchorOrdered(log, m + 1, IngestRow(view, log[m]), places)
  {
    var at := FirstNamed(view, Named(log[m]));
    CheckpointAnchor(log, m, view, before);
    CheckpointPlace(view, log[m]);
    var later := RetainPlaces(view[at..], Named(log[m]));
    places := ReplacedKeepsOrder(log, m, view, before, at, later);
  }

  /** The places kept in a stretch that starts with a dropped row. */
  lemma RetainPlaces(view: seq<Row>, named: set<ItemId>) returns (later: seq<nat>)
    requires view != [] ==> view[0].id in named
    ensures forall k :: 0 <= k < |later| ==> 0 < later[k] < |view|
    ensures forall k, l :: 0 <= k < l < |later| ==> later[k] < later[l]
    ensures Retain(view, named) == Pick(view, later)
  {
    later := FilterPlaces(view, Keeps(named));
    forall k | 0 <= k < |later|
      ensures later[k] > 0
    {
      assert Retain(view, named)[k] in Retain(view, named);
    }
  }

  lemma AnchorsSplit(log: seq<Row>, places: seq<nat>, at: nat)
    requires forall p :: 0 <= p < |places| ==> places[p] < |log|
    requires at <= |places|
    ensures Anchors(log, places[..at]) == Anchors(log, places)[..at]
    ensures Anchors(log, places[at..]) == Anchors(log, places)[at..]
  {
  }

  /** Places `pa` of `a`, then place `m`, then some of the places `pb` of `b`. */
  lemma OrderJoin(log: seq<Row>, m: nat, a: seq<Row>, pa: seq<nat>, b: seq<Row>, pb: seq<nat>, later: seq<nat>)
    requires m < |log|
    requires AnchorOrdered(log, m, a, pa) && AnchorOrdered(log, m, b, pb)
    requires forall p :: 0 <= p < |pa| ==> Anchors(log, pa)[p] < Anchor(log, m)
    requires b != [] ==> Anchor(log, m) <= Anchor(log, pb[0])
    requires forall k :: 0 <= k < |later| ==> 0 < later[k] < |b|
    requires forall k, l :: 0 <= k < l < |later| ==> later[k] < later[l]
    ensures AnchorOrdered(log, m + 1, a + [log[m]] + Pick(b, later), pa + [m] + Pick(pb, later))
  {
    PlacesJoin(log, m, a, pa, b, pb, later);
    RisingReplace(Anchors(log, pa), Anchor(log, m), Anchors(log, pb), later);
    AnchorsJoin(log, pa, m, pb, later);
  }

  lemma AnchorsJoin(log: seq<Row>, pa: seq<nat>, m: nat, pb: seq<nat>, later: seq<nat>)
    requires m < |log|
    requires forall p :: 0 <= p < |pa| ==> pa[p] < |log|
    requires forall p :: 0 <= p < |pb| ==> pb[p] < |log|
    requires forall k :: 0 <= k < |later| ==> later[k] < |pb|
    ensures Anchors(log, pa + [m] + Pick(pb, later))
         == Anchors(log, pa) + [Anchor(log, m)] + Pick(Anchors(log, pb), later)
  {
  }

  lemma PlacesJoin(log: seq<Row>, m: nat, a: seq<Row>, pa: seq<nat>, b: seq<Row>, pb: seq<nat>, later: seq<nat>)
    requires m < |log| && |a| == |pa| && |b| == |pb|
    requires forall p :: 0 <= p < |a| ==> pa[p] < m && log[pa[p]] == a[p]
    requires forall p :: 0 <= p < |b| ==> pb[p] < m && log[pb[p]] == b[p]
    requires forall k :: 0 <= k < |later| ==> later[k] < |b|
    ensures var rows := a + [log[m]] + Pick(b, later);
            var places := pa + [m] + Pick(pb, later);
            forall p :: 0 <= p < |rows| ==> places[p] < m + 1 && log[places[p]] == rows[p]
  {
  }

  /** Survivors stand in strictly increasing anchor order. */
  lemma {:induction false} SurvivorsInAnchorOrder(log: seq<Row>, n: nat) returns (places: seq<nat>)
    requires UniqueIds(log) && n <= |log|
    ensures AnchorOrdered(log, n, IngestAll([], log[..n]), places)
  {
    if n == 0 {
      places := [];
    } else {
      var m := n - 1;
      var before := SurvivorsInAnchorOrder(log, m);
      assert Front(log[..n]) == log[..m] && Last(log[..n]) == log[m];
      if log[m].payload.Compaction? {
        places := CheckpointKeepsOrder(log, m, IngestAll([], log[..m]), before);
      } else {
        OrdinaryAnchor(log, m, m);
        places := before + [m];
      }
    }
  }

  // ---- What the fold keeps -------------------------------------------------------------------

  /** Every compaction names rows appended before it. */
  ghost predicate NamesEarlier(log: seq<Row>) {
    forall i, j :: 0 <= i < |log| && 0 <= j < |log| && Names(log[i], log[j].id) ==> j < i
  }

  /** Filtering the view by the ids its own compactions name removes nothing more. */
  lemma FoldLeavesNothingNamed(log: seq<Row>)
    requires UniqueIds(log) && NamesEarlier(log)
    ensures Folded(IngestAll([], log))
  {
    var view := IngestAll([], log);
    assert log[..|log|] == log;
    var places := SurvivorsInAnchorOrder(log, |log|);
    forall a, b | a in view && b in view
      ensures !Names(a, b.id)
    {
      var p :| 0 <= p < |view| && view[p] == a;
      var q :| 0 <= q < |view| && view[q] == b;
      InViewUnnamed(log, |log|, places[q]);
      assert log[places[p]] == a && log[places[q]] == b;
    }
  }

  lemma FoldWellFormed(log: seq<Row>)
    requires WellFormed(log)
    ensures WellFormed(IngestAll([], log))
  {
    var view := IngestAll([], log);
    assert log[..|log|] == log;
    assert UniqueIds(log);
    var places := SurvivorsInAnchorOrder(log, |log|);
    forall p, q | 0 <= p < q < |view|
      ensures view[p].id != view[q].id
      ensures places[p] != places[q]
      ensures !view[p].payload.Compaction? && !view[q].payload.Compaction? ==> places[p] < places[q]
    {
      if !view[p].payload.Compaction? && !view[q].payload.Compaction? {
        OrdinaryAnchor(log, places[p], places[p]);
        OrdinaryAnchor(log, places[q], places[q]);
      }
    }
  }

  lemma NothingNamed(view: seq<Row>, row: Row)
    requires forall x :: x in view ==> !Names(row, x.id)
    ensures IngestRow(view, row) == view + [row]
  {
    if row.payload.Compaction? {
      CheckpointPlace(view, row);
      var at := FirstNamed(view, Named(row));
      forall i | 0 <= i < |view|
        ensures view[i].id !in Named(row)
      {
        assert view[i] in view;
      }
      assert view[..at] == view && view[at..] == [];
    }
  }

  lemma FoldedFront(view: seq<Row>)
    requires Folded(view) && view != []
    ensures Folded(Front(view))
    ensures IngestRow(Front(view), Last(view)) == view
  {
    assert forall x :: x in Front(view) ==> x in view;
    assert Last(view) in view;
    NothingNamed(Front(view), Last(view));
    assert Front(view) + [Last(view)] == view;
  }

  /** A folded view is its own fold, so a run may start from any stored view. */
  lemma {:induction false} FoldedIsItsFold(view: seq<Row>)
    requires Folded(view)
    ensures IngestAll([], view) == view
  {
    if view != [] {
      FoldedFront(view);
      FoldedIsItsFold(Front(view));
    }
  }

  /** A run from a stored view is the tail of one log. */
  lemma RunFromView(view: seq<Row>, rows: seq<Row>)
    requires Folded(view)
    ensures IngestAll(view, rows) == IngestAll([], view + rows)
  {
    FoldedIsItsFold(view);
    IngestConcat([], view, rows);
  }

  /** What later rows may look like: their ids, calls and outputs are new and they name no later row. */
  ghost predicate Continues(view: seq<Row>, rows: seq<Row>) {
    && Folded(view)
    && WellFormed(view + rows)
    && NamesEarlier(view + rows)
  }

  /** Well-formedness and foldedness hold after any stream of committed rows. */
  lemma RunKeepsViewSound(view: seq<Row>, rows: seq<Row>)
    requires Continues(view, rows)
    ensures WellFormed(IngestAll(view, rows))
    ensures Folded(IngestAll(view, rows))
  {
    RunFromView(view, rows);
    FoldWellFormed(view + rows);
    FoldLeavesNothingNamed(view + rows);
  }
}
