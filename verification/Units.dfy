/**
 Semantic compaction units: a committed response with its tool calls and their outputs is one unit,
 every other model-visible row is a unit of its own.
 */
module Units {
  import opened Base
  import opened StableSort
  import opened History

  // Active rows carry their place in the view, which is the key units are ordered by.
  type Place = Keyed<Row>

  /** The ids named by any compaction row. */
  function CompactedIds(history: seq<Row>): (ids: set<ItemId>)
    ensures forall id :: id in ids <==> exists row :: row in history && Names(row, id)
  {
    set row, id | row in history && row.payload.Compaction? && id in row.payload.replaced :: id
  }

  /** The rows that are neither replaced nor excluded, with their places. */
  function ActivePlaces(history: seq<Row>, hidden: set<ItemId>): (active: seq<Place>)
    ensures forall k :: k in active ==> k.index < |history| && k.value == history[k.index] && k.value.id !in hidden && k.priority == 0
    ensures forall i :: 0 <= i < |history| && history[i].id !in hidden ==> Keyed(i, 0, history[i]) in active
    ensures StrictlySorted(active)
  {
    if history == [] then []
    else
      var before := ActivePlaces(Front(history), hidden);
      if Last(history).id in hidden then before else before + [Keyed(|history| - 1, 0, Last(history))]
  }

  function CallResponses(active: seq<Place>): map<CallId, ResponseId> {
    if active == [] then map[]
    else
      var before := CallResponses(Front(active));
      var row := Last(active).value;
      if row.payload.ToolCall? then before[row.payload.call := row.payload.response] else before
  }

  function OutputCalls(active: seq<Place>): set<CallId> {
    set k | k in active && k.value.payload.ToolOutput? :: k.value.payload.call
  }

  function CalledIds(active: seq<Place>): set<CallId> {
    set k | k in active && k.value.payload.ToolCall? :: k.value.payload.call
  }

  /** Every active call has its output. */
  predicate Settled(active: seq<Place>) {
    CalledIds(active) <= OutputCalls(active)
  }

  predicate StandsAlone(row: Row) {
    || row.payload.UserTurn? || row.payload.SteerTurn? || row.payload.InterAgent?
    || row.payload.Compaction? || row.payload.ErrorRow?
  }

  /** The response a row belongs to: its own, or that of the call an output answers. */
  function ResponseOf(row: Row, calls: map<CallId, ResponseId>): Option<ResponseId> {
    if IsModelRow(row) then Some(row.payload.response)
    else if row.payload.ToolOutput? && row.payload.call in calls then Some(calls[row.payload.call])
    else None
  }

  function BelongsTo(r: ResponseId, calls: map<CallId, ResponseId>): Place -> bool {
    (k: Place) => ResponseOf(k.value, calls) == Some(r)
  }

  function ItemKey(k: Place): Keyed<ItemId> {
    Keyed(k.index, 0, k.value.id)
  }

  function ItemKeys(places: seq<Place>): (r: seq<Keyed<ItemId>>)
    ensures |r| == |places| && forall i :: 0 <= i < |r| ==> r[i] == ItemKey(places[i])
  {
    seq(|places|, i requires 0 <= i < |places| => ItemKey(places[i]))
  }

  function KeyValues<T>(s: seq<Keyed<T>>): (r: seq<T>)
    ensures |r| == |s| && forall i :: 0 <= i < |r| ==> r[i] == s[i].value
  {
    seq(|s|, i requires 0 <= i < |s| => s[i].value)
  }

  lemma KeyValuesConcat<T>(a: seq<Keyed<T>>, b: seq<Keyed<T>>)
    ensures KeyValues(a + b) == KeyValues(a) + KeyValues(b)
  {
  }

  /** The places of one response, in view order. */
  function Members(active: seq<Place>, r: ResponseId): seq<Place> {
    Filter(active, BelongsTo(r, CallResponses(active)))
  }

  /** The unit that starts at a place, if one does. */
  function UnitAt(active: seq<Place>, k: Place): (u: seq<Keyed<seq<ItemId>>>)
    ensures |u| <= 1 && (u != [] ==> u[0].index == k.index && u[0].priority == 0)
  {
    if StandsAlone(k.value) then [Keyed(k.index, 0, [k.value.id])]
    else
      var response := ResponseOf(k.value, CallResponses(active));
      if response.None? then []
      else
        var members := Members(active, response.value);
        if members != [] && members[0].index == k.index
        then [Keyed(k.index, 0, KeyValues(ItemKeys(members)))]
        else []
  }

  function UnitsFrom(active: seq<Place>, n: nat): seq<Keyed<seq<ItemId>>>
    requires n <= |active|
  {
    if n == 0 then [] else UnitsFrom(active, n - 1) + UnitAt(active, active[n - 1])
  }

  /** The units in view order; none while any response still waits for a tool output. */
  function UnitsOf(active: seq<Place>): seq<seq<ItemId>> {
    if Settled(active) then KeyValues(UnitsFrom(active, |active|)) else []
  }

  // ---- The builder ---------------------------------------------------------------------------

  function ModelRowOf(r: ResponseId): Place -> bool {
    (k: Place) => IsModelRow(k.value) && k.value.payload.response == r
  }

  function AnswerOf(r: ResponseId, calls: map<CallId, ResponseId>): Place -> bool {
    (k: Place) => k.value.payload.ToolOutput? && k.value.payload.call in calls && calls[k.value.payload.call] == r
  }

  function ModelItems(active: seq<Place>, r: ResponseId): seq<Keyed<ItemId>> {
    ItemKeys(Filter(active, ModelRowOf(r)))
  }

  function OutputItems(active: seq<Place>, r: ResponseId, calls: map<CallId, ResponseId>): seq<Keyed<ItemId>> {
    ItemKeys(Filter(active, AnswerOf(r, calls)))
  }

  function CallsOf(active: seq<Place>, r: ResponseId): seq<CallId> {
    if active == [] then []
    else
      var row := Last(active).value;
      CallsOf(Front(active), r)
      + if row.payload.ToolCall? && row.payload.response == r then [row.payload.call] else []
  }

  lemma ItemKeysConcat(a: seq<Place>, b: seq<Place>)
    ensures ItemKeys(a + b) == ItemKeys(a) + ItemKeys(b)
  {
  }

  ghost predicate Tracks<T>(m: map<ResponseId, seq<T>>, r: ResponseId, list: seq<T>) {
    && (r in m <==> list != [])
    && (r in m ==> m[r] == list)
  }

  /** `entry(r).or_default().push(x)` */
  function Push<T>(m: map<ResponseId, seq<T>>, r: ResponseId, x: T): map<ResponseId, seq<T>> {
    m[r := (if r in m then m[r] else []) + [x]]
  }

  ghost predicate ItemsTracked(items: map<ResponseId, seq<Keyed<ItemId>>>, active: seq<Place>) {
    forall r :: Tracks(items, r, ModelItems(active, r))
  }

  ghost predicate CallsTracked(responseCalls: map<ResponseId, seq<CallId>>, active: seq<Place>) {
    forall r :: Tracks(responseCalls, r, CallsOf(active, r))
  }

  ghost predicate Collected(active: seq<Place>, n: nat, calls: map<CallId, ResponseId>,
                            items: map<ResponseId, seq<Keyed<ItemId>>>, responseCalls: map<ResponseId, seq<CallId>>,
                            outputs: set<CallId>)
    requires n <= |active|
  {
    && calls == CallResponses(active[..n])
    && outputs == OutputCalls(active[..n])
    && ItemsTracked(items, active[..n])
    && CallsTracked(responseCalls, active[..n])
  }

  lemma OutputCallsStep(active: seq<Place>, n: nat)
    requires n < |active|
    ensures OutputCalls(active[..n + 1]) == OutputCalls(active[..n])
         + if active[n].value.payload.ToolOutput? then {active[n].value.payload.call} else {}
  {
    assert active[..n + 1] == active[..n] + [active[n]];
    assert forall k :: k in active[..n + 1] <==> k in active[..n] || k == active[n];
  }

  lemma ItemsStep(active: seq<Place>, n: nat, items: map<ResponseId, seq<Keyed<ItemId>>>)
    requires n < |active|
    requires ItemsTracked(items, active[..n])
    ensures var k := active[n];
            ItemsTracked(if IsModelRow(k.value) then Push(items, k.value.payload.response, ItemKey(k)) else items,
                         active[..n + 1])
  {
    var k := active[n];
    var next := if IsModelRow(k.value) then Push(items, k.value.payload.response, ItemKey(k)) else items;
    forall r: ResponseId {:trigger ModelRowOf(r)}
      ensures Tracks(next, r, ModelItems(active[..n + 1], r))
    {
      FilterStep(active, n, ModelRowOf(r));
      ItemKeysConcat(Filter(active[..n], ModelRowOf(r)), [k]);
      assert Tracks(items, r, ModelItems(active[..n], r));
    }
  }

  lemma CallsStep(active: seq<Place>, n: nat, responseCalls: map<ResponseId, seq<CallId>>)
    requires n < |active|
    requires CallsTracked(responseCalls, active[..n])
    ensures var row := active[n].value;
            CallsTracked(if row.payload.ToolCall? then Push(responseCalls, row.payload.response, row.payload.call)
                         else responseCalls,
                         active[..n + 1])
  {
    var row := active[n].value;
    var next := if row.payload.ToolCall? then Push(responseCalls, row.payload.response, row.payload.call)
                else responseCalls;
    assert Front(active[..n + 1]) == active[..n] && Last(active[..n + 1]) == active[n];
    forall r: ResponseId {:trigger CallsOf(active[..n + 1], r)}
      ensures Tracks(next, r, CallsOf(active[..n + 1], r))
    {
      assert Tracks(responseCalls, r, CallsOf(active[..n], r));
    }
  }

  /** First pass: calls, outputs and the model rows of each response. */
  method Collect(active: seq<Place>)
    returns (calls: map<CallId, ResponseId>, items: map<ResponseId, seq<Keyed<ItemId>>>,
             responseCalls: map<ResponseId, seq<CallId>>, outputs: set<CallId>)
    ensures Collected(active, |active|, calls, items, responseCalls, outputs)
  {
    calls, items, responseCalls, outputs := map[], map[], map[], {};
    for n := 0 to |active|
      invariant Collected(active, n, calls, items, responseCalls, outputs)
    {
      var k := active[n];
      assert Front(active[..n + 1]) == active[..n] && Last(active[..n + 1]) == k;
      OutputCallsStep(active, n);
      ItemsStep(active, n, items);
      CallsStep(active, n, responseCalls);
      match k.value.payload
      case AssistantMessage(response, _) =>
        items := Push(items, response, ItemKey(k));
      case ToolCall(call, response, _, _, _) =>
        calls := calls[call := response];
        responseCalls := Push(responseCalls, response, call);
        items := Push(items, response, ItemKey(k));
      case ToolOutput(call, _, _, _) =>
        outputs := outputs + {call};
      case _ =>
    }
    assert active[..|active|] == active;
  }

  ghost predicate OutputsAttached(items: map<ResponseId, seq<Keyed<ItemId>>>, active: seq<Place>, n: nat,
                                  calls: map<CallId, ResponseId>)
    requires n <= |active|
  {
    forall r :: Tracks(items, r, ModelItems(active, r) + OutputItems(active[..n], r, calls))
  }

  lemma AttachStep(active: seq<Place>, n: nat, calls: map<CallId, ResponseId>, items: map<ResponseId, seq<Keyed<ItemId>>>)
    requires n < |active|
    requires OutputsAttached(items, active, n, calls)
    ensures var k := active[n];
            var answers := k.value.payload.ToolOutput? && k.value.payload.call in calls;
            OutputsAttached(if answers then Push(items, calls[k.value.payload.call], ItemKey(k)) else items,
                            active, n + 1, calls)
  {
    var k := active[n];
    var answers := k.value.payload.ToolOutput? && k.value.payload.call in calls;
    var next := if answers then Push(items, calls[k.value.payload.call], ItemKey(k)) else items;
    forall r
      ensures Tracks(next, r, ModelItems(active, r) + OutputItems(active[..n + 1], r, calls))
    {
      FilterStep(active, n, AnswerOf(r, calls));
      ItemKeysConcat(Filter(active[..n], AnswerOf(r, calls)), [k]);
      var before := ModelItems(active, r) + OutputItems(active[..n], r, calls);
      assert Tracks(items, r, before);
      assert ModelItems(active, r) + OutputItems(active[..n + 1], r, calls)
          == before + if AnswerOf(r, calls)(k) then [ItemKey(k)] else [];
    }
  }

  /** Second pass: outputs join the response of their call. */
  method AttachOutputs(active: seq<Place>, calls: map<CallId, ResponseId>, before: map<ResponseId, seq<Keyed<ItemId>>>)
    returns (items: map<ResponseId, seq<Keyed<ItemId>>>)
    requires ItemsTracked(before, active)
    ensures OutputsAttached(items, active, |active|, calls)
  {
    items := before;
    assert forall r :: ModelItems(active, r) + OutputItems(active[..0], r, calls) == ModelItems(active, r);
    for n := 0 to |active|
      invariant OutputsAttached(items, active, n, calls)
    {
      AttachStep(active, n, calls, items);
      if active[n].value.payload.ToolOutput? && active[n].value.payload.call in calls {
        items := Push(items, calls[active[n].value.payload.call], ItemKey(active[n]));
      }
    }
  }

  // ---- The builder computes the units --------------------------------------------------------

  ghost predicate Placed(active: seq<Place>) {
    StrictlySorted(active) && forall k :: k in active ==> k.priority == 0
  }

  lemma SamePlace(active: seq<Place>, k: Place, l: Place)
    requires Placed(active) && k in active && l in active && k.index == l.index
    ensures k == l
  {
    PlacesRise(active);
    var i :| 0 <= i < |active| && active[i] == k;
    var j :| 0 <= j < |active| && active[j] == l;
  }

  lemma PlacesRise(active: seq<Place>)
    requires Placed(active)
    ensures forall i, j :: 0 <= i < j < |active| ==> active[i].index < active[j].index
  {
    forall i, j | 0 <= i < j < |active|
      ensures active[i].index < active[j].index
    {
      assert Before(active[i], active[j]) && active[i] in active && active[j] in active;
    }
  }

  lemma SelectionPlaced(active: seq<Place>, p: Place -> bool)
    requires Placed(active)
    ensures Placed(Filter(active, p))
    ensures StrictlySorted(ItemKeys(Filter(active, p)))
  {
    var at := FilterPlaces(active, p);
  }

  /** Two selections without a common place have no common key. */
  lemma ApartKeys(active: seq<Place>, p: Place -> bool, q: Place -> bool)
    requires Placed(active) && forall k :: k in active ==> !(p(k) && q(k))
    ensures DistinctKeys(ItemKeys(Filter(active, p)) + ItemKeys(Filter(active, q)))
  {
    var a, b := Filter(active, p), Filter(active, q);
    SelectionPlaced(active, p);
    SelectionPlaced(active, q);
    forall i, j | 0 <= i < |a| && 0 <= j < |b|
      ensures a[i].index != b[j].index
    {
      assert a[i] in a && b[j] in b;
      if a[i].index == b[j].index {
        SamePlace(active, a[i], b[j]);
      }
    }
  }

  /** Model rows followed by outputs, sorted by place, are the members of the response. */
  lemma SortedMembers(active: seq<Place>, r: ResponseId)
    requires Placed(active)
    ensures var calls := CallResponses(active);
            Sort(ModelItems(active, r) + OutputItems(active, r, calls)) == ItemKeys(Members(active, r))
  {
    var calls := CallResponses(active);
    ApartKeys(active, ModelRowOf(r), AnswerOf(r, calls));
    SelectionPlaced(active, BelongsTo(r, calls));
    SameItems(Filter(active, ModelRowOf(r)), Filter(active, AnswerOf(r, calls)), Members(active, r));
    SortedForm(ModelItems(active, r) + OutputItems(active, r, calls), ItemKeys(Members(active, r)));
  }

  lemma SameItems(a: seq<Place>, b: seq<Place>, m: seq<Place>)
    requires forall k :: k in m <==> k in a || k in b
    ensures forall x :: x in ItemKeys(a) + ItemKeys(b) <==> x in ItemKeys(m)
  {
    forall x
      ensures x in ItemKeys(a) + ItemKeys(b) <==> x in ItemKeys(m)
    {
      ItemKeysMember(a, x);
      ItemKeysMember(b, x);
      ItemKeysMember(m, x);
    }
  }

  lemma ItemKeysMember(a: seq<Place>, x: Keyed<ItemId>)
    ensures x in ItemKeys(a) <==> exists k :: k in a && ItemKey(k) == x
  {
    if x in ItemKeys(a) {
      var i :| 0 <= i < |a| && ItemKeys(a)[i] == x;
      assert a[i] in a && ItemKey(a[i]) == x;
    }
    if k :| k in a && ItemKey(k) == x {
      var i :| 0 <= i < |a| && a[i] == k;
      assert ItemKeys(a)[i] == x;
    }
  }

  function ResponseUnit(active: seq<Place>, r: ResponseId): Keyed<seq<ItemId>>
    requires Members(active, r) != []
  {
    Keyed(Members(active, r)[0].index, 0, KeyValues(ItemKeys(Members(active, r))))
  }

  lemma ResponseUnitsDiffer(active: seq<Place>, r: ResponseId, q: ResponseId)
    requires Placed(active)
    requires Members(active, r) != [] && Members(active, q) != [] && r != q
    ensures ResponseUnit(active, r).index != ResponseUnit(active, q).index
  {
    var a, b := Members(active, r)[0], Members(active, q)[0];
    assert a in Members(active, r) && b in Members(active, q);
    if a.index == b.index {
      SamePlace(active, a, b);
    }
  }

  lemma {:induction false} UnitsFromExactly(active: seq<Place>, n: nat, u: Keyed<seq<ItemId>>)
    requires n <= |active|
    ensures u in UnitsFrom(active, n) <==> exists i :: 0 <= i < n && UnitAt(active, active[i]) == [u]
  {
    if n > 0 {
      UnitsFromExactly(active, n - 1, u);
      var last := UnitAt(active, active[n - 1]);
      assert u in last <==> last == [u];
    }
  }

  lemma {:induction false} UnitsFromSorted(active: seq<Place>, n: nat)
    requires Placed(active) && n <= |active|
    ensures StrictlySorted(UnitsFrom(active, n))
    ensures forall u :: u in UnitsFrom(active, n) ==> u.priority == 0 && exists i :: 0 <= i < n && active[i].index == u.index
  {
    if n > 0 {
      UnitsFromSorted(active, n - 1);
      var before, last := UnitsFrom(active, n - 1), UnitAt(active, active[n - 1]);
      forall u, v | u in before && v in last
        ensures Before(u, v)
      {
        var i :| 0 <= i < n - 1 && active[i].index == u.index;
        assert Before(active[i], active[n - 1]);
        assert active[i] in active && active[n - 1] in active;
      }
    }
  }

  /** A response unit is emitted exactly at the place of its first member. */
  lemma UnitAtFirstMember(active: seq<Place>, k: Place, r: ResponseId)
    requires Placed(active) && k in active
    requires Members(active, r) != [] && k.index == ResponseUnit(active, r).index
    ensures UnitAt(active, k) == [ResponseUnit(active, r)]
  {
    var first := Members(active, r)[0];
    assert first in Members(active, r);
    SamePlace(active, k, first);
  }

  /** Which units there are, independently of any enumeration order. */
  ghost predicate IsUnit(active: seq<Place>, u: Keyed<seq<ItemId>>) {
    || (exists r :: Members(active, r) != [] && u == ResponseUnit(active, r))
    || (exists k :: k in active && StandsAlone(k.value) && u == AloneUnit(k))
  }

  lemma UnitsAreUnits(active: seq<Place>, u: Keyed<seq<ItemId>>)
    requires Placed(active)
    ensures u in UnitsFrom(active, |active|) <==> IsUnit(active, u)
  {
    UnitsFromExactly(active, |active|, u);
    if u in UnitsFrom(active, |active|) {
      var i :| 0 <= i < |active| && UnitAt(active, active[i]) == [u];
      var k := active[i];
      assert k in active;
      if !StandsAlone(k.value) {
        var r := ResponseOf(k.value, CallResponses(active)).value;
        assert Members(active, r) != [] && u == ResponseUnit(active, r);
      }
    }
    if IsUnit(active, u) {
      if r :| Members(active, r) != [] && u == ResponseUnit(active, r) {
        var first := Members(active, r)[0];
        assert first in Members(active, r);
        UnitAtFirstMember(active, first, r);
        var i :| 0 <= i < |active| && active[i] == first;
      } else {
        var k :| k in active && StandsAlone(k.value) && u == AloneUnit(k);
        var i :| 0 <= i < |active| && active[i] == k;
        assert UnitAt(active, active[i]) == [u];
      }
    }
  }

  lemma {:induction false} CallsOfExactly(active: seq<Place>, r: ResponseId, c: CallId)
    ensures c in CallsOf(active, r)
       <==> exists k :: k in active && k.value.payload.ToolCall? && k.value.payload.response == r && k.value.payload.call == c
  {
    if active != [] {
      CallsOfExactly(Front(active), r, c);
      assert active == Front(active) + [Last(active)];
      assert forall k :: k in active <==> k in Front(active) || k == Last(active);
    }
  }

  /** Does response `r` hold a call that has no output yet? */
  predicate Waiting(r: ResponseId, responseCalls: map<ResponseId, seq<CallId>>, outputs: set<CallId>) {
    r in responseCalls && exists c :: c in responseCalls[r] && c !in outputs
  }

  lemma WaitingMeansUnsettled(active: seq<Place>, items: map<ResponseId, seq<Keyed<ItemId>>>,
                              responseCalls: map<ResponseId, seq<CallId>>, outputs: set<CallId>)
    requires OutputsAttached(items, active, |active|, CallResponses(active))
    requires CallsTracked(responseCalls, active) && outputs == OutputCalls(active)
    ensures Settled(active) <==> !exists r :: r in items && Waiting(r, responseCalls, outputs)
  {
    if r :| r in items && Waiting(r, responseCalls, outputs) {
      assert Tracks(responseCalls, r, CallsOf(active, r));
      var c :| c in responseCalls[r] && c !in outputs;
      CallsOfExactly(active, r, c);
      assert c in CalledIds(active);
    }
    if !Settled(active) {
      var c :| c in CalledIds(active) && c !in OutputCalls(active);
      var k :| k in active && k.value.payload.ToolCall? && k.value.payload.call == c;
      var r := k.value.payload.response;
      CallsOfExactly(active, r, c);
      assert Tracks(responseCalls, r, CallsOf(active, r));
      assert k in Filter(active, ModelRowOf(r));
      assert ModelItems(active, r) != [];
      assert Tracks(items, r, ModelItems(active, r) + OutputItems(active[..|active|], r, CallResponses(active)));
      assert Waiting(r, responseCalls, outputs);
    }
  }

  ghost predicate HoldsResponses(active: seq<Place>, done: set<ResponseId>, units: seq<Keyed<seq<ItemId>>>) {
    && DistinctKeys(units)
    && (forall r :: r in done ==> Members(active, r) != [] && ResponseUnit(active, r) in units)
    && (forall u :: u in units ==> exists r :: r in done && Members(active, r) != [] && u == ResponseUnit(active, r))
  }

  lemma AddResponse(active: seq<Place>, done: set<ResponseId>, r: ResponseId, units: seq<Keyed<seq<ItemId>>>)
    requires Placed(active) && HoldsResponses(active, done, units)
    requires r !in done && Members(active, r) != []
    ensures HoldsResponses(active, done + {r}, units + [ResponseUnit(active, r)])
  {
    forall i | 0 <= i < |units|
      ensures !SameKey(units[i], ResponseUnit(active, r))
    {
      assert units[i] in units;
      var q :| q in done && Members(active, q) != [] && units[i] == ResponseUnit(active, q);
      ResponseUnitsDiffer(active, q, r);
    }
  }

  lemma ItemsAreMembers(active: seq<Place>, items: map<ResponseId, seq<Keyed<ItemId>>>, r: ResponseId)
    requires Placed(active)
    requires OutputsAttached(items, active, |active|, CallResponses(active))
    ensures r in items <==> Members(active, r) != []
    ensures r in items ==> Sort(items[r]) == ItemKeys(Members(active, r))
  {
    assert active[..|active|] == active;
    assert Tracks(items, r, ModelItems(active, r) + OutputItems(active[..|active|], r, CallResponses(active)));
    SortedMembers(active, r);
  }

  /** Third pass: one unit per response, in whatever order the map yields the responses. */
  method ResponseUnits(active: seq<Place>, items: map<ResponseId, seq<Keyed<ItemId>>>,
                       responseCalls: map<ResponseId, seq<CallId>>, outputs: set<CallId>)
    returns (units: seq<Keyed<seq<ItemId>>>)
    requires Placed(active)
    requires OutputsAttached(items, active, |active|, CallResponses(active))
    requires forall r :: r in items ==> !Waiting(r, responseCalls, outputs)
    ensures HoldsResponses(active, items.Keys, units)
    ensures forall r :: r in items <==> Members(active, r) != []
  {
    forall r
      ensures r in items <==> Members(active, r) != []
    {
      ItemsAreMembers(active, items, r);
    }
    units := [];
    var left := items.Keys;
    while left != {}
      invariant left <= items.Keys
      invariant HoldsResponses(active, items.Keys - left, units)
    {
      var response :| response in left;
      ItemsAreMembers(active, items, response);
      if !Waiting(response, responseCalls, outputs) {
        var sorted := Sort(items[response]);
        if sorted != [] {
          AddResponse(active, items.Keys - left, response, units);
          units := units + [Keyed(sorted[0].index, 0, KeyValues(sorted))];
        }
      }
      assert items.Keys - (left - {response}) == items.Keys - left + {response};
      left := left - {response};
    }
  }

  function AloneUnit(k: Place): Keyed<seq<ItemId>> {
    Keyed(k.index, 0, [k.value.id])
  }

  ghost predicate HoldsAlone(active: seq<Place>, n: nat, responses: seq<Keyed<seq<ItemId>>>, units: seq<Keyed<seq<ItemId>>>)
    requires n <= |active|
  {
    && DistinctKeys(units)
    && (forall u :: u in responses ==> u in units)
    && (forall i :: 0 <= i < n && StandsAlone(active[i].value) ==> AloneUnit(active[i]) in units)
    && (forall u :: u in units ==> u in responses || exists i :: 0 <= i < n && StandsAlone(active[i].value) && u == AloneUnit(active[i]))
  }

  /** No response unit starts at a row that stands alone. */
  lemma ResponseElsewhere(active: seq<Place>, done: set<ResponseId>, responses: seq<Keyed<seq<ItemId>>>, n: nat, u: Keyed<seq<ItemId>>)
    requires Placed(active) && n < |active| && StandsAlone(active[n].value)
    requires HoldsResponses(active, done, responses) && u in responses
    ensures u.index != active[n].index
  {
    var r :| r in done && Members(active, r) != [] && u == ResponseUnit(active, r);
    var first := Members(active, r)[0];
    assert first in Members(active, r);
    if first.index == active[n].index {
      SamePlace(active, first, active[n]);
    }
  }

  lemma NewPlace(active: seq<Place>, done: set<ResponseId>, responses: seq<Keyed<seq<ItemId>>>, n: nat,
                 units: seq<Keyed<seq<ItemId>>>)
    requires Placed(active) && n < |active| && StandsAlone(active[n].value)
    requires HoldsResponses(active, done, responses) && HoldsAlone(active, n, responses, units)
    ensures forall u :: u in units ==> u.index != active[n].index
  {
    PlacesRise(active);
    forall u | u in units
      ensures u.index != active[n].index
    {
      if u in responses {
        ResponseElsewhere(active, done, responses, n, u);
      }
    }
  }

  lemma AddAlone(active: seq<Place>, done: set<ResponseId>, responses: seq<Keyed<seq<ItemId>>>, n: nat,
                 units: seq<Keyed<seq<ItemId>>>)
    requires Placed(active) && n < |active| && StandsAlone(active[n].value)
    requires HoldsResponses(active, done, responses) && HoldsAlone(active, n, responses, units)
    ensures HoldsAlone(active, n + 1, responses, units + [AloneUnit(active[n])])
  {
    NewPlace(active, done, responses, n, units);
    var longer := units + [AloneUnit(active[n])];
    assert forall i :: 0 <= i < |units| ==> units[i] in units;
    assert forall u :: u in longer <==> u in units || u == AloneUnit(active[n]);
  }

  /** Fourth pass: every input, checkpoint and error row is a unit of its own. */
  method AppendAlone(active: seq<Place>, responses: seq<Keyed<seq<ItemId>>>, ghost done: set<ResponseId>)
    returns (units: seq<Keyed<seq<ItemId>>>)
    requires Placed(active) && HoldsResponses(active, done, responses)
    ensures HoldsAlone(active, |active|, responses, units)
  {
    units := responses;
    for n := 0 to |active|
      invariant HoldsAlone(active, n, responses, units)
    {
      if StandsAlone(active[n].value) {
        AddAlone(active, done, responses, n, units);
        units := units + [Keyed(active[n].index, 0, [active[n].value.id])];
      }
    }
  }

  lemma BuiltUnit(active: seq<Place>, done: set<ResponseId>, responses: seq<Keyed<seq<ItemId>>>,
                  units: seq<Keyed<seq<ItemId>>>, u: Keyed<seq<ItemId>>)
    requires HoldsResponses(active, done, responses) && HoldsAlone(active, |active|, responses, units)
    requires forall r :: r in done <==> Members(active, r) != []
    ensures u in units <==> IsUnit(active, u)
  {
    assert forall i :: 0 <= i < |active| ==> active[i] in active;
    if k :| k in active && StandsAlone(k.value) && u == AloneUnit(k) {
      var i :| 0 <= i < |active| && active[i] == k;
    }
  }

  lemma BuiltExactly(active: seq<Place>, done: set<ResponseId>, responses: seq<Keyed<seq<ItemId>>>,
                     units: seq<Keyed<seq<ItemId>>>)
    requires Placed(active)
    requires HoldsResponses(active, done, responses) && HoldsAlone(active, |active|, responses, units)
    requires forall r :: r in done <==> Members(active, r) != []
    ensures Sort(units) == UnitsFrom(active, |active|)
  {
    UnitsFromSorted(active, |active|);
    forall u
      ensures u in units <==> u in UnitsFrom(active, |active|)
    {
      UnitsAreUnits(active, u);
      BuiltUnit(active, done, responses, units, u);
    }
    SortedForm(units, UnitsFrom(active, |active|));
  }

  /** Groups the visible rows into semantic units. */
  method SemanticUnits(history: seq<Row>, excluded: set<ItemId>) returns (units: seq<seq<ItemId>>)
    ensures units == UnitsOf(ActivePlaces(history, CompactedIds(history) + excluded))
  {
    var active := ActivePlaces(history, CompactedIds(history) + excluded);
    assert Placed(active) && active[..|active|] == active;
    var calls, items, responseCalls, outputs := Collect(active);
    items := AttachOutputs(active, calls, items);
    WaitingMeansUnsettled(active, items, responseCalls, outputs);
    if exists r :: r in items && Waiting(r, responseCalls, outputs) {
      return [];
    }
    var responses := ResponseUnits(active, items, responseCalls, outputs);
    var keyed := AppendAlone(active, responses, items.Keys);
    BuiltExactly(active, items.Keys, responses, keyed);
    units := KeyValues(Sort(keyed));
  }
}
