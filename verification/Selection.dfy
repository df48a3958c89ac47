/** What the engine may hand to a compaction: the properties of units and the two source selections. */
module Selection {
  import opened Base
  import opened StableSort
  import opened History
  import opened Units

  ghost predicate UniquePlaces(active: seq<Place>) {
    && Placed(active)
    && WellFormed(KeyValues(active))
  }

  lemma {:induction false} ActiveValues(history: seq<Row>, hidden: set<ItemId>)
    ensures KeyValues(ActivePlaces(history, hidden)) == Filter(history, (row: Row) => row.id !in hidden)
  {
    if history != [] {
      ActiveValues(Front(history), hidden);
    }
  }

  lemma ActiveUnique(history: seq<Row>, hidden: set<ItemId>)
    requires WellFormed(history)
    ensures UniquePlaces(ActivePlaces(history, hidden))
  {
    ActiveValues(history, hidden);
    WellFormedSelection(history, (row: Row) => row.id !in hidden);
  }

  lemma SameId(active: seq<Place>, k: Place, l: Place)
    requires UniquePlaces(active) && k in active && l in active && k.value.id == l.value.id
    ensures k == l
  {
    var i :| 0 <= i < |active| && active[i] == k;
    var j :| 0 <= j < |active| && active[j] == l;
    assert KeyValues(active)[i] == k.value && KeyValues(active)[j] == l.value;
  }

  lemma {:induction false} CallResponsesExactly(active: seq<Place>, c: CallId)
    requires WellFormed(KeyValues(active))
    ensures c in CallResponses(active) <==> exists k :: k in active && k.value.payload.ToolCall? && k.value.payload.call == c
    ensures forall k :: k in active && k.value.payload.ToolCall? && k.value.payload.call == c
                        ==> CallResponses(active)[c] == k.value.payload.response
  {
    if active != [] {
      var rows := KeyValues(active);
      assert KeyValues(Front(active)) == rows[..|rows| - 1];
      CallResponsesExactly(Front(active), c);
      assert forall k :: k in active <==> k in Front(active) || k == Last(active);
      forall k | k in Front(active) && k.value.payload.ToolCall? && Last(active).value.payload.ToolCall?
        ensures k.value.payload.call != Last(active).value.payload.call
      {
        var i :| 0 <= i < |active| - 1 && active[i] == k;
        assert rows[i] == k.value && rows[|rows| - 1] == Last(active).value;
      }
    }
  }

  /** The computed response of a row is the response it belongs to. */
  lemma ResponseOfExactly(active: seq<Place>, k: Place, r: ResponseId)
    requires WellFormed(KeyValues(active)) && k in active
    ensures ResponseOf(k.value, CallResponses(active)) == Some(r) <==> InResponse(KeyValues(active), k.value, r)
  {
    var rows := KeyValues(active);
    if k.value.payload.ToolOutput? {
      CallResponsesExactly(active, k.value.payload.call);
      forall c | c in rows && c.payload.ToolCall? && c.payload.call == k.value.payload.call
        ensures exists l :: l in active && l.value == c
      {
        var i :| 0 <= i < |rows| && rows[i] == c;
        assert active[i] in active && active[i].value == c;
      }
      forall l | l in active
        ensures l.value in rows
      {
        var i :| 0 <= i < |active| && active[i] == l;
        assert rows[i] == l.value;
      }
    }
  }

  // ---- Units ---------------------------------------------------------------------------------

  lemma ResponseUnitHolds(active: seq<Place>, r: ResponseId, k: Place)
    requires UniquePlaces(active) && k in active && Members(active, r) != []
    ensures k.value.id in ResponseUnit(active, r).value <==> k in Members(active, r)
  {
    var m := Members(active, r);
    var ids := KeyValues(ItemKeys(m));
    if k.value.id in ids {
      var i :| 0 <= i < |m| && ids[i] == k.value.id;
      assert m[i] in m;
      SameId(active, k, m[i]);
    }
    if k in m {
      var i :| 0 <= i < |m| && m[i] == k;
      assert ids[i] == k.value.id;
    }
  }

  /** A place lies in a response unit iff it belongs to the response, and in a lone unit iff it is its row. */
  lemma UnitHolds(active: seq<Place>, u: Keyed<seq<ItemId>>, k: Place)
    requires UniquePlaces(active) && k in active && IsUnit(active, u)
    ensures k.value.id in u.value
       <==> (exists r :: Members(active, r) != [] && u == ResponseUnit(active, r) && k in Members(active, r))
            || (StandsAlone(k.value) && u == AloneUnit(k))
  {
    forall r | Members(active, r) != []
      ensures k.value.id in ResponseUnit(active, r).value <==> k in Members(active, r)
    {
      ResponseUnitHolds(active, r, k);
    }
    if l :| l in active && StandsAlone(l.value) && u == AloneUnit(l) && l.value.id == k.value.id {
      SameId(active, k, l);
    }
  }

  /** The only unit a place can lie in. */
  function OwnUnit(active: seq<Place>, k: Place): Keyed<seq<ItemId>> {
    var response := ResponseOf(k.value, CallResponses(active));
    if response.Some? && Members(active, response.value) != [] then ResponseUnit(active, response.value) else AloneUnit(k)
  }

  lemma UnitIsOwn(active: seq<Place>, u: Keyed<seq<ItemId>>, k: Place)
    requires UniquePlaces(active) && k in active && IsUnit(active, u) && k.value.id in u.value
    ensures u == OwnUnit(active, k)
  {
    UnitHolds(active, u, k);
  }

  /** Two different units share no row. */
  lemma UnitsDisjoint(active: seq<Place>, u: Keyed<seq<ItemId>>, v: Keyed<seq<ItemId>>, k: Place)
    requires UniquePlaces(active) && k in active && IsUnit(active, u) && IsUnit(active, v)
    requires k.value.id in u.value && k.value.id in v.value
    ensures u == v
  {
    UnitIsOwn(active, u, k);
    UnitIsOwn(active, v, k);
  }

  /** A place is covered iff its row stands alone or belongs to a response. */
  lemma UnitsCover(active: seq<Place>, k: Place)
    requires UniquePlaces(active) && k in active
    ensures (exists u :: u in UnitsFrom(active, |active|) && k.value.id in u.value)
       <==> StandsAlone(k.value) || ResponseOf(k.value, CallResponses(active)).Some?
  {
    if u :| u in UnitsFrom(active, |active|) && k.value.id in u.value {
      UnitsAreUnits(active, u);
      UnitHolds(active, u, k);
    }
    if StandsAlone(k.value) {
      UnitsAreUnits(active, AloneUnit(k));
      UnitHolds(active, AloneUnit(k), k);
    } else if ResponseOf(k.value, CallResponses(active)).Some? {
      var r := ResponseOf(k.value, CallResponses(active)).value;
      assert k in Members(active, r);
      UnitsAreUnits(active, ResponseUnit(active, r));
      UnitHolds(active, ResponseUnit(active, r), k);
    }
  }

  /** `at` gives the places of a unit's rows. */
  ghost predicate PlacesOfUnit(active: seq<Place>, u: Keyed<seq<ItemId>>, at: seq<nat>) {
    && |at| == |u.value| && |at| > 0 && at[0] < |active| && active[at[0]].index == u.index
    && (forall i :: 0 <= i < |at| ==> at[i] < |active| && active[at[i]].value.id == u.value[i])
    && (forall i, j :: 0 <= i < j < |at| ==> at[i] < at[j])
  }

  lemma ResponseUnitPlaces(active: seq<Place>, r: ResponseId) returns (at: seq<nat>)
    requires Members(active, r) != []
    ensures PlacesOfUnit(active, ResponseUnit(active, r), at)
  {
    at := FilterPlaces(active, BelongsTo(r, CallResponses(active)));
  }

  /** A unit holds only ids of active rows, in view order. */
  lemma UnitInOrder(active: seq<Place>, u: Keyed<seq<ItemId>>) returns (at: seq<nat>)
    requires UniquePlaces(active) && IsUnit(active, u)
    ensures PlacesOfUnit(active, u, at)
  {
    if r :| Members(active, r) != [] && u == ResponseUnit(active, r) {
      at := ResponseUnitPlaces(active, r);
    } else {
      var k :| k in active && StandsAlone(k.value) && u == AloneUnit(k);
      var i :| 0 <= i < |active| && active[i] == k;
      at := [i];
    }
  }

  lemma UnitKeepsFellow(active: seq<Place>, u: Keyed<seq<ItemId>>, k: Place, l: Place, r: ResponseId)
    requires UniquePlaces(active) && k in active && l in active && IsUnit(active, u)
    requires ResponseOf(k.value, CallResponses(active)) == Some(r) == ResponseOf(l.value, CallResponses(active))
    requires k.value.id in u.value
    ensures l.value.id in u.value
  {
    UnitIsOwn(active, u, k);
    assert k in Members(active, r) && l in Members(active, r);
    ResponseUnitHolds(active, r, l);
  }

  /** Rows of one response lie in the same units. */
  lemma UnitsWhole(active: seq<Place>, u: Keyed<seq<ItemId>>, k: Place, l: Place)
    requires UniquePlaces(active) && k in active && l in active && IsUnit(active, u)
    requires ResponseOf(k.value, CallResponses(active)).Some?
    requires ResponseOf(k.value, CallResponses(active)) == ResponseOf(l.value, CallResponses(active))
    ensures k.value.id in u.value <==> l.value.id in u.value
  {
    var r := ResponseOf(k.value, CallResponses(active)).value;
    if k.value.id in u.value {
      UnitKeepsFellow(active, u, k, l, r);
    }
    if l.value.id in u.value {
      UnitKeepsFellow(active, u, l, k, r);
    }
  }

  // ---- The two selections --------------------------------------------------------------------

  function Flatten(units: seq<seq<ItemId>>): seq<ItemId> {
    if units == [] then [] else units[0] + Flatten(units[1..])
  }

  function Avoids(protected: set<ItemId>): seq<ItemId> -> bool {
    (unit: seq<ItemId>) => forall id :: id in unit ==> id !in protected
  }

  lemma {:induction false} FlattenExactly(units: seq<seq<ItemId>>, id: ItemId)
    ensures id in Flatten(units) <==> exists u :: u in units && id in u
  {
    if units != [] {
      FlattenExactly(units[1..], id);
      assert units == [units[0]] + units[1..];
    }
  }

  predicate ModelProtects(row: Row, latest: Option<ResponseId>) {
    match row.payload
    case UserTurn(_) => true
    case SteerTurn(_) => true
    case InterAgent(trigger, _) => trigger
    case AssistantMessage(response, _) => Some(response) == latest
    case ToolCall(_, response, _, _, _) => Some(response) == latest
    case Compaction(layout, _, _, _) => layout.ClmCheckpoint?
    case _ => false
  }

  function ModelProtected(active: seq<Place>): set<ItemId> {
    set k | k in active && ModelProtects(k.value, LatestResponse(KeyValues(active))) :: k.value.id
  }

  /** The source of a model-written note: all units that hold nothing protected. */
  function ModelSelection(history: seq<Row>): seq<ItemId> {
    var active := ActivePlaces(history, CompactedIds(history));
    Flatten(Filter(UnitsOf(active), Avoids(ModelProtected(active))))
  }

  method ModelCompactionSource(history: seq<Row>) returns (ids: seq<ItemId>)
    ensures ids == ModelSelection(history)
  {
    var active := ActivePlaces(history, CompactedIds(history));
    var units := SemanticUnits(history, {});
    assert CompactedIds(history) + {} == CompactedIds(history);
    ids := Flatten(Filter(units, Avoids(ModelProtected(active))));
  }

  /** The id of the last place that satisfies `p`. */
  function NewestIn(active: seq<Place>, p: Row -> bool): Option<ItemId> {
    if active == [] then None
    else
      var later := NewestIn(active[1..], p);
      if later.Some? then later
      else if p(active[0].value) then Some(active[0].value.id)
      else None
  }

  /** The newest row of a kind is the last place of that kind. */
  lemma {:induction false} NewestExactly(active: seq<Place>, p: Row -> bool, i: nat)
    requires i < |active| && p(active[i].value)
    requires forall j :: i < j < |active| ==> !p(active[j].value)
    ensures NewestIn(active, p) == Some(active[i].value.id)
  {
    if i > 0 {
      NewestExactly(active[1..], p, i - 1);
    } else {
      NoneNewest(active[1..], p);
    }
  }

  lemma {:induction false} NoneNewest(active: seq<Place>, p: Row -> bool)
    requires forall j :: 0 <= j < |active| ==> !p(active[j].value)
    ensures NewestIn(active, p).None?
  {
    if active != [] {
      NoneNewest(active[1..], p);
    }
  }

  const IsUser: Row -> bool := (row: Row) => row.payload.UserTurn?
  const IsSteer: Row -> bool := (row: Row) => row.payload.SteerTurn?
  const IsTrigger: Row -> bool := (row: Row) => row.payload.InterAgent? && row.payload.trigger

  predicate IsReplay(row: Row) {
    row.payload.Compaction? && row.payload.layout.ClmCheckpoint?
  }

  function ReplayIds(active: seq<Place>): set<ItemId> {
    set k | k in active && IsReplay(k.value) :: k.value.id
  }

  function AsSet(id: Option<ItemId>): set<ItemId> {
    if id.Some? then {id.value} else {}
  }

  function AutomaticProtected(active: seq<Place>, excluded: set<ItemId>): set<ItemId> {
    excluded + AsSet(NewestIn(active, IsUser)) + AsSet(NewestIn(active, IsSteer))
    + AsSet(NewestIn(active, IsTrigger)) + ReplayIds(active)
  }

  function AutomaticSelection(history: seq<Row>, excluded: set<ItemId>): seq<seq<ItemId>> {
    var compacted := CompactedIds(history);
    Filter(UnitsOf(ActivePlaces(history, compacted + excluded)),
           Avoids(AutomaticProtected(ActivePlaces(history, compacted), excluded)))
  }

  /** The newest inputs found and the ids protected so far, scanning from the end down to `n`. */
  datatype Newest = Newest(user: Option<ItemId>, steer: Option<ItemId>, agentInput: Option<ItemId>, protected: set<ItemId>)

  function NewestFrom(rest: seq<Place>, excluded: set<ItemId>): Newest {
    Newest(NewestIn(rest, IsUser), NewestIn(rest, IsSteer), NewestIn(rest, IsTrigger), AutomaticProtected(rest, excluded))
  }

  lemma NewestStep(k: Place, rest: seq<Place>, p: Row -> bool)
    ensures NewestIn([k] + rest, p)
         == if NewestIn(rest, p).Some? then NewestIn(rest, p) else if p(k.value) then Some(k.value.id) else None
  {
    assert ([k] + rest)[1..] == rest;
  }

  lemma ReplayStep(k: Place, rest: seq<Place>)
    ensures ReplayIds([k] + rest) == ReplayIds(rest) + if IsReplay(k.value) then {k.value.id} else {}
  {
  }

  /** Looks at one more row, from the end. */
  method LookAt(k: Place, ghost rest: seq<Place>, excluded: set<ItemId>, before: Newest) returns (after: Newest)
    requires before == NewestFrom(rest, excluded)
    ensures after == NewestFrom([k] + rest, excluded)
  {
    NewestStep(k, rest, IsUser);
    NewestStep(k, rest, IsSteer);
    NewestStep(k, rest, IsTrigger);
    ReplayStep(k, rest);
    var row := k.value;
    after := before;
    match row.payload
    case UserTurn(_) =>
      if before.user.None? {
        after := before.(user := Some(row.id), protected := before.protected + {row.id});
      }
    case SteerTurn(_) =>
      if before.steer.None? {
        after := before.(steer := Some(row.id), protected := before.protected + {row.id});
      }
    case InterAgent(trigger, _) =>
      if trigger && before.agentInput.None? {
        after := before.(agentInput := Some(row.id), protected := before.protected + {row.id});
      }
    case Compaction(layout, _, _, _) =>
      if layout.ClmCheckpoint? {
        after := before.(protected := before.protected + {row.id});
      }
    case _ =>
  }

  method AutomaticCompactionUnits(history: seq<Row>, excluded: set<ItemId>) returns (units: seq<seq<ItemId>>)
    ensures units == AutomaticSelection(history, excluded)
  {
    var active := ActivePlaces(history, CompactedIds(history));
    var newest := Newest(None, None, None, excluded);
    var n := |active|;
    while n > 0
      invariant 0 <= n <= |active|
      invariant newest == NewestFrom(active[n..], excluded)
    {
      ghost var rest := active[n..];
      n := n - 1;
      newest := LookAt(active[n], rest, excluded, newest);
      assert active[n..] == [active[n]] + rest;
    }
    assert active[0..] == active;
    units := SemanticUnits(history, excluded);
    units := Filter(units, Avoids(newest.protected));
  }

  // ---- Exactly what is selected --------------------------------------------------------------

  /** Nothing is hidden from a folded view. */
  lemma FoldedActive(history: seq<Row>)
    requires Folded(history)
    ensures KeyValues(ActivePlaces(history, CompactedIds(history))) == history
  {
    ActiveValues(history, CompactedIds(history));
    FilterAll(history, (row: Row) => row.id !in CompactedIds(history));
  }

  lemma PlaceOfRow(active: seq<Place>, row: Row) returns (k: Place)
    requires row in KeyValues(active)
    ensures k in active && k.value == row
  {
    var i :| 0 <= i < |active| && KeyValues(active)[i] == row;
    k := active[i];
  }

  lemma RowOfPlace(active: seq<Place>, k: Place)
    requires k in active
    ensures k.value in KeyValues(active)
  {
    var i :| 0 <= i < |active| && active[i] == k;
    assert KeyValues(active)[i] == k.value;
  }

  lemma SettledMeansAnswered(active: seq<Place>, c: Row)
    requires Settled(active) && c in KeyValues(active) && c.payload.ToolCall?
    ensures exists o :: o in KeyValues(active) && o.payload.ToolOutput? && o.payload.call == c.payload.call
  {
    var l := PlaceOfRow(active, c);
    assert c.payload.call in CalledIds(active);
    var k :| k in active && k.value.payload.ToolOutput? && k.value.payload.call == c.payload.call;
    RowOfPlace(active, k);
  }

  lemma AnsweredMeansSettled(active: seq<Place>, id: CallId)
    requires AllAnswered(KeyValues(active)) && id in CalledIds(active)
    ensures id in OutputCalls(active)
  {
    var k :| k in active && k.value.payload.ToolCall? && k.value.payload.call == id;
    RowOfPlace(active, k);
    var o :| o in KeyValues(active) && o.payload.ToolOutput? && o.payload.call == id;
    var l := PlaceOfRow(active, o);
  }

  lemma SettledExactly(active: seq<Place>)
    ensures Settled(active) <==> AllAnswered(KeyValues(active))
  {
    if Settled(active) {
      forall c | c in KeyValues(active) && c.payload.ToolCall?
        ensures exists o :: o in KeyValues(active) && o.payload.ToolOutput? && o.payload.call == c.payload.call
      {
        SettledMeansAnswered(active, c);
      }
    }
    if AllAnswered(KeyValues(active)) {
      forall id | id in CalledIds(active)
        ensures id in OutputCalls(active)
      {
        AnsweredMeansSettled(active, id);
      }
    }
  }

  lemma UnitsOfExactly(active: seq<Place>, unit: seq<ItemId>)
    requires Placed(active) && Settled(active)
    ensures unit in UnitsOf(active) <==> exists u :: IsUnit(active, u) && u.value == unit
  {
    var keyed := UnitsFrom(active, |active|);
    if unit in UnitsOf(active) {
      var i :| 0 <= i < |keyed| && KeyValues(keyed)[i] == unit;
      assert keyed[i] in keyed;
      UnitsAreUnits(active, keyed[i]);
    }
    if u :| IsUnit(active, u) && u.value == unit {
      UnitsAreUnits(active, u);
      var i :| 0 <= i < |keyed| && keyed[i] == u;
      assert KeyValues(keyed)[i] == unit;
    }
  }

  function Kept(active: seq<Place>, protected: set<ItemId>): seq<seq<ItemId>> {
    Filter(UnitsOf(active), Avoids(protected))
  }

  /** A lone unit is kept iff its row is not protected. */
  lemma AloneKept(active: seq<Place>, protected: set<ItemId>, k: Place)
    requires UniquePlaces(active) && Settled(active) && k in active
    requires StandsAlone(k.value) && k.value.id !in protected
    ensures AloneUnit(k).value in Kept(active, protected) && k.value.id in AloneUnit(k).value
  {
    assert IsUnit(active, AloneUnit(k));
    UnitsOfExactly(active, AloneUnit(k).value);
  }

  /** The ids of a response unit are those of its members. */
  lemma ResponseUnitIds(active: seq<Place>, r: ResponseId, id: ItemId)
    requires Members(active, r) != [] && id in ResponseUnit(active, r).value
    ensures exists l :: l in Members(active, r) && l.value.id == id
  {
    var m := Members(active, r);
    var i :| 0 <= i < |m| && KeyValues(ItemKeys(m))[i] == id;
    assert m[i] in m && m[i].value.id == id;
  }

  /** A response unit is kept if none of its members is protected. */
  lemma ResponseKept(active: seq<Place>, protected: set<ItemId>, k: Place, r: ResponseId)
    requires UniquePlaces(active) && Settled(active) && k in active
    requires ResponseOf(k.value, CallResponses(active)) == Some(r)
    requires forall l :: l in Members(active, r) ==> l.value.id !in protected
    ensures exists unit :: unit in Kept(active, protected) && k.value.id in unit
  {
    assert k in Members(active, r);
    var unit := ResponseUnit(active, r).value;
    assert IsUnit(active, ResponseUnit(active, r));
    UnitsOfExactly(active, unit);
    forall id | id in unit
      ensures id !in protected
    {
      ResponseUnitIds(active, r, id);
    }
    ResponseUnitHolds(active, r, k);
    assert unit in Kept(active, protected);
  }

  /** What a kept unit that holds `k` is. */
  lemma KeptOnlyIf(active: seq<Place>, protected: set<ItemId>, k: Place, unit: seq<ItemId>)
    requires UniquePlaces(active) && Settled(active) && k in active
    requires unit in Kept(active, protected) && k.value.id in unit
    ensures || (StandsAlone(k.value) && k.value.id !in protected)
            || exists r :: ResponseOf(k.value, CallResponses(active)) == Some(r)
                           && forall l :: l in Members(active, r) ==> l.value.id !in protected
  {
    UnitsOfExactly(active, unit);
    var u :| IsUnit(active, u) && u.value == unit;
    UnitHolds(active, u, k);
    if r :| Members(active, r) != [] && u == ResponseUnit(active, r) && k in Members(active, r) {
      forall l | l in Members(active, r)
        ensures l.value.id !in protected
      {
        ResponseUnitHolds(active, r, l);
      }
      assert ResponseOf(k.value, CallResponses(active)) == Some(r);
    }
  }

  /** A place is selected iff its whole unit avoids the protected ids. */
  lemma SelectedExactly(active: seq<Place>, protected: set<ItemId>, k: Place)
    requires UniquePlaces(active) && Settled(active) && k in active
    ensures k.value.id in Flatten(Filter(UnitsOf(active), Avoids(protected)))
       <==> || (StandsAlone(k.value) && k.value.id !in protected)
            || exists r :: ResponseOf(k.value, CallResponses(active)) == Some(r)
                           && forall l :: l in Members(active, r) ==> l.value.id !in protected
  {
    FlattenExactly(Kept(active, protected), k.value.id);
    if unit :| unit in Kept(active, protected) && k.value.id in unit {
      KeptOnlyIf(active, protected, k, unit);
    }
    if StandsAlone(k.value) && k.value.id !in protected {
      AloneKept(active, protected, k);
    }
    if r :| ResponseOf(k.value, CallResponses(active)) == Some(r)
            && forall l :: l in Members(active, r) ==> l.value.id !in protected {
      ResponseKept(active, protected, k, r);
    }
  }

  /** Selected ids are ids of active rows, and nothing is selected while a response is unsettled. */
  lemma SelectedAreActive(active: seq<Place>, protected: set<ItemId>, id: ItemId)
    requires UniquePlaces(active)
    requires id in Flatten(Filter(UnitsOf(active), Avoids(protected)))
    ensures Settled(active) && exists k :: k in active && k.value.id == id
  {
    FlattenExactly(Filter(UnitsOf(active), Avoids(protected)), id);
    var unit :| unit in UnitsOf(active) && id in unit;
    UnitsOfExactly(active, unit);
    var u :| IsUnit(active, u) && u.value == unit;
    var at := UnitInOrder(active, u);
    var i :| 0 <= i < |unit| && unit[i] == id;
    assert active[at[i]] in active;
  }

  /** A response unit is protected from a model-requested compaction iff it is the latest response. */
  lemma LatestUnitProtected(active: seq<Place>, r: ResponseId)
    requires UniquePlaces(active) && Members(active, r) != []
    ensures (forall l :: l in Members(active, r) ==> l.value.id !in ModelProtected(active))
       <==> LatestResponse(KeyValues(active)) != Some(r)
  {
    var latest := LatestResponse(KeyValues(active));
    forall l | l in Members(active, r)
      ensures l.value.id in ModelProtected(active) <==> IsModelRow(l.value) && latest == Some(r)
    {
      if p :| p in active && ModelProtects(p.value, latest) && p.value.id == l.value.id {
        SameId(active, p, l);
      }
    }
    var first := Members(active, r)[0];
    assert first in Members(active, r);
    if first.value.payload.ToolOutput? {
      CallResponsesExactly(active, first.value.payload.call);
      var c :| c in active && c.value.payload.ToolCall? && c.value.payload.call == first.value.payload.call;
      assert c in Members(active, r);
    } else {
      assert IsModelRow(first.value);
    }
  }

  /** Rows a model-written note may replace although they belong to no response. */
  predicate Replaceable(row: Row) {
    || (row.payload.InterAgent? && !row.payload.trigger)
    || (row.payload.Compaction? && !row.payload.layout.ClmCheckpoint?)
    || row.payload.ErrorRow?
  }

  lemma ModelProtectedExactly(active: seq<Place>, k: Place)
    requires UniquePlaces(active) && k in active
    ensures k.value.id in ModelProtected(active) <==> ModelProtects(k.value, LatestResponse(KeyValues(active)))
  {
    forall p | p in active && p.value.id == k.value.id
      ensures p == k
    {
      SameId(active, p, k);
    }
  }

  lemma OlderResponseUnprotected(active: seq<Place>, k: Place, r: ResponseId)
    requires UniquePlaces(active) && k in active && ResponseOf(k.value, CallResponses(active)) == Some(r)
    ensures (forall l :: l in Members(active, r) ==> l.value.id !in ModelProtected(active))
       <==> LatestResponse(KeyValues(active)) != Some(r)
  {
    assert k in Members(active, r);
    LatestUnitProtected(active, r);
  }

  lemma ModelSelectedPlace(active: seq<Place>, k: Place)
    requires UniquePlaces(active) && Settled(active) && k in active
    ensures k.value.id in Flatten(Filter(UnitsOf(active), Avoids(ModelProtected(active))))
       <==> Replaceable(k.value) || exists r :: ResponseOf(k.value, CallResponses(active)) == Some(r)
                                              && LatestResponse(KeyValues(active)) != Some(r)
  {
    SelectedExactly(active, ModelProtected(active), k);
    ModelProtectedExactly(active, k);
    if ResponseOf(k.value, CallResponses(active)).Some? {
      OlderResponseUnprotected(active, k, ResponseOf(k.value, CallResponses(active)).value);
    }
  }

  /** A computed response and the response a row belongs to agree for every candidate. */
  lemma ResponseAgrees(active: seq<Place>, k: Place)
    requires WellFormed(KeyValues(active)) && k in active
    ensures forall r :: ResponseOf(k.value, CallResponses(active)) == Some(r) <==> InResponse(KeyValues(active), k.value, r)
  {
    forall r
      ensures ResponseOf(k.value, CallResponses(active)) == Some(r) <==> InResponse(KeyValues(active), k.value, r)
    {
      ResponseOfExactly(active, k, r);
    }
  }

  /**
   A model-requested compaction selects exactly the completed older responses with their outputs,
   plus untriggering messages, errors and anchored checkpoints; and nothing while a call is open.
   */
  lemma ModelSelectionExactly(history: seq<Row>, row: Row)
    requires WellFormed(history) && Folded(history) && row in history
    ensures row.id in ModelSelection(history)
       <==> && AllAnswered(history)
            && (Replaceable(row) || exists r :: InResponse(history, row, r) && LatestResponse(history) != Some(r))
  {
    var active := ActivePlaces(history, CompactedIds(history));
    FoldedActive(history);
    ActiveUnique(history, CompactedIds(history));
    SettledExactly(active);
    var i :| 0 <= i < |history| && history[i] == row;
    assert active[i] in active && KeyValues(active)[i] == active[i].value;
    if Settled(active) {
      ModelSelectedPlace(active, active[i]);
      ResponseAgrees(active, active[i]);
    } else if row.id in ModelSelection(history) {
      SelectedAreActive(active, ModelProtected(active), row.id);
    }
  }

  lemma NewestFromActive(active: seq<Place>, p: Row -> bool)
    ensures NewestIn(active, p).Some? ==> exists k :: k in active && p(k.value) && k.value.id == NewestIn(active, p).value
  {
    if active != [] && NewestIn(active, p).Some? && NewestIn(active[1..], p).None? {
      assert active[0] in active;
    }
  }

  /** No member of a response is protected from an automatic compaction, except by exclusion. */
  lemma AutomaticProtects(all: seq<Place>, excluded: set<ItemId>, k: Place)
    requires UniquePlaces(all) && k in all && k.value.id !in excluded
    ensures k.value.id in AutomaticProtected(all, excluded)
       <==> || NewestIn(all, IsUser) == Some(k.value.id) || NewestIn(all, IsSteer) == Some(k.value.id)
            || NewestIn(all, IsTrigger) == Some(k.value.id) || IsReplay(k.value)
    ensures k.value.id in AutomaticProtected(all, excluded) ==> StandsAlone(k.value)
  {
    NewestFromActive(all, IsUser);
    NewestFromActive(all, IsSteer);
    NewestFromActive(all, IsTrigger);
    forall p | p in all && p.value.id == k.value.id
      ensures p == k
    {
      SameId(all, p, k);
    }
  }

  predicate NewestInput(all: seq<Place>, row: Row) {
    || NewestIn(all, IsUser) == Some(row.id)
    || NewestIn(all, IsSteer) == Some(row.id)
    || NewestIn(all, IsTrigger) == Some(row.id)
  }

  lemma ResponsesUnprotected(all: seq<Place>, active: seq<Place>, excluded: set<ItemId>, k: Place, r: ResponseId)
    requires UniquePlaces(all) && k in active && ResponseOf(k.value, CallResponses(active)) == Some(r)
    requires forall l :: l in active ==> l in all && l.value.id !in excluded
    ensures forall l :: l in Members(active, r) ==> l.value.id !in AutomaticProtected(all, excluded)
  {
    forall l | l in Members(active, r)
      ensures l.value.id !in AutomaticProtected(all, excluded)
    {
      AutomaticProtects(all, excluded, l);
    }
  }

  lemma AutomaticSelectedPlace(all: seq<Place>, active: seq<Place>, excluded: set<ItemId>, k: Place)
    requires UniquePlaces(all) && UniquePlaces(active) && Settled(active) && k in active
    requires forall l :: l in active ==> l in all && l.value.id !in excluded
    ensures k.value.id in Flatten(Filter(UnitsOf(active), Avoids(AutomaticProtected(all, excluded))))
       <==> || (StandsAlone(k.value) && !NewestInput(all, k.value) && !IsReplay(k.value))
            || ResponseOf(k.value, CallResponses(active)).Some?
  {
    SelectedExactly(active, AutomaticProtected(all, excluded), k);
    AutomaticProtects(all, excluded, k);
    if ResponseOf(k.value, CallResponses(active)).Some? {
      ResponsesUnprotected(all, active, excluded, k, ResponseOf(k.value, CallResponses(active)).value);
    }
  }

  /**
   An automatic compaction selects exactly the visible rows that stand alone or belong to a response,
   except the newest user turn, the newest steer, the newest triggering input and replay checkpoints.
   */
  lemma AutomaticSelectionExactly(history: seq<Row>, excluded: set<ItemId>, row: Row)
    requires WellFormed(history) && Folded(history) && row in history && row.id !in excluded
    ensures var visible := Filter(history, (x: Row) => x.id !in excluded);
            (row.id in Flatten(AutomaticSelection(history, excluded))
             <==> && AllAnswered(visible)
                  && (|| (StandsAlone(row) && !IsReplay(row)
                          && !NewestInput(ActivePlaces(history, CompactedIds(history)), row))
                      || exists r :: InResponse(visible, row, r)))
  {
    var hidden := CompactedIds(history) + excluded;
    var all, active := ActivePlaces(history, CompactedIds(history)), ActivePlaces(history, hidden);
    ActiveUnique(history, CompactedIds(history));
    ActiveUnique(history, hidden);
    VisibleRows(history, excluded);
    SettledExactly(active);
    var i :| 0 <= i < |history| && history[i] == row;
    var k := Keyed(i, 0, row);
    if Settled(active) {
      AutomaticSelectedPlace(all, active, excluded, k);
      ResponseAgrees(active, k);
    } else if row.id in Flatten(AutomaticSelection(history, excluded)) {
      SelectedAreActive(active, AutomaticProtected(all, excluded), row.id);
    }
  }

  lemma VisibleRows(history: seq<Row>, excluded: set<ItemId>)
    requires Folded(history)
    ensures KeyValues(ActivePlaces(history, CompactedIds(history) + excluded)) == Filter(history, (x: Row) => x.id !in excluded)
    ensures forall k :: k in ActivePlaces(history, CompactedIds(history) + excluded)
                        ==> k in ActivePlaces(history, CompactedIds(history)) && k.value.id !in excluded
  {
    var hidden := CompactedIds(history) + excluded;
    ActiveValues(history, hidden);
    FilterAgree(history, (x: Row) => x.id !in hidden, (x: Row) => x.id !in excluded);
  }

  // ---- Told from the rows alone ----------------------------------------------------------------

  /** The latest response is that of the last text or call. */
  lemma {:induction false} LatestResponseExactly(h: seq<Row>, i: nat)
    requires i < |h| && (h[i].payload.AssistantMessage? || h[i].payload.ToolCall?)
    requires forall j :: i < j < |h| ==> !(h[j].payload.AssistantMessage? || h[j].payload.ToolCall?)
    ensures LatestResponse(h) == Some(h[i].payload.response)
  {
    if i < |h| - 1 {
      LatestResponseExactly(Front(h), i);
    }
  }

  /** A text or a call of the response. */
  ghost predicate WritesFor(row: Row, r: ResponseId) {
    (row.payload.AssistantMessage? || row.payload.ToolCall?) && row.payload.response == r
  }

  /** A later row of the history has this payload property. */
  ghost predicate LaterRow(h: seq<Row>, i: nat, p: Row -> bool) {
    exists j :: i < j < |h| && p(h[j])
  }

  lemma NewestIsLast(all: seq<Place>, h: seq<Row>, i: nat, p: Row -> bool)
    requires UniquePlaces(all) && KeyValues(all) == h && i < |h|
    ensures NewestIn(all, p) == Some(h[i].id) <==> p(h[i]) && !LaterRow(h, i, p)
  {
    if p(h[i]) && !LaterRow(h, i, p) {
      assert forall j :: 0 <= j < |all| ==> all[j].value == h[j];
      NewestExactly(all, p, i);
    }
    if NewestIn(all, p) == Some(h[i].id) {
      NewestFound(all, h, i, p);
    }
  }

  lemma NewestFound(all: seq<Place>, h: seq<Row>, i: nat, p: Row -> bool)
    requires UniquePlaces(all) && KeyValues(all) == h && i < |h| && NewestIn(all, p) == Some(h[i].id)
    ensures p(h[i]) && !LaterRow(h, i, p)
  {
    assert forall j :: 0 <= j < |all| ==> all[j].value == h[j];
    var k := LastPlace(all, p);
    NewestExactly(all, p, k);
    assert h[k].id == h[i].id;
  }

  /** The last place of a kind, if there is one. */
  lemma {:induction false} LastPlace(all: seq<Place>, p: Row -> bool) returns (i: nat)
    requires NewestIn(all, p).Some?
    ensures i < |all| && p(all[i].value) && forall j :: i < j < |all| ==> !p(all[j].value)
  {
    if NewestIn(all[1..], p).Some? {
      i := LastPlace(all[1..], p);
      i := i + 1;
    } else {
      i := 0;
      forall j | 0 < j < |all|
        ensures !p(all[j].value)
      {
        NoLaterPlace(all[1..], p, j - 1);
      }
    }
  }

  lemma {:induction false} NoLaterPlace(all: seq<Place>, p: Row -> bool, j: nat)
    requires NewestIn(all, p).None? && j < |all|
    ensures !p(all[j].value)
  {
    if j > 0 {
      NoLaterPlace(all[1..], p, j - 1);
    }
  }

  /** Every call that is not excluded has an output that is not excluded. */
  ghost predicate VisiblyAnswered(h: seq<Row>, excluded: set<ItemId>) {
    forall c :: c in h && c.payload.ToolCall? && c.id !in excluded
      ==> exists o :: o in h && o.id !in excluded && o.payload.ToolOutput? && o.payload.call == c.payload.call
  }

  /** The call of this output is not excluded. */
  ghost predicate CallVisible(h: seq<Row>, excluded: set<ItemId>, output: Row)
    requires output.payload.ToolOutput?
  {
    exists c :: c in h && c.id !in excluded && c.payload.ToolCall? && c.payload.call == output.payload.call
  }

  /**
   Which rows an automatic compaction may replace, kind by kind: inputs but for the newest of their
   kind, checkpoints but for replays, errors, and every complete response.
   */
  lemma AutomaticByKind(h: seq<Row>, excluded: set<ItemId>, i: nat)
    requires WellFormed(h) && Folded(h) && i < |h|
    ensures h[i].id in Flatten(AutomaticSelection(h, excluded))
       <==> && h[i].id !in excluded && VisiblyAnswered(h, excluded)
            && match h[i].payload
               case UserTurn(_) => exists j :: i < j < |h| && h[j].payload.UserTurn?
               case SteerTurn(_) => exists j :: i < j < |h| && h[j].payload.SteerTurn?
               case InterAgent(trigger, _) => trigger ==> exists j :: i < j < |h| && h[j].payload.InterAgent? && h[j].payload.trigger
               case AssistantMessage(_, _) => true
               case ToolCall(_, _, _, _, _) => true
               case ToolOutput(_, _, _, _) => CallVisible(h, excluded, h[i])
               case Compaction(layout, _, _, _) => !layout.ClmCheckpoint?
               case ErrorRow(_) => true
               case StateRow(_) => false
  {
    if h[i].id in excluded {
      ExcludedStays(h, excluded, h[i].id);
      return;
    }
    var visible := Filter(h, (x: Row) => x.id !in excluded);
    AutomaticSelectionExactly(h, excluded, h[i]);
    LoneByKind(h, i);
    AnsweredVisibly(h, excluded, visible);
    InVisibleResponse(h, excluded, visible, h[i]);
    assert InSomeResponse(visible, h[i]) <==> exists r :: InResponse(visible, h[i], r);
  }

  /** An excluded row is never selected. */
  lemma ExcludedStays(h: seq<Row>, excluded: set<ItemId>, id: ItemId)
    requires WellFormed(h) && id in excluded
    ensures id !in Flatten(AutomaticSelection(h, excluded))
  {
    ActiveUnique(h, CompactedIds(h) + excluded);
    if id in Flatten(AutomaticSelection(h, excluded)) {
      SelectedAreActive(ActivePlaces(h, CompactedIds(h) + excluded), AutomaticProtected(ActivePlaces(h, CompactedIds(h)), excluded), id);
    }
  }

  lemma AnsweredVisibly(h: seq<Row>, excluded: set<ItemId>, visible: seq<Row>)
    requires forall x :: x in visible <==> x in h && x.id !in excluded
    ensures AllAnswered(visible) <==> VisiblyAnswered(h, excluded)
  {
  }

  /** Which rows stand alone and are free to go. */
  lemma LoneByKind(h: seq<Row>, i: nat)
    requires WellFormed(h) && Folded(h) && i < |h|
    ensures StandsAlone(h[i]) && !IsReplay(h[i]) && !NewestInput(ActivePlaces(h, CompactedIds(h)), h[i])
       <==> match h[i].payload
            case UserTurn(_) => exists j :: i < j < |h| && h[j].payload.UserTurn?
            case SteerTurn(_) => exists j :: i < j < |h| && h[j].payload.SteerTurn?
            case InterAgent(trigger, _) => trigger ==> exists j :: i < j < |h| && h[j].payload.InterAgent? && h[j].payload.trigger
            case Compaction(layout, _, _, _) => !layout.ClmCheckpoint?
            case ErrorRow(_) => true
            case _ => false
  {
    NewestInputExactly(h, i);
  }

  lemma NewestInputExactly(h: seq<Row>, i: nat)
    requires WellFormed(h) && Folded(h) && i < |h|
    ensures NewestInput(ActivePlaces(h, CompactedIds(h)), h[i])
       <==> || (h[i].payload.UserTurn? && !LaterRow(h, i, IsUser))
            || (h[i].payload.SteerTurn? && !LaterRow(h, i, IsSteer))
            || (h[i].payload.InterAgent? && h[i].payload.trigger && !LaterRow(h, i, IsTrigger))
  {
    var all := ActivePlaces(h, CompactedIds(h));
    FoldedActive(h);
    ActiveUnique(h, CompactedIds(h));
    NewestIsLast(all, h, i, IsUser);
    NewestIsLast(all, h, i, IsSteer);
    NewestIsLast(all, h, i, IsTrigger);
  }

  ghost predicate InSomeResponse(h: seq<Row>, row: Row) {
    exists r :: InResponse(h, row, r)
  }

  lemma InVisibleResponse(h: seq<Row>, excluded: set<ItemId>, visible: seq<Row>, row: Row)
    requires row in h && forall x :: x in visible <==> x in h && x.id !in excluded
    ensures InSomeResponse(visible, row)
       <==> row.payload.AssistantMessage? || row.payload.ToolCall? || (row.payload.ToolOutput? && CallVisible(h, excluded, row))
  {
    if row.payload.AssistantMessage? || row.payload.ToolCall? {
      assert InResponse(visible, row, row.payload.response);
    } else if row.payload.ToolOutput? && CallVisible(h, excluded, row) {
      var c :| c in h && c.id !in excluded && c.payload.ToolCall? && c.payload.call == row.payload.call;
      assert c in visible && InResponse(visible, row, c.payload.response);
    }
  }

  /** Which rows a model-written note may replace, kind by kind. */
  lemma ModelByKind(h: seq<Row>, i: nat)
    requires WellFormed(h) && Folded(h) && i < |h|
    ensures h[i].id in ModelSelection(h)
       <==> && VisiblyAnswered(h, {})
            && match h[i].payload
               case UserTurn(_) => false
               case SteerTurn(_) => false
               case InterAgent(trigger, _) => !trigger
               case AssistantMessage(r, _) => exists j :: i < j < |h| && LastOfOther(h, j, r)
               case ToolCall(_, r, _, _, _) => exists j :: i < j < |h| && LastOfOther(h, j, r)
               case ToolOutput(call, _, _, _) =>
                 exists c, j :: c in h && c.payload.ToolCall? && c.payload.call == call && 0 <= j < |h| && LastOfOther(h, j, c.payload.response)
               case Compaction(layout, _, _, _) => !layout.ClmCheckpoint?
               case ErrorRow(_) => true
               case StateRow(_) => false
  {
    ModelSelectionExactly(h, h[i]);
    OlderByKind(h, i);
  }

  /** Which rows belong to a response other than the latest. */
  lemma OlderByKind(h: seq<Row>, i: nat)
    requires i < |h|
    ensures (exists r :: InResponse(h, h[i], r) && LatestResponse(h) != Some(r))
       <==> match h[i].payload
            case AssistantMessage(r, _) => exists j :: i < j < |h| && LastOfOther(h, j, r)
            case ToolCall(_, r, _, _, _) => exists j :: i < j < |h| && LastOfOther(h, j, r)
            case ToolOutput(call, _, _, _) =>
              exists c, j :: c in h && c.payload.ToolCall? && c.payload.call == call && 0 <= j < |h| && LastOfOther(h, j, c.payload.response)
            case _ => false
  {
    if IsModelRow(h[i]) {
      OlderExactly(h, i, h[i].payload.response);
      assert InResponse(h, h[i], h[i].payload.response);
    } else if h[i].payload.ToolOutput? {
      OlderOutput(h, h[i]);
    }
  }

  lemma OlderOutput(h: seq<Row>, output: Row)
    requires output in h && output.payload.ToolOutput?
    ensures (exists r :: InResponse(h, output, r) && LatestResponse(h) != Some(r))
       <==> exists c, j :: c in h && c.payload.ToolCall? && c.payload.call == output.payload.call && 0 <= j < |h| && LastOfOther(h, j, c.payload.response)
  {
    forall c | c in h && c.payload.ToolCall?
      ensures LatestResponse(h) != Some(c.payload.response) <==> exists j :: 0 <= j < |h| && LastOfOther(h, j, c.payload.response)
    {
      var k :| 0 <= k < |h| && h[k] == c;
      OlderExactly(h, k, c.payload.response);
    }
    if c, j :| c in h && c.payload.ToolCall? && c.payload.call == output.payload.call && 0 <= j < |h| && LastOfOther(h, j, c.payload.response) {
      assert InResponse(h, output, c.payload.response);
    }
  }

  /** The last text or call of the history stands here, and it is of another response. */
  ghost predicate LastOfOther(h: seq<Row>, j: nat, r: ResponseId)
    requires j < |h|
  {
    && (h[j].payload.AssistantMessage? || h[j].payload.ToolCall?) && h[j].payload.response != r
    && forall k :: j < k < |h| ==> !(h[k].payload.AssistantMessage? || h[k].payload.ToolCall?)
  }

  lemma OlderExactly(h: seq<Row>, i: nat, r: ResponseId)
    requires i < |h| && WritesFor(h[i], r)
    ensures LatestResponse(h) != Some(r) <==> exists j :: i < j < |h| && LastOfOther(h, j, r)
    ensures LatestResponse(h) != Some(r) <==> exists j :: 0 <= j < |h| && LastOfOther(h, j, r)
  {
    var last := LastModelRow(h, i);
    LatestResponseExactly(h, last);
    assert h[last].payload.response != r ==> LastOfOther(h, last, r);
  }

  lemma LastModelRow(h: seq<Row>, i: nat) returns (last: nat)
    requires i < |h| && IsModelRow(h[i])
    ensures i <= last < |h| && IsModelRow(h[last]) && forall k :: last < k < |h| ==> !IsModelRow(h[k])
  {
    last := |h| - 1;
    while !IsModelRow(h[last])
      invariant i <= last < |h|
      invariant forall k :: last < k < |h| ==> !IsModelRow(h[k])
      decreases last
    {
      last := last - 1;
    }
  }

  /** Some unit holds both rows. */
  ghost predicate ShareUnit(h: seq<Row>, excluded: set<ItemId>, a: Row, b: Row) {
    exists unit :: unit in UnitsOf(ActivePlaces(h, CompactedIds(h) + excluded)) && a.id in unit && b.id in unit
  }

  ghost predicate ShareResponse(h: seq<Row>, a: Row, b: Row) {
    exists r :: InResponse(h, a, r) && InResponse(h, b, r)
  }

  /** Two different visible rows share a unit exactly if they belong to one response and no call is open. */
  lemma UnitsShareExactly(h: seq<Row>, excluded: set<ItemId>, visible: seq<Row>, a: Row, b: Row)
    requires WellFormed(h) && Folded(h) && visible == Filter(h, (x: Row) => x.id !in excluded)
    requires a in visible && b in visible && a != b
    ensures ShareUnit(h, excluded, a, b) <==> AllAnswered(visible) && ShareResponse(visible, a, b)
  {
    var active := ActivePlaces(h, CompactedIds(h) + excluded);
    ActiveUnique(h, CompactedIds(h) + excluded);
    VisibleRows(h, excluded);
    RowsShareExactly(active, a, b);
  }

  lemma RowsShareExactly(active: seq<Place>, a: Row, b: Row)
    requires UniquePlaces(active) && a in KeyValues(active) && b in KeyValues(active) && a != b
    ensures (exists unit :: unit in UnitsOf(active) && a.id in unit && b.id in unit)
       <==> AllAnswered(KeyValues(active)) && ShareResponse(KeyValues(active), a, b)
  {
    SettledExactly(active);
    var k := PlaceOfRow(active, a);
    var l := PlaceOfRow(active, b);
    ResponseAgrees(active, k);
    ResponseAgrees(active, l);
    if Settled(active) {
      PlacesShareExactly(active, k, l);
    }
  }

  lemma PlacesShareExactly(active: seq<Place>, k: Place, l: Place)
    requires UniquePlaces(active) && Settled(active) && k in active && l in active && k.value != l.value
    ensures (exists unit :: unit in UnitsOf(active) && k.value.id in unit && l.value.id in unit)
       <==> exists r :: ResponseOf(k.value, CallResponses(active)) == Some(r) && ResponseOf(l.value, CallResponses(active)) == Some(r)
  {
    if unit :| unit in UnitsOf(active) && k.value.id in unit && l.value.id in unit {
      var r := SharedResponse(active, k, l, unit);
    }
    if r :| ResponseOf(k.value, CallResponses(active)) == Some(r) && ResponseOf(l.value, CallResponses(active)) == Some(r) {
      var unit := SharedUnit(active, k, l, r);
    }
  }

  lemma NotAlone(active: seq<Place>, u: Keyed<seq<ItemId>>, k: Place, l: Place)
    requires UniquePlaces(active) && k in active && l in active && k.value != l.value && l.value.id in u.value
    ensures u != AloneUnit(k)
  {
    if l.value.id == k.value.id {
      SameId(active, k, l);
    }
  }

  lemma SharedResponse(active: seq<Place>, k: Place, l: Place, unit: seq<ItemId>) returns (r: ResponseId)
    requires UniquePlaces(active) && Settled(active) && k in active && l in active && k.value != l.value
    requires unit in UnitsOf(active) && k.value.id in unit && l.value.id in unit
    ensures ResponseOf(k.value, CallResponses(active)) == Some(r) && ResponseOf(l.value, CallResponses(active)) == Some(r)
  {
    UnitsOfExactly(active, unit);
    var u :| IsUnit(active, u) && u.value == unit;
    UnitHolds(active, u, k);
    NotAlone(active, u, k, l);
    r :| Members(active, r) != [] && u == ResponseUnit(active, r) && k in Members(active, r);
    ResponseUnitHolds(active, r, l);
  }

  lemma SharedUnit(active: seq<Place>, k: Place, l: Place, r: ResponseId) returns (unit: seq<ItemId>)
    requires UniquePlaces(active) && Settled(active) && k in active && l in active
    requires ResponseOf(k.value, CallResponses(active)) == Some(r) && ResponseOf(l.value, CallResponses(active)) == Some(r)
    ensures unit in UnitsOf(active) && k.value.id in unit && l.value.id in unit
  {
    assert k in Members(active, r) && l in Members(active, r);
    unit := ResponseUnit(active, r).value;
    assert IsUnit(active, ResponseUnit(active, r));
    UnitsOfExactly(active, unit);
    ResponseUnitHolds(active, r, k);
    ResponseUnitHolds(active, r, l);
  }

  /** `at` gives the rising places of these ids in the history. */
  ghost predicate RisingIds(h: seq<Row>, unit: seq<ItemId>, at: seq<nat>) {
    && |at| == |unit|
    && (forall i :: 0 <= i < |at| ==> at[i] < |h| && h[at[i]].id == unit[i])
    && (forall i, j :: 0 <= i < j < |at| ==> at[i] < at[j])
  }

  lemma UnitRises(h: seq<Row>, hidden: set<ItemId>, active: seq<Place>, u: Keyed<seq<ItemId>>) returns (at: seq<nat>)
    requires WellFormed(h) && active == ActivePlaces(h, hidden) && u in UnitsFrom(active, |active|)
    ensures RisingIds(h, u.value, at) && |at| > 0 && at[0] == u.index
  {
    ActiveUnique(h, hidden);
    UnitsAreUnits(active, u);
    var places := UnitInOrder(active, u);
    at := PlacesInHistory(h, hidden, active, u, places);
  }

  lemma PlacesInHistory(h: seq<Row>, hidden: set<ItemId>, active: seq<Place>, u: Keyed<seq<ItemId>>, places: seq<nat>)
    returns (at: seq<nat>)
    requires active == ActivePlaces(h, hidden) && PlacesOfUnit(active, u, places)
    ensures RisingIds(h, u.value, at) && |at| > 0 && at[0] == u.index
  {
    PlacesRise(active);
    assert forall i :: 0 <= i < |active| ==> active[i] in active;
    at := seq(|places|, i requires 0 <= i < |places| => active[places[i]].index);
  }

  /** The units stand in the order of their first rows, and the rows of each in history order. */
  lemma UnitsInOrder(h: seq<Row>, excluded: set<ItemId>, p: nat, q: nat) returns (a: seq<nat>, b: seq<nat>)
    requires WellFormed(h) && p < q < |UnitsOf(ActivePlaces(h, CompactedIds(h) + excluded))|
    ensures var units := UnitsOf(ActivePlaces(h, CompactedIds(h) + excluded));
            RisingIds(h, units[p], a) && RisingIds(h, units[q], b) && |a| > 0 && |b| > 0 && a[0] < b[0]
  {
    var hidden := CompactedIds(h) + excluded;
    var active := ActivePlaces(h, hidden);
    ActiveUnique(h, hidden);
    UnitsFromSorted(active, |active|);
    var keyed := UnitsFrom(active, |active|);
    assert Before(keyed[p], keyed[q]) && keyed[p] in keyed && keyed[q] in keyed;
    a := UnitRises(h, hidden, active, keyed[p]);
    b := UnitRises(h, hidden, active, keyed[q]);
  }

  // ---- Selections never split a response -----------------------------------------------------

  function Ids(list: seq<ItemId>): set<ItemId> {
    set id | id in list
  }

  /** Excluding rows that belong to no response hides no member of one. */
  lemma VisibleResponses(history: seq<Row>, excluded: set<ItemId>, row: Row, r: ResponseId)
    requires forall x, q :: x in history && x.id in excluded ==> !InResponse(history, x, q)
    requires row in history
    ensures InResponse(history, row, r) <==> row.id !in excluded && InResponse(Filter(history, (x: Row) => x.id !in excluded), row, r)
  {
    if InResponse(history, row, r) && row.payload.ToolOutput? {
      var c :| c in history && c.payload.ToolCall? && c.payload.call == row.payload.call && c.payload.response == r;
      assert InResponse(history, c, r);
    }
  }

  /** Any collection of units is whole: it never splits a response, nor a call from its output. */
  lemma UnitsAreWhole(history: seq<Row>, excluded: set<ItemId>, chosen: seq<seq<ItemId>>)
    requires WellFormed(history) && Folded(history)
    requires forall x, q :: x in history && x.id in excluded ==> !InResponse(history, x, q)
    requires forall u :: u in chosen ==> u in UnitsOf(ActivePlaces(history, CompactedIds(history) + excluded))
    ensures Whole(history, Ids(Flatten(chosen)))
  {
    var hidden := CompactedIds(history) + excluded;
    var active := ActivePlaces(history, hidden);
    ActiveUnique(history, hidden);
    VisibleRows(history, excluded);
    forall a, b, r | a in history && b in history && InResponse(history, a, r) && InResponse(history, b, r) && a.id in Ids(Flatten(chosen))
      ensures b.id in Ids(Flatten(chosen))
    {
      VisibleResponses(history, excluded, a, r);
      VisibleResponses(history, excluded, b, r);
      var k, l := PlaceOf(history, hidden, a), PlaceOf(history, hidden, b);
      FlattenExactly(chosen, a.id);
      FlattenExactly(chosen, b.id);
      var unit :| unit in chosen && a.id in unit;
      ResponseOfExactly(active, k, r);
      ResponseOfExactly(active, l, r);
      UnitSharesResponse(active, unit, k, l);
    }
  }

  ghost function PlaceOf(history: seq<Row>, hidden: set<ItemId>, row: Row): (k: Place)
    requires row in history && row.id !in hidden
    ensures k in ActivePlaces(history, hidden) && k.value == row
  {
    var i :| 0 <= i < |history| && history[i] == row;
    Keyed(i, 0, row)
  }

  lemma UnitSharesResponse(active: seq<Place>, unit: seq<ItemId>, k: Place, l: Place)
    requires UniquePlaces(active) && k in active && l in active
    requires unit in UnitsOf(active) && k.value.id in unit
    requires ResponseOf(k.value, CallResponses(active)).Some?
    requires ResponseOf(k.value, CallResponses(active)) == ResponseOf(l.value, CallResponses(active))
    ensures l.value.id in unit
  {
    UnitsOfExactly(active, unit);
    var u :| IsUnit(active, u) && u.value == unit;
    UnitsWhole(active, u, k, l);
  }
}
