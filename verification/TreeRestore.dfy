/** Rebuilding the agent tree of a root session from its durable spawn edges, in any order. */
module TreeRestore {
  import opened Base

  type Session = string
  type Path = string

  /** `sound` is false when the durable status, mail or resume marker of the child cannot be restored. */
  datatype Edge = Edge(root: Session, parent: Session, session: Session, task: string, path: Path, order: nat, sound: bool)

  datatype Agent = Agent(session: Session, parent: Option<Path>, order: nat)

  datatype Error =
    | ForeignRoot | ParentUnreachable | InvalidTask | PathMismatch | UnsoundState
    | ParentMissing | AlreadyExists | SessionRegistered | RegistryFull | OrderUsed | OrderExhausted

  datatype Result<T> = Ok(value: T) | Err(error: Error)

  const ROOT: Path := "/root"
  const MAX_RETAINED_AGENTS := 256
  // ---- Paths -----------------------------------------------------------------------------------

  predicate TaskChar(c: char) {
    'a' <= c <= 'z' || '0' <= c <= '9' || c == '_'
  }

  predicate ValidTask(task: string) {
    task != "" && task != "root" && forall c :: c in task ==> TaskChar(c)
  }

  function Join(parent: Path, task: string): Path {
    parent + "/" + task
  }

  function Depth(path: Path): nat {
    if path == "" then 0 else Depth(Front(path)) + if Last(path) == '/' then 1 else 0
  }

  lemma {:induction false} DepthConcat(a: string, b: string)
    ensures Depth(a + b) == Depth(a) + Depth(b)
  {
    if b == "" {
      assert a + b == a;
    } else {
      DepthConcat(a, Front(b));
      assert Front(a + b) == a + Front(b) && Last(a + b) == Last(b);
    }
  }

  lemma {:induction false} NoSlash(task: string)
    requires forall c :: c in task ==> TaskChar(c)
    ensures Depth(task) == 0
  {
    if task != "" {
      NoSlash(Front(task));
      assert Last(task) in task;
    }
  }

  /** A child lies exactly one level below its parent. */
  lemma ChildDepth(parent: Path, task: string)
    requires ValidTask(task)
    ensures Depth(Join(parent, task)) == Depth(parent) + 1
  {
    DepthConcat(parent + "/", task);
    DepthConcat(parent, "/");
    NoSlash(task);
    assert Front("/") == "" && Last("/") == '/';
  }

  // ---- The sort --------------------------------------------------------------------------------

  /** Text order by characters. */
  predicate TextLess(a: string, b: string)
    decreases |a|
  {
    b != "" && (a == "" || a[0] < b[0] || (a[0] == b[0] && TextLess(a[1..], b[1..])))
  }

  /** Depth, then spawn order, then session text. */
  predicate Earlier(a: Edge, b: Edge) {
    || Depth(a.path) < Depth(b.path)
    || (Depth(a.path) == Depth(b.path)
        && (a.order < b.order || (a.order == b.order && TextLess(a.session, b.session))))
  }

  /** A stable insertion sort by a comparison. */
  function Insert<T>(s: seq<T>, x: T, less: (T, T) -> bool): seq<T> {
    if s == [] || !less(x, Last(s)) then s + [x]
    else Insert(Front(s), x, less) + [Last(s)]
  }

  function SortBy<T>(s: seq<T>, less: (T, T) -> bool): seq<T> {
    if s == [] then [] else Insert(SortBy(Front(s), less), Last(s), less)
  }

  ghost predicate Ranked<T>(s: seq<T>, rank: T -> int) {
    forall i, j :: 0 <= i < j < |s| ==> rank(s[i]) <= rank(s[j])
  }

  /** The comparison never contradicts the rank. */
  ghost predicate Respects<T(!new)>(less: (T, T) -> bool, rank: T -> int) {
    forall a, b :: (less(a, b) ==> rank(a) <= rank(b)) && (!less(a, b) ==> rank(b) <= rank(a))
  }

  lemma {:induction false} InsertKeeps<T>(s: seq<T>, x: T, less: (T, T) -> bool)
    ensures multiset(Insert(s, x, less)) == multiset(s) + multiset{x}
  {
    if s == [] || !less(x, Last(s)) {
    } else {
      InsertKeeps(Front(s), x, less);
      assert s == Front(s) + [Last(s)];
    }
  }

  lemma {:induction false} InsertMembers<T>(s: seq<T>, x: T, less: (T, T) -> bool)
    ensures forall y :: y in Insert(s, x, less) ==> y == x || y in s
  {
    if s != [] && less(x, Last(s)) {
      InsertMembers(Front(s), x, less);
    }
  }

  lemma {:induction false} InsertRanked<T(!new)>(s: seq<T>, x: T, less: (T, T) -> bool, rank: T -> int)
    requires Ranked(s, rank) && Respects(less, rank)
    ensures Ranked(Insert(s, x, less), rank)
  {
    if s == [] || !less(x, Last(s)) {
    } else {
      InsertRanked(Front(s), x, less, rank);
      InsertMembers(Front(s), x, less);
      forall y | y in Insert(Front(s), x, less)
        ensures rank(y) <= rank(Last(s))
      {
        if y != x {
          var i :| 0 <= i < |Front(s)| && Front(s)[i] == y;
          assert s[i] == y;
        }
      }
    }
  }

  lemma {:induction false} SortRanked<T(!new)>(s: seq<T>, less: (T, T) -> bool, rank: T -> int)
    requires Respects(less, rank)
    ensures Ranked(SortBy(s, less), rank)
    ensures multiset(SortBy(s, less)) == multiset(s)
  {
    if s != [] {
      SortRanked(Front(s), less, rank);
      InsertRanked(SortBy(Front(s), less), Last(s), less, rank);
      InsertKeeps(SortBy(Front(s), less), Last(s), less);
      assert s == Front(s) + [Last(s)];
    }
  }

  ghost predicate ByDepth(edges: seq<Edge>) {
    forall i, j :: 0 <= i < j < |edges| ==> Depth(edges[i].path) <= Depth(edges[j].path)
  }

  function Sort(edges: seq<Edge>): seq<Edge> {
    SortBy(edges, (a: Edge, b: Edge) => Earlier(a, b))
  }

  lemma SortByDepth(edges: seq<Edge>)
    ensures ByDepth(Sort(edges))
    ensures multiset(Sort(edges)) == multiset(edges)
  {
    SortRanked(edges, (a: Edge, b: Edge) => Earlier(a, b), (e: Edge) => Depth(e.path));
  }

  // ---- Which edge sets can be restored ---------------------------------------------------------

  /** The path a parent session stands at: the root's, or that of its own edge. */
  ghost predicate StandsAt(edges: seq<Edge>, root: Session, session: Session, path: Path) {
    (session == root && path == ROOT) || exists f :: f in edges && f.session == session && f.path == path
  }

  /** The edge hangs below its parent's path. */
  ghost predicate Hangs(edges: seq<Edge>, root: Session, e: Edge) {
    ValidTask(e.task) && exists p :: StandsAt(edges, root, e.parent, p) && e.path == Join(p, e.task)
  }

  /** What each edge must meet by itself. */
  ghost predicate EdgeOk(edges: seq<Edge>, root: Session, e: Edge) {
    && e.root == root && e.sound && e.session != root
    && 0 < e.order < MAX_U64
    && Hangs(edges, root, e)
  }

  /** Two different edges share nothing that identifies them. */
  predicate Apart(e: Edge, f: Edge) {
    e.session != f.session && e.path != f.path && e.order != f.order
  }

  /** Said without any order: this is what makes a set of edges a tree below the root. */
  ghost predicate Restorable(edges: seq<Edge>, root: Session) {
    && |edges| < MAX_RETAINED_AGENTS
    && (forall e :: e in edges ==> EdgeOk(edges, root, e))
    && (forall e, f :: e in edges && f in edges && e != f ==> Apart(e, f))
    && (forall e :: multiset(edges)[e] <= 1)
  }

  lemma SameMembers(a: seq<Edge>, b: seq<Edge>)
    requires multiset(a) == multiset(b)
    ensures forall e :: e in a <==> e in b
    ensures |a| == |b|
  {
    assert |multiset(a)| == |a| && |multiset(b)| == |b|;
    forall e
      ensures e in a <==> e in b
    {
      assert e in a <==> e in multiset(a);
      assert e in b <==> e in multiset(b);
    }
  }

  lemma OrderIrrelevant(a: seq<Edge>, b: seq<Edge>, root: Session)
    requires multiset(a) == multiset(b)
    ensures Restorable(a, root) ==> Restorable(b, root)
  {
    SameMembers(a, b);
    if Restorable(a, root) {
      forall e | e in b
        ensures EdgeOk(b, root, e)
      {
        assert EdgeOk(a, root, e);
        var p :| StandsAt(a, root, e.parent, p) && e.path == Join(p, e.task);
        assert StandsAt(b, root, e.parent, p);
      }
    }
  }

  // ---- The restore loop ------------------------------------------------------------------------

  ghost predicate AllApart(edges: seq<Edge>) {
    forall i, j :: 0 <= i < j < |edges| ==> Apart(edges[i], edges[j])
  }

  lemma TwiceIn(edges: seq<Edge>, i: nat, j: nat)
    requires i < j < |edges| && edges[i] == edges[j]
    ensures multiset(edges)[edges[i]] >= 2
  {
    assert edges == edges[..j] + [edges[j]] + edges[j + 1..];
    assert edges[..j][i] == edges[i];
    assert edges[i] in multiset(edges[..j]);
  }

  lemma ApartByIndex(edges: seq<Edge>, root: Session)
    requires Restorable(edges, root)
    ensures AllApart(edges)
  {
    forall i, j | 0 <= i < j < |edges|
      ensures Apart(edges[i], edges[j])
    {
      if edges[i] == edges[j] {
        TwiceIn(edges, i, j);
      }
      assert edges[i] in edges && edges[j] in edges;
    }
  }

  lemma {:induction false} OnceEach(edges: seq<Edge>, e: Edge)
    requires AllApart(edges)
    ensures multiset(edges)[e] <= 1
  {
    if edges != [] {
      OnceEach(Front(edges), e);
      assert edges == Front(edges) + [Last(edges)];
      if e in Front(edges) {
        var i :| 0 <= i < |Front(edges)| && Front(edges)[i] == e;
        assert Apart(edges[i], edges[|edges| - 1]);
      }
      assert e !in Front(edges) ==> multiset(Front(edges))[e] == 0;
    }
  }

  ghost predicate PathsHold(edges: seq<Edge>, n: nat, root: Session, paths: map<Session, Path>)
    requires n <= |edges|
  {
    forall s, p :: s in paths && paths[s] == p <==> StandsAt(edges[..n], root, s, p)
  }

  ghost predicate AgentsHold(edges: seq<Edge>, n: nat, root: Session, agents: map<Path, Agent>)
    requires n <= |edges|
  {
    && |agents| == n + 1
    && ROOT in agents && agents[ROOT].session == root && agents[ROOT].order == 0
    && (forall i :: 0 <= i < n ==> edges[i].path in agents && agents[edges[i].path].session == edges[i].session
                                   && agents[edges[i].path].order == edges[i].order)
    && (forall p :: p in agents ==> p == ROOT || exists i :: 0 <= i < n && edges[i].path == p)
  }

  /** The first `n` edges form a tree by themselves. */
  ghost predicate PrefixOk(edges: seq<Edge>, n: nat, root: Session)
    requires n <= |edges|
  {
    && (forall i :: 0 <= i < n ==> EdgeOk(edges[..i], root, edges[i]))
    && AllApart(edges[..n])
  }

  /** In a depth-sorted tree the parent of an edge stands before it. */
  lemma ParentComesFirst(edges: seq<Edge>, root: Session, i: nat)
    requires ByDepth(edges) && i < |edges|
    requires Hangs(edges, root, edges[i])
    ensures Hangs(edges[..i], root, edges[i])
  {
    var e := edges[i];
    var p :| StandsAt(edges, root, e.parent, p) && e.path == Join(p, e.task);
    ChildDepth(p, e.task);
    if !(e.parent == root && p == ROOT) {
      var f :| f in edges && f.session == e.parent && f.path == p;
      var j :| 0 <= j < |edges| && edges[j] == f;
      assert j < i;
      assert edges[..i][j] == f;
    }
    assert StandsAt(edges[..i], root, e.parent, p);
  }

  lemma RestorableHasPrefixes(edges: seq<Edge>, root: Session)
    requires ByDepth(edges) && Restorable(edges, root)
    ensures PrefixOk(edges, |edges|, root)
  {
    ApartByIndex(edges, root);
    assert edges[..|edges|] == edges;
    forall i | 0 <= i < |edges|
      ensures EdgeOk(edges[..i], root, edges[i])
    {
      assert edges[i] in edges;
      ParentComesFirst(edges, root, i);
    }
  }

  lemma PrefixesAreRestorable(edges: seq<Edge>, root: Session)
    requires PrefixOk(edges, |edges|, root) && |edges| < MAX_RETAINED_AGENTS
    ensures Restorable(edges, root)
  {
    assert edges[..|edges|] == edges;
    forall e | e in edges
      ensures EdgeOk(edges, root, e)
    {
      var i :| 0 <= i < |edges| && edges[i] == e;
      var p :| StandsAt(edges[..i], root, e.parent, p) && e.path == Join(p, e.task);
      assert StandsAt(edges, root, e.parent, p);
    }
    forall e
      ensures multiset(edges)[e] <= 1
    {
      OnceEach(edges, e);
    }
  }

  /** A path below another is never the root's. */
  lemma NotRoot(p: Path, task: string)
    requires Depth(p) >= 1 && ValidTask(task)
    ensures Join(p, task) != ROOT
  {
    ChildDepth(p, task);
    RootDepth();
  }

  lemma RootDepth()
    ensures Depth(ROOT) == 1
  {
    DepthConcat("/", "root");
    NoSlash("root");
    assert "/" + "root" == ROOT;
    assert Front("/") == "" && Last("/") == '/';
  }

  lemma {:induction false} PathsAreDeep(edges: seq<Edge>, n: nat, root: Session, i: nat)
    requires n <= |edges| && PrefixOk(edges, n, root) && i < n
    ensures Depth(edges[i].path) >= 2
  {
    var e := edges[i];
    assert EdgeOk(edges[..i], root, e);
    var p :| StandsAt(edges[..i], root, e.parent, p) && e.path == Join(p, e.task);
    ChildDepth(p, e.task);
    RootDepth();
    if !(e.parent == root && p == ROOT) {
      var f :| f in edges[..i] && f.session == e.parent && f.path == p;
      var j :| 0 <= j < i && edges[..i][j] == f;
      PathsAreDeep(edges, n, root, j);
    }
  }

  /** The loop's own checks: the root, the parent's path, and the durable path. */
  method PlaceOf(edges: seq<Edge>, n: nat, root: Session, paths: map<Session, Path>) returns (result: Result<Path>)
    requires n < |edges| && PathsHold(edges, n, root, paths)
    ensures result.Ok? <==> edges[n].root == root && edges[n].sound && Hangs(edges[..n], root, edges[n])
    ensures result.Ok? ==> StandsAt(edges[..n], root, edges[n].parent, result.value) && edges[n].path == Join(result.value, edges[n].task)
    ensures result == Err(ParentUnreachable) ==> !Hangs(edges[..n], root, edges[n])
    ensures result == Err(ForeignRoot) <==> edges[n].root != root
    ensures result == Err(ParentUnreachable) <==> edges[n].root == root && edges[n].parent !in paths
    ensures result == Err(InvalidTask) <==> edges[n].root == root && edges[n].parent in paths && !ValidTask(edges[n].task)
    ensures result == Err(PathMismatch)
       <==> edges[n].root == root && edges[n].parent in paths && ValidTask(edges[n].task) && edges[n].path != paths[edges[n].parent] + "/" + edges[n].task
    ensures result.Err? && result.error !in {ForeignRoot, ParentUnreachable, InvalidTask, PathMismatch} ==> result.error == UnsoundState
  {
    var e := edges[n];
    if e.root != root {
      return Err(ForeignRoot);
    }
    if e.parent !in paths {
      return Err(ParentUnreachable);
    }
    var parent := paths[e.parent];
    if !ValidTask(e.task) {
      return Err(InvalidTask);
    }
    if Join(parent, e.task) != e.path {
      return Err(PathMismatch);
    }
    if !e.sound {
      return Err(UnsoundState);
    }
    result := Ok(parent);
  }

  /** The control's checks before a child is registered. */
  method RestoreChild(parent: Path, e: Edge, agents: map<Path, Agent>) returns (result: Result<map<Path, Agent>>)
    ensures result.Ok? <==> && parent in agents && Join(parent, e.task) !in agents
                            && (forall p :: p in agents ==> agents[p].session != e.session && agents[p].order != e.order)
                            && |agents| < MAX_RETAINED_AGENTS && 0 < e.order < MAX_U64
    ensures result.Ok? ==> result.value == agents[Join(parent, e.task) := Agent(e.session, Some(parent), e.order)]
    ensures result != Err(ParentUnreachable)
    ensures result == Err(ParentMissing) <==> parent !in agents
    ensures parent in agents ==> (result == Err(AlreadyExists) <==> Join(parent, e.task) in agents)
    ensures parent in agents && Join(parent, e.task) !in agents ==>
              (result == Err(SessionRegistered) <==> exists p :: p in agents && agents[p].session == e.session)
    ensures result == Err(RegistryFull) ==> |agents| >= 256
    ensures result == Err(OrderUsed) ==> e.order == 0 || exists p :: p in agents && agents[p].order == e.order
    ensures result == Err(OrderExhausted) ==> e.order >= 0xFFFF_FFFF_FFFF_FFFF
  {
    if parent !in agents {
      return Err(ParentMissing);
    }
    if Join(parent, e.task) in agents {
      return Err(AlreadyExists);
    }
    if exists p :: p in agents && agents[p].session == e.session {
      return Err(SessionRegistered);
    }
    if |agents| >= MAX_RETAINED_AGENTS {
      return Err(RegistryFull);
    }
    if e.order == 0 || exists p :: p in agents && agents[p].order == e.order {
      return Err(OrderUsed);
    }
    if e.order >= MAX_U64 {
      return Err(OrderExhausted);
    }
    result := Ok(agents[Join(parent, e.task) := Agent(e.session, Some(parent), e.order)]);
  }

  lemma ParentDeep(edges: seq<Edge>, n: nat, root: Session, session: Session, parent: Path)
    requires n <= |edges| && PrefixOk(edges, n, root) && StandsAt(edges[..n], root, session, parent)
    ensures Depth(parent) >= 1
  {
    if session == root && parent == ROOT {
      RootDepth();
    } else {
      var f :| f in edges[..n] && f.session == session && f.path == parent;
      var j :| 0 <= j < n && edges[..n][j] == f;
      PathsAreDeep(edges, n, root, j);
    }
  }

  /** The parent's path belongs to a registered agent. */
  lemma ParentRegistered(edges: seq<Edge>, n: nat, root: Session, session: Session, parent: Path, agents: map<Path, Agent>)
    requires n <= |edges| && AgentsHold(edges, n, root, agents) && StandsAt(edges[..n], root, session, parent)
    ensures parent in agents
  {
    if !(session == root && parent == ROOT) {
      var f :| f in edges[..n] && f.session == session && f.path == parent;
      var j :| 0 <= j < n && edges[..n][j] == f;
      assert edges[j] == f;
    }
  }

  lemma PathFree(edges: seq<Edge>, n: nat, root: Session, path: Path, agents: map<Path, Agent>)
    requires n <= |edges| && AgentsHold(edges, n, root, agents) && path != ROOT
    ensures path !in agents <==> forall i :: 0 <= i < n ==> edges[i].path != path
  {
  }

  lemma SessionFree(edges: seq<Edge>, n: nat, root: Session, session: Session, agents: map<Path, Agent>)
    requires n <= |edges| && AgentsHold(edges, n, root, agents)
    ensures (forall p :: p in agents ==> agents[p].session != session)
       <==> session != root && forall i :: 0 <= i < n ==> edges[i].session != session
  {
  }

  lemma OrderFree(edges: seq<Edge>, n: nat, root: Session, order: nat, agents: map<Path, Agent>)
    requires n <= |edges| && AgentsHold(edges, n, root, agents)
    ensures (forall p :: p in agents ==> agents[p].order != order)
       <==> order != 0 && forall i :: 0 <= i < n ==> edges[i].order != order
  {
  }

  /** The control accepts an edge exactly when it is apart from the root and from every edge before it. */
  lemma AcceptedExactly(edges: seq<Edge>, n: nat, root: Session, parent: Path, agents: map<Path, Agent>)
    requires n < |edges| && AgentsHold(edges, n, root, agents) && PrefixOk(edges, n, root)
    requires StandsAt(edges[..n], root, edges[n].parent, parent)
    requires ValidTask(edges[n].task) && edges[n].path == Join(parent, edges[n].task)
    ensures parent in agents
    ensures (edges[n].path !in agents
             && forall p :: p in agents ==> agents[p].session != edges[n].session && agents[p].order != edges[n].order)
       <==> edges[n].session != root && edges[n].order != 0 && forall i :: 0 <= i < n ==> Apart(edges[i], edges[n])
  {
    var e := edges[n];
    ParentRegistered(edges, n, root, e.parent, parent, agents);
    ParentDeep(edges, n, root, e.parent, parent);
    NotRoot(parent, e.task);
    PathFree(edges, n, root, e.path, agents);
    SessionFree(edges, n, root, e.session, agents);
    OrderFree(edges, n, root, e.order, agents);
  }

  lemma AgentsGrow(edges: seq<Edge>, n: nat, root: Session, agents: map<Path, Agent>, parent: Path)
    requires n < |edges| && AgentsHold(edges, n, root, agents) && edges[n].path !in agents
    requires forall i :: 0 <= i < n ==> edges[i].path != edges[n].path
    ensures AgentsHold(edges, n + 1, root, agents[edges[n].path := Agent(edges[n].session, Some(parent), edges[n].order)])
  {
    var more := agents[edges[n].path := Agent(edges[n].session, Some(parent), edges[n].order)];
    assert |more| == |agents| + 1;
    forall p | p in more && p != ROOT
      ensures exists i :: 0 <= i < n + 1 && edges[i].path == p
    {
      if p == edges[n].path {
        assert edges[n].path == p;
      }
    }
  }

  lemma PathsGrow(edges: seq<Edge>, n: nat, root: Session, paths: map<Session, Path>)
    requires n < |edges| && PathsHold(edges, n, root, paths)
    requires edges[n].session != root && forall i :: 0 <= i < n ==> edges[i].session != edges[n].session
    ensures PathsHold(edges, n + 1, root, paths[edges[n].session := edges[n].path])
  {
    var longer := edges[..n + 1];
    assert longer == edges[..n] + [edges[n]];
    var session, more := edges[n].session, paths[edges[n].session := edges[n].path];
    assert session in paths ==> StandsAt(edges[..n], root, session, paths[session]);
    forall s, p
      ensures (s in more && more[s] == p) <==> StandsAt(longer, root, s, p)
    {
      assert (s in paths && paths[s] == p) <==> StandsAt(edges[..n], root, s, p);
      assert StandsAt(longer, root, s, p) <==> StandsAt(edges[..n], root, s, p) || (s == session && p == edges[n].path);
    }
  }

  lemma PrefixGrows(edges: seq<Edge>, n: nat, root: Session)
    requires n < |edges| && PrefixOk(edges, n, root)
    ensures PrefixOk(edges, n + 1, root) <==> EdgeOk(edges[..n], root, edges[n]) && forall i :: 0 <= i < n ==> Apart(edges[i], edges[n])
  {
    var longer := edges[..n + 1];
    assert longer == edges[..n] + [edges[n]];
    if PrefixOk(edges, n + 1, root) {
      forall i | 0 <= i < n
        ensures Apart(edges[i], edges[n])
      {
        assert Apart(longer[i], longer[n]);
      }
    }
  }

  ghost predicate Progress(edges: seq<Edge>, n: nat, root: Session, paths: map<Session, Path>, agents: map<Path, Agent>)
    requires n <= |edges|
  {
    PathsHold(edges, n, root, paths) && AgentsHold(edges, n, root, agents) && PrefixOk(edges, n, root)
  }

  lemma NothingYet(edges: seq<Edge>, root: Session)
    ensures Progress(edges, 0, root, map[root := ROOT], map[ROOT := Agent(root, None, 0)])
  {
    forall s, p
      ensures StandsAt(edges[..0], root, s, p) <==> s == root && p == ROOT
    {
    }
  }

  /** One round of the loop. */
  method RestoreOne(edges: seq<Edge>, n: nat, root: Session, paths: map<Session, Path>, agents: map<Path, Agent>)
    returns (result: Result<(map<Session, Path>, map<Path, Agent>)>)
    requires n < |edges| && Progress(edges, n, root, paths, agents)
    ensures result.Ok? <==> n + 1 < MAX_RETAINED_AGENTS && PrefixOk(edges, n + 1, root)
    ensures result.Ok? ==> Progress(edges, n + 1, root, result.value.0, result.value.1)
    ensures result == Err(ParentUnreachable) ==> !Hangs(edges[..n], root, edges[n])
  {
    PrefixGrows(edges, n, root);
    var place := PlaceOf(edges, n, root, paths);
    if place.Err? {
      return Err(place.error);
    }
    AcceptedExactly(edges, n, root, place.value, agents);
    var restored := RestoreChild(place.value, edges[n], agents);
    if restored.Err? {
      return Err(restored.error);
    }
    AgentsGrow(edges, n, root, agents, place.value);
    PathsGrow(edges, n, root, paths);
    result := Ok((paths[edges[n].session := edges[n].path], restored.value));
  }

  /** The loop over the sorted edges. */
  method RestoreSorted(sorted: seq<Edge>, root: Session) returns (result: Result<map<Session, Path>>, n: nat)
    ensures n <= |sorted|
    ensures result.Ok? ==> n == |sorted| < MAX_RETAINED_AGENTS && PrefixOk(sorted, n, root) && PathsHold(sorted, n, root, result.value)
    ensures result.Err? ==> n < |sorted| && !(n + 1 < MAX_RETAINED_AGENTS && PrefixOk(sorted, n + 1, root))
    ensures result == Err(ParentUnreachable) ==> !Hangs(sorted[..n], root, sorted[n])
  {
    var paths: map<Session, Path> := map[root := ROOT];
    var agents: map<Path, Agent> := map[ROOT := Agent(root, None, 0)];
    NothingYet(sorted, root);
    n := 0;
    while n < |sorted|
      invariant 0 <= n <= |sorted|
      invariant Progress(sorted, n, root, paths, agents)
      invariant n < MAX_RETAINED_AGENTS
    {
      var next := RestoreOne(sorted, n, root, paths, agents);
      if next.Err? {
        return Err(next.error), n;
      }
      paths, agents := next.value.0, next.value.1;
      n := n + 1;
    }
    result := Ok(paths);
  }

  lemma PrefixShorter(edges: seq<Edge>, n: nat, m: nat, root: Session)
    requires m <= n <= |edges| && PrefixOk(edges, n, root)
    ensures PrefixOk(edges, m, root)
  {
    forall i, j | 0 <= i < j < m
      ensures Apart(edges[..m][i], edges[..m][j])
    {
      assert Apart(edges[..n][i], edges[..n][j]);
    }
  }

  lemma StopsOnlyIfBroken(edges: seq<Edge>, sorted: seq<Edge>, n: nat, root: Session)
    requires multiset(edges) == multiset(sorted) && ByDepth(sorted) && n < |sorted|
    requires !(n + 1 < MAX_RETAINED_AGENTS && PrefixOk(sorted, n + 1, root))
    ensures !Restorable(edges, root)
  {
    if Restorable(edges, root) {
      OrderIrrelevant(edges, sorted, root);
      RestorableHasPrefixes(sorted, root);
      PrefixShorter(sorted, |sorted|, n + 1, root);
    }
  }

  /** The reachability error is never raised for an edge whose parent's path is among the edges. */
  lemma UnreachableMeansBroken(edges: seq<Edge>, sorted: seq<Edge>, n: nat, root: Session)
    requires multiset(edges) == multiset(sorted) && ByDepth(sorted) && n < |sorted|
    requires !Hangs(sorted[..n], root, sorted[n])
    ensures exists e :: e in edges && !Hangs(edges, root, e)
  {
    SameMembers(edges, sorted);
    var e := sorted[n];
    if Hangs(edges, root, e) {
      var p :| StandsAt(edges, root, e.parent, p) && e.path == Join(p, e.task);
      assert StandsAt(sorted, root, e.parent, p);
      ParentComesFirst(sorted, root, n);
    }
  }

  lemma SortedTree(edges: seq<Edge>, sorted: seq<Edge>, root: Session)
    requires multiset(edges) == multiset(sorted) && |sorted| < MAX_RETAINED_AGENTS && PrefixOk(sorted, |sorted|, root)
    ensures Restorable(edges, root)
    ensures forall s, p :: StandsAt(edges, root, s, p) <==> StandsAt(sorted[..|sorted|], root, s, p)
  {
    PrefixesAreRestorable(sorted, root);
    OrderIrrelevant(sorted, edges, root);
    SameMembers(edges, sorted);
    assert sorted[..|sorted|] == sorted;
  }

  /**
   Restores the tree. Whatever order the edges come in, it succeeds exactly for the edge sets that
   form a tree below the root, and then every session stands at its durable path.
   */
  method RestoreDurableChildren(edges: seq<Edge>, root: Session) returns (result: Result<map<Session, Path>>)
    ensures result.Ok? <==> Restorable(edges, root)
    ensures result.Ok? ==> forall s, p :: s in result.value && result.value[s] == p <==> StandsAt(edges, root, s, p)
    ensures result == Err(ParentUnreachable) ==> exists e :: e in edges && !Hangs(edges, root, e)
  {
    var sorted := Sort(edges);
    SortByDepth(edges);
    var n;
    result, n := RestoreSorted(sorted, root);
    if result.Ok? {
      SortedTree(edges, sorted, root);
    } else {
      StopsOnlyIfBroken(edges, sorted, n, root);
      if result == Err(ParentUnreachable) {
        UnreachableMeansBroken(edges, sorted, n, root);
      }
    }
  }

  /** Lower-case letters, digits and underscores; not empty, and not the root's name. */
  lemma ValidTaskExactly(task: string)
    ensures ValidTask(task) <==> |task| > 0 && task != "root" && forall c :: c in task ==> 'a' <= c <= 'z' || '0' <= c <= '9' || c == '_'
  {
  }

  /** The edge lies one task name below the root or below another edge. */
  ghost predicate BelowParent(edges: seq<Edge>, root: Session, e: Edge) {
    || (e.parent == root && e.path == "/root" + "/" + e.task)
    || exists f :: f in edges && f.session == e.parent && e.path == f.path + "/" + e.task
  }

  lemma HangsExactly(edges: seq<Edge>, root: Session, e: Edge)
    ensures Hangs(edges, root, e) <==> ValidTask(e.task) && BelowParent(edges, root, e)
  {
    if e.parent == root && e.path == "/root" + "/" + e.task {
      assert StandsAt(edges, root, e.parent, ROOT);
    }
    if f :| f in edges && f.session == e.parent && e.path == f.path + "/" + e.task {
      assert StandsAt(edges, root, e.parent, f.path);
    }
  }

  ghost predicate SoundEdge(edges: seq<Edge>, root: Session, e: Edge) {
    && e.root == root && e.sound && e.session != root && 0 < e.order < 0xFFFF_FFFF_FFFF_FFFF
    && |e.task| > 0 && e.task != "root" && (forall c :: c in e.task ==> 'a' <= c <= 'z' || '0' <= c <= '9' || c == '_')
    && BelowParent(edges, root, e)
  }

  lemma EdgeExactly(edges: seq<Edge>, root: Session, e: Edge)
    ensures EdgeOk(edges, root, e) <==> SoundEdge(edges, root, e)
  {
    HangsExactly(edges, root, e);
    ValidTaskExactly(e.task);
  }

  /** What makes edges a tree below the root, spelled out. */
  lemma RestorableExactly(edges: seq<Edge>, root: Session)
    ensures Restorable(edges, root)
       <==> && |edges| < 256
            && (forall e :: e in edges ==> SoundEdge(edges, root, e))
            && (forall e, f :: e in edges && f in edges && e != f ==> e.session != f.session && e.path != f.path && e.order != f.order)
            && (forall e :: multiset(edges)[e] <= 1)
  {
    forall e
      ensures EdgeOk(edges, root, e) <==> SoundEdge(edges, root, e)
    {
      EdgeExactly(edges, root, e);
    }
    assert forall e, f :: Apart(e, f) <==> e.session != f.session && e.path != f.path && e.order != f.order;
  }

  /** On success every restored path is the path of its parent joined with its task name. */
  lemma PathsFollowParents(edges: seq<Edge>, root: Session, paths: map<Session, Path>, e: Edge)
    requires Restorable(edges, root) && e in edges
    requires forall s, p :: s in paths && paths[s] == p <==> StandsAt(edges, root, s, p)
    ensures e.session in paths && e.parent in paths && paths[e.session] == Join(paths[e.parent], e.task) == e.path
  {
    assert EdgeOk(edges, root, e);
    var p :| StandsAt(edges, root, e.parent, p) && e.path == Join(p, e.task);
    assert StandsAt(edges, root, e.session, e.path);
  }
}
