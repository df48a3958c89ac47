/** The registry of owned agent workers: one per root session and path, fenced by generations. */
module WorkerRegistry {
  import opened Base

  datatype Key = Key(root: nat, path: string)

  /** An owned task. The launch that made it stands for the task handle and its lease slot. */
  datatype Entry = Entry(generation: nat, launch: nat)

  /** A worker seen at one moment by a Stop. */
  datatype Captured = Captured(key: Key, generation: nat)

  type Tasks = map<Key, Entry>

  predicate Registered(tasks: Tasks, c: Captured) {
    c.key in tasks && tasks[c.key].generation == c.generation
  }

  /** What a completion guard leaves behind. */
  function Detached(tasks: Tasks, key: Key, generation: nat): Tasks {
    if Registered(tasks, Captured(key, generation)) then tasks - {key} else tasks
  }

  /** What is left once the captured workers that are still registered have been taken. */
  function Remaining(tasks: Tasks, captured: seq<Captured>): Tasks {
    map key | key in tasks && Captured(key, tasks[key].generation) !in captured :: tasks[key]
  }

  class AgentWorkerRegistry {
    var next: nat
    var tasks: Tasks

    ghost predicate Valid()
      reads this
    {
      next <= MAX_U64
    }

    constructor ()
      ensures Valid() && next == 0 && tasks == map[]
    {
      next, tasks := 0, map[];
    }

    /** A generation is used up even when the path turns out to be taken. */
    method ReserveGeneration(key: Key) returns (generation: Option<nat>)
      requires Valid()
      modifies this`next
      ensures Valid()
      ensures next == if old(next) == MAX_U64 then old(next) else old(next) + 1
      ensures generation == if old(next) == MAX_U64 || key in tasks then None else Some(old(next))
    {
      var candidate := next;
      if candidate == MAX_U64 {
        return None;
      }
      next := candidate + 1;
      generation := if key in tasks then None else Some(candidate);
    }

    method Install(key: Key, entry: Entry) returns (ok: bool)
      modifies this`tasks
      ensures ok <==> key !in old(tasks)
      ensures tasks == if ok then old(tasks)[key := entry] else old(tasks)
    {
      ok := key !in tasks;
      if ok {
        tasks := tasks[key := entry];
      }
    }

    /** Only the worker of this generation is detached. */
    method DetachFinished(key: Key, generation: nat)
      modifies this`tasks
      ensures tasks == Detached(old(tasks), key, generation)
      ensures key in old(tasks) && old(tasks)[key].generation == generation ==> tasks == old(tasks) - {key}
      ensures key !in old(tasks) || old(tasks)[key].generation != generation ==> tasks == old(tasks)
    {
      if key !in tasks || tasks[key].generation != generation {
        return;
      }
      tasks := tasks - {key};
    }

    /** The registered workers among the cancelled paths of one root. */
    method CaptureCancelled(root: nat, paths: seq<string>) returns (captured: seq<Captured>)
      ensures forall c :: c in captured <==> c.key.root == root && c.key.path in paths && c.key in tasks && tasks[c.key].generation == c.generation
    {
      captured := [];
      for n := 0 to |paths|
        invariant forall c :: c in captured <==> c.key.root == root && c.key.path in paths[..n] && Registered(tasks, c)
      {
        var key := Key(root, paths[n]);
        if key in tasks {
          captured := captured + [Captured(key, tasks[key].generation)];
        }
        assert forall p :: p in paths[..n + 1] <==> p in paths[..n] || p == paths[n];
      }
      assert paths[..|paths|] == paths;
    }

    /** Takes exactly the captured workers that are still registered, each once. */
    method TakeCaptured(captured: seq<Captured>) returns (taken: seq<Captured>)
      modifies this`tasks
      ensures tasks == Remaining(old(tasks), captured)
      ensures forall c :: c in taken <==> c in captured && c.key in old(tasks) && old(tasks)[c.key].generation == c.generation
      ensures forall key :: key in tasks <==> key in old(tasks) && forall c :: c in taken ==> c.key != key
      ensures forall key :: key in tasks ==> tasks[key] == old(tasks)[key]
      ensures NoDuplicates(taken)
    {
      taken := [];
      for n := 0 to |captured|
        invariant tasks == Remaining(old(tasks), captured[..n])
        invariant forall c :: c in taken <==> c in captured[..n] && Registered(old(tasks), c)
        invariant NoDuplicates(taken)
      {
        var c := captured[n];
        assert forall x :: x in captured[..n + 1] <==> x in captured[..n] || x == c;
        if c.key in tasks && tasks[c.key].generation == c.generation {
          tasks := tasks - {c.key};
          taken := taken + [c];
        }
      }
      assert captured[..|captured|] == captured;
    }
  }
}
