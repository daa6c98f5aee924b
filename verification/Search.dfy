/** The concurrent breadth-first searches of lab4: one thread per house, all marking
    one shared flag array with fetch-and-or. Each read of a flag and each fetch-and-or
    is one step; queues, fences and meeting records belong to one thread each.
    A flag word is modelled as the set of threads whose bit is on. */
module Search {
  import opened Graph

  /** A queue slot: a vertex, or the fence that closes a depth. */
  datatype Entry = Vertex(v: nat) | Fence(depth: nat)

  /** Where, and at what depth, a search first met another one. */
  datatype Info = Info(vid: nat, depth: nat)

  datatype Pc =
    | Dequeue
    | Scan(curr: nat, i: nat)   // about to read the flag of neighbour i of curr
    | Mark(curr: nat, i: nat)   // own bit was off: about to fetch-and-or
    | Done

  /** One thread. nextFence is where the fence closing the current depth sits; no
      step reads it, it only names that position for the proofs. */
  datatype Thread = Thread(
    queue: seq<Entry>, front: nat, depth: nat, fences: seq<nat>, nextFence: nat,
    visited: set<nat>, info: map<nat, Info>, pc: Pc)

  datatype State = State(flags: seq<set<nat>>, threads: seq<Thread>)

  /** The problem: a graph and the houses, which are distinct vertices. */
  datatype Problem = Problem(g: Graph, houses: seq<nat>)

  ghost predicate ValidProblem(p: Problem) {
    && Undirected(p.g)
    && (forall t :: 0 <= t < |p.houses| ==> p.houses[t] < |p.g|)
    && (forall t, u :: 0 <= t < u < |p.houses| ==> p.houses[t] != p.houses[u])
  }

  function InitThread(house: nat, t: nat): Thread {
    Thread([Vertex(house), Fence(0)], 0, 0, [0], 1, {t}, map[], Dequeue)
  }

  function Init(p: Problem): State {
    State(
      seq(|p.g|, v => set t | 0 <= t < |p.houses| && p.houses[t] == v),
      seq(|p.houses|, t requires 0 <= t < |p.houses| => InitThread(p.houses[t], t)))
  }

  /** The visited word equals the full word: every search has been met. */
  predicate MetAll(p: Problem, visited: set<nat>) {
    forall u: nat :: u < |p.houses| ==> u in visited
  }

  ghost predicate Shaped(p: Problem, s: State) {
    |s.flags| == |p.g| && |s.threads| == |p.houses|
  }

  /** The adjacency list of u; only vertices of the graph have neighbours. */
  function Neighbours(g: Graph, u: nat): seq<nat> {
    if u < |g| then g[u] else []
  }

  /** Taking the next slot off the queue. */
  function DequeueStep(p: Problem, th: Thread): Thread {
    if th.front >= |th.queue| then th.(pc := Done)
    else match th.queue[th.front]
      case Vertex(v) => th.(front := th.front + 1, pc := Scan(v, 0))
      case Fence(_) =>
        th.(front := th.front + 1,
            depth := th.depth + 1,
            queue := th.queue + [Fence(th.depth + 1)],
            fences := th.fences + [th.front],
            nextFence := |th.queue|,
            pc := if MetAll(p, th.visited) then Done else Dequeue)
  }

  /** The thread's part of a fetch-and-or on vertex w that found the given marks. */
  function MarkStep(th: Thread, w: nat, before: set<nat>): Thread
    requires th.pc.Mark?
  {
    var met := before - th.visited;
    th.(visited := th.visited + met,
        info := th.info + map u | u in met :: Info(w, th.depth + 1),
        queue := th.queue + [Vertex(w)],
        pc := Scan(th.pc.curr, th.pc.i + 1))
  }

  /** One step of thread t. A neighbour index past the list ends the scan. */
  function Next(p: Problem, s: State, t: nat): (r: State)
    requires Shaped(p, s) && ValidProblem(p) && t < |s.threads|
    ensures Shaped(p, r)
  {
    var th := s.threads[t];
    match th.pc
    case Dequeue => s.(threads := s.threads[t := DequeueStep(p, th)])
    case Scan(curr, i) =>
      if i >= |Neighbours(p.g, curr)| then s.(threads := s.threads[t := th.(pc := Dequeue)])
      else if t in s.flags[Neighbours(p.g, curr)[i]] then s.(threads := s.threads[t := th.(pc := Scan(curr, i + 1))])
      else s.(threads := s.threads[t := th.(pc := Mark(curr, i))])
    case Mark(curr, i) =>
      if i >= |Neighbours(p.g, curr)| then s.(threads := s.threads[t := th.(pc := Dequeue)])
      else
        var w := Neighbours(p.g, curr)[i];
        State(s.flags[w := s.flags[w] + {t}], s.threads[t := MarkStep(th, w, s.flags[w])])
    case Done => s
  }

  ghost predicate Schedule(p: Problem, sched: seq<nat>) {
    forall k :: 0 <= k < |sched| ==> sched[k] < |p.houses|
  }

  /** The state after the threads named by the schedule have each taken a step. */
  ghost function Exec(p: Problem, sched: seq<nat>): (s: State)
    requires ValidProblem(p) && Schedule(p, sched)
    ensures Shaped(p, s)
    decreases |sched|
  {
    if sched == [] then Init(p)
    else
      Next(p, Exec(p, sched[..|sched| - 1]), sched[|sched| - 1])
  }
}
