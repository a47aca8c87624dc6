/** The background compile pool as a state machine: N workers over one queue, a shutdown flag, empty jobs that wake them, and the owner draining results when a flag says there are some. */
module Background {
  // Every action is one access to shared state; any interleaving is a run.

  import opened Shapes

  /** A job, or the empty one that only wakes a worker up. */
  datatype Job = Real(id: nat) | Null

  /** Where a worker is in its loop. */
  datatype Worker =
    | Top
    | Waiting
    | Got(job: Job)
    | Compiling(job: Job)
    | Compiled(job: Job)
    | Sending(job: Job)
    | Announcing
    | Done

  /** Where the owner is in draining results. */
  datatype Owner = Idle | Clearing | Draining

  /** The handle: in use, being dropped with so many wake-ups still to send, or gone. */
  datatype Handle = Alive | Stopping(left: nat) | Gone

  datatype Pool = Pool(
    queue: seq<Job>,
    workers: seq<Worker>,
    shutdown: bool,
    handle: Handle,
    connected: bool,
    results: seq<nat>,
    pending: bool,
    owner: Owner,
    submitted: set<nat>,
    compiled: seq<nat>,
    delivered: seq<nat>,
    dropped: seq<nat>)

  datatype Action =
    | Submit(id: nat)
    | Check(w: nat)
    | Take(w: nat)
    | Disconnected(w: nat)
    | Recheck(w: nat)
    | Compile(w: nat)
    | LastCheck(w: nat)
    | Send(w: nat)
    | Announce(w: nat)
    | Look
    | Clear
    | Receive
    | Finish
    | BeginDrop
    | SendNull
    | EndDrop
    | Disconnect

  function Initial(n: nat): Pool {
    Pool([], seq(n, _ => Top), false, Alive, true, [], false, Idle, {}, [], [], [])
  }

  predicate At(s: Pool, w: nat) {
    w < |s.workers|
  }

  function Move(s: Pool, w: nat, p: Worker): Pool
    requires At(s, w)
  {
    s.(workers := s.workers[w := p])
  }

  /** The identity of a job, if it has one. */
  function Ids(j: Job): seq<nat> {
    match j
    case Real(id) => [id]
    case Null => []
  }

  /** Whether an action is possible. */
  predicate Enabled(s: Pool, a: Action) {
    match a
    case Submit(id) => id !in s.submitted && s.connected
    case Check(w) => At(s, w) && s.workers[w].Top?
    case Take(w) => At(s, w) && s.workers[w].Waiting? && s.queue != []
    case Disconnected(w) => At(s, w) && s.workers[w].Waiting? && s.queue == [] && !s.connected
    case Recheck(w) => At(s, w) && s.workers[w].Got?
    case Compile(w) => At(s, w) && s.workers[w].Compiling?
    case LastCheck(w) => At(s, w) && s.workers[w].Compiled?
    case Send(w) => At(s, w) && s.workers[w].Sending?
    case Announce(w) => At(s, w) && s.workers[w].Announcing?
    case Look => s.owner.Idle? && s.pending && s.handle.Alive?
    case Clear => s.owner.Clearing?
    case Receive => s.owner.Draining? && s.results != []
    case Finish => s.owner.Draining? && s.results == []
    case BeginDrop => s.owner.Idle? && s.handle.Alive?
    case SendNull => s.handle.Stopping? && s.handle.left > 0
    case EndDrop => s.handle.Stopping? && s.handle.left == 0
    case Disconnect => s.handle.Gone? && s.connected
  }

  function Act(s: Pool, a: Action): Pool
    requires Enabled(s, a)
  {
    match a
    case Submit(id) => s.(queue := s.queue + [Real(id)], submitted := s.submitted + {id})
    case Check(w) => Move(s, w, if s.shutdown then Done else Waiting)
    case Take(w) => Move(s.(queue := s.queue[1..]), w, Got(s.queue[0]))
    case Disconnected(w) => Move(s, w, Done)
    case Recheck(w) =>
      var j := s.workers[w].job;
      if s.shutdown then Move(s.(dropped := s.dropped + Ids(j)), w, Done) else Move(s, w, Compiling(j))
    case Compile(w) =>
      var j := s.workers[w].job;
      Move(s.(compiled := s.compiled + Ids(j)), w, Compiled(j))
    case LastCheck(w) =>
      var j := s.workers[w].job;
      if s.shutdown then Move(s.(dropped := s.dropped + Ids(j)), w, Done) else Move(s, w, Sending(j))
    case Send(w) =>
      var j := s.workers[w].job;
      if s.handle.Gone? || j.Null? then Move(s.(dropped := s.dropped + Ids(j)), w, Done)
      else Move(s.(results := s.results + [j.id]), w, Announcing)
    case Announce(w) => Move(s.(pending := true), w, Top)
    case Look => s.(owner := Clearing)
    case Clear => s.(pending := false, owner := Draining)
    case Receive => s.(results := s.results[1..], delivered := s.delivered + [s.results[0]])
    case Finish => s.(owner := Idle)
    case BeginDrop => s.(shutdown := true, handle := Stopping(|s.workers|))
    case SendNull => s.(queue := s.queue + [Null], handle := Stopping(s.handle.left - 1))
    case EndDrop => s.(handle := Gone, dropped := s.dropped + s.results, results := [])
    case Disconnect => s.(connected := false)
  }

  /** The pool after a sequence of actions, if each was possible in its turn. */
  function Run(s: Pool, actions: seq<Action>): Option<Pool>
    decreases |actions|
  {
    if actions == [] then Some(s)
    else
      var before := Run(s, actions[..|actions| - 1]);
      var a := actions[|actions| - 1];
      if before.Some? && Enabled(before.value, a) then Some(Act(before.value, a)) else None
  }

  // Counting.

  function Bit(b: bool): nat {
    if b then 1 else 0
  }

  predicate Is(j: Job, id: nat) {
    j == Real(id)
  }

  function Count(ids: seq<nat>, id: nat): nat {
    if ids == [] then 0 else Count(ids[..|ids| - 1], id) + Bit(ids[|ids| - 1] == id)
  }

  lemma {:induction false} CountConcat(a: seq<nat>, b: seq<nat>, id: nat)
    ensures Count(a + b, id) == Count(a, id) + Count(b, id)
    decreases |b|
  {
    if b == [] {
      assert a + b == a;
    } else {
      var n := |b| - 1;
      assert (a + b)[..|a| + n] == a + b[..n];
      CountConcat(a, b[..n], id);
    }
  }

  lemma {:induction false} CountIds(ids: seq<nat>, j: Job, id: nat)
    ensures Count(ids + Ids(j), id) == Count(ids, id) + Bit(Is(j, id))
  {
    CountConcat(ids, Ids(j), id);
    if j.Real? { assert [j.id][..0] == []; assert Count([j.id], id) == Count([], id) + Bit(j.id == id); }
  }

  /** Whether a worker holds job `id`. */
  predicate Holds(p: Worker, id: nat) {
    match p
    case Got(j) => Is(j, id)
    case Compiling(j) => Is(j, id)
    case Compiled(j) => Is(j, id)
    case Sending(j) => Is(j, id)
    case _ => false
  }

  /** How many workers hold job `id`. */
  function InFlight(ws: seq<Worker>, id: nat): nat {
    if ws == [] then 0 else InFlight(ws[..|ws| - 1], id) + Bit(Holds(ws[|ws| - 1], id))
  }

  /** How often job `id` is queued. */
  function Queued(q: seq<Job>, id: nat): nat {
    if q == [] then 0 else Queued(q[..|q| - 1], id) + Bit(Is(q[|q| - 1], id))
  }

  function Nulls(q: seq<Job>): nat {
    if q == [] then 0 else Nulls(q[..|q| - 1]) + Bit(q[|q| - 1].Null?)
  }

  /** Workers that have not taken an empty job and are still running. */
  predicate Live(p: Worker) {
    !p.Done? && p != Got(Null)
  }

  function Lives(ws: seq<Worker>): nat {
    if ws == [] then 0 else Lives(ws[..|ws| - 1]) + Bit(Live(ws[|ws| - 1]))
  }

  lemma {:induction false} MoveCounts(ws: seq<Worker>, w: nat, p: Worker, id: nat)
    requires w < |ws|
    ensures InFlight(ws[w := p], id) + Bit(Holds(ws[w], id)) == InFlight(ws, id) + Bit(Holds(p, id))
    ensures Lives(ws[w := p]) + Bit(Live(ws[w])) == Lives(ws) + Bit(Live(p))
    decreases |ws|
  {
    var n := |ws| - 1;
    var us := ws[w := p];
    if w < n {
      assert us[..n] == ws[..n][w := p] && us[n] == ws[n];
      MoveCounts(ws[..n], w, p, id);
    } else {
      assert us[..n] == ws[..n];
    }
  }

  lemma {:induction false} QueueFront(q: seq<Job>, id: nat)
    requires q != []
    ensures Queued(q, id) == Queued(q[1..], id) + Bit(Is(q[0], id)) && Nulls(q) == Nulls(q[1..]) + Bit(q[0].Null?)
    decreases |q|
  {
    if |q| > 1 {
      var n := |q| - 1;
      QueueFront(q[..n], id);
      assert q[..n][1..] == q[1..][..n - 1] && q[1..][n - 1] == q[n];
    }
  }

  lemma {:induction false} QueueBack(q: seq<Job>, j: Job, id: nat)
    ensures Queued(q + [j], id) == Queued(q, id) + Bit(Is(j, id)) && Nulls(q + [j]) == Nulls(q) + Bit(j.Null?)
  {
    assert (q + [j])[..|q|] == q;
  }

  // The invariant.

  /** Empty jobs exist only once the pool is being shut down, and no worker is past its second
      look at the flag with one. */
  ghost predicate NullsAreLate(s: Pool) {
    && (forall i :: 0 <= i < |s.queue| && s.queue[i].Null? ==> s.shutdown)
    && (forall w :: 0 <= w < |s.workers| ==>
          match s.workers[w]
          case Got(j) => j.Null? ==> s.shutdown
          case Compiling(j) => j.Real?
          case Compiled(j) => j.Real?
          case Sending(j) => j.Real?
          case _ => true)
    && (s.shutdown <==> !s.handle.Alive?)
    && (s.owner.Clearing? || s.owner.Draining? ==> s.handle.Alive?)
  }

  /** A job is queued, held by a worker, waiting as a result, delivered or dropped: in one of
      these places, once, if it was submitted, and nowhere otherwise. */
  ghost predicate Conserved(s: Pool, id: nat) {
    Bit(id in s.submitted) == Queued(s.queue, id) + InFlight(s.workers, id) + Count(s.results, id) + Count(s.delivered, id) + Count(s.dropped, id)
  }

  /** A job past compilation has been compiled once, one before it not at all. */
  predicate Past(p: Worker, id: nat) {
    match p
    case Compiled(j) => Is(j, id)
    case Sending(j) => Is(j, id)
    case _ => false
  }

  ghost predicate CompiledOnce(s: Pool, id: nat) {
    && Count(s.compiled, id) <= 1
    && (Queued(s.queue, id) > 0 ==> Count(s.compiled, id) == 0)
    && (id !in s.submitted ==> Count(s.compiled, id) == 0)
    && (forall w :: 0 <= w < |s.workers| && Holds(s.workers[w], id) ==> Count(s.compiled, id) == Bit(Past(s.workers[w], id)))
    && (Count(s.results, id) + Count(s.delivered, id) > 0 ==> Count(s.compiled, id) == 1)
  }

  function Left(s: Pool): nat {
    if s.handle.Stopping? then s.handle.left else 0
  }

  /** Once the flag is set, there is an empty job, sent or still to be sent, for every worker
      that has not had one. */
  ghost predicate EnoughNulls(s: Pool) {
    s.shutdown ==> Lives(s.workers) <= Nulls(s.queue) + Left(s)
  }

  /** A result waiting for the owner is announced, about to be, or being drained. */
  ghost predicate Announced(s: Pool) {
    s.results != [] ==> s.pending || !s.owner.Idle? || exists w :: 0 <= w < |s.workers| && s.workers[w].Announcing?
  }

  /** While the handle is in use the queue stays open and every worker goes on working. */
  ghost predicate AllWorking(s: Pool) {
    s.handle.Alive? ==> s.connected && forall w :: 0 <= w < |s.workers| ==> !s.workers[w].Done?
  }

  ghost predicate Inv(s: Pool) {
    && NullsAreLate(s) && EnoughNulls(s) && Announced(s) && AllWorking(s)
    && forall id: nat :: Conserved(s, id) && CompiledOnce(s, id)
  }

  lemma {:induction false} InitialInv(n: nat)
    ensures Inv(Initial(n))
  {
    var ws := Initial(n).workers;
    forall id: nat ensures Conserved(Initial(n), id) { NothingHeld(ws, id); }
  }

  lemma {:induction false} NothingHeld(ws: seq<Worker>, id: nat)
    requires forall w :: 0 <= w < |ws| ==> ws[w].Top?
    ensures InFlight(ws, id) == 0
    decreases |ws|
  {
    if ws != [] { NothingHeld(ws[..|ws| - 1], id); }
  }

  lemma {:induction false} HeldCounts(ws: seq<Worker>, w: nat, id: nat)
    requires w < |ws| && Holds(ws[w], id)
    ensures InFlight(ws, id) > 0
    decreases |ws|
  {
    var n := |ws| - 1;
    if w < n { HeldCounts(ws[..n], w, id); }
  }

  lemma {:induction false} HeldTwice(ws: seq<Worker>, w: nat, v: nat, id: nat)
    requires w < v < |ws| && Holds(ws[w], id) && Holds(ws[v], id)
    ensures InFlight(ws, id) > 1
    decreases |ws|
  {
    var n := |ws| - 1;
    if v < n { HeldTwice(ws[..n], w, v, id); } else { HeldCounts(ws[..n], w, id); }
  }

  lemma {:induction false} ConservedNext(s: Pool, a: Action, id: nat)
    requires Enabled(s, a) && NullsAreLate(s) && Conserved(s, id)
    ensures Conserved(Act(s, a), id)
  {
    hide InFlight, Queued, Count;
    if a.Check? || a.Disconnected? || a.Recheck? || a.Compile? || a.LastCheck? || a.Send? || a.Announce? {
      ConservedWorker(s, a, id);
    } else if a.Submit? || a.SendNull? || a.Take? {
      ConservedQueue(s, a, id);
    } else {
      ConservedRest(s, a, id);
    }
  }

  lemma {:induction false} ConservedQueue(s: Pool, a: Action, id: nat)
    requires Enabled(s, a) && Conserved(s, id) && (a.Submit? || a.SendNull? || a.Take?)
    ensures Conserved(Act(s, a), id)
  {
    hide InFlight, Queued, Count;
    match a
    case Submit(x) => QueueBack(s.queue, Real(x), id);
    case SendNull => QueueBack(s.queue, Null, id);
    case Take(w) =>
      QueueFront(s.queue, id);
      MoveCounts(s.workers, w, Got(s.queue[0]), id);
  }

  lemma {:induction false} ConservedRest(s: Pool, a: Action, id: nat)
    requires Enabled(s, a) && Conserved(s, id) && !ByWorker(a) && !a.Submit? && !a.SendNull?
    ensures Conserved(Act(s, a), id)
  {
    hide InFlight, Queued, Count;
    if a.Receive? {
      assert s.results == [s.results[0]] + s.results[1..];
      CountConcat([s.results[0]], s.results[1..], id);
      CountConcat(s.delivered, [s.results[0]], id);
    } else if a.EndDrop? {
      CountConcat(s.dropped, s.results, id);
      CountNone(id);
    }
  }

  lemma {:induction false} CountNone(id: nat)
    ensures Count([], id) == 0
  {
  }

  lemma {:induction false} ConservedWorker(s: Pool, a: Action, id: nat)
    requires Enabled(s, a) && NullsAreLate(s) && Conserved(s, id)
    requires a.Check? || a.Disconnected? || a.Recheck? || a.Compile? || a.LastCheck? || a.Send? || a.Announce?
    ensures Conserved(Act(s, a), id)
  {
    hide InFlight, Queued, Count;
    MoveCounts(s.workers, a.w, Act(s, a).workers[a.w], id);
    if a.Recheck? || a.LastCheck? || a.Send? {
      var j := s.workers[a.w].job;
      CountIds(s.dropped, j, id);
      CountIds(s.results, j, id);
    }
  }

  lemma {:induction false} NullsNext(s: Pool, a: Action)
    requires Enabled(s, a) && NullsAreLate(s)
    ensures NullsAreLate(Act(s, a))
  {
  }

  lemma {:induction false} WorkingNext(s: Pool, a: Action)
    requires Enabled(s, a) && NullsAreLate(s) && AllWorking(s)
    ensures AllWorking(Act(s, a))
  {
  }

  lemma {:induction false} EnoughNext(s: Pool, a: Action)
    requires Enabled(s, a) && NullsAreLate(s) && EnoughNulls(s)
    ensures EnoughNulls(Act(s, a))
  {
    hide InFlight, Queued, Lives, Nulls;
    match a
    case Submit(x) => QueueBack(s.queue, Real(x), 0);
    case SendNull => QueueBack(s.queue, Null, 0);
    case Take(w) =>
      QueueFront(s.queue, 0);
      MoveCounts(s.workers, w, Got(s.queue[0]), 0);
    case BeginDrop => LivesAtMost(s.workers);
    case Check(w) => MoveCounts(s.workers, w, Act(s, a).workers[w], 0);
    case Disconnected(w) => MoveCounts(s.workers, w, Act(s, a).workers[w], 0);
    case Recheck(w) => MoveCounts(s.workers, w, Act(s, a).workers[w], 0);
    case Compile(w) => MoveCounts(s.workers, w, Act(s, a).workers[w], 0);
    case LastCheck(w) => MoveCounts(s.workers, w, Act(s, a).workers[w], 0);
    case Send(w) => MoveCounts(s.workers, w, Act(s, a).workers[w], 0);
    case Announce(w) => MoveCounts(s.workers, w, Act(s, a).workers[w], 0);
    case _ =>
  }

  lemma {:induction false} LivesAtMost(ws: seq<Worker>)
    ensures Lives(ws) <= |ws|
    decreases |ws|
  {
    if ws != [] { LivesAtMost(ws[..|ws| - 1]); }
  }

  lemma {:induction false} AnnouncedNext(s: Pool, a: Action)
    requires Enabled(s, a) && NullsAreLate(s) && Announced(s)
    ensures Announced(Act(s, a))
  {
    var t := Act(s, a);
    if t.results != [] && !t.pending && t.owner.Idle? {
      if a.Send? {
        assert t.workers[a.w].Announcing? || t.results == s.results;
      }
      if t.results == s.results && !s.pending && s.owner.Idle? {
        var w :| 0 <= w < |s.workers| && s.workers[w].Announcing?;
        assert t.workers[w].Announcing?;
      }
    }
  }

  lemma {:induction false} CompiledNext(s: Pool, a: Action, id: nat)
    requires Enabled(s, a) && NullsAreLate(s) && Conserved(s, id) && CompiledOnce(s, id)
    ensures CompiledOnce(Act(s, a), id)
  {
    hide InFlight, Queued, Count;
    if a.Compile? {
      CompileOnce(s, a.w, id);
    } else if a.Submit? || a.SendNull? || a.Take? {
      CompiledQueue(s, a, id);
    } else if ByWorker(a) {
      CompiledWorker(s, a, id);
    } else {
      CompiledOwner(s, a, id);
    }
  }

  lemma {:induction false} CompiledWorker(s: Pool, a: Action, id: nat)
    requires Enabled(s, a) && NullsAreLate(s) && CompiledOnce(s, id) && ByWorker(a) && !a.Take? && !a.Compile?
    ensures CompiledOnce(Act(s, a), id)
  {
    hide InFlight, Queued, Count;
    if a.Send? { CountIds(s.results, s.workers[a.w].job, id); }
  }

  lemma {:induction false} CompiledOwner(s: Pool, a: Action, id: nat)
    requires Enabled(s, a) && CompiledOnce(s, id) && !ByWorker(a) && !a.Submit? && !a.SendNull?
    ensures CompiledOnce(Act(s, a), id)
  {
    hide InFlight, Queued, Count;
    if a.Receive? {
      assert s.results == [s.results[0]] + s.results[1..];
      CountConcat([s.results[0]], s.results[1..], id);
      CountConcat(s.delivered, [s.results[0]], id);
    } else if a.EndDrop? {
      CountNone(id);
    }
  }

  lemma {:induction false} CompiledQueue(s: Pool, a: Action, id: nat)
    requires Enabled(s, a) && Conserved(s, id) && CompiledOnce(s, id) && (a.Submit? || a.SendNull? || a.Take?)
    ensures CompiledOnce(Act(s, a), id)
  {
    hide InFlight, Queued, Count;
    match a
    case Submit(x) => QueueBack(s.queue, Real(x), id); NotHeld(s, id);
    case SendNull => QueueBack(s.queue, Null, id);
    case Take(w) => QueueFront(s.queue, id);
  }

  lemma {:induction false} CompileOnce(s: Pool, w: nat, id: nat)
    requires Enabled(s, Compile(w)) && NullsAreLate(s) && Conserved(s, id) && CompiledOnce(s, id)
    ensures CompiledOnce(Act(s, Compile(w)), id)
  {
    hide InFlight, Queued, Count;
    CountIds(s.compiled, s.workers[w].job, id);
    if Holds(s.workers[w], id) {
      HeldCounts(s.workers, w, id);
      forall v | 0 <= v < |s.workers| && v != w ensures !Holds(s.workers[v], id) {
        if Holds(s.workers[v], id) {
          if v < w { HeldTwice(s.workers, v, w, id); } else { HeldTwice(s.workers, w, v, id); }
        }
      }
    }
  }

  lemma {:induction false} NotHeld(s: Pool, id: nat)
    requires Conserved(s, id)
    ensures id !in s.submitted ==> forall w :: 0 <= w < |s.workers| ==> !Holds(s.workers[w], id)
  {
    if id !in s.submitted {
      forall w | 0 <= w < |s.workers| ensures !Holds(s.workers[w], id) {
        if Holds(s.workers[w], id) { HeldCounts(s.workers, w, id); }
      }
    }
  }

  lemma {:induction false} InvNext(s: Pool, a: Action)
    requires Enabled(s, a) && Inv(s)
    ensures Inv(Act(s, a))
  {
    NullsNext(s, a);
    EnoughNext(s, a);
    AnnouncedNext(s, a);
    WorkingNext(s, a);
    hide NullsAreLate, EnoughNulls, Announced, AllWorking, Conserved, CompiledOnce, Act, Enabled;
    forall id: nat ensures Conserved(Act(s, a), id) && CompiledOnce(Act(s, a), id) {
      ConservedNext(s, a, id);
      CompiledNext(s, a, id);
    }
  }

  lemma {:induction false} RunInv(n: nat, actions: seq<Action>)
    ensures var s := Run(Initial(n), actions); s.Some? ==> Inv(s.value) && |s.value.workers| == n
    decreases |actions|
  {
    hide Inv, Act, Enabled;
    if actions == [] {
      InitialInv(n);
    } else {
      RunInv(n, actions[..|actions| - 1]);
      var before := Run(Initial(n), actions[..|actions| - 1]);
      var a := actions[|actions| - 1];
      if before.Some? && Enabled(before.value, a) {
        InvNext(before.value, a);
        SameWorkers(before.value, a);
      }
    }
  }

  lemma {:induction false} SameWorkers(s: Pool, a: Action)
    requires Enabled(s, a)
    ensures |Act(s, a).workers| == |s.workers|
  {
  }

  // What every run keeps.

  /** No worker compiles an empty job, or is past compiling one. */
  lemma {:induction false} NullIsNeverCompiled(n: nat, actions: seq<Action>, w: nat)
    requires Run(Initial(n), actions).Some? && w < n
    ensures
      var p := Run(Initial(n), actions).value.workers;
      w < |p| && (p[w].Compiling? || p[w].Compiled? || p[w].Sending? ==> p[w].job.Real?)
  {
    hide Run;
    RunInv(n, actions);
  }

  /** A job is compiled at most once, gives at most one result, and is never lost: it is always
      queued, with a worker, waiting as a result, delivered, or dropped at shutdown. */
  lemma {:induction false} JobsAreConserved(n: nat, actions: seq<Action>, id: nat)
    requires Run(Initial(n), actions).Some?
    ensures
      var s := Run(Initial(n), actions).value;
      && Count(s.compiled, id) <= 1
      && Count(s.results, id) + Count(s.delivered, id) <= Count(s.compiled, id)
      && Bit(id in s.submitted) == Queued(s.queue, id) + InFlight(s.workers, id) + Count(s.results, id) + Count(s.delivered, id) + Count(s.dropped, id)
  {
    hide Run;
    RunInv(n, actions);
    var s := Run(Initial(n), actions).value;
    assert Conserved(s, id) && CompiledOnce(s, id);
  }

  /** While the pool is in use nothing is dropped. */
  lemma {:induction false} NothingDroppedAlive(n: nat, actions: seq<Action>)
    requires Run(Initial(n), actions).Some?
    ensures var s := Run(Initial(n), actions).value; s.handle.Alive? ==> s.dropped == []
    decreases |actions|
  {
    if actions != [] {
      var first, a := actions[..|actions| - 1], actions[|actions| - 1];
      NothingDroppedAlive(n, first);
      RunInv(n, first);
      var s := Run(Initial(n), first).value;
      hide Run;
      DropsAlive(s, a);
    }
  }

  lemma {:induction false} DropsAlive(s: Pool, a: Action)
    requires Enabled(s, a) && NullsAreLate(s) && (s.handle.Alive? ==> s.dropped == [])
    ensures var t := Act(s, a); t.handle.Alive? ==> t.dropped == []
  {
  }

  /** A result is never stranded: if the owner is idle and no worker is about to announce it,
      the flag the owner looks at is set. */
  lemma {:induction false} ResultsAreSeen(n: nat, actions: seq<Action>)
    requires Run(Initial(n), actions).Some?
    ensures
      var s := Run(Initial(n), actions).value;
      s.handle.Alive? && s.results != [] && s.owner.Idle? && (forall w :: 0 <= w < |s.workers| ==> !s.workers[w].Announcing?) ==> Enabled(s, Look)
  {
    hide Run;
    RunInv(n, actions);
  }

  /** A worker's own next action. */
  function NextOf(s: Pool, w: nat): Action
    requires At(s, w) && !s.workers[w].Done?
  {
    match s.workers[w]
    case Top => Check(w)
    case Waiting => if s.queue == [] then Disconnected(w) else Take(w)
    case Got(_) => Recheck(w)
    case Compiling(_) => Compile(w)
    case Compiled(_) => LastCheck(w)
    case Sending(_) => Send(w)
    case Announcing => Announce(w)
  }

  // In use.

  /** While the handle is in use no worker has quit, and each can go on unless there is nothing to
      do. */
  lemma {:induction false} NobodyQuitsInUse(n: nat, actions: seq<Action>, w: nat)
    requires Run(Initial(n), actions).Some? && w < n
    ensures
      var s := Run(Initial(n), actions).value;
      At(s, w) && (s.handle.Alive? ==> !s.workers[w].Done? && (Enabled(s, NextOf(s, w)) <==> !s.workers[w].Waiting? || s.queue != []))
  {
    hide Run;
    RunInv(n, actions);
  }

  /** These actions bring job `id` to the owner, the handle staying in use. */
  ghost predicate Delivers(s: Pool, id: nat, more: seq<Action>) {
    Run(s, more).Some? && Run(s, more).value.handle.Alive? && id in Run(s, more).value.delivered
  }

  ghost predicate Deliverable(s: Pool, id: nat) {
    exists more :: Delivers(s, id, more)
  }

  ghost predicate InUse(s: Pool) {
    Inv(s) && s.handle.Alive? && s.workers != []
  }

  lemma {:induction false} RunAfter(s: Pool, a: Action, more: seq<Action>)
    requires Enabled(s, a)
    ensures Run(s, [a] + more) == Run(Act(s, a), more)
    decreases |more|
  {
    hide Act, Enabled;
    if more == [] {
      assert [a][..0] == [];
      assert Run(s, [a][..0]) == Some(s);
      assert [a] + more == [a];
    } else {
      var k := |more| - 1;
      RunAfter(s, a, more[..k]);
      assert ([a] + more)[..k + 1] == [a] + more[..k];
    }
  }

  lemma {:induction false} DeliverableBefore(s: Pool, a: Action, id: nat)
    requires Enabled(s, a) && Deliverable(Act(s, a), id)
    ensures Deliverable(s, id)
  {
    hide Run, Act, Enabled;
    var more :| Delivers(Act(s, a), id, more);
    RunAfter(s, a, more);
    assert Delivers(s, id, [a] + more);
  }

  lemma {:induction false} DeliveredAlready(s: Pool, id: nat)
    requires s.handle.Alive? && id in s.delivered
    ensures Deliverable(s, id)
  {
    assert Run(s, []) == Some(s);
    assert Delivers(s, id, []);
  }

  lemma {:induction false} StaysInUse(s: Pool, a: Action)
    requires InUse(s) && Enabled(s, a) && !a.BeginDrop?
    ensures InUse(Act(s, a)) && |Act(s, a).workers| == |s.workers|
  {
    InvNext(s, a);
    SameWorkers(s, a);
    hide Inv;
  }

  /** What a waiting result still waits for: the flag, the owner's look at it, and the results
      before it. */
  function OwnerRank(s: Pool): nat {
    match s.owner
    case Draining => 0
    case Clearing => 1
    case Idle => if s.pending then 2 else 3
  }

  function OwnersNext(s: Pool, announcer: nat): Action {
    match s.owner
    case Draining => Receive
    case Clearing => Clear
    case Idle => if s.pending then Look else Announce(announcer)
  }

  lemma {:induction false} OwnerGoesOn(s: Pool, id: nat) returns (a: Action)
    requires InUse(s) && id in s.results
    ensures Enabled(s, a) && !a.BeginDrop?
    ensures
      var t := Act(s, a);
      && (id in t.results || id in t.delivered)
      && (|t.results| < |s.results| || (|t.results| == |s.results| && OwnerRank(t) < OwnerRank(s)))
  {
    var w := 0;
    assert Announced(s);
    if s.owner.Idle? && !s.pending {
      w :| 0 <= w < |s.workers| && s.workers[w].Announcing?;
    }
    a := OwnersNext(s, w);
  }

  /** A result is delivered in the end. */
  lemma {:induction false} ResultDelivered(s: Pool, id: nat)
    requires InUse(s) && (id in s.results || id in s.delivered)
    ensures Deliverable(s, id)
    decreases |s.results|, OwnerRank(s)
  {
    if id in s.delivered {
      DeliveredAlready(s, id);
    } else {
      var a := OwnerGoesOn(s, id);
      StaysInUse(s, a);
      hide *;
      ResultDelivered(Act(s, a), id);
      DeliverableBefore(s, a, id);
    }
  }

  /** How far a worker is from waiting for its next job. */
  function Distance(p: Worker): nat {
    match p
    case Got(_) => 7
    case Compiling(_) => 6
    case Compiled(_) => 5
    case Sending(_) => 4
    case Announcing => 3
    case Top => 2
    case Waiting => 1
    case Done => 0
  }

  lemma {:induction false} HolderGoesOn(s: Pool, w: nat, id: nat)
    requires InUse(s) && At(s, w) && Holds(s.workers[w], id)
    ensures !s.workers[w].Done? && Enabled(s, NextOf(s, w))
    ensures
      var t := Act(s, NextOf(s, w));
      id in t.results || (At(t, w) && Holds(t.workers[w], id) && Distance(t.workers[w]) < Distance(s.workers[w]))
  {
    assert NullsAreLate(s);
  }

  /** A job that a worker has is delivered in the end. */
  lemma {:induction false} HeldDelivered(s: Pool, w: nat, id: nat)
    requires InUse(s) && At(s, w) && Holds(s.workers[w], id)
    ensures Deliverable(s, id)
    decreases Distance(s.workers[w])
  {
    HolderGoesOn(s, w, id);
    var a := NextOf(s, w);
    StaysInUse(s, a);
    hide *;
    var t := Act(s, a);
    if id in t.results { ResultDelivered(t, id); } else { HeldDelivered(t, w, id); }
    DeliverableBefore(s, a, id);
  }

  lemma {:induction false} FirstGoesOn(s: Pool, id: nat)
    requires InUse(s) && Real(id) in s.queue
    ensures !s.workers[0].Done? && Enabled(s, NextOf(s, 0))
    ensures
      var t := Act(s, NextOf(s, 0));
      && At(t, 0) && (Real(id) in t.queue || Holds(t.workers[0], id))
      && (|t.queue| < |s.queue| || (|t.queue| == |s.queue| && Distance(t.workers[0]) < Distance(s.workers[0])))
  {
    assert NullsAreLate(s) && AllWorking(s);
  }

  /** A queued job is delivered in the end. */
  lemma {:induction false} QueuedDelivered(s: Pool, id: nat)
    requires InUse(s) && Real(id) in s.queue
    ensures Deliverable(s, id)
    decreases |s.queue|, Distance(s.workers[0])
  {
    FirstGoesOn(s, id);
    var a := NextOf(s, 0);
    StaysInUse(s, a);
    hide *;
    var t := Act(s, a);
    if Real(id) in t.queue { QueuedDelivered(t, id); } else { HeldDelivered(t, 0, id); }
    DeliverableBefore(s, a, id);
  }

  lemma {:induction false} QueuedIsThere(q: seq<Job>, id: nat)
    requires Queued(q, id) > 0
    ensures Real(id) in q
    decreases |q|
  {
    var k := |q| - 1;
    if !Is(q[k], id) {
      QueuedIsThere(q[..k], id);
      var i :| 0 <= i < k && q[..k][i] == Real(id);
      assert q[i] == Real(id);
    } else {
      assert q[k] == Real(id);
    }
  }

  lemma {:induction false} CountedIsThere(ids: seq<nat>, id: nat)
    requires Count(ids, id) > 0
    ensures id in ids
    decreases |ids|
  {
    var k := |ids| - 1;
    if ids[k] != id { CountedIsThere(ids[..k], id); }
  }

  lemma {:induction false} HolderOf(ws: seq<Worker>, id: nat) returns (w: nat)
    requires InFlight(ws, id) > 0
    ensures w < |ws| && Holds(ws[w], id)
    decreases |ws|
  {
    var k := |ws| - 1;
    if Holds(ws[k], id) { w := k; } else { w := HolderOf(ws[..k], id); }
  }

  /** While the handle is in use every job submitted can still reach the owner: from each state
      of each run some continuation delivers it. */
  lemma {:induction false} EveryJobCanBeDelivered(n: nat, actions: seq<Action>, id: nat)
    requires n > 0 && Run(Initial(n), actions).Some?
    ensures
      var s := Run(Initial(n), actions).value;
      s.handle.Alive? && id in s.submitted ==> exists more :: Delivers(s, id, more)
  {
    RunInv(n, actions);
    JobsAreConserved(n, actions, id);
    NothingDroppedAlive(n, actions);
    var s := Run(Initial(n), actions).value;
    hide *;
    if s.handle.Alive? && id in s.submitted {
      IsInUse(s);
      SomewhereDelivered(s, id);
      IsDeliverable(s, id);
    }
  }

  lemma {:induction false} IsInUse(s: Pool)
    requires Inv(s) && s.handle.Alive? && s.workers != []
    ensures InUse(s)
  {
  }

  lemma {:induction false} IsDeliverable(s: Pool, id: nat)
    requires Deliverable(s, id)
    ensures exists more :: Delivers(s, id, more)
  {
  }

  lemma {:induction false} SomewhereDelivered(s: Pool, id: nat)
    requires InUse(s) && id in s.submitted && s.dropped == []
    requires Bit(id in s.submitted) == Queued(s.queue, id) + InFlight(s.workers, id) + Count(s.results, id) + Count(s.delivered, id) + Count(s.dropped, id)
    ensures Deliverable(s, id)
  {
    hide InUse, Deliverable;
    if Queued(s.queue, id) > 0 {
      QueuedIsThere(s.queue, id);
      QueuedDelivered(s, id);
    } else if InFlight(s.workers, id) > 0 {
      var w := HolderOf(s.workers, id);
      HeldDelivered(s, w, id);
    } else if Count(s.results, id) > 0 {
      CountedIsThere(s.results, id);
      ResultDelivered(s, id);
    } else {
      CountedIsThere(s.delivered, id);
      ResultDelivered(s, id);
    }
  }

  predicate IsLook(a: Action) {
    a.Look?
  }

  predicate IsAnnounce(a: Action) {
    a.Announce?
  }

  function Times(actions: seq<Action>, p: Action -> bool): nat {
    if actions == [] then 0 else Times(actions[..|actions| - 1], p) + Bit(p(actions[|actions| - 1]))
  }

  /** The owner drains at most once for each announcement: clearing the flag first loses none and
      repeats none. */
  lemma {:induction false} LooksFollowAnnouncements(n: nat, actions: seq<Action>)
    requires Run(Initial(n), actions).Some?
    ensures
      var s := Run(Initial(n), actions).value;
      Times(actions, IsLook) + Bit(s.pending && !s.owner.Clearing?) <= Times(actions, IsAnnounce)
    decreases |actions|
  {
    if actions != [] { LooksFollowAnnouncements(n, actions[..|actions| - 1]); }
  }

  // Shutdown.

  lemma {:induction false} WaitingIsLive(ws: seq<Worker>, w: nat)
    requires w < |ws| && Live(ws[w])
    ensures Lives(ws) > 0
    decreases |ws|
  {
    var n := |ws| - 1;
    if w < n { WaitingIsLive(ws[..n], w); }
  }

  /** After the handle is dropped no worker waits forever: each that is not done can go on, one
      that waits for a job because the queue is not empty. */
  lemma {:induction false} NoneWaitsForever(n: nat, actions: seq<Action>, w: nat)
    requires Run(Initial(n), actions).Some? && w < n
    ensures
      var s := Run(Initial(n), actions).value;
      && At(s, w)
      && (s.handle.Gone? && !s.workers[w].Done? ==> Enabled(s, NextOf(s, w)))
      && (s.handle.Gone? && s.workers[w].Waiting? ==> s.queue != [])
  {
    hide Run;
    RunInv(n, actions);
    var s := Run(Initial(n), actions).value;
    if s.handle.Gone? && s.workers[w].Waiting? { WaitingIsLive(s.workers, w); }
  }

  /** How many actions of its own a worker can still take once the flag is set. */
  function Rank(p: Worker): nat {
    match p
    case Done => 0
    case Top => 1
    case Announcing => 2
    case Sending(_) => 3
    case Compiled(_) => 4
    case Compiling(_) => 5
    case Got(_) => 6
    case Waiting => 7
  }

  function Ranks(ws: seq<Worker>): nat {
    if ws == [] then 0 else Ranks(ws[..|ws| - 1]) + Rank(ws[|ws| - 1])
  }

  lemma {:induction false} RanksMove(ws: seq<Worker>, w: nat, p: Worker)
    requires w < |ws|
    ensures Ranks(ws[w := p]) + Rank(ws[w]) == Ranks(ws) + Rank(p)
    decreases |ws|
  {
    var n := |ws| - 1;
    var us := ws[w := p];
    if w < n {
      assert us[..n] == ws[..n][w := p] && us[n] == ws[n];
      RanksMove(ws[..n], w, p);
    } else {
      assert us[..n] == ws[..n];
    }
  }

  predicate ByWorker(a: Action) {
    a.Check? || a.Take? || a.Disconnected? || a.Recheck? || a.Compile? || a.LastCheck? || a.Send? || a.Announce?
  }

  function WorkerActions(actions: seq<Action>): nat {
    if actions == [] then 0 else WorkerActions(actions[..|actions| - 1]) + Bit(ByWorker(actions[|actions| - 1]))
  }

  lemma {:induction false} RanksFall(s: Pool, a: Action)
    requires Enabled(s, a) && s.shutdown
    ensures Act(s, a).shutdown && Ranks(Act(s, a).workers) + Bit(ByWorker(a)) <= Ranks(s.workers)
  {
    hide Ranks;
    if ByWorker(a) { RanksMove(s.workers, a.w, Act(s, a).workers[a.w]); }
  }

  lemma {:induction false} RanksBound(ws: seq<Worker>)
    ensures Ranks(ws) <= 7 * |ws|
    decreases |ws|
  {
    if ws != [] { RanksBound(ws[..|ws| - 1]); }
  }

  lemma {:induction false} RanksRun(s: Pool, actions: seq<Action>)
    requires s.shutdown && Run(s, actions).Some?
    ensures var t := Run(s, actions).value; t.shutdown && Ranks(t.workers) + WorkerActions(actions) <= Ranks(s.workers)
    decreases |actions|
  {
    if actions != [] {
      var first := actions[..|actions| - 1];
      RanksRun(s, first);
      RanksFall(Run(s, first).value, actions[|actions| - 1]);
    }
  }

  /** Once the flag is set the workers take at most seven more actions each, however the run
      goes on; so, none of them being stuck, they all finish. */
  lemma {:induction false} WorkersFinish(s: Pool, actions: seq<Action>)
    requires s.shutdown && Run(s, actions).Some?
    ensures WorkerActions(actions) <= 7 * |s.workers|
  {
    RanksRun(s, actions);
    RanksBound(s.workers);
  }
}
