/**
  The worker pool of the proxy listener (proxy_agent/src/proxy/proxy_pool.rs) as a step machine: submitters,
  workers that share one receiver behind a lock, and the thread that drops the pool, interleaved in any way.
 */
module ProxyPool {
  import opened Prelude

  type Job = nat

  /** `Running` carries the ticket of its job: the number of jobs taken from the channel before it. */
  datatype Worker = Ready | Receiving | Running(ticket: nat) | Exited | Dead

  datatype Pool = Pool(
    workers: seq<Worker>,
    lock: Option<nat>,
    channel: seq<Job>,
    open: bool,
    joined: nat,
    submitted: seq<Job>,
    lost: seq<Job>,       // handed to `execute` when the receiver was gone
    taken: seq<Job>,
    finished: set<nat>,
    panicked: set<nat>)

  function New(size: nat): Pool {
    Pool(seq(size, _ => Ready), None, [], true, 0, [], [], [], {}, {})
  }

  datatype Step =
    | Submit(job: Job)
    | Lock(worker: nat)
    | Receive(worker: nat)
    | Disconnect(worker: nat)
    | Finish(worker: nat)
    | Panic(worker: nat)
    | Close
    | Join

  predicate Gone(w: Worker) {
    w.Exited? || w.Dead?
  }

  /** `recv` fails only when the sender is gone and the channel is empty; `join` waits for its thread.
      A submitter holds the pool shared and `drop` holds it alone, so nothing is submitted after `Close`. */
  predicate Enabled(p: Pool, s: Step) {
    match s
    case Submit(_) => p.open
    case Lock(w) => w < |p.workers| && p.workers[w].Ready? && p.lock == None
    case Receive(w) => w < |p.workers| && p.workers[w].Receiving? && p.channel != []
    case Disconnect(w) => w < |p.workers| && p.workers[w].Receiving? && p.channel == [] && !p.open
    case Finish(w) => w < |p.workers| && p.workers[w].Running?
    case Panic(w) => w < |p.workers| && p.workers[w].Running?
    case Close => p.open
    case Join => !p.open && p.joined < |p.workers| && Gone(p.workers[p.joined])
  }

  /** The receiver lives as long as a worker does. */
  predicate Receivable(p: Pool) {
    exists w | 0 <= w < |p.workers| :: !Gone(p.workers[w])
  }

  /** `execute` ignores a send that fails, and the job is lost. */
  function Apply(p: Pool, s: Step): Pool
    requires Enabled(p, s)
  {
    match s
    case Submit(job) =>
      if Receivable(p) then p.(channel := p.channel + [job], submitted := p.submitted + [job])
      else p.(lost := p.lost + [job])
    case Lock(w) => p.(workers := p.workers[w := Receiving], lock := Some(w))
    case Receive(w) =>
      p.(workers := p.workers[w := Running(|p.taken|)], lock := None,
         channel := p.channel[1..], taken := p.taken + [p.channel[0]])
    case Disconnect(w) => p.(workers := p.workers[w := Exited], lock := None)
    case Finish(w) => p.(workers := p.workers[w := Ready], finished := p.finished + {p.workers[w].ticket})
    case Panic(w) => p.(workers := p.workers[w := Dead], panicked := p.panicked + {p.workers[w].ticket})
    case Close => p.(open := false)
    case Join => p.(joined := p.joined + 1)
  }

  predicate IsRun(p: Pool, steps: seq<Step>)
    decreases |steps|
  {
    steps == [] || (Enabled(p, steps[0]) && IsRun(Apply(p, steps[0]), steps[1..]))
  }

  function After(p: Pool, steps: seq<Step>): Pool
    requires IsRun(p, steps)
    decreases |steps|
  {
    if steps == [] then p else After(Apply(p, steps[0]), steps[1..])
  }

  /** `drop` has returned. */
  predicate Dropped(p: Pool) {
    !p.open && p.joined == |p.workers|
  }

  predicate NoPanic(steps: seq<Step>) {
    forall i | 0 <= i < |steps| :: !steps[i].Panic?
  }

  // ---------- what every step keeps ----------

  /** Nothing is lost, doubled or reordered between submission and taking. */
  predicate InOrder(p: Pool) {
    p.submitted == p.taken + p.channel
  }

  predicate LockHeldByReceiver(p: Pool) {
    && (p.lock.Some? ==> p.lock.value < |p.workers|)
    && forall w | 0 <= w < |p.workers| :: p.workers[w].Receiving? <==> p.lock == Some(w)
  }

  predicate RunningTickets(p: Pool) {
    && (forall w | 0 <= w < |p.workers| && p.workers[w].Running? ::
          var t := p.workers[w].ticket; t < |p.taken| && t !in p.finished && t !in p.panicked)
    && (forall v, w | 0 <= v < w < |p.workers| && p.workers[v].Running? && p.workers[w].Running? ::
          p.workers[v].ticket != p.workers[w].ticket)
  }

  predicate IsRunning(p: Pool, t: nat) {
    exists w | 0 <= w < |p.workers| :: p.workers[w] == Running(t)
  }

  /** Each job taken is in exactly one worker's hands, finished, or ended by a panic. */
  predicate OnceEach(p: Pool) {
    && (forall t: nat | t < |p.taken| :: t in p.finished || t in p.panicked || IsRunning(p, t))
    && (forall t | t in p.finished :: t < |p.taken| && t !in p.panicked)
    && (forall t | t in p.panicked :: t < |p.taken|)
  }

  predicate ExitsWhenDrained(p: Pool) {
    && (forall w | 0 <= w < |p.workers| && p.workers[w].Exited? :: !p.open && p.channel == [])
    && p.joined <= |p.workers|
    && (forall w | 0 <= w < p.joined :: Gone(p.workers[w]))
  }

  function DeadCount(ws: seq<Worker>): nat {
    if ws == [] then 0 else (if ws[0].Dead? then 1 else 0) + DeadCount(ws[1..])
  }

  /** A worker dies only by a panic of its job, and a panic ends one worker. */
  predicate DeathsArePanics(p: Pool) {
    DeadCount(p.workers) == |p.panicked|
  }

  /** A job is lost only after every worker has died. */
  predicate LostAfterDeaths(p: Pool) {
    p.lost != [] ==> forall w | 0 <= w < |p.workers| :: p.workers[w].Dead?
  }

  predicate Inv(p: Pool) {
    && InOrder(p) && LockHeldByReceiver(p) && RunningTickets(p) && OnceEach(p) && ExitsWhenDrained(p)
    && DeathsArePanics(p) && LostAfterDeaths(p)
  }

  lemma SettledElsewhere(p: Pool, q: Pool, w: nat, t: nat)
    requires w < |p.workers| && |q.workers| == |p.workers|
    requires forall v | 0 <= v < |p.workers| && v != w :: q.workers[v] == p.workers[v]
    requires IsRunning(p, t) && p.workers[w] != Running(t)
    ensures IsRunning(q, t)
  {
    var v :| 0 <= v < |p.workers| && p.workers[v] == Running(t);
    assert q.workers[v] == Running(t);
  }

  lemma OnceEachAfterLock(p: Pool, w: nat)
    requires Inv(p) && (Enabled(p, Lock(w)) || Enabled(p, Disconnect(w)))
    ensures Enabled(p, Lock(w)) ==> OnceEach(Apply(p, Lock(w)))
    ensures Enabled(p, Disconnect(w)) ==> OnceEach(Apply(p, Disconnect(w)))
  {
    forall t: nat | t < |p.taken| && IsRunning(p, t)
      ensures Enabled(p, Lock(w)) ==> IsRunning(Apply(p, Lock(w)), t)
      ensures Enabled(p, Disconnect(w)) ==> IsRunning(Apply(p, Disconnect(w)), t)
    {
      if Enabled(p, Lock(w)) { SettledElsewhere(p, Apply(p, Lock(w)), w, t); }
      if Enabled(p, Disconnect(w)) { SettledElsewhere(p, Apply(p, Disconnect(w)), w, t); }
    }
  }

  lemma OnceEachAfterReceive(p: Pool, w: nat)
    requires Inv(p) && Enabled(p, Receive(w))
    ensures OnceEach(Apply(p, Receive(w)))
  {
    var q := Apply(p, Receive(w));
    assert q.workers[w] == Running(|p.taken|);
    assert IsRunning(q, |p.taken|);
    forall t: nat | t < |p.taken| && IsRunning(p, t) ensures IsRunning(q, t) { SettledElsewhere(p, q, w, t); }
  }

  lemma OnceEachAfterEnd(p: Pool, w: nat)
    requires Inv(p) && Enabled(p, Finish(w))
    ensures OnceEach(Apply(p, Finish(w))) && OnceEach(Apply(p, Panic(w)))
  {
    var done, died := Apply(p, Finish(w)), Apply(p, Panic(w));
    forall t: nat | t < |p.taken| && IsRunning(p, t) && t != p.workers[w].ticket
      ensures IsRunning(done, t) && IsRunning(died, t)
    {
      SettledElsewhere(p, done, w, t);
      SettledElsewhere(p, died, w, t);
    }
  }

  lemma OnceEachElsewhere(p: Pool, q: Pool)
    requires OnceEach(p) && q.workers == p.workers
    requires q.taken == p.taken && q.finished == p.finished && q.panicked == p.panicked
    ensures OnceEach(q)
  {
    forall t: nat | IsRunning(p, t) ensures IsRunning(q, t) {
      var v :| 0 <= v < |p.workers| && p.workers[v] == Running(t);
      assert q.workers[v] == Running(t);
    }
  }

  lemma StepKeepsOnceEach(p: Pool, s: Step)
    requires Inv(p) && Enabled(p, s)
    ensures OnceEach(Apply(p, s))
  {
    match s {
      case Lock(w) => OnceEachAfterLock(p, w);
      case Disconnect(w) => OnceEachAfterLock(p, w);
      case Receive(w) => OnceEachAfterReceive(p, w);
      case Finish(w) => OnceEachAfterEnd(p, w);
      case Panic(w) => OnceEachAfterEnd(p, w);
      case Submit(_) => OnceEachElsewhere(p, Apply(p, s));
      case Close => OnceEachElsewhere(p, Apply(p, s));
      case Join => OnceEachElsewhere(p, Apply(p, s));
    }
  }

  lemma StepKeepsOrder(p: Pool, s: Step)
    requires InOrder(p) && Enabled(p, s)
    ensures InOrder(Apply(p, s))
  {
    match s {
      case Submit(job) =>
        if Receivable(p) { assert p.taken + (p.channel + [job]) == p.submitted + [job]; }
      case Receive(w) => assert p.taken + p.channel == (p.taken + [p.channel[0]]) + p.channel[1..];
      case _ =>
    }
  }

  lemma StepKeepsLock(p: Pool, s: Step)
    requires LockHeldByReceiver(p) && Enabled(p, s)
    ensures LockHeldByReceiver(Apply(p, s))
  {
  }

  lemma StepKeepsTickets(p: Pool, s: Step)
    requires RunningTickets(p) && OnceEach(p) && Enabled(p, s)
    ensures RunningTickets(Apply(p, s))
  {
  }

  lemma StepKeepsExits(p: Pool, s: Step)
    requires ExitsWhenDrained(p) && Enabled(p, s)
    ensures ExitsWhenDrained(Apply(p, s))
  {
  }

  lemma StepKeepsLosses(p: Pool, s: Step)
    requires LostAfterDeaths(p) && ExitsWhenDrained(p) && Enabled(p, s)
    ensures LostAfterDeaths(Apply(p, s))
  {
    if s.Submit? && !Receivable(p) {
      forall w | 0 <= w < |p.workers| ensures p.workers[w].Dead? { assert Gone(p.workers[w]); }
    }
  }

  lemma {:induction false} DeadCountUpdate(ws: seq<Worker>, k: nat, w: Worker)
    requires k < |ws|
    ensures DeadCount(ws[k := w]) == DeadCount(ws) - (if ws[k].Dead? then 1 else 0) + (if w.Dead? then 1 else 0)
  {
    if k == 0 {
      assert ws[0 := w][1..] == ws[1..];
    } else {
      DeadCountUpdate(ws[1..], k - 1, w);
      assert ws[k := w][1..] == ws[1..][k - 1 := w];
    }
  }

  lemma StepKeepsDeaths(p: Pool, s: Step)
    requires DeathsArePanics(p) && RunningTickets(p) && Enabled(p, s)
    ensures DeathsArePanics(Apply(p, s))
  {
    match s {
      case Lock(w) => DeadCountUpdate(p.workers, w, Receiving);
      case Receive(w) => DeadCountUpdate(p.workers, w, Running(|p.taken|));
      case Disconnect(w) => DeadCountUpdate(p.workers, w, Exited);
      case Finish(w) => DeadCountUpdate(p.workers, w, Ready);
      case Panic(w) => DeadCountUpdate(p.workers, w, Dead);
      case _ =>
    }
  }

  lemma {:induction false} AllDead(ws: seq<Worker>)
    ensures DeadCount(ws) <= |ws|
    ensures DeadCount(ws) == |ws| <==> forall w | 0 <= w < |ws| :: ws[w].Dead?
  {
    if ws != [] { AllDead(ws[1..]); }
  }

  lemma {:induction false} NoneDead(size: nat)
    ensures DeadCount(New(size).workers) == 0
  {
    if size > 0 {
      NoneDead(size - 1);
      assert New(size).workers[1..] == New(size - 1).workers;
    }
  }

  lemma StepKeepsInv(p: Pool, s: Step)
    requires Inv(p) && Enabled(p, s)
    ensures Inv(Apply(p, s))
  {
    StepKeepsOrder(p, s);
    StepKeepsLock(p, s);
    StepKeepsTickets(p, s);
    StepKeepsOnceEach(p, s);
    StepKeepsExits(p, s);
    StepKeepsDeaths(p, s);
    StepKeepsLosses(p, s);
  }

  lemma {:induction false} RunKeepsInv(p: Pool, steps: seq<Step>)
    requires Inv(p) && IsRun(p, steps)
    ensures Inv(After(p, steps))
    ensures |After(p, steps).workers| == |p.workers|
    ensures NoPanic(steps) ==> After(p, steps).panicked == p.panicked
    decreases |steps|
  {
    if steps != [] {
      StepKeepsInv(p, steps[0]);
      RunKeepsInv(Apply(p, steps[0]), steps[1..]);
      if NoPanic(steps) {
        assert !steps[0].Panic?;
        assert forall i | 0 <= i < |steps[1..]| :: steps[1..][i] == steps[i + 1];
      }
    }
  }

  // ---------- what drop promises ----------

  /** When `drop` has returned, every worker is gone and every job taken was run exactly once to its end. The
      jobs taken are the first ones submitted, in order, and all of them, with none lost, unless as many jobs
      panicked as there are workers. */
  lemma DropWaits(size: nat, steps: seq<Step>)
    requires size > 0 && IsRun(New(size), steps) && Dropped(After(New(size), steps))
    ensures var p := After(New(size), steps);
            && |p.workers| == size
            && (forall w | 0 <= w < size :: Gone(p.workers[w]))
            && (forall t: nat | t < |p.taken| :: t in p.finished <==> t !in p.panicked)
            && (forall t | t in p.finished + p.panicked :: t < |p.taken|)
            && p.taken <= p.submitted
            && |p.panicked| <= size
            && (|p.panicked| < size ==> p.taken == p.submitted && p.lost == [])
            && (NoPanic(steps) ==>
                  p.taken == p.submitted && p.lost == [] && forall t: nat | t < |p.submitted| :: t in p.finished)
  {
    NoneDead(size);
    RunKeepsInv(New(size), steps);
    var p := After(New(size), steps);
    AllDead(p.workers);
  }

  // ---------- drop returns ----------

  function Weight(w: Worker): nat {
    match w
    case Ready => 3
    case Receiving => 2
    case Running(_) => 4
    case Exited => 0
    case Dead => 0
  }

  function Weights(ws: seq<Worker>): nat {
    if ws == [] then 0 else Weight(ws[0]) + Weights(ws[1..])
  }

  /** What is left to do once the sender is dropped. */
  function Remaining(p: Pool): nat
    requires p.joined <= |p.workers|
  {
    4 * |p.channel| + Weights(p.workers) + (|p.workers| - p.joined)
  }

  lemma {:induction false} WeightsUpdate(ws: seq<Worker>, k: nat, w: Worker)
    requires k < |ws|
    ensures Weights(ws[k := w]) == Weights(ws) - Weight(ws[k]) + Weight(w)
  {
    if k == 0 {
      assert ws[0 := w][1..] == ws[1..];
    } else {
      WeightsUpdate(ws[1..], k - 1, w);
      assert ws[k := w][1..] == ws[1..][k - 1 := w];
    }
  }

  lemma StepDecreases(p: Pool, s: Step)
    requires Inv(p) && !p.open && Enabled(p, s)
    ensures var q := Apply(p, s); !q.open && q.joined <= |q.workers| && Remaining(q) < Remaining(p)
    ensures Apply(p, s).submitted == p.submitted
  {
    match s {
      case Lock(w) => WeightsUpdate(p.workers, w, Receiving);
      case Receive(w) => WeightsUpdate(p.workers, w, Running(|p.taken|));
      case Disconnect(w) => WeightsUpdate(p.workers, w, Exited);
      case Finish(w) => WeightsUpdate(p.workers, w, Ready);
      case Panic(w) => WeightsUpdate(p.workers, w, Dead);
      case Join =>
    }
  }

  /** After `drop` begins every schedule is finite and nothing more is submitted. */
  lemma {:induction false} DropIsBounded(p: Pool, steps: seq<Step>)
    requires Inv(p) && !p.open && IsRun(p, steps)
    ensures |steps| <= Remaining(p)
    ensures After(p, steps).submitted == p.submitted && !After(p, steps).open
    decreases |steps|
  {
    if steps != [] {
      StepKeepsInv(p, steps[0]);
      StepDecreases(p, steps[0]);
      DropIsBounded(Apply(p, steps[0]), steps[1..]);
    }
  }

  /** Until `drop` has returned some thread can move: there is no deadlock. */
  lemma SomeoneMoves(p: Pool) returns (s: Step)
    requires Inv(p) && !p.open && !Dropped(p)
    ensures Enabled(p, s) && !s.Panic?
  {
    if w :| 0 <= w < |p.workers| && p.workers[w].Running? {
      s := Finish(w);
    } else if p.lock.Some? {
      var w := p.lock.value;
      assert p.workers[w].Receiving?;
      s := if p.channel != [] then Receive(w) else Disconnect(w);
    } else if w :| 0 <= w < |p.workers| && p.workers[w].Ready? {
      s := Lock(w);
    } else {
      assert Gone(p.workers[p.joined]);
      s := Join;
    }
  }

  /** From every state in which the pool is being dropped, letting threads move in any order ends with `drop`
      returned: a schedule that cannot be continued has dropped the pool. */
  lemma DropReturns(size: nat, steps: seq<Step>)
    requires size > 0 && IsRun(New(size), steps)
    ensures var p := After(New(size), steps);
            !p.open && (forall s :: !Enabled(p, s)) ==> Dropped(p)
  {
    NoneDead(size);
    RunKeepsInv(New(size), steps);
    var p := After(New(size), steps);
    if !p.open && !Dropped(p) {
      var s := SomeoneMoves(p);
      assert Enabled(p, s);
    }
  }

  // ---------- the other half: panics can strand jobs ----------

  ghost predicate Reaches(p: Pool, q: Pool) {
    exists steps :: IsRun(p, steps) && After(p, steps) == q
  }

  lemma ReachesNow(p: Pool)
    ensures Reaches(p, p)
  {
    assert IsRun(p, []) && After(p, []) == p;
  }

  lemma ReachesThen(p: Pool, q: Pool, s: Step)
    requires Reaches(p, q) && Enabled(q, s)
    ensures Reaches(p, Apply(q, s))
  {
    var steps :| IsRun(p, steps) && After(p, steps) == q;
    RunThen(p, steps, s);
  }

  lemma {:induction false} RunThen(p: Pool, steps: seq<Step>, s: Step)
    requires IsRun(p, steps) && Enabled(After(p, steps), s)
    ensures IsRun(p, steps + [s]) && After(p, steps + [s]) == Apply(After(p, steps), s)
    decreases |steps|
  {
    if steps == [] {
      assert [s][1..] == [] && steps + [s] == [s];
      assert IsRun(Apply(p, s), []);
    } else {
      assert (steps + [s])[1..] == steps[1..] + [s];
      RunThen(Apply(p, steps[0]), steps[1..], s);
    }
  }

  function TicketsBelow(n: nat): (tickets: set<nat>)
    ensures |tickets| == n && forall t | t in tickets :: t < n
  {
    if n == 0 then {} else TicketsBelow(n - 1) + {n - 1}
  }

  /** A pool of `size` workers of which the first `dead` died, each on a job of its own. */
  function Dying(size: nat, dead: nat, job: Job): Pool
    requires dead <= size
  {
    Pool(seq(size, w => if w < dead then Dead else Ready), None, [], true, 0,
         seq(dead, _ => job), [], seq(dead, _ => job), {}, TicketsBelow(dead))
  }

  /** That pool with more jobs in its channel. */
  function Queueing(size: nat, dead: nat, job: Job, queued: seq<Job>): Pool
    requires dead <= size
  {
    Dying(size, dead, job).(channel := queued, submitted := seq(dead, _ => job) + queued)
  }

  lemma TakesAndDies(size: nat, dead: nat, job: Job, queued: seq<Job>, p: Pool, locked: Pool, running: Pool)
    requires dead < size && p == Queueing(size, dead, job, [job] + queued)
    requires locked == p.(workers := p.workers[dead := Receiving], lock := Some(dead))
    requires running == p.(workers := p.workers[dead := Running(dead)], channel := queued, taken := p.taken + [job])
    ensures Enabled(p, Lock(dead)) && Apply(p, Lock(dead)) == locked
    ensures Enabled(locked, Receive(dead)) && Apply(locked, Receive(dead)) == running
  {
    assert ([job] + queued)[1..] == queued;
    assert p.workers[dead := Receiving][dead := Running(dead)] == p.workers[dead := Running(dead)];
  }

  lemma DiesRunning(size: nat, dead: nat, job: Job, queued: seq<Job>, running: Pool)
    requires dead < size
    requires var p := Queueing(size, dead, job, [job] + queued);
             running == p.(workers := p.workers[dead := Running(dead)], channel := queued, taken := p.taken + [job])
    ensures Enabled(running, Panic(dead)) && Apply(running, Panic(dead)) == Queueing(size, dead + 1, job, queued)
  {
    var p, q := Queueing(size, dead, job, [job] + queued), Queueing(size, dead + 1, job, queued);
    assert seq(dead, _ => job) + [job] == seq(dead + 1, _ => job);
    assert p.submitted == q.submitted;
    assert p.workers[dead := Running(dead)][dead := Dead] == q.workers;
  }

  /** One more worker takes a job and dies of it, with `queued` behind it in the channel. */
  lemma OneMoreDies(size: nat, dead: nat, job: Job, queued: seq<Job>)
    requires dead < size && Reaches(New(size), Queueing(size, dead, job, [job] + queued))
    ensures Reaches(New(size), Queueing(size, dead + 1, job, queued))
  {
    var p := Queueing(size, dead, job, [job] + queued);
    var locked := p.(workers := p.workers[dead := Receiving], lock := Some(dead));
    var running := p.(workers := p.workers[dead := Running(dead)], channel := queued, taken := p.taken + [job]);
    TakesAndDies(size, dead, job, queued, p, locked, running);
    DiesRunning(size, dead, job, queued, running);
    ReachesThen(New(size), p, Lock(dead));
    ReachesThen(New(size), locked, Receive(dead));
    ReachesThen(New(size), running, Panic(dead));
  }

  lemma NothingQueued(size: nat, dead: nat, job: Job)
    requires dead <= size
    ensures Queueing(size, dead, job, []) == Dying(size, dead, job)
    ensures Dying(size, 0, job) == New(size)
  {
    assert seq(dead, _ => job) + [] == seq(dead, _ => job);
    assert Dying(size, 0, job).workers == New(size).workers;
  }

  lemma {:induction false} WorkersDie(size: nat, dead: nat, job: Job)
    requires dead < size
    ensures Reaches(New(size), Dying(size, dead, job))
  {
    if dead == 0 {
      ReachesNow(New(size));
      NothingQueued(size, 0, job);
    } else {
      WorkersDie(size, dead - 1, job);
      SubmitTo(size, dead - 1, job, []);
      OneMoreDies(size, dead - 1, job, []);
      NothingQueued(size, dead, job);
    }
  }

  lemma SubmitTo(size: nat, dead: nat, job: Job, queued: seq<Job>)
    requires dead < size && |queued| <= 1 && Reaches(New(size), Dying(size, dead, job))
    ensures Reaches(New(size), Queueing(size, dead, job, [job] + queued))
  {
    var p := Dying(size, dead, job);
    assert !Gone(p.workers[dead]);
    ReachesThen(New(size), p, Submit(job));
    var one := Apply(p, Submit(job));
    if queued == [] {
      assert [job] + queued == [job];
    } else {
      assert !Gone(one.workers[dead]);
      ReachesThen(New(size), one, Submit(queued[0]));
      assert [job] + queued == [job] + [queued[0]];
      assert seq(dead, _ => job) + [job] + [queued[0]] == seq(dead, _ => job) + ([job] + queued);
    }
  }

  /** All workers dead, one job never taken, and `drop` past the first `joined` workers. */
  function Stranded(size: nat, job: Job, queued: Job, joined: nat): Pool
    requires joined <= size
  {
    Queueing(size, size, job, [queued]).(open := false, joined := joined)
  }

  lemma {:induction false} JoinDead(size: nat, job: Job, queued: Job, joined: nat)
    requires joined <= size && Reaches(New(size), Stranded(size, job, queued, 0))
    ensures Reaches(New(size), Stranded(size, job, queued, joined))
  {
    if joined > 0 {
      JoinDead(size, job, queued, joined - 1);
      ReachesThen(New(size), Stranded(size, job, queued, joined - 1), Join);
    }
  }

  /** The bound on panics is tight for every size: once each worker has died of a panic a queued job is never
      run, and `drop` returns all the same. */
  lemma PanicsStrandJob(size: nat, job: Job, queued: Job)
    requires size > 0
    ensures var p := Stranded(size, job, queued, size);
            Reaches(New(size), p) && Dropped(p) && |p.panicked| == size && |p.submitted| == |p.taken| + 1
  {
    WorkersDie(size, size - 1, job);
    SubmitTo(size, size - 1, job, [queued]);
    OneMoreDies(size, size - 1, job, [queued]);
    ReachesThen(New(size), Queueing(size, size, job, [queued]), Close);
    JoinDead(size, job, queued, size);
  }
}
