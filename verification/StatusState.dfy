/**
  The extension's status state (proxy_agent_extension/src/common.rs) and the state part of its monitor loop
  (proxy_agent_extension/src/service_main.rs): what is reported, and when restore or purge is issued.
 */
module StatusState {
  import opened Prelude

  const MAX_CONSECUTIVE_COUNT: nat := 10000
  const TRANSITION_TO_ERROR_THRESHOLD: nat := 20

  datatype State = Success | Transitioning | Error

  /** The three fields `update_state` changes. */
  datatype Counters = Counters(state: State, fails: nat, successes: nat)

  const Initial: Counters := Counters(Transitioning, 0, 0)

  function Bumped(n: nat): nat {
    if n < MAX_CONSECUTIVE_COUNT then n + 1 else n
  }

  function Next(c: Counters, ok: bool): Counters {
    var fails := if ok then 0 else Bumped(c.fails);
    var successes := if ok then Bumped(c.successes) else 0;
    var state := match c.state
      case Success => if fails >= 1 then Transitioning else Success
      case Transitioning =>
        if successes >= 1 then Success
        else if fails >= TRANSITION_TO_ERROR_THRESHOLD then Error else Transitioning
      case Error => if successes >= 1 then Transitioning else Error;
    Counters(state, fails, successes)
  }

  class StatusTracker {
    var currentState: State
    var consecutiveFailCount: nat
    var consecutiveSuccessCount: nat

    function Counts(): Counters
      reads this
    {
      Counters(currentState, consecutiveFailCount, consecutiveSuccessCount)
    }

    constructor ()
      ensures Counts() == Initial
    {
      currentState, consecutiveFailCount, consecutiveSuccessCount := Transitioning, 0, 0;
    }

    method UpdateState(operationSuccess: bool, ghost history: seq<bool>) returns (r: State)
      requires Counts() == After(history)
      modifies this
      ensures Counts() == Next(old(Counts()), operationSuccess)
      ensures Counts() == After(history + [operationSuccess])
      ensures r == currentState == StateOf(history + [operationSuccess])
    {
      assert (history + [operationSuccess])[..|history|] == history;
      StateIsHistory(history + [operationSuccess]);
      if operationSuccess {
        consecutiveFailCount := 0;
        if consecutiveSuccessCount < MAX_CONSECUTIVE_COUNT {
          consecutiveSuccessCount := consecutiveSuccessCount + 1;
        }
      } else {
        consecutiveSuccessCount := 0;
        if consecutiveFailCount < MAX_CONSECUTIVE_COUNT {
          consecutiveFailCount := consecutiveFailCount + 1;
        }
      }
      match currentState {
        case Success =>
          if consecutiveFailCount >= 1 { currentState := Transitioning; }
        case Transitioning =>
          if consecutiveSuccessCount >= 1 {
            currentState := Success;
          } else if consecutiveFailCount >= TRANSITION_TO_ERROR_THRESHOLD {
            currentState := Error;
          }
        case Error =>
          if consecutiveSuccessCount >= 1 { currentState := Transitioning; }
      }
      r := currentState;
    }
  }

  // ---------- the state read off the history of outcomes ----------

  function After(history: seq<bool>): Counters {
    if history == [] then Initial else Next(After(history[..|history| - 1]), history[|history| - 1])
  }

  /** The last `n` outcomes exist and all equal `b`. */
  predicate EndsWith(history: seq<bool>, n: nat, b: bool) {
    n <= |history| && forall i | |history| - n <= i < |history| :: history[i] == b
  }

  predicate Failing(history: seq<bool>) {
    EndsWith(history, TRANSITION_TO_ERROR_THRESHOLD, false)
  }

  /** Error exactly when the last 20 outcomes failed; Success exactly when the last one succeeded and the
      20 before it did not all fail. */
  function StateOf(history: seq<bool>): State {
    if Failing(history) then Error
    else if history != [] && history[|history| - 1] && !Failing(history[..|history| - 1]) then Success
    else Transitioning
  }

  /** A counter is the length of the current run, or its ceiling when the run is at least that long. */
  predicate Counted(count: nat, history: seq<bool>, b: bool) {
    && count <= MAX_CONSECUTIVE_COUNT
    && EndsWith(history, count, b)
    && (count < MAX_CONSECUTIVE_COUNT && count < |history| ==> history[|history| - count - 1] != b)
  }

  lemma CountedStep(count: nat, history: seq<bool>, b: bool, ok: bool)
    requires Counted(count, history, b)
    ensures Counted(if ok == b then Bumped(count) else 0, history + [ok], b)
  {
  }

  lemma CountedFailing(fails: nat, history: seq<bool>)
    requires Counted(fails, history, false)
    ensures fails >= TRANSITION_TO_ERROR_THRESHOLD <==> Failing(history)
  {
    if fails < TRANSITION_TO_ERROR_THRESHOLD <= |history| {
      assert history[|history| - fails - 1] != false;
    }
  }

  lemma {:induction false} CountersAreRuns(history: seq<bool>)
    ensures Counted(After(history).fails, history, false)
    ensures Counted(After(history).successes, history, true)
  {
    if history != [] {
      var before, ok := history[..|history| - 1], history[|history| - 1];
      CountersAreRuns(before);
      CountedStep(After(before).fails, before, false, ok);
      CountedStep(After(before).successes, before, true, ok);
      assert before + [ok] == history;
    }
  }

  /** For every history of outcomes, however long, the saturating counters give the state read off it. */
  lemma {:induction false} StateIsHistory(history: seq<bool>)
    ensures After(history).state == StateOf(history)
    ensures StateOf(history) == Error <==> Failing(history)
    ensures StateOf(history) == Success <==>
            history != [] && history[|history| - 1] && !Failing(history[..|history| - 1])
  {
    if history != [] {
      var before, ok := history[..|history| - 1], history[|history| - 1];
      StateIsHistory(before);
      CountersAreRuns(before);
      CountersAreRuns(history);
      CountedFailing(After(history).fails, history);
      CountedFailing(After(before).fails, before);
      if ok {
        assert !Failing(history);
      }
    }
  }

  // ---------- the monitor loop ----------

  datatype Command = Restore | Purge

  /** What the surroundings answer in one iteration: the sequence number, the installed service's version, whether
      an install command succeeds, and the version in the aggregate status file, if it can be read. */
  datatype Tick = Tick(seqNo: string, serviceVersion: string, installOk: bool, aggregate: Option<string>)

  predicate Installs(seqNo: string, version: string, t: Tick) {
    seqNo != t.seqNo && t.serviceVersion != version
  }

  /** The outcomes one iteration reports: an install attempt always counts as a failure, whatever came of it,
      and then the aggregate check. */
  function Outcomes(seqNo: string, version: string, t: Tick): seq<bool> {
    (if Installs(seqNo, version, t) then [false] else []) + [t.aggregate == Some(version)]
  }

  /** All outcomes reported up to and including the aggregate check of the last tick. */
  function History(version: string, ticks: seq<Tick>): seq<bool> {
    if ticks == [] then []
    else
      var k := |ticks| - 1;
      History(version, ticks[..k]) + Outcomes(LastSeqNo(ticks[..k]), version, ticks[k])
  }

  function LastSeqNo(ticks: seq<Tick>): string {
    if ticks == [] then "" else ticks[|ticks| - 1].seqNo
  }

  /** The states the aggregate checks saw: each that of the history up to it. */
  function Seen(version: string, ticks: seq<Tick>): (states: seq<State>)
    ensures |states| == |ticks|
  {
    seq(|ticks|, k requires 0 <= k < |ticks| => StateOf(History(version, ticks[..k + 1])))
  }

  lemma TickAdds(version: string, ticks: seq<Tick>, t: Tick)
    ensures History(version, ticks + [t]) == History(version, ticks) + Outcomes(LastSeqNo(ticks), version, t)
    ensures LastSeqNo(ticks + [t]) == t.seqNo
  {
    assert (ticks + [t])[..|ticks|] == ticks;
  }

  lemma TickSees(version: string, ticks: seq<Tick>, t: Tick)
    ensures Seen(version, ticks + [t]) == Seen(version, ticks) + [StateOf(History(version, ticks + [t]))]
  {
    var more := ticks + [t];
    assert more[..|ticks| + 1] == more;
    var before, after := Seen(version, ticks), Seen(version, more);
    forall k | 0 <= k < |ticks| ensures after[k] == before[k] {
      assert more[..k + 1] == ticks[..k + 1];
    }
    assert after == after[..|ticks|] + [after[|ticks|]];
    assert after[..|ticks|] == before;
  }

  lemma NextTick(version: string, ticks: seq<Tick>, t: Tick, history: seq<bool>, seen: seq<State>)
    requires history == History(version, ticks) + Outcomes(LastSeqNo(ticks), version, t)
    requires seen == Seen(version, ticks) + [StateOf(history)]
    ensures History(version, ticks + [t]) == history && Seen(version, ticks + [t]) == seen
    ensures LastSeqNo(ticks + [t]) == t.seqNo
  {
    TickAdds(version, ticks, t);
    TickSees(version, ticks, t);
  }

  predicate Unsettled(states: seq<State>) {
    forall k | 0 <= k < |states| :: states[k] == Transitioning
  }

  /** Check `k` is the first to see a state other than Transitioning. */
  predicate FirstSettled(states: seq<State>, k: nat) {
    k < |states| && states[k] != Transitioning && forall i | 0 <= i < k :: states[i] == Transitioning
  }

  function CommandFor(s: State): Command {
    if s == Error then Restore else Purge
  }

  /** The restores and purges are none while no check has settled, and else the one the first settled check
      chose. */
  predicate Decided(states: seq<State>, issued: seq<Command>) {
    && (Unsettled(states) ==> issued == [])
    && (forall k | 0 <= k < |states| && FirstSettled(states, k) :: issued == [CommandFor(states[k])])
  }

  lemma {:induction false} SettlesOrNot(states: seq<State>)
    ensures !Unsettled(states) ==> exists k | 0 <= k < |states| :: FirstSettled(states, k)
  {
    if states != [] {
      var n := |states| - 1;
      SettlesOrNot(states[..n]);
      if Unsettled(states[..n]) {
        assert forall i | 0 <= i < n :: states[..n][i] == states[i];
        assert !Unsettled(states) ==> FirstSettled(states, n);
      } else {
        var k :| 0 <= k < n && FirstSettled(states[..n], k);
        assert FirstSettled(states, k);
      }
    }
  }

  /** Which command: restore for an error and purge for a success, and none while nothing has settled. */
  lemma CommandsExactly(states: seq<State>, issued: seq<Command>)
    requires Decided(states, issued)
    ensures issued == [] <==> Unsettled(states)
    ensures issued == [Restore] <==> exists k | 0 <= k < |states| :: FirstSettled(states, k) && states[k] == Error
    ensures issued == [Purge] <==> exists k | 0 <= k < |states| :: FirstSettled(states, k) && states[k] == Success
  {
    SettlesOrNot(states);
  }

  lemma AtMostOne(states: seq<State>, issued: seq<Command>)
    requires Decided(states, issued)
    ensures |issued| <= 1
  {
    SettlesOrNot(states);
  }

  lemma DecidedStep(states: seq<State>, s: State, issued: seq<Command>)
    requires Decided(states, issued)
    ensures Unsettled(states + [s]) <==> Unsettled(states) && s == Transitioning
    ensures Decided(states + [s],
                    if Unsettled(states) && s != Transitioning then issued + [CommandFor(s)] else issued)
  {
    var more := states + [s];
    assert forall i | 0 <= i < |states| :: more[i] == states[i];
    assert more[|states|] == s;
    forall k | 0 <= k < |more| && FirstSettled(more, k) ensures
      if k < |states| then FirstSettled(states, k) && !Unsettled(states) else Unsettled(states)
    {
    }
  }

  // ---------- how a run begins ----------

  /** A first check that finds the extension's own version settles at once, even right after an install. */
  lemma HealthyStart(version: string, t: Tick)
    requires t.aggregate == Some(version)
    ensures FirstSettled(Seen(version, [t]), 0) && Seen(version, [t])[0] == Success
  {
    TickAdds(version, [], t);
    TickSees(version, [], t);
    assert [] + [t] == [t];
    var h := History(version, [t]);
    assert h[|h| - 1];
  }

  /** Ticks that fail every check, with an install on the first of them or not at all. */
  predicate Ailing(version: string, ticks: seq<Tick>) {
    && (forall i | 0 <= i < |ticks| :: ticks[i].aggregate != Some(version))
    && (forall i | 1 <= i < |ticks| :: ticks[i].seqNo == ticks[0].seqNo)
  }

  lemma {:induction false} AilingHistory(version: string, ticks: seq<Tick>)
    requires Ailing(version, ticks) && ticks != []
    ensures var h := History(version, ticks);
            && |h| == |ticks| + (if ticks[0].seqNo != "" && ticks[0].serviceVersion != version then 1 else 0)
            && forall i | 0 <= i < |h| :: !h[i]
  {
    var k := |ticks| - 1;
    if k > 0 {
      AilingHistory(version, ticks[..k]);
    } else {
      assert ticks[..0] == [];
    }
  }

  /** From the start, failing checks stay transitioning until 20 failures have been counted, with one for the
      install if there was one, and then settle in error. */
  lemma RestoreAfterTwenty(version: string, ticks: seq<Tick>)
    requires Ailing(version, ticks) && ticks != []
    ensures var installed := ticks[0].seqNo != "" && ticks[0].serviceVersion != version;
            forall k | 0 <= k < |ticks| ::
              Seen(version, ticks)[k] == if k + 1 + (if installed then 1 else 0) >= 20 then Error else Transitioning
  {
    forall k | 0 <= k < |ticks|
      ensures var installed := ticks[0].seqNo != "" && ticks[0].serviceVersion != version;
              Seen(version, ticks)[k] == if k + 1 + (if installed then 1 else 0) >= 20 then Error else Transitioning
    {
      AilingHistory(version, ticks[..k + 1]);
    }
  }

  class Monitor {
    const version: string
    const tracker: StatusTracker
    var cacheSeqNo: string
    var status: State
    var restoredInError: bool
    var issued: seq<Command>
    var installs: nat

    ghost predicate Holds(history: seq<bool>, seen: seq<State>)
      reads this, tracker
    {
      && tracker.Counts() == After(history)
      && (seen != [] ==> status == seen[|seen| - 1])
      && restoredInError == !Unsettled(seen)
      && Decided(seen, issued)
    }

    /** The tracker, the reported status, the flag and the commands are those of the ticks seen so far. */
    ghost predicate Reflects(ticks: seq<Tick>)
      reads this, tracker
    {
      cacheSeqNo == LastSeqNo(ticks) && Holds(History(version, ticks), Seen(version, ticks))
    }

    constructor (extensionVersion: string)
      ensures fresh(tracker) && version == extensionVersion && Reflects([])
    {
      version := extensionVersion;
      tracker := new StatusTracker();
      cacheSeqNo, status, restoredInError, issued, installs := "", Success, false, [], 0;
    }

    /** `restore_purge_proxyagent`; the command's own result is only logged. */
    method RestorePurge() returns (done: bool)
      modifies this`issued
      ensures done == (status != Transitioning)
      ensures issued == if done then old(issued) + [CommandFor(status)] else old(issued)
      ensures status == Error ==> issued == old(issued) + [Restore]
      ensures status == Success ==> issued == old(issued) + [Purge]
    {
      if status == Error {
        issued := issued + [Restore];
        return true;
      } else if status == Success {
        issued := issued + [Purge];
        return true;
      } else {
        return false;
      }
    }

    /** The install branch of the loop with `report_proxy_agent_service_status`, which counts a failure
        whether or not the command succeeded. */
    method InstallIfChanged(t: Tick, ghost history: seq<bool>) returns (ghost after: seq<bool>)
      requires tracker.Counts() == After(history)
      modifies this`cacheSeqNo, this`status, this`installs, tracker
      ensures cacheSeqNo == t.seqNo
      ensures after == history + (if Installs(old(cacheSeqNo), version, t) then [false] else [])
      ensures installs == old(installs) + (if Installs(old(cacheSeqNo), version, t) then 1 else 0)
      ensures tracker.Counts() == After(after)
    {
      after := history;
      if cacheSeqNo != t.seqNo {
        cacheSeqNo := t.seqNo;
        if version != t.serviceVersion {
          installs := installs + 1;
          if t.installOk {
            status := tracker.UpdateState(false, history);
          } else {
            status := tracker.UpdateState(false, history);
          }
          after := history + [false];
        }
      }
    }

    /** The outcome of reading the aggregate status file. */
    method CheckAggregate(aggregate: Option<string>, ghost history: seq<bool>)
      requires tracker.Counts() == After(history)
      modifies this`status, tracker
      ensures tracker.Counts() == After(history + [aggregate == Some(version)])
      ensures status == StateOf(history + [aggregate == Some(version)])
    {
      match aggregate {
        case Some(v) =>
          if v != version {
            status := tracker.UpdateState(false, history);
          } else {
            status := tracker.UpdateState(true, history);
          }
        case None =>
          status := tracker.UpdateState(false, history);
      }
    }

    /** `report_proxy_agent_aggregate_status`: `seen` are the states earlier checks saw. */
    method ReportAggregate(aggregate: Option<string>, ghost history: seq<bool>, ghost seen: seq<State>)
      requires tracker.Counts() == After(history)
      requires restoredInError == !Unsettled(seen) && Decided(seen, issued)
      modifies this`status, this`restoredInError, this`issued, tracker
      ensures var h := history + [aggregate == Some(version)]; Holds(h, seen + [StateOf(h)])
      ensures old(restoredInError) ==> issued == old(issued)
    {
      CheckAggregate(aggregate, history);
      DecidedStep(seen, status, issued);
      if restoredInError == false {
        restoredInError := RestorePurge();
      }
    }

    /** One iteration of `monitor_thread`, from a history of outcomes and the states earlier checks saw. */
    method IterateFrom(t: Tick, ghost history: seq<bool>, ghost seen: seq<State>)
      returns (ghost h: seq<bool>, ghost s: seq<State>)
      requires Holds(history, seen)
      modifies this, tracker
      ensures h == history + Outcomes(old(cacheSeqNo), version, t) && s == seen + [StateOf(h)]
      ensures Holds(h, s) && cacheSeqNo == t.seqNo
      ensures old(restoredInError) ==> issued == old(issued)
    {
      ghost var after := InstallIfChanged(t, history);
      ReportAggregate(t.aggregate, after, seen);
      h := after + [t.aggregate == Some(version)];
      s := seen + [StateOf(h)];
    }

    method Iterate(t: Tick, ghost ticks: seq<Tick>)
      requires Reflects(ticks)
      modifies this, tracker
      ensures Reflects(ticks + [t])
      ensures old(restoredInError) ==> issued == old(issued)
    {
      ghost var h, s := IterateFrom(t, History(version, ticks), Seen(version, ticks));
      NextTick(version, ticks, t, h, s);
    }

    /** A whole run of the monitor, from the start of its thread. */
    method Run(ticks: seq<Tick>)
      requires Reflects([])
      modifies this, tracker
      ensures Reflects(ticks)
      ensures |issued| <= 1
    {
      for i := 0 to |ticks|
        invariant Reflects(ticks[..i])
      {
        Iterate(ticks[i], ticks[..i]);
        TakeOne(ticks, i);
      }
      assert ticks[..|ticks|] == ticks;
      AtMostOne(Seen(version, ticks), issued);
    }
  }
}
