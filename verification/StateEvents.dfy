/**
  Rate-limited state events: `write_state_event` of
  proxy_agent_shared/src/telemetry/event_logger.rs.
 */
module StateEvents {
  const MAX_STATE_COUNT: nat := 120

  datatype Report = Report(key: string, value: string)
  datatype Entry = Entry(value: string, count: nat)
  type StateMap = map<string, Entry>

  predicate Emits(m: StateMap, r: Report) {
    r.key in m ==> m[r.key].value != r.value || m[r.key].count >= MAX_STATE_COUNT
  }

  function Noted(m: StateMap, r: Report): StateMap {
    m[r.key := Entry(r.value, if Emits(m, r) then 1 else m[r.key].count + 1)]
  }

  class StateReporter {
    var states: StateMap
    var emitted: seq<Report>

    constructor ()
      ensures states == map[] && emitted == []
    {
      states, emitted := map[], [];
    }

    method WriteStateEvent(r: Report)
      modifies this
      ensures states == Noted(old(states), r)
      ensures emitted == if Emits(old(states), r) then old(emitted) + [r] else old(emitted)
    {
      if r.key in states {
        var value, count := states[r.key].value, states[r.key].count;
        if value != r.value || count >= MAX_STATE_COUNT {
          states := states[r.key := Entry(r.value, 1)];
          emitted := emitted + [r];
        } else {
          states := states[r.key := Entry(r.value, count + 1)];
        }
      } else {
        states := states[r.key := Entry(r.value, 1)];
        emitted := emitted + [r];
      }
    }

    /** A whole history of reports on a new reporter. */
    method ReportAll(reports: seq<Report>)
      requires states == map[] && emitted == []
      modifies this
      ensures states == After(reports) && emitted == Emitted(reports)
    {
      for i := 0 to |reports|
        invariant states == After(reports[..i]) && emitted == Emitted(reports[..i])
      {
        assert reports[..i + 1][..i] == reports[..i];
        WriteStateEvent(reports[i]);
      }
      assert reports[..|reports|] == reports;
    }
  }

  function After(reports: seq<Report>): StateMap {
    if reports == [] then map[] else Noted(After(reports[..|reports| - 1]), reports[|reports| - 1])
  }

  function Emitted(reports: seq<Report>): seq<Report> {
    if reports == [] then []
    else
      var n := |reports| - 1;
      Emitted(reports[..n]) + (if Emits(After(reports[..n]), reports[n]) then [reports[n]] else [])
  }

  // ---------- the history of one key ----------

  /** The values reported under a key, in order. */
  function Values(reports: seq<Report>, key: string): seq<string> {
    if reports == [] then []
    else
      var n := |reports| - 1;
      Values(reports[..n], key) + (if reports[n].key == key then [reports[n].value] else [])
  }

  /** Length of the last maximal run of equal values. */
  function LastRun(vs: seq<string>): (n: nat)
    requires vs != []
    ensures 1 <= n <= |vs|
    ensures forall i | |vs| - n <= i < |vs| :: vs[i] == vs[|vs| - 1]
    ensures n < |vs| ==> vs[|vs| - n - 1] != vs[|vs| - 1]
  {
    var k := |vs| - 1;
    if k > 0 && vs[k - 1] == vs[k] then 1 + LastRun(vs[..k]) else 1
  }

  function CeilDiv(n: nat, d: nat): nat
    requires d > 0
  {
    (n + d - 1) / d
  }

  /** The sum over the maximal runs of equal values of run length over 120, rounded up. */
  function Budget(vs: seq<string>): nat {
    if vs == [] then 0
    else
      var n := LastRun(vs);
      Budget(vs[..|vs| - n]) + CeilDiv(n, MAX_STATE_COUNT)
  }

  function EmittedUnder(reports: seq<Report>, key: string): nat {
    |Values(Emitted(reports), key)|
  }

  lemma CeilStep(n: nat)
    requires n > 0
    ensures CeilDiv(n + 1, 120) == CeilDiv(n, 120) + (if n % 120 == 0 then 1 else 0)
  {
  }

  lemma LastRunAppend(vs: seq<string>, v: string)
    requires vs != []
    ensures LastRun(vs + [v]) == if v == vs[|vs| - 1] then LastRun(vs) + 1 else 1
  {
    assert (vs + [v])[..|vs|] == vs;
  }

  lemma BudgetAppend(vs: seq<string>, v: string)
    ensures vs == [] ==> Budget(vs + [v]) == 1
    ensures vs != [] && v != vs[|vs| - 1] ==> Budget(vs + [v]) == Budget(vs) + 1
    ensures vs != [] && v == vs[|vs| - 1] ==> Budget(vs + [v]) == Budget(vs) + (if LastRun(vs) % 120 == 0 then 1 else 0)
  {
    var ws := vs + [v];
    if vs == [] {
      assert ws[..0] == [];
    } else {
      LastRunAppend(vs, v);
      var n := LastRun(vs);
      if v == vs[|vs| - 1] {
        assert ws[..|ws| - (n + 1)] == vs[..|vs| - n];
        CeilStep(n);
      } else {
        assert ws[..|ws| - 1] == vs;
      }
    }
  }

  /** What the map remembers of a key: its last value, and its position in the current group of 120. */
  predicate Remembers(m: StateMap, key: string, vs: seq<string>) {
    && (key in m <==> vs != [])
    && (vs != [] ==> m[key].value == vs[|vs| - 1] && m[key].count == (LastRun(vs) - 1) % 120 + 1)
  }

  lemma GroupStep(n: nat)
    requires n > 0
    ensures (n - 1) % 120 + 1 >= 120 <==> n % 120 == 0
    ensures n % 120 == if n % 120 == 0 then 0 else (n - 1) % 120 + 1
  {
  }

  lemma NotedRemembers(m: StateMap, r: Report, vs: seq<string>)
    requires Remembers(m, r.key, vs)
    ensures Remembers(Noted(m, r), r.key, vs + [r.value])
  {
    if vs != [] {
      LastRunAppend(vs, r.value);
      GroupStep(LastRun(vs));
    }
  }

  lemma EmitsExactly(m: StateMap, r: Report, vs: seq<string>)
    requires Remembers(m, r.key, vs)
    ensures Budget(vs + [r.value]) == Budget(vs) + (if Emits(m, r) then 1 else 0)
  {
    BudgetAppend(vs, r.value);
    if vs != [] { GroupStep(LastRun(vs)); }
  }

  lemma {:induction false} ValuesAppend(reports: seq<Report>, r: Report, key: string)
    ensures Values(reports + [r], key) == Values(reports, key) + (if r.key == key then [r.value] else [])
  {
    assert (reports + [r])[..|reports|] == reports;
  }

  /** For every history and key, the events emitted for the key are the sum over its maximal runs of equal
      values of run length over 120 rounded up; reports under other keys make no difference. */
  lemma {:induction false} EmittedIsBudget(reports: seq<Report>, key: string)
    ensures EmittedUnder(reports, key) == Budget(Values(reports, key))
    ensures Remembers(After(reports), key, Values(reports, key))
  {
    if reports != [] {
      var n := |reports| - 1;
      var r := reports[n];
      EmittedIsBudget(reports[..n], key);
      var m, vs, out := After(reports[..n]), Values(reports[..n], key), Emitted(reports[..n]);
      ValuesAppend(out, r, key);
      assert Emitted(reports) == if Emits(m, r) then out + [r] else out;
      if r.key == key {
        NotedRemembers(m, r, vs);
        EmitsExactly(m, r, vs);
        assert Values(reports, key) == vs + [r.value];
      } else {
        assert Values(reports, key) == vs;
      }
    }
  }

  /** A report that opens its key or changes its value is always emitted, as it is; a repeated one is emitted as it
      is or not at all. */
  lemma ChangesAreEmitted(reports: seq<Report>, r: Report)
    ensures var vs := Values(reports, r.key);
            && (vs == [] || vs[|vs| - 1] != r.value ==> Emitted(reports + [r]) == Emitted(reports) + [r])
            && (Emitted(reports + [r]) == Emitted(reports) + [r] || Emitted(reports + [r]) == Emitted(reports))
  {
    var n := |reports|;
    assert (reports + [r])[..n] == reports && (reports + [r])[n] == r;
    EmittedIsBudget(reports, r.key);
  }
}
