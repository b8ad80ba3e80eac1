/**
  Running the authenticators over a sequence of requests, with the failed-authenticate
  summary they keep: what audit mode reports is what enforce mode would block.
  proxy_agent/src/proxy/proxy_authentication.rs and proxy_agent/src/proxy_agent_status.rs.
 */
module AuditMode {
  import opened Prelude
  import opened Text
  import opened Redirector
  import opened Request
  import opened AuthorizationRules
  import opened Authentication

  const AUDIT: string := "audit"
  const FORBIDDEN: string := "403 Forbidden Request"

  // ---------- the summary map ----------

  datatype ProxySummary = ProxySummary(userName: string, userGroups: seq<string>, clientIp: string, ip: string,
                                       port: U16, processFullPath: string, processCmdLine: string,
                                        responseStatus: string)

  datatype ConnectionSummary = ConnectionSummary(summary: ProxySummary, count: nat)

  type SummaryMap = map<string, ConnectionSummary>

  /** `to_key_string` */
  function SummaryKey(s: ProxySummary): string {
    s.userName + " " + s.clientIp + " " + s.ip + " " + Decimal(s.port) + " " + s.processFullPath + " "
    + s.processCmdLine + " " + s.responseStatus
  }

  function AddSummary(m: SummaryMap, s: ProxySummary): SummaryMap {
    var k := SummaryKey(s);
    m[k := if k in m then m[k].(count := m[k].count + 1) else ConnectionSummary(s, 1)]
  }

  ghost function Total(m: SummaryMap): nat {
    if m == map[] then 0
    else
      var k :| k in m;
      m[k].count + Total(m - {k})
  }

  lemma {:induction false} TotalWithout(m: SummaryMap, k: string)
    requires k in m
    ensures Total(m) == m[k].count + Total(m - {k})
    decreases |m|
  {
    var j :| j in m && Total(m) == m[j].count + Total(m - {j});
    if j != k {
      TotalWithout(m - {j}, k);
      TotalWithout(m - {k}, j);
      assert m - {j} - {k} == m - {k} - {j};
    }
  }

  /** Every report raises the total by exactly one, whether it opens an entry or joins one. */
  lemma AddRaisesTotal(m: SummaryMap, s: ProxySummary)
    ensures Total(AddSummary(m, s)) == Total(m) + 1
  {
    var k := SummaryKey(s);
    var n := AddSummary(m, s);
    TotalWithout(n, k);
    assert n - {k} == m - {k};
    if k in m { TotalWithout(m, k); } else { assert m - {k} == m; }
  }

  // ---------- authenticate ----------

  datatype Settings = Settings(wireServerSupport: nat, imdsSupport: nat, gaPluginSupport: nat,
                               isPlatform: Claims -> bool, lib: UrlLibrary)

  datatype Incoming = Incoming(target: Authenticator, claims: Claims, url: string)

  function FailedSummary(c: Claims, ip: string, port: U16): ProxySummary {
    ProxySummary(c.userName, c.userGroups, c.clientIp, ip, port, c.processFullPath, c.processCmdLine, FORBIDDEN)
  }

  /** The rules in force for a request, when it is decided by rules at all. */
  function RulesFor(s: Settings, wireserver: Option<Rules>, imds: Option<Rules>, r: Incoming): Option<Rules> {
    match r.target
    case WireServer =>
      if r.claims.runAsElevated && !s.isPlatform(r.claims) && s.wireServerSupport == 2 then wireserver else None
    case Imds => if s.imdsSupport == 2 then imds else None
    case _ => None
  }

  /** The verdict when no rules decide. */
  predicate Unruled(s: Settings, r: Incoming) {
    match r.target
    case WireServer => r.claims.runAsElevated
    case Imds => true
    case GaPlugin => r.claims.runAsElevated && (s.gaPluginSupport == 2 ==> s.isPlatform(r.claims))
    case ProxyAgent => false
    case Default => true
  }

  predicate Denied(s: Settings, wireserver: Option<Rules>, imds: Option<Rules>, r: Incoming) {
    var rules := RulesFor(s, wireserver, imds, r);
    rules.Some? && !Allowed(rules.value, s.lib.parse(Lower(r.url)), r.claims)
  }

  predicate Verdict(s: Settings, wireserver: Option<Rules>, imds: Option<Rules>, r: Incoming) {
    var rules := RulesFor(s, wireserver, imds, r);
    if rules.None? then Unruled(s, r)
    else !Denied(s, wireserver, imds, r) || Lower(rules.value.mode) == AUDIT
  }

  function SummaryOf(r: Incoming): ProxySummary {
    if r.target == WireServer then FailedSummary(r.claims, WIRE_SERVER_IP, WIRE_SERVER_PORT)
    else FailedSummary(r.claims, IMDS_IP, IMDS_PORT)
  }

  function Reported(s: Settings, wireserver: Option<Rules>, imds: Option<Rules>, r: Incoming, failed: SummaryMap)
    : SummaryMap
  {
    if Denied(s, wireserver, imds, r) then AddSummary(failed, SummaryOf(r)) else failed
  }

  // ---------- what each authenticator lets through ----------

  /** WireServer is closed to processes that are not elevated and open, without a report, to elevated platform
      processes; for the others its own rules decide once they are enforced, and nothing else is asked. */
  lemma WireServerVerdict(s: Settings, wireserver: Option<Rules>, imds: Option<Rules>, r: Incoming)
    requires r.target == WireServer
    ensures !r.claims.runAsElevated ==> !Verdict(s, wireserver, imds, r) && !Denied(s, wireserver, imds, r)
    ensures r.claims.runAsElevated && (s.isPlatform(r.claims) || s.wireServerSupport != 2 || wireserver.None?) ==>
              Verdict(s, wireserver, imds, r) && !Denied(s, wireserver, imds, r)
    ensures r.claims.runAsElevated && !s.isPlatform(r.claims) && s.wireServerSupport == 2 && wireserver.Some? ==>
              var allowed := Allowed(wireserver.value, s.lib.parse(Lower(r.url)), r.claims);
              && Denied(s, wireserver, imds, r) == !allowed
              && Verdict(s, wireserver, imds, r) == (allowed || Lower(wireserver.value.mode) == "audit")
  {
  }

  /** IMDS asks nothing of the process; its own rules decide once they are enforced. */
  lemma ImdsVerdict(s: Settings, wireserver: Option<Rules>, imds: Option<Rules>, r: Incoming)
    requires r.target == Imds
    ensures s.imdsSupport != 2 || imds.None? ==> Verdict(s, wireserver, imds, r) && !Denied(s, wireserver, imds, r)
    ensures s.imdsSupport == 2 && imds.Some? ==>
              var allowed := Allowed(imds.value, s.lib.parse(Lower(r.url)), r.claims);
              && Denied(s, wireserver, imds, r) == !allowed
              && Verdict(s, wireserver, imds, r) == (allowed || Lower(imds.value.mode) == "audit")
  {
  }

  /** GAPlugin lets elevated processes through, only platform ones with support 2; the agent's own address nothing;
      every other address everything. None of them reports. */
  lemma OtherVerdicts(s: Settings, wireserver: Option<Rules>, imds: Option<Rules>, r: Incoming)
    requires r.target != WireServer && r.target != Imds
    ensures !Denied(s, wireserver, imds, r)
    ensures r.target == GaPlugin && s.gaPluginSupport == 2 ==>
              (Verdict(s, wireserver, imds, r) <==> r.claims.runAsElevated && s.isPlatform(r.claims))
    ensures r.target == GaPlugin && s.gaPluginSupport != 2 ==>
              (Verdict(s, wireserver, imds, r) <==> r.claims.runAsElevated)
    ensures r.target == ProxyAgent ==> !Verdict(s, wireserver, imds, r)
    ensures r.target == Default ==> Verdict(s, wireserver, imds, r)
  {
  }

  /** From the item the host sends to the verdict: an enforced item decides as it reads, one in audit mode lets
      everything through and reports what it would deny. */
  lemma CompiledVerdict(s: Settings, item: AuthorizationItem, other: Option<Rules>, r: Incoming)
    requires r.target == WireServer && r.claims.runAsElevated && !s.isPlatform(r.claims) && s.wireServerSupport == 2
    ensures var allowed := Meaning(item, s.lib.parse(Lower(r.url)), r.claims);
            && Verdict(s, Some(Compile(item)), other, r) == (allowed || Lower(item.mode) == "audit")
            && Denied(s, Some(Compile(item)), other, r) == !allowed
  {
    CompilationPreservesMeaning(item, s.lib.parse(Lower(r.url)), r.claims);
    LowerIdempotent(item.mode);
  }

  lemma CompiledImdsVerdict(s: Settings, item: AuthorizationItem, other: Option<Rules>, r: Incoming)
    requires r.target == Imds && s.imdsSupport == 2
    ensures var allowed := Meaning(item, s.lib.parse(Lower(r.url)), r.claims);
            && Verdict(s, other, Some(Compile(item)), r) == (allowed || Lower(item.mode) == "audit")
            && Denied(s, other, Some(Compile(item)), r) == !allowed
  {
    CompilationPreservesMeaning(item, s.lib.parse(Lower(r.url)), r.claims);
    LowerIdempotent(item.mode);
  }

  // ---------- what is reported ----------

  function CountOf(m: SummaryMap, key: string): nat {
    if key in m then m[key].count else 0
  }

  /** A denied request is counted under the user, the client, the endpoint that denied it and the process, and
      under no other key; the first summary of a key is the one kept. */
  lemma DenialIsCounted(s: Settings, wireserver: Option<Rules>, imds: Option<Rules>, r: Incoming, failed: SummaryMap,
                        key: string)
    requires Denied(s, wireserver, imds, r)
    ensures var c := r.claims;
            var after := Reported(s, wireserver, imds, r, failed);
            var own := c.userName + " " + c.clientIp + " "
                       + (if r.target == WireServer then "168.63.129.16" else "169.254.169.254") + " "
                       + Decimal(80) + " " + c.processFullPath + " " + c.processCmdLine + " " + "403 Forbidden Request";
            && CountOf(after, key) == CountOf(failed, key) + (if key == own then 1 else 0)
            && (key in failed ==> key in after && after[key].summary == failed[key].summary)
            && (key in after && key !in failed ==>
                  var kept := after[key].summary;
                  && kept.userName == c.userName && kept.userGroups == c.userGroups && kept.clientIp == c.clientIp
                  && kept.processFullPath == c.processFullPath && kept.processCmdLine == c.processCmdLine)
  {
  }

  class Proxy {
    var wireserverRules: Option<Rules>
    var imdsRules: Option<Rules>
    var failed: SummaryMap

    constructor (wireserverRules: Option<Rules>, imdsRules: Option<Rules>)
      ensures this.wireserverRules == wireserverRules && this.imdsRules == imdsRules && failed == map[]
    {
      this.wireserverRules, this.imdsRules, failed := wireserverRules, imdsRules, map[];
    }

    method AddFailed(summary: ProxySummary)
      modifies this`failed
      ensures failed == AddSummary(old(failed), summary)
    {
      var key := SummaryKey(summary);
      if key !in failed {
        failed := failed[key := ConnectionSummary(summary, 1)];
      } else {
        failed := failed[key := failed[key].(count := failed[key].count + 1)];
      }
    }

    /** The common tail of both rule-driven authenticators. */
    method DecideByRules(s: Settings, rules: Rules, r: Incoming, summary: ProxySummary) returns (ok: bool)
      modifies this`failed
      ensures var allowed := Allowed(rules, s.lib.parse(Lower(r.url)), r.claims);
              && ok == (allowed || Lower(rules.mode) == AUDIT)
              && failed == if allowed then old(failed) else AddSummary(old(failed), summary)
    {
      var allowed := IsAllowed(rules, r.url, s.lib, r.claims);
      if !allowed {
        AddFailed(summary);
        if Lower(rules.mode) == AUDIT { return true; }
      }
      return allowed;
    }

    method Authenticate(s: Settings, r: Incoming) returns (ok: bool)
      modifies this`failed
      ensures ok == Verdict(s, wireserverRules, imdsRules, r)
      ensures failed == Reported(s, wireserverRules, imdsRules, r, old(failed))
    {
      match r.target {
        case WireServer =>
          if !r.claims.runAsElevated { return false; }
          if s.isPlatform(r.claims) { return true; }
          if s.wireServerSupport == 2 && wireserverRules.Some? {
            ok := DecideByRules(s, wireserverRules.value, r, FailedSummary(r.claims, WIRE_SERVER_IP, WIRE_SERVER_PORT));
            return;
          }
          return true;
        case Imds =>
          if s.imdsSupport == 2 && imdsRules.Some? {
            ok := DecideByRules(s, imdsRules.value, r, FailedSummary(r.claims, IMDS_IP, IMDS_PORT));
            return;
          }
          return true;
        case GaPlugin =>
          if !r.claims.runAsElevated { return false; }
          if s.gaPluginSupport == 2 { return s.isPlatform(r.claims); }
          return true;
        case ProxyAgent => return false;
        case Default => return true;
      }
    }
  }

  // ---------- runs ----------

  datatype Outcome = Outcome(verdicts: seq<bool>, failed: SummaryMap)

  function RunAll(s: Settings, wireserver: Option<Rules>, imds: Option<Rules>, rs: seq<Incoming>, failed: SummaryMap)
    : (o: Outcome)
    ensures |o.verdicts| == |rs|
  {
    if rs == [] then Outcome([], failed)
    else
      var n := |rs| - 1;
      var before := RunAll(s, wireserver, imds, rs[..n], failed);
      Outcome(before.verdicts + [Verdict(s, wireserver, imds, rs[n])],
              Reported(s, wireserver, imds, rs[n], before.failed))
  }

  function WithMode(rules: Option<Rules>, mode: string): Option<Rules> {
    match rules case None => None case Some(r) => Some(r.(mode := mode))
  }

  function Differences(a: seq<bool>, b: seq<bool>): nat
    requires |a| == |b|
  {
    if a == [] then 0
    else Differences(a[..|a| - 1], b[..|a| - 1]) + (if a[|a| - 1] != b[|a| - 1] then 1 else 0)
  }

  lemma DifferencesAppend(a: seq<bool>, b: seq<bool>, x: bool, y: bool)
    requires |a| == |b|
    ensures Differences(a + [x], b + [y]) == Differences(a, b) + (if x != y then 1 else 0)
  {
    assert (a + [x])[..|a|] == a && (b + [y])[..|a|] == b;
  }

  predicate IsAudit(mode: string) { Lower(mode) == AUDIT }

  predicate IsEnforce(mode: string) { Lower(mode) != AUDIT && Lower(mode) != DISABLED }

  lemma OneRequest(s: Settings, ws: Option<Rules>, im: Option<Rules>, audit: string, enforce: string, r: Incoming)
    requires IsAudit(audit) && IsEnforce(enforce)
    ensures PredictsOne(s, WithMode(ws, audit), WithMode(im, audit), WithMode(ws, enforce), WithMode(im, enforce), r)
  {
    assert AUDIT != DISABLED;
  }

  lemma AuditPredictsEach(s: Settings, ws: Option<Rules>, im: Option<Rules>, audit: string, enforce: string)
    requires IsAudit(audit) && IsEnforce(enforce)
    ensures Predicts(s, WithMode(ws, audit), WithMode(im, audit), WithMode(ws, enforce), WithMode(im, enforce))
  {
    var wa, ia, we, ie := WithMode(ws, audit), WithMode(im, audit), WithMode(ws, enforce), WithMode(im, enforce);
    forall r ensures PredictsOne(s, wa, ia, we, ie, r) {
      OneRequest(s, ws, im, audit, enforce, r);
    }
  }

  /** On each single request the second pair of rules denies what the first reports and nothing else. */
  ghost predicate Predicts(s: Settings, wa: Option<Rules>, ia: Option<Rules>, we: Option<Rules>, ie: Option<Rules>) {
    forall r :: PredictsOne(s, wa, ia, we, ie, r)
  }

  predicate PredictsOne(s: Settings, wa: Option<Rules>, ia: Option<Rules>, we: Option<Rules>, ie: Option<Rules>,
                        r: Incoming) {
    && Denied(s, wa, ia, r) == Denied(s, we, ie, r)
    && (Verdict(s, we, ie, r) ==> Verdict(s, wa, ia, r))
    && (Verdict(s, wa, ia, r) != Verdict(s, we, ie, r) <==> Denied(s, wa, ia, r))
  }

  lemma {:induction false} RunsAgree(s: Settings, wa: Option<Rules>, ia: Option<Rules>, we: Option<Rules>,
                                     ie: Option<Rules>, rs: seq<Incoming>, failed: SummaryMap)
    requires Predicts(s, wa, ia, we, ie)
    ensures var a, e := RunAll(s, wa, ia, rs, failed), RunAll(s, we, ie, rs, failed);
            && a.failed == e.failed
            && (forall i | 0 <= i < |rs| :: e.verdicts[i] ==> a.verdicts[i])
            && Total(a.failed) == Total(failed) + Differences(a.verdicts, e.verdicts)
  {
    if rs != [] {
      var n := |rs| - 1;
      RunsAgree(s, wa, ia, we, ie, rs[..n], failed);
      var a0, e0 := RunAll(s, wa, ia, rs[..n], failed), RunAll(s, we, ie, rs[..n], failed);
      AddRaisesTotal(a0.failed, SummaryOf(rs[n]));
      assert PredictsOne(s, wa, ia, we, ie, rs[n]);
      DifferencesAppend(a0.verdicts, e0.verdicts, Verdict(s, wa, ia, rs[n]), Verdict(s, we, ie, rs[n]));
    }
  }

  /**
    Audit predicts enforce.  The same requests against the same rules in audit and in
    enforce mode leave identical failed-authenticate maps; audit forwards everything
    enforce forwards; and the map grows by exactly the number of requests on which the
    two runs differ.
   */
  lemma AuditPredictsEnforce(s: Settings, ws: Option<Rules>, im: Option<Rules>, audit: string, enforce: string,
                             rs: seq<Incoming>, failed: SummaryMap)
    requires IsAudit(audit) && IsEnforce(enforce)
    ensures var a := RunAll(s, WithMode(ws, audit), WithMode(im, audit), rs, failed);
            var e := RunAll(s, WithMode(ws, enforce), WithMode(im, enforce), rs, failed);
            && a.failed == e.failed
            && (forall i | 0 <= i < |rs| :: e.verdicts[i] ==> a.verdicts[i])
            && Total(a.failed) == Total(failed) + Differences(a.verdicts, e.verdicts)
  {
    var wa, ia, we, ie := WithMode(ws, audit), WithMode(im, audit), WithMode(ws, enforce), WithMode(im, enforce);
    AuditPredictsEach(s, ws, im, audit, enforce);
    RunsAgree(s, wa, ia, we, ie, rs, failed);
  }
}
