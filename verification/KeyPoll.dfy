/**
  One turn of the polling loop of proxy_agent/src/key_keeper.rs, with the status it reads
  and the rule cache it keeps; proxy_agent/src/key_keeper/key.rs for the status.
 */
module KeyPoll {
  import opened Prelude
  import opened Text
  import opened AuthorizationRules
  import opened KeyKeeper

  datatype RulePair = RulePair(imds: Option<AuthorizationItem>, wireserver: Option<AuthorizationItem>)

  datatype KeyStatus = KeyStatus(
    authorizationScheme: string, keyDeliveryMethod: string, keyGuid: Option<string>,
    secureChannelState: Option<string>, secureChannelEnabled: Option<bool>, version: string,
    authorizationRules: Option<RulePair>)

  // ---------- status ----------

  const MUST_SIG_WIRESERVER: string := "wireserver"
  const MUST_SIG_WIRESERVER_IMDS: string := "wireserverandimds"

  predicate KnownChannelState(s: string) {
    s == DISABLE_STATE || s == MUST_SIG_WIRESERVER || s == MUST_SIG_WIRESERVER_IMDS
  }

  /** Statuses `get_status` accepts. An unknown scheme or delivery method is reported in the message only. */
  predicate Valid(s: KeyStatus) {
    && (s.secureChannelState.Some? || s.secureChannelEnabled.Some?)
    && (s.secureChannelState.Some? ==> KnownChannelState(Lower(s.secureChannelState.value)))
    && (s.version == "1.0" ==> s.secureChannelState.Some?)
    && (s.version == "2.0" ==> s.secureChannelEnabled.Some?)
  }

  method Validate(s: KeyStatus) returns (valid: bool)
    ensures valid == Valid(s)
  {
    valid := true;
    if s.secureChannelEnabled.None? && s.secureChannelState.None? { valid := false; }
    match s.secureChannelState {
      case Some(v) =>
        var state := Lower(v);
        if state != DISABLE_STATE && state != MUST_SIG_WIRESERVER && state != MUST_SIG_WIRESERVER_IMDS {
          valid := false;
        }
      case None =>
        if s.version == "1.0" { valid := false; }
    }
    if s.secureChannelEnabled.None? && s.version == "2.0" { valid := false; }
  }

  /** What each version demands: 1.0 a known state; 2.0 the flag, and a known state if it gives one; any other
      version the flag or a known state, and no unknown one. */
  lemma ValidByVersion(s: KeyStatus)
    ensures s.version == "1.0" ==>
              (Valid(s) <==> s.secureChannelState.Some?
                             && Lower(s.secureChannelState.value) in {"disabled", "wireserver", "wireserverandimds"})
    ensures s.version == "2.0" && s.secureChannelState.None? ==> (Valid(s) <==> s.secureChannelEnabled.Some?)
    ensures s.version != "1.0" && s.version != "2.0" && s.secureChannelState.None? ==>
              (Valid(s) <==> s.secureChannelEnabled.Some?)
    ensures s.version != "1.0" && s.secureChannelState.Some? ==>
              (Valid(s) <==> && (s.version == "2.0" ==> s.secureChannelEnabled.Some?)
                             && Lower(s.secureChannelState.value)
                                in {"disabled", "wireserver", "wireserverandimds"})
  {
    assert "1.0"[0] != "2.0"[0];
  }

  function ModeText(item: Option<AuthorizationItem>): string {
    if item.None? then "Disabled"
    else if Lower(item.value.mode) == "enforce" then "Enforce"
    else if Lower(item.value.mode) == "audit" then "Audit"
    else "Disabled"
  }

  function SecureChannelState(s: KeyStatus): string {
    if s.version == "2.0" then
      if s.secureChannelEnabled == Some(true) && s.authorizationRules.Some? then
        "WireServer " + ModeText(s.authorizationRules.value.wireserver)
        + " - " + " IMDS " + ModeText(s.authorizationRules.value.imds)
      else DISABLE_STATE
    else match s.secureChannelState case Some(v) => Lower(v) case None => DISABLE_STATE
  }

  /** Exactly which accepted statuses turn the channel off. */
  lemma ChannelOffExactly(s: KeyStatus)
    requires Valid(s)
    ensures SecureChannelState(s) == DISABLE_STATE
       <==> if s.version == "2.0" then s.secureChannelEnabled == Some(false) || s.authorizationRules.None?
            else s.secureChannelState.None? || Lower(s.secureChannelState.value) == DISABLE_STATE
  {
    if s.version == "2.0" {
      var enabled := s.secureChannelEnabled.value;
      assert enabled && s.authorizationRules.Some? ==> SecureChannelState(s)[0] == 'W';
      assert DISABLE_STATE[0] == 'd';
    }
  }

  predicate HasMode(item: Option<AuthorizationItem>, mode: string) {
    item.Some? && Lower(item.value.mode) == mode
  }

  /** The state of an enabled channel names the mode of each endpoint's own rules; that of version 1.0 is the one
      reported, in lower case. */
  lemma ChannelNamesModes(s: KeyStatus)
    ensures s.version == "2.0" && s.secureChannelEnabled == Some(true) && s.authorizationRules.Some? ==>
              var wireserver, imds := s.authorizationRules.value.wireserver, s.authorizationRules.value.imds;
              SecureChannelState(s) ==
              "WireServer " + (if HasMode(wireserver, "enforce") then "Enforce"
                               else if HasMode(wireserver, "audit") then "Audit" else "Disabled")
              + " -  IMDS " + (if HasMode(imds, "enforce") then "Enforce"
                               else if HasMode(imds, "audit") then "Audit" else "Disabled")
    ensures s.version != "2.0" && s.secureChannelState.Some? ==>
              SecureChannelState(s) == Lower(s.secureChannelState.value)
  {
    assert " - " + " IMDS " == " -  IMDS ";
    if s.version == "2.0" && s.secureChannelEnabled == Some(true) && s.authorizationRules.Some? {
      var a, b := ModeText(s.authorizationRules.value.wireserver), ModeText(s.authorizationRules.value.imds);
      Regrouped("WireServer " + a, " - ", " IMDS ", b);
    }
  }

  lemma Regrouped(a: string, b: string, c: string, d: string)
    ensures a + b + c + d == a + (b + c) + d
  {
  }

  function GuidOf(s: KeyStatus): string {
    match s.keyGuid case Some(id) => id case None => ""
  }

  function WireserverItem(s: KeyStatus): Option<AuthorizationItem> {
    match s.authorizationRules case Some(r) => r.wireserver case None => None
  }

  function ImdsItem(s: KeyStatus): Option<AuthorizationItem> {
    match s.authorizationRules case Some(r) => r.imds case None => None
  }

  // ---------- the rule cache ----------

  type Item = Option<AuthorizationItem>

  function IdOf(item: Item): string {
    match item case Some(i) => i.id case None => ""
  }

  function CompileItem(item: Item): Option<Rules> {
    match item case Some(i) => Some(Compile(i)) case None => None
  }

  /** A cached id with the rules installed for it. */
  datatype Cache = Cache(id: string, rules: Option<Rules>)

  function Refresh(c: Cache, item: Item): Cache {
    if IdOf(item) != c.id then Cache(IdOf(item), CompileItem(item)) else c
  }

  /** The cache after the items of successive statuses, from process start. */
  function CacheAfter(items: seq<Item>): Cache {
    if items == [] then Cache("", None)
    else Refresh(CacheAfter(items[..|items| - 1]), items[|items| - 1])
  }

  /** Index at which the id of the last item began to be reported without interruption. */
  function RunStart(items: seq<Item>): (j: nat)
    requires items != []
    ensures j < |items|
  {
    var n := |items| - 1;
    if n > 0 && IdOf(items[n - 1]) == IdOf(items[n]) then RunStart(items[..n]) else n
  }

  /** After every history the installed rules are those of the first status of the last run of equal
      ids, except that an empty id reported from the start installs nothing. */
  lemma {:induction false} CacheHoldsRunStart(items: seq<Item>)
    requires items != []
    ensures IdOf(items[RunStart(items)]) == IdOf(items[|items| - 1])
    ensures CacheAfter(items).id == IdOf(items[|items| - 1])
    ensures CacheAfter(items).rules
         == if RunStart(items) == 0 && IdOf(items[0]) == "" then None else CompileItem(items[RunStart(items)])
  {
    var n := |items| - 1;
    if n > 0 {
      CacheHoldsRunStart(items[..n]);
      assert items[..n][n - 1] == items[n - 1];
    }
  }

  /** An id determines its rules. */
  predicate IdDeterminesRules(items: seq<Item>) {
    forall i, j | 0 <= i < |items| && 0 <= j < |items| && IdOf(items[i]) == IdOf(items[j]) ::
      CompileItem(items[i]) == CompileItem(items[j])
  }

  predicate PresentRulesHaveIds(items: seq<Item>) {
    forall i | 0 <= i < |items| && items[i].Some? :: items[i].value.id != ""
  }

  /** The cache agrees with recompiling the latest status. */
  lemma CacheAgreesWithRecompiling(items: seq<Item>)
    requires items != [] && IdDeterminesRules(items) && PresentRulesHaveIds(items)
    ensures CacheAfter(items).rules == CompileItem(items[|items| - 1])
  {
    CacheHoldsRunStart(items);
  }

  /** Without any assumption: agreement is exactly equality with the run's first status. */
  lemma CacheAgreesExactly(items: seq<Item>)
    requires items != []
    ensures CacheAfter(items).rules == CompileItem(items[|items| - 1])
       <==> if RunStart(items) == 0 && IdOf(items[0]) == "" then items[|items| - 1].None?
            else CompileItem(items[RunStart(items)]) == CompileItem(items[|items| - 1])
  {
    CacheHoldsRunStart(items);
  }

  function WireserverItems(ss: seq<KeyStatus>): (items: seq<Item>)
    ensures |items| == |ss| && forall i | 0 <= i < |ss| :: items[i] == WireserverItem(ss[i])
  {
    seq(|ss|, i requires 0 <= i < |ss| => WireserverItem(ss[i]))
  }

  function ImdsItems(ss: seq<KeyStatus>): (items: seq<Item>)
    ensures |items| == |ss| && forall i | 0 <= i < |ss| :: items[i] == ImdsItem(ss[i])
  {
    seq(|ss|, i requires 0 <= i < |ss| => ImdsItem(ss[i]))
  }

  /** Over every sequence of statuses, if an id determines its rules and present rules have an id, the rules
      installed for each endpoint are those of its own half of the latest status, compiled. */
  lemma RulesComeFromOwnHalf(ss: seq<KeyStatus>)
    requires ss != []
    requires IdDeterminesRules(WireserverItems(ss)) && PresentRulesHaveIds(WireserverItems(ss))
    requires IdDeterminesRules(ImdsItems(ss)) && PresentRulesHaveIds(ImdsItems(ss))
    ensures var rules := ss[|ss| - 1].authorizationRules;
            && CacheAfter(WireserverItems(ss)).rules
               == (if rules.Some? && rules.value.wireserver.Some?
                   then Some(Compile(rules.value.wireserver.value)) else None)
            && CacheAfter(ImdsItems(ss)).rules
               == (if rules.Some? && rules.value.imds.Some?
                   then Some(Compile(rules.value.imds.value)) else None)
  {
    CacheAgreesWithRecompiling(WireserverItems(ss));
    CacheAgreesWithRecompiling(ImdsItems(ss));
  }

  // ---------- the poller ----------

  /** `Delayed` is a request that is still under way when its caller gives up on it. */
  datatype AttestOutcome = Acknowledged | RequestLost | ReplyLost | Delayed

  /** What the host and the disk do during one turn. */
  datatype Turn = Turn(status: Option<KeyStatus>, acquired: Option<Key>, write: WriteOutcome, attest: AttestOutcome)

  /** What a turn can change, of the agent and of the host. */
  datatype Held = Held(current: Key, channel: string, disk: Disk, host: Host, requests: set<Key>)

  /** The end of a turn whose key `k` was written: attested only if it is read back, and current only if the
      attestation is acknowledged. */
  function Attested(h: Held, k: Key, state: string, outcome: AttestOutcome): Held {
    if !CheckLocalKey(h.disk, k) then h.(channel := state)
    else
      var latched := if h.host.Unlatched? then Latched(k) else h.host;
      match outcome
      case Acknowledged => h.(current := k, channel := state, host := latched, requests := h.requests - {k})
      case RequestLost => h.(requests := h.requests - {k})
      case ReplyLost => h.(host := latched, requests := h.requests - {k})
      case Delayed => h.(requests := h.requests + {k})
  }

  function TurnOutcome(h: Held, turn: Turn): Held {
    if turn.status.None? || !Valid(turn.status.value) then h
    else
      var guid, state := GuidOf(turn.status.value), SecureChannelState(turn.status.value);
      if state == DISABLE_STATE || guid == h.current.guid then h.(channel := state)
      else if guid != "" && guid in h.disk && h.disk[guid].Json? then h.(current := h.disk[guid].key, channel := state)
      else
        match turn.acquired
        case None => h
        case Some(k) =>
          var file := if guid == "" then k.guid else guid;
          Attested(h.(disk := Written(h.disk, file, k, turn.write)), k, state, turn.attest)
  }

  /** A host without a key, asked by an agent that needs one: the key it issues is saved under its guid, and it
      becomes current, and the host latched on it, by an acknowledged attestation; each failure on the way leaves
      exactly what had been done until then. */
  lemma FirstLatch(h: Held, turn: Turn, status: KeyStatus, k: Key)
    requires turn.status == Some(status) && Valid(status) && status.keyGuid.None? && h.current.guid != ""
    requires SecureChannelState(status) != "disabled" && turn.acquired == Some(k) && h.host == Unlatched
    ensures var after := TurnOutcome(h, turn);
            var state, saved := SecureChannelState(status), h.disk[k.guid := Json(k)];
            && (turn.write == Intact && turn.attest == Acknowledged ==>
                  after == Held(k, state, saved, Latched(k), h.requests - {k}))
            && (turn.write == Intact && turn.attest == ReplyLost ==>
                  after == Held(h.current, h.channel, saved, Latched(k), h.requests - {k}))
            && (turn.write == Intact && turn.attest == RequestLost ==>
                  after == Held(h.current, h.channel, saved, Unlatched, h.requests - {k}))
            && (turn.write == Intact && turn.attest == Delayed ==>
                  after == Held(h.current, h.channel, saved, Unlatched, h.requests + {k}))
            && (turn.write == Torn ==>
                  after == Held(h.current, state, h.disk[k.guid := Garbage], Unlatched, h.requests))
            && (turn.write == NotOpened && k.guid !in h.disk ==>
                  after == Held(h.current, state, h.disk, Unlatched, h.requests))
  {
  }

  /** Every other turn. Without an accepted status, or without a key from the host when one is needed, nothing
      changes; with the channel off, or the reported guid current already, only the channel does; and a readable
      file under the reported guid makes its key current. */
  lemma OtherTurns(h: Held, turn: Turn)
    ensures turn.status.None? || !Valid(turn.status.value) ==> TurnOutcome(h, turn) == h
    ensures turn.status.Some? && Valid(turn.status.value) ==>
              var status := turn.status.value;
              var state, after := SecureChannelState(status), TurnOutcome(h, turn);
              && (state == "disabled" ==> after == h.(channel := state))
              && (state != "disabled" && status.keyGuid == Some(h.current.guid) ==> after == h.(channel := state))
              && (state != "disabled" && status.keyGuid.Some? && status.keyGuid.value !in {"", h.current.guid} ==>
                    var g := status.keyGuid.value;
                    && (g in h.disk && h.disk[g].Json? ==> after == h.(current := h.disk[g].key, channel := state))
                    && (!(g in h.disk && h.disk[g].Json?) && turn.acquired.None? ==> after == h))
              && (state != "disabled" && status.keyGuid.None? && h.current.guid != "" && turn.acquired.None? ==>
                    after == h)
  {
  }

  /** A latched host whose key file is gone or torn: the key acquired again is written back under the host's guid,
      and an acknowledged attestation makes it current. */
  lemma LatchedAgain(h: Held, turn: Turn, status: KeyStatus, k: Key)
    requires turn.status == Some(status) && Valid(status) && status.keyGuid == Some(k.guid) && h.host == Latched(k)
    requires k.guid !in {"", h.current.guid} && !(k.guid in h.disk && h.disk[k.guid].Json?)
    requires SecureChannelState(status) != "disabled" && turn.acquired == Some(k) && turn.write == Intact
    ensures var after := TurnOutcome(h, turn);
            && after.disk == h.disk[k.guid := Json(k)] && after.host == Latched(k)
            && (turn.attest == Acknowledged ==> after.current == k && after.channel == SecureChannelState(status))
            && (turn.attest != Acknowledged ==> after.current == h.current && after.channel == h.channel)
  {
  }

  class Poller {
    var current: Key
    var channel: string
    var wireserver: Cache
    var imds: Cache
    var disk: Disk

    constructor (disk: Disk)
      ensures current == EmptyKey() && channel == UNKNOWN_STATE && this.disk == disk
      ensures wireserver == CacheAfter([]) && imds == CacheAfter([])
    {
      current, channel, this.disk := EmptyKey(), UNKNOWN_STATE, disk;
      wireserver, imds := Cache("", None), Cache("", None);
    }

    /** The poller is the idle agent of `w`. */
    ghost predicate Is(w: World)
      reads this
    {
      w.pc.Idle? && w.disk == disk && w.current == current && w.channel == channel
    }

    method UpdateRules(status: KeyStatus)
      modifies this`wireserver, this`imds
      ensures wireserver == Refresh(old(wireserver), WireserverItem(status))
      ensures imds == Refresh(old(imds), ImdsItem(status))
    {
      var wireserverRuleId := IdOf(WireserverItem(status));
      var imdsRuleId := IdOf(ImdsItem(status));
      if wireserverRuleId != wireserver.id {
        wireserver := Cache(wireserverRuleId, CompileItem(WireserverItem(status)));
      }
      if imdsRuleId != imds.id {
        imds := Cache(imdsRuleId, CompileItem(ImdsItem(status)));
      }
    }

    /** The turn is one the host of `w` can answer with. */
    ghost predicate Possible(issue: Issue, w: World, turn: Turn) {
      && (turn.status.Some? && Valid(turn.status.value) ==> GuidOf(turn.status.value) == ReportedGuid(w.host))
      && (turn.acquired.Some? ==> HostMayIssue(issue, w.host, turn.acquired.value))
    }

    /** The loop body is a run of the protocol's steps, and refreshes the rule cache once per fetched status. */
    method PollOnce(turn: Turn, ghost issue: Issue, ghost w: World) returns (ghost steps: seq<Step>, ghost end: World)
      requires Is(w) && Possible(issue, w, turn)
      modifies this
      ensures Is(end) && Runs(issue, false, w, steps, end)
      ensures Held(current, channel, disk, end.host, end.requests)
           == TurnOutcome(Held(old(current), old(channel), old(disk), w.host, w.requests), turn)
      ensures var fetched := turn.status.Some? && Valid(turn.status.value);
              && wireserver == (if fetched then Refresh(old(wireserver), WireserverItem(turn.status.value))
                                else old(wireserver))
              && imds == (if fetched then Refresh(old(imds), ImdsItem(turn.status.value)) else old(imds))
    {
      var valid := false;
      if turn.status.Some? { valid := Validate(turn.status.value); }
      if !valid {
        steps, end := Extend(issue, false, w, [], w, StatusFails);
        return;
      }
      var status := turn.status.value;
      var guid := GuidOf(status);
      UpdateRules(status);
      var state := SecureChannelState(status);
      steps, end := Extend(issue, false, w, [], w, StatusArrives(state));
      steps, end := Extend(issue, false, w, steps, end, Decide);

      if state != DISABLE_STATE && guid != current.guid {
        var keyFound := false;
        if guid != "" && guid in disk && disk[guid].Json? {
          current := disk[guid].key;
          keyFound := true;
        }
        if !keyFound {
          var goOn;
          goOn, steps, end := AcquireAndAttest(turn, guid, state, issue, w, steps, end);
          if !goOn { return; }
        }
      }
      if state != channel {
        channel := state;
      }
      steps, end := Extend(issue, false, w, steps, end, Finish);
    }

    /** Lines 261-315; the result says whether the turn goes on to update the channel state. */
    method AcquireAndAttest(turn: Turn, statusGuid: string, state: string, ghost issue: Issue, ghost start: World,
                            ghost before: seq<Step>, ghost w: World)
      returns (goOn: bool, ghost steps: seq<Step>, ghost end: World)
      requires Runs(issue, false, start, before, w)
      requires w.pc == Acquiring(statusGuid, state) && Is(w.(pc := Idle)) && Possible(issue, w, turn.(status := None))
      modifies this`current, this`disk
      ensures Held(current, if goOn then state else channel, disk, end.host, end.requests)
           == match turn.acquired
              case None => Held(old(current), channel, old(disk), w.host, w.requests)
              case Some(k) =>
                Attested(Held(old(current), channel,
                              Written(old(disk), if statusGuid == "" then k.guid else statusGuid, k, turn.write),
                              w.host, w.requests),
                         k, state, turn.attest)
      ensures turn.acquired.None? ==> !goOn
      ensures Runs(issue, false, start, steps, end)
      ensures end.pc == if goOn then Finishing(state) else Idle
      ensures Is(end.(pc := Idle))
    {
      if turn.acquired.None? {
        steps, end := Extend(issue, false, start, before, w, AcquireFails);
        return false, steps, end;
      }
      var key := turn.acquired.value;
      var guid := if statusGuid == "" then key.guid else statusGuid;
      steps, end := Extend(issue, false, start, before, w, AcquireArrives(key));
      disk := Written(disk, guid, key, turn.write);
      steps, end := Extend(issue, false, start, steps, end, Write(turn.write));
      steps, end := Extend(issue, false, start, steps, end, CheckLocal);
      if !CheckLocalKey(disk, key) { return true, steps, end; }
      goOn, steps, end := AttestKey(turn.attest, key, state, issue, start, steps, end);
    }

    method AttestKey(outcome: AttestOutcome, key: Key, state: string, ghost issue: Issue, ghost start: World,
                     ghost before: seq<Step>, ghost w: World)
      returns (goOn: bool, ghost steps: seq<Step>, ghost end: World)
      requires Runs(issue, false, start, before, w)
      requires w.pc == Checked(state, key) && Is(w.(pc := Idle)) && HostMayIssue(issue, w.host, key)
      requires CheckLocalKey(disk, key)
      modifies this`current
      ensures Held(current, if goOn then state else channel, disk, end.host, end.requests)
           == Attested(Held(old(current), channel, disk, w.host, w.requests), key, state, outcome)
      ensures Runs(issue, false, start, steps, end)
      ensures end.pc == if goOn then Finishing(state) else Idle
      ensures Is(end.(pc := Idle))
    {
      steps, end := Extend(issue, false, start, before, w, SendAttest);
      match outcome {
        case Acknowledged =>
          steps, end := Extend(issue, false, start, steps, end, DeliverRequest(key));
          steps, end := Extend(issue, false, start, steps, end, AttestAcknowledged);
          current := key;
          return true, steps, end;
        case Delayed =>
        case RequestLost =>
          steps, end := Extend(issue, false, start, steps, end, LoseRequest(key));
        case ReplyLost =>
          steps, end := Extend(issue, false, start, steps, end, DeliverRequest(key));
          steps, end := Extend(issue, false, start, steps, end, LoseReply(key));
      }
      steps, end := Extend(issue, false, start, steps, end, AttestFails);
      return false, steps, end;
    }
  }
}
