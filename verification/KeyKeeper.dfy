/**
  The key latch protocol of proxy_agent/src/key_keeper.rs as a machine of small steps.

  One step is one interaction with the host or the disk, so a crash can fall between any
  two of them.  The host is unlatched, or latched on one key; it latches when an
  attestation reaches it and from then on reports that key's guid.  Requests and replies
  can be lost or delayed, writes can fail or tear, the agent can restart, and the host can
  be reset.
 */
module KeyKeeper {
  import opened Prelude

  datatype Key = Key(guid: string, key: string, incarnation: Option<nat>, issued: string)

  const EMPTY_GUID: string := "00000000-0000-0000-0000-000000000000"
  const DISABLE_STATE: string := "disabled"
  const UNKNOWN_STATE: string := "Unknown"

  function EmptyKey(): Key { Key(EMPTY_GUID, "", None, "") }

  /** Contents of one key file. */
  datatype File = Garbage | Json(key: Key)

  /** Key files by the guid in their names. */
  type Disk = map<string, File>

  datatype Host = Unlatched | Latched(key: Key)

  /** Where the polling thread is, with the locals it still needs. */
  datatype Pc =
    | Idle
    | GotStatus(guid: string, state: string)
    | Acquiring(guid: string, state: string)
    | Acquired(guid: string, state: string, key: Key)
    | Saved(state: string, key: Key)
    | Checked(state: string, key: Key)
    | Attesting(state: string, key: Key)
    | Finishing(state: string)

  datatype World = World(
    host: Host,
    requests: set<Key>,   // attestations on their way to the host
    replies: set<Key>,    // acknowledgements on their way back
    disk: Disk,
    current: Key,         // CURRENT_KEY
    channel: string,      // CURRENT_SECURE_CHANNEL_STATE
    pc: Pc)

  datatype WriteOutcome = Intact | NotOpened | Torn

  datatype Step =
    | StatusFails
    | StatusArrives(state: string)
    | Decide
    | AcquireFails
    | AcquireArrives(key: Key)
    | Write(outcome: WriteOutcome)
    | CheckLocal
    | SendAttest
    | AttestAcknowledged
    | AttestFails
    | Finish
    | Restart
    | DeliverRequest(key: Key)
    | LoseRequest(key: Key)
    | LoseReply(key: Key)
    | ResetHost

  function ReportedGuid(h: Host): string {
    match h case Unlatched => "" case Latched(k) => k.guid
  }

  /** The key values the host may give under each guid. */
  type Issue = (string, string) -> bool

  /** A key the host could have issued; its guid is neither empty nor the all-zero guid. */
  predicate Genuine(issue: Issue, k: Key) {
    k.guid != "" && k.guid != EMPTY_GUID && issue(k.guid, k.key)
  }

  /** A guid names one key. */
  ghost predicate Unique(issue: Issue) {
    forall g, a, b :: issue(g, a) && issue(g, b) ==> a == b
  }

  predicate HostMayIssue(issue: Issue, h: Host, k: Key) {
    match h case Unlatched => Genuine(issue, k) case Latched(l) => k == l
  }

  /** `check_local_key`: guid and key value are compared, nothing else. */
  predicate CheckLocalKey(d: Disk, k: Key) {
    k.guid in d && d[k.guid].Json? && d[k.guid].key.guid == k.guid && d[k.guid].key.key == k.key
  }

  function Written(d: Disk, guid: string, k: Key, outcome: WriteOutcome): Disk {
    match outcome
    case Intact => d[guid := Json(k)]
    case NotOpened => d
    case Torn => d[guid := Garbage]
  }

  /** Lines 207-255: skip, take the key from disk, or go on to acquire. */
  function AfterStatus(w: World): World
    requires w.pc.GotStatus?
  {
    var g, st := w.pc.guid, w.pc.state;
    if st == DISABLE_STATE || g == w.current.guid then w.(pc := Finishing(st))
    else if g != "" && g in w.disk && w.disk[g].Json? then w.(current := w.disk[g].key, pc := Finishing(st))
    else w.(pc := Acquiring(g, st))
  }

  predicate Enabled(issue: Issue, settled: bool, w: World, s: Step) {
    match s
    case StatusFails => w.pc.Idle?
    case StatusArrives(_) => w.pc.Idle? && (settled ==> w.requests == {})
    case Decide => w.pc.GotStatus?
    case AcquireFails => w.pc.Acquiring?
    case AcquireArrives(k) => w.pc.Acquiring? && HostMayIssue(issue, w.host, k)
    case Write(_) => w.pc.Acquired?
    case CheckLocal => w.pc.Saved?
    case SendAttest => w.pc.Checked?
    case AttestAcknowledged => w.pc.Attesting? && w.pc.key in w.replies
    case AttestFails => w.pc.Attesting?
    case Finish => w.pc.Finishing?
    case Restart => true
    case DeliverRequest(k) => k in w.requests
    case LoseRequest(k) => k in w.requests
    case LoseReply(k) => k in w.replies
    case ResetHost => true
  }

  function Apply(issue: Issue, settled: bool, w: World, s: Step): World
    requires Enabled(issue, settled, w, s)
  {
    match s
    case StatusFails => w
    case StatusArrives(state) => w.(pc := GotStatus(ReportedGuid(w.host), state))
    case Decide => AfterStatus(w)
    case AcquireFails => w.(pc := Idle)
    case AcquireArrives(k) => w.(pc := Acquired(if w.pc.guid == "" then k.guid else w.pc.guid, w.pc.state, k))
    case Write(outcome) =>
      w.(disk := Written(w.disk, w.pc.guid, w.pc.key, outcome), pc := Saved(w.pc.state, w.pc.key))
    case CheckLocal =>
      if CheckLocalKey(w.disk, w.pc.key) then w.(pc := Checked(w.pc.state, w.pc.key))
      else w.(pc := Finishing(w.pc.state))
    case SendAttest => w.(requests := w.requests + {w.pc.key}, pc := Attesting(w.pc.state, w.pc.key))
    case AttestAcknowledged =>
      w.(current := w.pc.key, replies := w.replies - {w.pc.key}, pc := Finishing(w.pc.state))
    case AttestFails => w.(pc := Idle)
    case Finish => w.(channel := w.pc.state, pc := Idle)
    case Restart => w.(current := EmptyKey(), channel := UNKNOWN_STATE, replies := {}, pc := Idle)
    case DeliverRequest(k) =>
      var latched := if w.host.Unlatched? then Latched(k) else w.host;
      w.(host := latched, requests := w.requests - {k},
         replies := if latched == Latched(k) then w.replies + {k} else w.replies)
    case LoseRequest(k) => w.(requests := w.requests - {k})
    case LoseReply(k) => w.(replies := w.replies - {k})
    case ResetHost => w.(host := Unlatched)
  }

  /** A run: every step is enabled where it is taken. */
  ghost predicate Runs(issue: Issue, settled: bool, w: World, steps: seq<Step>, end: World)
    decreases |steps|
  {
    if steps == [] then end == w
    else Enabled(issue, settled, w, steps[0])
         && Runs(issue, settled, Apply(issue, settled, w, steps[0]), steps[1..], end)
  }

  lemma {:induction false} RunsConcat(issue: Issue, settled: bool, a: World, s: seq<Step>, b: World,
                                      t: seq<Step>, c: World)
    requires Runs(issue, settled, a, s, b) && Runs(issue, settled, b, t, c)
    ensures Runs(issue, settled, a, s + t, c)
    decreases |s|
  {
    if s == [] {
      assert s + t == t;
    } else {
      assert (s + t)[1..] == s[1..] + t;
      RunsConcat(issue, settled, Apply(issue, settled, a, s[0]), s[1..], b, t, c);
    }
  }

  /** A new machine: nothing latched, nothing in flight, any key files there are hold issued keys. */
  predicate Initial(issue: Issue, w: World) {
    && w.host.Unlatched? && w.requests == {} && w.replies == {}
    && (forall g | g in w.disk && w.disk[g].Json? :: Genuine(issue, w.disk[g].key))
    && w.current == EmptyKey() && w.channel == UNKNOWN_STATE && w.pc.Idle?
  }

  // ---------- the invariant ----------

  /** The disk holds the host's key under the host's guid. */
  predicate Agreement(w: World) {
    w.host.Latched? ==> CheckLocalKey(w.disk, w.host.key)
  }

  predicate Known(issue: Issue, k: Key) {
    k == EmptyKey() || Genuine(issue, k)
  }

  /** A write after which the disk no longer holds the host's key, or one that is on its way to the host. */
  predicate Spoils(w: World, s: Step) {
    && s.Write? && w.pc.Acquired?
    && var disk := Written(w.disk, w.pc.guid, w.pc.key, s.outcome);
       || (w.host.Latched? && !CheckLocalKey(disk, w.host.key))
       || (exists k | k in w.requests :: !CheckLocalKey(disk, k))
  }

  ghost predicate NeverSpoils(issue: Issue, w: World, steps: seq<Step>)
    decreases |steps|
  {
    steps == []
    || (Enabled(issue, false, w, steps[0]) ==>
          !Spoils(w, steps[0]) && NeverSpoils(issue, Apply(issue, false, w, steps[0]), steps[1..]))
  }

  ghost predicate Invariant(issue: Issue, w: World) {
    && Agreement(w)
    && (w.host.Latched? ==> Genuine(issue, w.host.key))
    && (forall k | k in w.requests :: CheckLocalKey(w.disk, k) && Genuine(issue, k))
    && (forall k | k in w.replies :: Genuine(issue, k))
    && (forall g | g in w.disk && w.disk[g].Json? :: Genuine(issue, w.disk[g].key))
    && Known(issue, w.current)
    && (w.pc.GotStatus? ==> w.pc.guid == "" || (w.pc.guid in w.disk && w.disk[w.pc.guid].Json?))
    && (w.pc.Acquiring? ==> w.pc.guid == "")
    && (w.pc.Acquired? ==> w.pc.guid == w.pc.key.guid)
    && (w.pc.Acquired? || w.pc.Saved? || w.pc.Checked? || w.pc.Attesting? ==> Genuine(issue, w.pc.key))
    && (w.pc.Checked? ==> CheckLocalKey(w.disk, w.pc.key))
  }

  /** Steps that leave host, messages and disk alone. */
  predicate IsLocal(s: Step) {
    || s.StatusFails? || s.StatusArrives? || s.Decide?
    || s.AcquireFails? || s.AcquireArrives? || s.CheckLocal? || s.Finish?
  }

  lemma LocalStepKeepsInvariant(issue: Issue, w: World, s: Step)
    requires Invariant(issue, w) && Enabled(issue, false, w, s) && IsLocal(s)
    ensures Invariant(issue, Apply(issue, false, w, s))
  {
  }

  lemma MessageStepKeepsInvariant(issue: Issue, w: World, s: Step)
    requires Invariant(issue, w) && Enabled(issue, false, w, s)
    requires s.SendAttest? || s.AttestAcknowledged? || s.DeliverRequest? || s.LoseRequest? || s.LoseReply?
    ensures Invariant(issue, Apply(issue, false, w, s))
  {
  }

  lemma WriteKeepsInvariant(issue: Issue, w: World, s: Step)
    requires Invariant(issue, w) && Enabled(issue, false, w, s) && s.Write? && !Spoils(w, s)
    ensures Invariant(issue, Apply(issue, false, w, s))
  {
  }

  lemma StepKeepsInvariant(issue: Issue, w: World, s: Step)
    requires Invariant(issue, w) && Enabled(issue, false, w, s) && !Spoils(w, s)
    ensures Invariant(issue, Apply(issue, false, w, s))
  {
    if IsLocal(s) {
      LocalStepKeepsInvariant(issue, w, s);
    } else if s.SendAttest? || s.AttestAcknowledged? || s.DeliverRequest? || s.LoseRequest? || s.LoseReply? {
      MessageStepKeepsInvariant(issue, w, s);
    } else if s.Write? {
      WriteKeepsInvariant(issue, w, s);
    }
  }

  lemma {:induction false} RunKeepsInvariant(issue: Issue, w: World, steps: seq<Step>, end: World)
    requires Invariant(issue, w) && Runs(issue, false, w, steps, end) && NeverSpoils(issue, w, steps)
    ensures Invariant(issue, end)
    decreases |steps|
  {
    if steps != [] {
      StepKeepsInvariant(issue, w, steps[0]);
      RunKeepsInvariant(issue, Apply(issue, false, w, steps[0]), steps[1..], end);
    }
  }

  /**
    Agreement under crashes.  In every run without a spoiling write, however long messages
    are delayed, whenever the host is latched the key file of its guid holds its guid and
    key; and if a guid names one key, a current key with that guid is that key.
   */
  lemma HostAndDiskAgree(issue: Issue, w: World, steps: seq<Step>, end: World)
    requires Initial(issue, w) && Runs(issue, false, w, steps, end) && NeverSpoils(issue, w, steps)
    ensures Agreement(end)
    ensures Unique(issue) && end.host.Latched? && end.current.guid == end.host.key.guid
            ==> end.current.key == end.host.key.key
  {
    RunKeepsInvariant(issue, w, steps, end);
  }

  // ---------- exactly which writes break agreement ----------

  /** If a guid names one key, only a write that tears the file can spoil. */
  lemma OnlyTornWritesSpoil(issue: Issue, w: World, steps: seq<Step>, end: World, s: Step)
    requires Unique(issue) && Initial(issue, w) && Runs(issue, false, w, steps, end) && NeverSpoils(issue, w, steps)
    requires Spoils(end, s)
    ensures s == Write(Torn)
  {
    RunKeepsInvariant(issue, w, steps, end);
  }

  predicate NoWrites(steps: seq<Step>) {
    forall s | s in steps :: !s.Write?
  }

  lemma {:induction false} NoWritesNeverSpoil(issue: Issue, w: World, steps: seq<Step>)
    requires NoWrites(steps)
    ensures NeverSpoils(issue, w, steps)
    decreases |steps|
  {
    if steps != [] && Enabled(issue, false, w, steps[0]) {
      assert steps[0] in steps;
      assert forall s | s in steps[1..] :: s in steps;
      NoWritesNeverSpoil(issue, Apply(issue, false, w, steps[0]), steps[1..]);
    }
  }

  /** After a spoiling write agreement is gone at once, or when the attestation it spoiled reaches the host. */
  lemma SpoiledThenBroken(issue: Issue, w: World, s: Step) returns (steps: seq<Step>, end: World)
    requires Enabled(issue, false, w, s) && Spoils(w, s)
    ensures Runs(issue, false, Apply(issue, false, w, s), steps, end) && NoWrites(steps) && !Agreement(end)
    ensures steps == [] || exists k :: steps == (if w.host.Latched? then [ResetHost] else []) + [DeliverRequest(k)]
  {
    var v := Apply(issue, false, w, s);
    steps, end := [], v;
    if Agreement(v) {
      var k :| k in w.requests && !CheckLocalKey(v.disk, k);
      if w.host.Latched? { steps, end := Extend(issue, false, v, steps, end, ResetHost); }
      steps, end := Extend(issue, false, v, steps, end, DeliverRequest(k));
      assert steps == (if w.host.Latched? then [ResetHost] else []) + [DeliverRequest(k)];
    }
  }

  /** The first spoiling write is exactly where agreement is lost: after a step that can be taken, some run
      without further writes ends in disagreement if and only if that step was a spoiling write. */
  lemma SpoilingBreaksAgreement(issue: Issue, w: World, before: seq<Step>, here: World, s: Step)
    requires Initial(issue, w) && Runs(issue, false, w, before, here) && NeverSpoils(issue, w, before)
    requires Enabled(issue, false, here, s)
    ensures Spoils(here, s) <==>
            exists steps, end ::
              Runs(issue, false, Apply(issue, false, here, s), steps, end) && NoWrites(steps) && !Agreement(end)
  {
    RunKeepsInvariant(issue, w, before, here);
    var v := Apply(issue, false, here, s);
    if Spoils(here, s) {
      var steps, end := SpoiledThenBroken(issue, here, s);
    } else {
      StepKeepsInvariant(issue, here, s);
      forall steps, end | Runs(issue, false, v, steps, end) && NoWrites(steps) ensures Agreement(end) {
        NoWritesNeverSpoil(issue, v, steps);
        RunKeepsInvariant(issue, v, steps, end);
      }
    }
  }

  // ---------- settled runs ----------

  /** Between a status and the attestation nothing is under way and, from the acquired key on, nothing latched. */
  predicate Quiet(w: World) {
    && (w.pc.GotStatus? ==> w.requests == {} && (w.host.Unlatched? || w.pc.guid == w.host.key.guid))
    && (w.pc.Acquiring? || w.pc.Acquired? || w.pc.Saved? || w.pc.Checked? ==> w.requests == {} && w.host.Unlatched?)
  }

  lemma QuietStep(issue: Issue, w: World, s: Step)
    requires Invariant(issue, w) && Quiet(w) && Enabled(issue, true, w, s)
    ensures !Spoils(w, s) && Quiet(Apply(issue, true, w, s))
  {
  }

  lemma {:induction false} SettledRunsNeverSpoil(issue: Issue, w: World, steps: seq<Step>, end: World)
    requires Invariant(issue, w) && Quiet(w) && Runs(issue, true, w, steps, end)
    ensures Runs(issue, false, w, steps, end) && NeverSpoils(issue, w, steps)
    decreases |steps|
  {
    if steps != [] {
      QuietStep(issue, w, steps[0]);
      StepKeepsInvariant(issue, w, steps[0]);
      SettledRunsNeverSpoil(issue, Apply(issue, true, w, steps[0]), steps[1..], end);
    }
  }

  /** Runs in which every attestation has arrived or is lost before the next status, such as those of a poller
      that waits out its requests, never spoil and so agree. */
  lemma SettledRunsAgree(issue: Issue, w: World, steps: seq<Step>, end: World)
    requires Initial(issue, w) && Runs(issue, true, w, steps, end)
    ensures Runs(issue, false, w, steps, end) && NeverSpoils(issue, w, steps) && Agreement(end)
  {
    SettledRunsNeverSpoil(issue, w, steps, end);
    HostAndDiskAgree(issue, w, steps, end);
  }

  // ---------- recovery ----------

  predicate IsCurrent(w: World, k: Key) {
    w.current.guid == k.guid && w.current.key == k.key
  }

  /** What a poll that hears of `k` makes of the current key `c`: it keeps one with that guid as it is. */
  predicate Taken(c: Key, k: Key, current: Key) {
    if c.guid == k.guid then current == c else current.guid == k.guid && current.key == k.key
  }

  /** What holds while a poll that heard of the latched key `k` is under way, from the current key `c`. */
  predicate Recovering(w: World, c: Key, k: Key, state: string) {
    && w.host == Latched(k)
    && ((w.pc == GotStatus(k.guid, state) && w.current == c) || (w.pc == Finishing(state) && Taken(c, k, w.current)))
  }

  predicate Undisturbed(s: Step) { !s.Restart? && !s.ResetHost? && !s.StatusArrives? }

  lemma RecoveringStep(issue: Issue, w: World, c: Key, k: Key, state: string, s: Step)
    requires Invariant(issue, w) && Recovering(w, c, k, state) && state != DISABLE_STATE
    requires Enabled(issue, false, w, s) && Undisturbed(s)
    ensures !s.Write?
    ensures var v := Apply(issue, false, w, s);
            Recovering(v, c, k, state) || (v.pc.Idle? && Taken(c, k, v.current) && v.channel == state)
  {
  }

  lemma {:induction false} RecoveringRun(issue: Issue, w: World, c: Key, k: Key, state: string, steps: seq<Step>,
                                         end: World)
    requires Invariant(issue, w) && Recovering(w, c, k, state) && state != DISABLE_STATE
    requires Runs(issue, false, w, steps, end) && end.pc.Idle?
    requires forall s | s in steps :: Undisturbed(s)
    ensures Taken(c, k, end.current) && end.channel == state
    decreases |steps|
  {
    if steps != [] {
      var v := Apply(issue, false, w, steps[0]);
      assert steps[0] in steps;
      assert forall s | s in steps[1..] :: s in steps;
      RecoveringStep(issue, w, c, k, state, steps[0]);
      StepKeepsInvariant(issue, w, steps[0]);
      if v.pc.Idle? {
        IdleKeepsCurrent(issue, v, steps[1..], end);
      } else {
        RecoveringRun(issue, v, c, k, state, steps[1..], end);
      }
    }
  }

  lemma {:induction false} IdleKeepsCurrent(issue: Issue, w: World, steps: seq<Step>, end: World)
    requires w.pc.Idle? && Runs(issue, false, w, steps, end)
    requires forall s | s in steps :: Undisturbed(s)
    ensures end.current == w.current && end.channel == w.channel
    decreases |steps|
  {
    if steps != [] {
      assert steps[0] in steps;
      assert forall s | s in steps[1..] :: s in steps;
      IdleKeepsCurrent(issue, Apply(issue, false, w, steps[0]), steps[1..], end);
    }
  }

  /**
    Recovery.  Once the host is latched, even if the acknowledgement was lost and the agent
    restarted any number of times, the next poll that hears a non-disabled status and runs
    to its end leaves the host's key current, whatever else fails, exactly unless the agent
    already holds another key under the host's guid.
   */
  lemma NextPollRecovers(issue: Issue, w: World, before: seq<Step>, latched: World,
                         state: string, poll: seq<Step>, end: World)
    requires Initial(issue, w) && Runs(issue, false, w, before, latched) && NeverSpoils(issue, w, before)
    requires latched.host.Latched? && latched.pc.Idle? && state != DISABLE_STATE
    requires Runs(issue, false, latched, [StatusArrives(state)] + poll, end) && end.pc.Idle?
    requires forall s | s in poll :: Undisturbed(s)
    ensures end.channel == state
    ensures IsCurrent(end, latched.host.key) <==>
            (latched.current.guid == latched.host.key.guid ==> latched.current.key == latched.host.key.key)
  {
    RunKeepsInvariant(issue, w, before, latched);
    var steps := [StatusArrives(state)] + poll;
    assert steps[0] == StatusArrives(state) && steps[1..] == poll;
    var v := Apply(issue, false, latched, steps[0]);
    StepKeepsInvariant(issue, latched, steps[0]);
    RecoveringRun(issue, v, latched.current, latched.host.key, state, poll, end);
  }

  /** If a guid names one key, the next poll always recovers. */
  lemma UniqueGuidsRecover(issue: Issue, w: World, before: seq<Step>, latched: World,
                           state: string, poll: seq<Step>, end: World)
    requires Unique(issue)
    requires Initial(issue, w) && Runs(issue, false, w, before, latched) && NeverSpoils(issue, w, before)
    requires latched.host.Latched? && latched.pc.Idle? && state != DISABLE_STATE
    requires Runs(issue, false, latched, [StatusArrives(state)] + poll, end) && end.pc.Idle?
    requires forall s | s in poll :: Undisturbed(s)
    ensures IsCurrent(end, latched.host.key) && end.channel == state
  {
    HostAndDiskAgree(issue, w, before, latched);
    NextPollRecovers(issue, w, before, latched, state, poll, end);
  }

  // ---------- runs in which the conditions fail ----------

  lemma Extend(issue: Issue, settled: bool, a: World, s: seq<Step>, b: World, step: Step)
    returns (t: seq<Step>, c: World)
    requires Runs(issue, settled, a, s, b) && Enabled(issue, settled, b, step)
    ensures t == s + [step] && c == Apply(issue, settled, b, step) && Runs(issue, settled, a, t, c)
  {
    t, c := s + [step], Apply(issue, settled, b, step);
    assert Runs(issue, settled, b, [step], c);
    RunsConcat(issue, settled, a, s, b, [step], c);
  }

  /** From an idle, unlatched agent that needs a key: one poll up to sending the attestation of `k`. */
  lemma PollUpToAttest(issue: Issue, settled: bool, a: World, s: seq<Step>, b: World, k: Key)
    returns (t: seq<Step>, c: World)
    requires Runs(issue, settled, a, s, b) && b.pc.Idle? && b.host.Unlatched? && b.requests == {}
    requires Genuine(issue, k) && b.current.guid != ""
    ensures Runs(issue, settled, a, t, c)
    ensures c == b.(disk := b.disk[k.guid := Json(k)], requests := {k}, pc := Attesting("wireserver", k))
  {
    t, c := Extend(issue, settled, a, s, b, StatusArrives("wireserver"));
    t, c := Extend(issue, settled, a, t, c, Decide);
    t, c := Extend(issue, settled, a, t, c, AcquireArrives(k));
    t, c := Extend(issue, settled, a, t, c, Write(Intact));
    t, c := Extend(issue, settled, a, t, c, CheckLocal);
    t, c := Extend(issue, settled, a, t, c, SendAttest);
  }

  /** An attestation delivered after the next poll has begun can latch the host on a key whose file is torn. */
  lemma DelayedAttestationBreaksAgreement() returns (issue: Issue, w: World, steps: seq<Step>, end: World)
    ensures Unique(issue) && Initial(issue, w) && Runs(issue, false, w, steps, end) && !Agreement(end)
  {
    issue := (g: string, v: string) => v == "k";
    var k := Key("g", "k", None, "");
    w := World(Unlatched, {}, {}, map[], EmptyKey(), UNKNOWN_STATE, Idle);
    steps, end := PollUpToAttest(issue, false, w, [], w, k);
    steps, end := Extend(issue, false, w, steps, end, AttestFails);
    steps, end := Extend(issue, false, w, steps, end, StatusArrives("wireserver"));
    steps, end := Extend(issue, false, w, steps, end, Decide);
    steps, end := Extend(issue, false, w, steps, end, AcquireArrives(k));
    steps, end := Extend(issue, false, w, steps, end, Write(Torn));
    steps, end := Extend(issue, false, w, steps, end, DeliverRequest(k));
  }

  /** A full latch on `k`, then a reset of the host. */
  lemma LatchThenReset(issue: Issue, w: World, k: Key) returns (steps: seq<Step>, end: World)
    requires Initial(issue, w) && Genuine(issue, k)
    ensures Runs(issue, true, w, steps, end)
    ensures end == w.(disk := w.disk[k.guid := Json(k)], current := k, channel := "wireserver")
  {
    steps, end := PollUpToAttest(issue, true, w, [], w, k);
    steps, end := Extend(issue, true, w, steps, end, DeliverRequest(k));
    steps, end := Extend(issue, true, w, steps, end, AttestAcknowledged);
    steps, end := Extend(issue, true, w, steps, end, Finish);
    steps, end := Extend(issue, true, w, steps, end, ResetHost);
  }

  /** A host that reuses a guid for another key after a reset leaves the agent signing with the old one. */
  lemma ReusedGuidLeavesStaleKey() returns (issue: Issue, w: World, steps: seq<Step>, end: World)
    ensures Initial(issue, w) && Runs(issue, true, w, steps, end)
    ensures end.pc.Idle? && end.host.Latched? && |steps| >= 3
    ensures steps[|steps| - 3..] == [StatusArrives("wireserver"), Decide, Finish]
    ensures end.current.guid == end.host.key.guid && end.current.key != end.host.key.key
  {
    issue := (g: string, v: string) => true;
    var first, second := Key("g", "1", None, ""), Key("g", "2", None, "");
    w := World(Unlatched, {}, {}, map[], EmptyKey(), UNKNOWN_STATE, Idle);
    steps, end := LatchThenReset(issue, w, first);
    steps, end := PollUpToAttest(issue, true, w, steps, end, second);
    steps, end := Extend(issue, true, w, steps, end, DeliverRequest(second));
    steps, end := Extend(issue, true, w, steps, end, AttestFails);
    steps, end := Extend(issue, true, w, steps, end, StatusArrives("wireserver"));
    steps, end := Extend(issue, true, w, steps, end, Decide);
    steps, end := Extend(issue, true, w, steps, end, Finish);
  }

  /** A restarted agent has no key and knows no channel; what is on disk and with the host stays. */
  lemma RestartForgets(issue: Issue, w: World)
    ensures Apply(issue, false, w, Restart) == World(
              w.host, w.requests, {}, w.disk, Key("00000000-0000-0000-0000-000000000000", "", None, ""),
              "Unknown", Idle)
  {
  }
}
