/**
  The two hooks of linux-ebpf/ebpf_cgroup.c and the maps they share.

  `connect4` runs in the connecting thread before the connection is made and may rewrite
  its destination; the `tcp_connect` probe runs later in the same thread and files an
  audit entry under the source port.  Threads interleave freely, map updates can fail, and
  either least-recently-used map can lose any entry at any time.
 */
module Ebpf {
  import opened Prelude
  import opened Redirector

  const IPPROTO_TCP: U32 := 6
  const AF_INET: U32 := 2

  datatype Destination = Destination(ip: U32, port: U32, protocol: U32)

  datatype LocalEntry = LocalEntry(logonId: U32, processId: U32, isRoot: U32, ip: U32, port: U32, protocol: U32)
  datatype AuditKey = AuditKey(protocol: U32, sourcePort: U32)
  datatype AuditEntry = AuditEntry(logonId: U32, processId: U32, isRoot: U32, ip: U32, port: U32)

  datatype Maps = Maps(
    skip: set<U32>,                          // skip_process_map
    policy: map<Destination, Destination>,   // policy_map
    local: map<U64, LocalEntry>,             // local_map, by pid_tgid
    audit: map<AuditKey, AuditEntry>)        // audit_map

  /** The running thread: what `bpf_get_current_pid_tgid` and `bpf_get_current_uid_gid` return for it. The
      kernel puts the thread group above the thread and the group id above the user id. */
  datatype Thread = Thread(pidTgid: U64, uidGid: U64)

  type U64 = n: int | 0 <= n < 0x1_0000_0000_0000_0000

  function UpperHalf(n: U64): U32 { n / 0x1_0000_0000 }

  function LowerHalf(n: U64): U32 { n % 0x1_0000_0000 }

  function Pid(pidTgid: U64): U32 { UpperHalf(pidTgid) }

  function Uid(t: Thread): U32 { LowerHalf(t.uidGid) }

  function Gid(t: Thread): U32 { UpperHalf(t.uidGid) }

  /** The id both hooks store, which the program calls a user id. */
  function LogonId(t: Thread): U32 { UpperHalf(t.uidGid) }

  function RootFlag(logonId: U32): U32 { if logonId == 0 then 1 else 0 }

  /** The socket the probe reads. */
  datatype Sock = Sock(readable: bool, family: U32, ip: U32, port: U32, localPort: U32)

  // ---------- what the hooks do ----------

  predicate Redirects(m: Maps, t: Thread, dest: Destination) {
    dest in m.policy && Pid(t.pidTgid) !in m.skip
  }

  function EntryFor(t: Thread, dest: Destination): LocalEntry {
    LocalEntry(LogonId(t), Pid(t.pidTgid), RootFlag(LogonId(t)), dest.ip, dest.port, dest.protocol)
  }

  /** connect4; `stored` says whether the map update succeeded. */
  function AfterConnect(m: Maps, t: Thread, dest: Destination, stored: bool): Maps {
    if Redirects(m, t, dest) && stored then m.(local := m.local[t.pidTgid := EntryFor(t, dest)]) else m
  }

  /** The destination the connection is really made to. */
  function Rewritten(m: Maps, t: Thread, dest: Destination): Destination {
    if Redirects(m, t, dest) then dest.(ip := m.policy[dest].ip, port := m.policy[dest].port) else dest
  }

  predicate Traced(m: Maps, t: Thread, sock: Sock) {
    sock.readable && sock.family == AF_INET && Pid(t.pidTgid) !in m.skip
  }

  function AuditOf(e: LocalEntry): AuditEntry {
    AuditEntry(e.logonId, e.processId, e.isRoot, e.ip, e.port)
  }

  datatype Filing = Filing(key: AuditKey, entry: AuditEntry)

  function FilingOf(e: LocalEntry, sock: Sock): Filing {
    Filing(AuditKey(e.protocol, sock.localPort), AuditOf(e))
  }

  /** A connection no connect hook filed, straight to a policy destination. */
  function DirectFiling(t: Thread, sock: Sock): Filing {
    Filing(AuditKey(IPPROTO_TCP, sock.localPort),
           AuditEntry(LogonId(t), Pid(t.pidTgid), RootFlag(LogonId(t)), sock.ip, sock.port))
  }

  /** What the probe files. */
  function Filed(m: Maps, t: Thread, sock: Sock): Option<Filing> {
    if !Traced(m, t, sock) then None
    else if t.pidTgid in m.local then Some(FilingOf(m.local[t.pidTgid], sock))
    else if Destination(sock.ip, sock.port, IPPROTO_TCP) in m.policy then Some(DirectFiling(t, sock))
    else None
  }

  /** The tcp_connect probe; `stored` says whether the audit update succeeded. */
  function AfterProbe(m: Maps, t: Thread, sock: Sock, stored: bool): Maps {
    var f := Filed(m, t, sock);
    m.(local := if Traced(m, t, sock) then m.local - {t.pidTgid} else m.local,
       audit := if f.Some? && stored then m.audit[f.value.key := f.value.entry] else m.audit)
  }

  // ---------- the program ----------

  /** `struct bpf_sock_addr`, rewritten in place. */
  class SockAddr {
    var userIp: U32
    var userPort: U32
    const protocol: U32

    constructor (ip: U32, port: U32, protocol: U32)
      ensures userIp == ip && userPort == port && this.protocol == protocol
    {
      userIp, userPort, this.protocol := ip, port, protocol;
    }

    function Target(): Destination
      reads this
    {
      Destination(userIp, userPort, protocol)
    }
  }

  class Kernel {
    var skip: set<U32>
    var policy: map<Destination, Destination>
    var local: map<U64, LocalEntry>
    var audit: map<AuditKey, AuditEntry>

    function State(): Maps
      reads this
    {
      Maps(skip, policy, local, audit)
    }

    constructor (skip: set<U32>, policy: map<Destination, Destination>)
      ensures State() == Maps(skip, policy, map[], map[])
    {
      this.skip, this.policy, this.local, this.audit := skip, policy, map[], map[];
    }

    method UpdateLocalMapEntry(ctx: SockAddr, t: Thread, stored: bool) returns (skipped: bool)
      modifies this`local
      ensures skipped == (Pid(t.pidTgid) in skip)
      ensures local == if !skipped && stored then old(local)[t.pidTgid := EntryFor(t, ctx.Target())] else old(local)
    {
      var pid := Pid(t.pidTgid);
      if pid in skip { return true; }
      var uid := UpperHalf(t.uidGid);
      var isRoot := if uid == 0 then 1 else 0;
      var entry := LocalEntry(uid, pid, isRoot, ctx.userIp, ctx.userPort, ctx.protocol);
      if stored { local := local[t.pidTgid := entry]; }
      return false;
    }

    /** `authorize_v4` */
    method Connect4(ctx: SockAddr, t: Thread, stored: bool)
      modifies this`local, ctx
      ensures State() == AfterConnect(old(State()), t, old(ctx.Target()), stored)
      ensures ctx.Target() == Rewritten(old(State()), t, old(ctx.Target()))
    {
      var entry := Destination(ctx.userIp, ctx.userPort, ctx.protocol);
      if entry in policy {
        var skipped := UpdateLocalMapEntry(ctx, t, stored);
        if skipped { return; }
        ctx.userIp := policy[entry].ip;
        ctx.userPort := policy[entry].port;
      }
    }

    /** `trace_v4` */
    method TcpConnect(t: Thread, sock: Sock, stored: bool)
      modifies this`local, this`audit
      ensures State() == AfterProbe(old(State()), t, sock, stored)
    {
      if !sock.readable { return; }
      if sock.family != AF_INET { return; }
      var pid := Pid(t.pidTgid);
      if pid in skip { return; }
      if t.pidTgid in local {
        var e := local[t.pidTgid];
        if stored {
          audit := audit[AuditKey(e.protocol, sock.localPort) :=
                           AuditEntry(e.logonId, e.processId, e.isRoot, e.ip, e.port)];
        }
        local := local - {t.pidTgid};
        return;
      }
      if Destination(sock.ip, sock.port, IPPROTO_TCP) in policy && stored {
        var uid := UpperHalf(t.uidGid);
        var isRoot := if uid == 0 then 1 else 0;
        audit := audit[AuditKey(IPPROTO_TCP, sock.localPort) := AuditEntry(uid, pid, isRoot, sock.ip, sock.port)];
      }
    }
  }

  // ---------- runs ----------

  datatype Step =
    | Connect(thread: Thread, dest: Destination, stored: bool)
    | Probe(thread: Thread, sock: Sock, stored: bool)
    | EvictLocal(pidTgid: U64)
    | EvictAudit(key: AuditKey)

  function Apply(m: Maps, s: Step): Maps {
    match s
    case Connect(t, dest, stored) => AfterConnect(m, t, dest, stored)
    case Probe(t, sock, stored) => AfterProbe(m, t, sock, stored)
    case EvictLocal(id) => m.(local := m.local - {id})
    case EvictAudit(key) => m.(audit := m.audit - {key})
  }

  function Run(m: Maps, steps: seq<Step>): Maps {
    if steps == [] then m else Apply(Run(m, steps[..|steps| - 1]), steps[|steps| - 1])
  }

  /** The step is a hook of this thread, or evicts its local entry. */
  predicate Touches(s: Step, pidTgid: U64) {
    match s
    case Connect(t, _, _) => t.pidTgid == pidTgid
    case Probe(t, _, _) => t.pidTgid == pidTgid
    case EvictLocal(id) => id == pidTgid
    case EvictAudit(_) => false
  }

  /** The maps agree on what thread `id` will consume. */
  predicate SameLocal(a: Maps, b: Maps, id: U64) {
    (id in a.local <==> id in b.local) && (id in a.local ==> a.local[id] == b.local[id])
  }

  /** Other threads' hooks never change the entry a thread will consume; the configuration never changes. */
  lemma {:induction false} OthersKeepLocalEntry(m: Maps, steps: seq<Step>, id: U64)
    requires forall s | s in steps :: !Touches(s, id)
    ensures SameLocal(Run(m, steps), m, id)
    ensures Run(m, steps).skip == m.skip && Run(m, steps).policy == m.policy
  {
    if steps != [] {
      var n := |steps| - 1;
      assert steps[n] in steps;
      assert forall s | s in steps[..n] :: s in steps;
      OthersKeepLocalEntry(m, steps[..n], id);
    }
  }

  /** What the probe of a thread files after its connect hook and any steps of others: the entry of that
      connect if it was stored, else one left over from an earlier connect, else a direct connection. */
  lemma FiledAfterConnect(m: Maps, t: Thread, dest: Destination, stored: bool, between: seq<Step>, uidGid: U64,
                          sock: Sock)
    requires Traced(m, t, sock) && forall s | s in between :: !Touches(s, t.pidTgid)
    ensures var now := t.(uidGid := uidGid);
            Filed(Run(Apply(m, Connect(t, dest, stored)), between), now, sock) ==
            if Redirects(m, t, dest) && stored then Some(FilingOf(EntryFor(t, dest), sock))
            else if t.pidTgid in m.local then Some(FilingOf(m.local[t.pidTgid], sock))
            else if Destination(sock.ip, sock.port, IPPROTO_TCP) in m.policy then Some(DirectFiling(now, sock))
            else None
  {
    OthersKeepLocalEntry(Apply(m, Connect(t, dest, stored)), between, t.pidTgid);
  }

  /** A connect whose entry is stored, steps of others, and the probe of the same thread. */
  function AfterBothHooks(m: Maps, t: Thread, dest: Destination, between: seq<Step>, uidGid: U64, sock: Sock): Maps {
    Apply(Run(Apply(m, Connect(t, dest, true)), between), Probe(t.(uidGid := uidGid), sock, true))
  }

  /**
    Attribution.  After a redirected connect whose entry was stored, any interleaving of
    other threads and evictions of other entries, and the thread's own probe, the audit
    entry under its source port holds its pid, the upper half of its uid_gid with a root
    flag for 0, and the destination it asked for before rewriting, and the local entry has
    been consumed.
   */
  lemma Attribution(m: Maps, t: Thread, dest: Destination, between: seq<Step>, uidGid: U64, sock: Sock)
    requires dest in m.policy && t.pidTgid / 0x1_0000_0000 !in m.skip && sock.readable && sock.family == 2
    requires forall s | s in between :: !Touches(s, t.pidTgid)
    ensures var end := AfterBothHooks(m, t, dest, between, uidGid, sock);
            var pid, id := t.pidTgid / 0x1_0000_0000, t.uidGid / 0x1_0000_0000;
            && AuditKey(dest.protocol, sock.localPort) in end.audit
            && end.audit[AuditKey(dest.protocol, sock.localPort)]
               == AuditEntry(id, pid, if id == 0 then 1 else 0, dest.ip, dest.port)
            && t.pidTgid !in end.local
  {
    FiledAfterConnect(m, t, dest, true, between, uidGid, sock);
    OthersKeepLocalEntry(Apply(m, Connect(t, dest, true)), between, t.pidTgid);
  }

  /** The value `bpf_get_current_pid_tgid` has in a thread of a process. */
  function ThreadOf(tgid: U32, tid: U32): U64 { tgid * 0x1_0000_0000 + tid }

  lemma PidOfThread(tgid: U32, tid: U32)
    ensures Pid(ThreadOf(tgid, tid)) == tgid
  {
  }

  /** Attribution of a process: whichever thread connects, the entry holds the process and the group id. */
  lemma ProcessAttribution(m: Maps, tgid: U32, tid: U32, uid: U32, gid: U32, dest: Destination, between: seq<Step>,
                           uidGid: U64, sock: Sock)
    requires dest in m.policy && tgid !in m.skip && sock.readable && sock.family == 2
    requires forall s | s in between :: !Touches(s, tgid * 0x1_0000_0000 + tid)
    ensures var t := Thread(tgid * 0x1_0000_0000 + tid, gid * 0x1_0000_0000 + uid);
            var end := AfterBothHooks(m, t, dest, between, uidGid, sock);
            && AuditKey(dest.protocol, sock.localPort) in end.audit
            && end.audit[AuditKey(dest.protocol, sock.localPort)]
               == AuditEntry(gid, tgid, if gid == 0 then 1 else 0, dest.ip, dest.port)
  {
    Attribution(m, Thread(tgid * 0x1_0000_0000 + tid, gid * 0x1_0000_0000 + uid), dest, between, uidGid, sock);
  }

  /** All threads of a skipped process are left alone by both hooks, whatever they connect to. */
  lemma SkippedProcessUntouched(m: Maps, tgid: U32, tid: U32, uidGid: U64, dest: Destination, sock: Sock, stored: bool)
    requires tgid in m.skip
    ensures var t := Thread(tgid * 0x1_0000_0000 + tid, uidGid);
            && Apply(m, Connect(t, dest, stored)) == m && Rewritten(m, t, dest) == dest
            && Apply(m, Probe(t, sock, stored)) == m
  {
    PidOfThread(tgid, tid);
  }

  /** Any other process that connects to a policy destination is sent to that destination's target and no other
      connection is changed. */
  lemma RewrittenExactly(m: Maps, tgid: U32, tid: U32, uidGid: U64, dest: Destination)
    requires tgid !in m.skip
    ensures var t := Thread(tgid * 0x1_0000_0000 + tid, uidGid);
            Rewritten(m, t, dest) ==
            if dest in m.policy then Destination(m.policy[dest].ip, m.policy[dest].port, dest.protocol) else dest
  {
    PidOfThread(tgid, tid);
  }

  /** A connection no connect hook filed, to a policy destination: the probe files the process and the group id of
      the probing thread and the address of the socket; and nothing for any other destination or family. */
  lemma DirectConnection(m: Maps, tgid: U32, tid: U32, uid: U32, gid: U32, sock: Sock)
    requires tgid !in m.skip && tgid * 0x1_0000_0000 + tid !in m.local
    ensures var t := Thread(tgid * 0x1_0000_0000 + tid, gid * 0x1_0000_0000 + uid);
            var direct := Destination(sock.ip, sock.port, 6) in m.policy && sock.readable && sock.family == 2;
            Apply(m, Probe(t, sock, true)).audit ==
            if direct then m.audit[AuditKey(6, sock.localPort) :=
                                     AuditEntry(gid, tgid, if gid == 0 then 1 else 0, sock.ip, sock.port)]
            else m.audit
  {
    PidOfThread(tgid, tid);
  }

  /** The id filed for a thread is its user id exactly when user and group id agree, and the flag says whether
      the user is root exactly when user and group id are both 0 or both not. */
  lemma IdentityExactly(t: Thread)
    ensures LogonId(t) == Uid(t) <==> Gid(t) == Uid(t)
    ensures (RootFlag(LogonId(t)) == 1 <==> Uid(t) == 0) <==> (Gid(t) == 0 <==> Uid(t) == 0)
  {
  }

  /** User 1000 in group 0 is filed as root, and root in group 1000 is not. */
  lemma GroupDecidesRoot(pidTgid: U64)
    ensures var t := Thread(pidTgid, 1000); Uid(t) == 1000 && RootFlag(LogonId(t)) == 1
    ensures var t := Thread(pidTgid, 1000 * 0x1_0000_0000); Uid(t) == 0 && RootFlag(LogonId(t)) == 0
  {
  }

  /** The step files or evicts an audit entry under this key. */
  predicate Files(m: Maps, s: Step, key: AuditKey) {
    match s
    case Connect(_, _, _) => false
    case Probe(t, sock, _) =>
      sock.localPort == key.sourcePort
      && key.protocol == if t.pidTgid in m.local then m.local[t.pidTgid].protocol else IPPROTO_TCP
    case EvictLocal(_) => false
    case EvictAudit(k) => k == key
  }

  lemma StepKeepsEntry(m: Maps, s: Step, key: AuditKey)
    requires key in m.audit && !Files(m, s, key)
    ensures key in Apply(m, s).audit && Apply(m, s).audit[key] == m.audit[key]
  {
  }

  /** A filed entry stays readable until a probe reuses the port or the entry is evicted. */
  lemma {:induction false} AuditEntryStays(m: Maps, steps: seq<Step>, key: AuditKey)
    requires key in m.audit
    requires forall i | 0 <= i < |steps| :: !Files(Run(m, steps[..i]), steps[i], key)
    ensures key in Run(m, steps).audit && Run(m, steps).audit[key] == m.audit[key]
  {
    if steps != [] {
      var n := |steps| - 1;
      forall i | 0 <= i < n ensures !Files(Run(m, steps[..n][..i]), steps[..n][i], key) {
        assert steps[..n][..i] == steps[..i];
      }
      AuditEntryStays(m, steps[..n], key);
      assert steps[..n] == steps[..|steps| - 1];
      StepKeepsEntry(Run(m, steps[..n]), steps[n], key);
    }
  }

  function DestinationOf(e: LocalEntry): Destination {
    Destination(e.ip, e.port, e.protocol)
  }

  function FiledDestination(f: Filing): Destination {
    Destination(f.entry.ip, f.entry.port, f.key.protocol)
  }

  /**
    The other side.  A TCP connection is filed under another destination than the one asked
    for exactly when this connect left no entry of its own, being not redirected or not
    stored, and the thread has an unconsumed entry for another destination, or has none and
    was redirected to another destination of the policy; and it is filed at all exactly
    when there is an entry of its own, a leftover, or such a target.
   */
  lemma LeftoverEntryMisattributes(m: Maps, t: Thread, dest: Destination, stored: bool, between: seq<Step>,
                                   uidGid: U64, sock: Sock)
    requires Traced(m, t, sock) && forall s | s in between :: !Touches(s, t.pidTgid)
    requires dest.protocol == IPPROTO_TCP && Destination(sock.ip, sock.port, IPPROTO_TCP) == Rewritten(m, t, dest)
    ensures var f := Filed(Run(Apply(m, Connect(t, dest, stored)), between), t.(uidGid := uidGid), sock);
            var own := Redirects(m, t, dest) && stored;
            var target := Rewritten(m, t, dest);
            && (f.Some? && FiledDestination(f.value) != dest <==>
                  && !own
                  && if t.pidTgid in m.local then DestinationOf(m.local[t.pidTgid]) != dest
                     else target in m.policy && target != dest)
            && (f.Some? <==> own || t.pidTgid in m.local || target in m.policy)
            && (t.pidTgid in m.local && !own ==> f.value == FilingOf(m.local[t.pidTgid], sock))
  {
    FiledAfterConnect(m, t, dest, stored, between, uidGid, sock);
  }

  /** No connection is redirected to a destination that is redirected itself. */
  predicate TargetsOutside(policy: map<Destination, Destination>) {
    forall d | d in policy :: d.(ip := policy[d].ip, port := policy[d].port) !in policy
  }

  /** With targets outside the policy a leftover is the only way to a wrong destination. */
  lemma OnlyLeftoversMisattribute(m: Maps, t: Thread, dest: Destination, stored: bool, between: seq<Step>,
                                  uidGid: U64, sock: Sock)
    requires Traced(m, t, sock) && forall s | s in between :: !Touches(s, t.pidTgid)
    requires dest.protocol == IPPROTO_TCP && Destination(sock.ip, sock.port, IPPROTO_TCP) == Rewritten(m, t, dest)
    requires TargetsOutside(m.policy)
    ensures var f := Filed(Run(Apply(m, Connect(t, dest, stored)), between), t.(uidGid := uidGid), sock);
            var own := Redirects(m, t, dest) && stored;
            && (f.Some? && FiledDestination(f.value) != dest <==>
                  t.pidTgid in m.local && !own && DestinationOf(m.local[t.pidTgid]) != dest)
            && (f.Some? <==> t.pidTgid in m.local || own)
  {
    LeftoverEntryMisattributes(m, t, dest, stored, between, uidGid, sock);
  }

  /** Such a leftover exists: redirected once, never probed, then connected elsewhere. */
  lemma LeftoverExample(m: Maps, t: Thread, wanted: Destination, other: Destination, sock: Sock)
    requires Redirects(m, t, wanted) && other !in m.policy && wanted.protocol == IPPROTO_TCP
    requires sock == Sock(true, AF_INET, other.ip, other.port, sock.localPort) && other.protocol == IPPROTO_TCP
    ensures var end := Run(m, [Connect(t, wanted, true), Connect(t, other, true), Probe(t, sock, true)]);
            var key := AuditKey(IPPROTO_TCP, sock.localPort);
            key in end.audit && end.audit[key].ip == wanted.ip && end.audit[key].port == wanted.port
  {
    var steps := [Connect(t, wanted, true), Connect(t, other, true), Probe(t, sock, true)];
    assert steps[..2][..1] == [Connect(t, wanted, true)];
    assert steps[..2] == [Connect(t, wanted, true), Connect(t, other, true)];
    assert [Connect(t, wanted, true)][..0] == [];
    var m1 := Apply(m, Connect(t, wanted, true));
    assert Run(m, [Connect(t, wanted, true)]) == m1;
    assert Run(m, steps[..2]) == Apply(m1, Connect(t, other, true)) == m1;
  }

  // ---------- every entry names a policy destination ----------

  predicate Sound(m: Maps, ip: U32, port: U32, protocol: U32, processId: U32, logonId: U32, isRoot: U32) {
    Destination(ip, port, protocol) in m.policy && processId !in m.skip && isRoot == RootFlag(logonId)
  }

  ghost predicate AllSound(m: Maps) {
    && (forall d | d in m.policy :: d.protocol == IPPROTO_TCP)
    && (forall id | id in m.local ::
          var e := m.local[id]; Sound(m, e.ip, e.port, e.protocol, e.processId, e.logonId, e.isRoot))
    && (forall k | k in m.audit ::
          var e := m.audit[k]; Sound(m, e.ip, e.port, k.protocol, e.processId, e.logonId, e.isRoot))
  }

  lemma StepKeepsSound(m: Maps, s: Step)
    requires AllSound(m)
    ensures AllSound(Apply(m, s))
    ensures Apply(m, s).policy == m.policy && Apply(m, s).skip == m.skip
  {
  }

  /** In every reachable state each entry names a policy destination over TCP and a process that is not
      skipped, with the root flag set exactly when the stored id is 0. */
  lemma {:induction false} RunKeepsSound(m: Maps, steps: seq<Step>)
    requires m.local == map[] && m.audit == map[] && forall d | d in m.policy :: d.protocol == IPPROTO_TCP
    ensures AllSound(Run(m, steps))
    ensures Run(m, steps).policy == m.policy && Run(m, steps).skip == m.skip
  {
    if steps != [] {
      RunKeepsSound(m, steps[..|steps| - 1]);
      StepKeepsSound(Run(m, steps[..|steps| - 1]), steps[|steps| - 1]);
    }
  }
}
