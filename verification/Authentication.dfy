/**
  From a source port back to the connection: the policy map and the audit lookup of
  proxy_agent/src/redirector/linux.rs, and the authenticator chosen by
  proxy_agent/src/proxy/proxy_authentication.rs.
 */
module Authentication {
  import opened Prelude
  import opened Text
  import opened Redirector
  import opened Ebpf

  // ---------- endpoints ----------

  const WIRE_SERVER_IP: string := "168.63.129.16"
  const GA_PLUGIN_IP: string := "168.63.129.16"
  const IMDS_IP: string := "169.254.169.254"
  const PROXY_AGENT_IP: string := "127.0.0.1"
  const WIRE_SERVER_PORT: U16 := 80
  const GA_PLUGIN_PORT: U16 := 32526
  const IMDS_PORT: U16 := 80
  const PROXY_AGENT_PORT: U16 := 3080
  const WIRE_SERVER_IP_NETWORK_BYTE_ORDER: U32 := 0x10813FA8
  const GA_PLUGIN_IP_NETWORK_BYTE_ORDER: U32 := 0x10813FA8
  const IMDS_IP_NETWORK_BYTE_ORDER: U32 := 0xFEA9FEA9

  /** `destination_entry::from_ipv4` */
  function FromIpv4(ip: U32, port: U16): Destination {
    Destination(ip, SwapBytes(port), IPPROTO_TCP)
  }

  datatype Endpoint = WireServerEndpoint | ImdsEndpoint | GaPluginEndpoint

  function KeyOf(e: Endpoint): Destination {
    match e
    case WireServerEndpoint => FromIpv4(WIRE_SERVER_IP_NETWORK_BYTE_ORDER, WIRE_SERVER_PORT)
    case ImdsEndpoint => FromIpv4(IMDS_IP_NETWORK_BYTE_ORDER, IMDS_PORT)
    case GaPluginEndpoint => FromIpv4(GA_PLUGIN_IP_NETWORK_BYTE_ORDER, GA_PLUGIN_PORT)
  }

  const ENDPOINTS: seq<Endpoint> := [WireServerEndpoint, ImdsEndpoint, GaPluginEndpoint]

  /** `update_policy_map`: the endpoints go in one by one until an insert fails. */
  method UpdatePolicyMap(localIp: string, localPort: U16, accepts: Endpoint -> bool)
    returns (policy: map<Destination, Destination>, ok: bool)
    ensures ok <==> forall e :: accepts(e)
    ensures OnlyEndpoints(policy)
    ensures ok ==> forall e :: KeyOf(e) in policy
    ensures forall d | d in policy :: policy[d] == Destination(QuadValueOf(localIp), SwapBytes(localPort), IPPROTO_TCP)
    ensures (forall e :: KeyOf(e) != Destination(QuadValueOf(localIp), SwapBytes(localPort), IPPROTO_TCP))
            ==> TargetsOutside(policy)
  {
    policy := map[];
    var ip := StringToIp(localIp);
    var value := FromIpv4(ip, localPort);
    for i := 0 to 3
      invariant forall d | d in policy :: (exists e :: d == KeyOf(e)) && policy[d] == value
      invariant forall j | 0 <= j < i :: accepts(ENDPOINTS[j]) && KeyOf(ENDPOINTS[j]) in policy
    {
      if !accepts(ENDPOINTS[i]) { return policy, false; }
      policy := policy[KeyOf(ENDPOINTS[i]) := value];
    }
    forall e ensures accepts(e) && KeyOf(e) in policy {
      assert e == ENDPOINTS[0] || e == ENDPOINTS[1] || e == ENDPOINTS[2];
    }
    ok := true;
  }

  ghost function QuadValueOf(s: string): U32 {
    QuadFits(s);
    QuadValue(s)
  }

  lemma QuadFits(s: string)
    ensures QuadValue(s) < 0x1_0000_0000
  {
    if QuadBytes(s).Some? {
      FourBytes(QuadBytes(s).value);
    }
  }

  ghost predicate OnlyEndpoints(policy: map<Destination, Destination>) {
    forall d | d in policy :: exists e :: d == KeyOf(e)
  }

  // ---------- lookup and dispatch ----------

  /** What `lookup_audit` hands to the listener. */
  datatype AuditRecord = AuditRecord(logonId: U32, processId: U32, isAdmin: U32, destinationIpv4: U32,
                                     destinationPort: U16)

  function LookupAudit(m: Maps, sourcePort: U16): Option<AuditRecord> {
    var key := AuditKey(IPPROTO_TCP, sourcePort);
    if key in m.audit then
      var e := m.audit[key];
      Some(AuditRecord(e.logonId, e.processId, e.isRoot, e.ip, e.port % 0x1_0000))
    else None
  }

  datatype Authenticator = WireServer | GaPlugin | Imds | ProxyAgent | Default

  function GetAuthenticate(ip: string, port: U16): Authenticator {
    if ip == WIRE_SERVER_IP && port == WIRE_SERVER_PORT then WireServer
    else if ip == GA_PLUGIN_IP && port == GA_PLUGIN_PORT then GaPlugin
    else if ip == IMDS_IP && port == IMDS_PORT then Imds
    else if ip == PROXY_AGENT_IP && port == PROXY_AGENT_PORT then ProxyAgent
    else Default
  }

  function AuthenticatorOf(r: AuditRecord): Authenticator {
    GetAuthenticate(IpToString(r.destinationIpv4), SwapBytes(r.destinationPort))
  }

  function Expected(e: Endpoint): Authenticator {
    match e case WireServerEndpoint => WireServer case ImdsEndpoint => Imds case GaPluginEndpoint => GaPlugin
  }

  lemma JoinFour(a: string, b: string, c: string, d: string)
    ensures JoinDots([a, b, c, d]) == a + "." + (b + "." + (c + "." + d))
  {
    assert [a, b, c, d][1..] == [b, c, d] && [b, c, d][1..] == [c, d] && [c, d][1..] == [d];
    assert JoinDots([d]) == d;
    assert JoinDots([c, d]) == c + "." + d;
    assert JoinDots([b, c, d]) == b + "." + (c + "." + d);
  }

  lemma ThreeDigits(n: nat)
    requires 100 <= n < 1000
    ensures Decimal(n) == [Digit(n / 100), Digit(n / 10 % 10), Digit(n % 10)]
  {
    TwoDigits(n / 10);
    assert n / 10 / 10 == n / 100;
  }

  lemma TwoDigits(n: nat)
    requires 10 <= n < 100
    ensures Decimal(n) == [Digit(n / 10), Digit(n % 10)]
  {
    assert Decimal(n / 10) == [Digit(n / 10)];
  }

  lemma SegmentTexts(n: nat)
    ensures n == 168 ==> Decimal(n) == "168"
    ensures n == 63 ==> Decimal(n) == "63"
    ensures n == 129 ==> Decimal(n) == "129"
    ensures n == 16 ==> Decimal(n) == "16"
    ensures n == 169 ==> Decimal(n) == "169"
    ensures n == 254 ==> Decimal(n) == "254"
  {
    if 10 <= n < 100 { TwoDigits(n); }
    if 100 <= n < 1000 { ThreeDigits(n); }
  }

  lemma HostText()
    ensures "168" + "." + ("63" + "." + ("129" + "." + "16")) == WIRE_SERVER_IP
  {
  }

  lemma ImdsText()
    ensures "169" + "." + ("254" + "." + ("169" + "." + "254")) == IMDS_IP
  {
  }

  lemma HostQuad(a: nat, b: nat, c: nat, d: nat)
    requires a == 168 && b == 63 && c == 129 && d == 16
    ensures JoinDots([Decimal(a), Decimal(b), Decimal(c), Decimal(d)]) == WIRE_SERVER_IP
  {
    JoinFour(Decimal(a), Decimal(b), Decimal(c), Decimal(d));
    SegmentTexts(a);
    SegmentTexts(b);
    SegmentTexts(c);
    SegmentTexts(d);
    HostText();
  }

  lemma ImdsQuad(a: nat, b: nat, c: nat, d: nat)
    requires a == 169 && b == 254 && c == 169 && d == 254
    ensures JoinDots([Decimal(a), Decimal(b), Decimal(c), Decimal(d)]) == IMDS_IP
  {
    JoinFour(Decimal(a), Decimal(b), Decimal(c), Decimal(d));
    SegmentTexts(a);
    SegmentTexts(b);
    SegmentTexts(c);
    SegmentTexts(d);
    ImdsText();
  }

  lemma AddressText(ip: U32)
    ensures ip == WIRE_SERVER_IP_NETWORK_BYTE_ORDER ==> IpToString(ip) == WIRE_SERVER_IP
    ensures ip == IMDS_IP_NETWORK_BYTE_ORDER ==> IpToString(ip) == IMDS_IP
  {
    var a, b, c, d := ip % 256, ip / 256 % 256, ip / 256 / 256 % 256, ip / 256 / 256 / 256 % 256;
    if ip == WIRE_SERVER_IP_NETWORK_BYTE_ORDER { HostQuad(a, b, c, d); }
    if ip == IMDS_IP_NETWORK_BYTE_ORDER { ImdsQuad(a, b, c, d); }
  }

  lemma Dispatch(ip: string, port: U16)
    ensures ip == WIRE_SERVER_IP && port == WIRE_SERVER_PORT ==> GetAuthenticate(ip, port) == WireServer
    ensures ip == GA_PLUGIN_IP && port == GA_PLUGIN_PORT ==> GetAuthenticate(ip, port) == GaPlugin
    ensures ip == IMDS_IP && port == IMDS_PORT ==> GetAuthenticate(ip, port) == Imds
  {
    assert IMDS_IP[2] != WIRE_SERVER_IP[2];
  }

  /** Which authenticator each address and port gets. */
  lemma DispatchExactly(ip: string, port: U16)
    ensures GetAuthenticate(ip, port) == WireServer <==> ip == "168.63.129.16" && port == 80
    ensures GetAuthenticate(ip, port) == GaPlugin <==> ip == "168.63.129.16" && port == 32526
    ensures GetAuthenticate(ip, port) == Imds <==> ip == "169.254.169.254" && port == 80
    ensures GetAuthenticate(ip, port) == ProxyAgent <==> ip == "127.0.0.1" && port == 3080
  {
    assert IMDS_IP[2] != WIRE_SERVER_IP[2] && PROXY_AGENT_IP[1] != IMDS_IP[1];
  }

  lemma EndpointDispatch(e: Endpoint, r: AuditRecord)
    requires Destination(r.destinationIpv4, r.destinationPort, IPPROTO_TCP) == KeyOf(e)
    ensures AuthenticatorOf(r) == Expected(e)
  {
    AddressText(r.destinationIpv4);
    SwapBytesInvolution(WIRE_SERVER_PORT);
    SwapBytesInvolution(GA_PLUGIN_PORT);
    Dispatch(IpToString(r.destinationIpv4), SwapBytes(r.destinationPort));
  }

  /** `Claims::from_audit_entry` */
  predicate RunAsElevated(r: AuditRecord) { r.isAdmin == 1 }

  /** Every reachable audit record names an endpoint of the policy map and a process that is not skipped, and is
      elevated exactly when the id it carries is 0. */
  lemma LookupNamesEndpoint(m: Maps, steps: seq<Step>, sourcePort: U16) returns (e: Endpoint)
    requires m.local == map[] && m.audit == map[] && OnlyEndpoints(m.policy)
    requires LookupAudit(Run(m, steps), sourcePort).Some?
    ensures var r := LookupAudit(Run(m, steps), sourcePort).value;
            && r.processId !in m.skip && (RunAsElevated(r) <==> r.logonId == 0)
            && KeyOf(e) in m.policy && KeyOf(e) == Destination(r.destinationIpv4, r.destinationPort, IPPROTO_TCP)
  {
    RunKeepsSound(m, steps);
    var a := Run(m, steps).audit[AuditKey(IPPROTO_TCP, sourcePort)];
    e :| Destination(a.ip, a.port, IPPROTO_TCP) == KeyOf(e);
  }

  /**
    End to end.  With the policy map filled from the known endpoints, in every state the
    hooks can reach, every successful lookup selects the authenticator of the endpoint the
    record names: WireServer, GAPlugin or IMDS, never Default or ProxyAgent.
   */
  lemma LookupSelectsEndpoint(m: Maps, steps: seq<Step>, sourcePort: U16) returns (e: Endpoint)
    requires m.local == map[] && m.audit == map[] && OnlyEndpoints(m.policy)
    requires LookupAudit(Run(m, steps), sourcePort).Some?
    ensures KeyOf(e) in m.policy
    ensures var r := LookupAudit(Run(m, steps), sourcePort).value;
            && KeyOf(e) == Destination(r.destinationIpv4, r.destinationPort, IPPROTO_TCP)
            && AuthenticatorOf(r) == Expected(e)
    ensures Expected(e) != ProxyAgent && Expected(e) != Default
  {
    e := LookupNamesEndpoint(m, steps, sourcePort);
    EndpointDispatch(e, LookupAudit(Run(m, steps), sourcePort).value);
  }

  /**
    The whole way.  A thread connects to an endpoint and its entry is stored; others run
    between its hooks and after them, without evicting its entries or filing under its
    port.  Then looking up its port finds its process and the endpoint it connected to,
    selects that endpoint's authenticator, and calls the process elevated exactly when its
    group id is 0; so elevation is right exactly when user and group id are both 0 or both
    not.
   */
  lemma ConnectionFindsItsEndpoint(m: Maps, t: Thread, e: Endpoint, between: seq<Step>, uidGid: U64, sock: Sock,
                                   after: seq<Step>, sourcePort: U16)
    requires KeyOf(e) in m.policy && t.pidTgid / 0x1_0000_0000 !in m.skip
    requires sock.readable && sock.family == AF_INET && sock.localPort == sourcePort
    requires forall s | s in between :: !Touches(s, t.pidTgid)
    requires var filed := AfterBothHooks(m, t, KeyOf(e), between, uidGid, sock);
             forall i | 0 <= i < |after| :: !Files(Run(filed, after[..i]), after[i], AuditKey(IPPROTO_TCP, sourcePort))
    ensures var filed := AfterBothHooks(m, t, KeyOf(e), between, uidGid, sock);
            var found := LookupAudit(Run(filed, after), sourcePort);
            && found.Some? && found.value.processId == t.pidTgid / 0x1_0000_0000
            && Destination(found.value.destinationIpv4, found.value.destinationPort, IPPROTO_TCP) == KeyOf(e)
            && AuthenticatorOf(found.value) == Expected(e)
            && (found.value.logonId == Uid(t) <==> Gid(t) == Uid(t))
            && (RunAsElevated(found.value) <==> Gid(t) == 0)
            && ((RunAsElevated(found.value) <==> Uid(t) == 0) <==> (Gid(t) == 0 <==> Uid(t) == 0))
  {
    Attribution(m, t, KeyOf(e), between, uidGid, sock);
    FoundLater(AfterBothHooks(m, t, KeyOf(e), between, uidGid, sock), t, e, after, sourcePort);
    EndpointDispatch(e, RecordFor(t, e));
  }

  lemma FoundLater(filed: Maps, t: Thread, e: Endpoint, after: seq<Step>, sourcePort: U16)
    requires var key := AuditKey(IPPROTO_TCP, sourcePort);
             && key in filed.audit
             && filed.audit[key]
                == AuditEntry(Gid(t), Pid(t.pidTgid), if Gid(t) == 0 then 1 else 0, KeyOf(e).ip, KeyOf(e).port)
             && forall i | 0 <= i < |after| :: !Files(Run(filed, after[..i]), after[i], key)
    ensures LookupAudit(Run(filed, after), sourcePort) == Some(RecordFor(t, e))
  {
    var key := AuditKey(IPPROTO_TCP, sourcePort);
    AuditEntryStays(filed, after, key);
    var r := RecordFor(t, e);
    assert Run(filed, after).audit[key] == AuditEntry(r.logonId, r.processId, r.isAdmin, KeyOf(e).ip, KeyOf(e).port);
  }

  /** The record a connection of this thread to this endpoint should be found under. */
  function RecordFor(t: Thread, e: Endpoint): (r: AuditRecord)
    ensures r.processId == t.pidTgid / 0x1_0000_0000 && (RunAsElevated(r) <==> Gid(t) == 0)
    ensures Destination(r.destinationIpv4, r.destinationPort, IPPROTO_TCP) == KeyOf(e)
  {
    AuditRecord(Gid(t), Pid(t.pidTgid), if Gid(t) == 0 then 1 else 0, KeyOf(e).ip, KeyOf(e).port)
  }

  // ---------- what a lookup finds when nothing was filed ----------

  /** The record a filing can be found under by its source port. */
  function RecordOf(f: Filing): AuditRecord {
    AuditRecord(f.entry.logonId, f.entry.processId, f.entry.isRoot, f.entry.ip, f.entry.port % 0x1_0000)
  }

  /**
    A probe and the lookup of its port.  The record found is the one this probe filed
    exactly when it filed one over TCP and the audit update succeeded; otherwise the lookup
    finds what it found before: the record of whoever used the port last, if any.
   */
  lemma LookupAfterProbe(m: Maps, t: Thread, sock: Sock, stored: bool, sourcePort: U16)
    requires sock.localPort == sourcePort
    ensures var f := Filed(m, t, sock);
            LookupAudit(AfterProbe(m, t, sock, stored), sourcePort) ==
            if stored && f.Some? && f.value.key.protocol == IPPROTO_TCP then Some(RecordOf(f.value))
            else LookupAudit(m, sourcePort)
  {
  }

  /**
    A connection over TCP, steps of others, the probe and the lookup.  If the connect's
    entry and the audit entry are stored, the record found is the connecting thread's; and
    if it was not redirected or its entry was not stored, with no leftover and targets
    outside the policy, or if the audit update fails, the record found is whatever was
    there under the port before.
   */
  lemma LookupAfterConnect(m: Maps, t: Thread, dest: Destination, stored: bool, between: seq<Step>, uidGid: U64,
                           sock: Sock, filed: bool, sourcePort: U16)
    requires Traced(m, t, sock) && forall s | s in between :: !Touches(s, t.pidTgid)
    requires dest.protocol == IPPROTO_TCP && Destination(sock.ip, sock.port, IPPROTO_TCP) == Rewritten(m, t, dest)
    requires TargetsOutside(m.policy) && sock.localPort == sourcePort
    requires t.pidTgid in m.local ==> m.local[t.pidTgid].protocol == IPPROTO_TCP
    ensures var before := Run(Apply(m, Connect(t, dest, stored)), between);
            var found := LookupAudit(Apply(before, Probe(t.(uidGid := uidGid), sock, filed)), sourcePort);
            var own := Redirects(m, t, dest) && stored;
            found == if !filed then LookupAudit(before, sourcePort)
                     else if own then Some(RecordOf(FilingOf(EntryFor(t, dest), sock)))
                     else if t.pidTgid in m.local then Some(RecordOf(FilingOf(m.local[t.pidTgid], sock)))
                     else LookupAudit(before, sourcePort)
  {
    var before := Run(Apply(m, Connect(t, dest, stored)), between);
    FiledAfterConnect(m, t, dest, stored, between, uidGid, sock);
    OnlyLeftoversMisattribute(m, t, dest, stored, between, uidGid, sock);
    LookupAfterProbe(before, t.(uidGid := uidGid), sock, filed, sourcePort);
  }

  /** The record found is that of the connect just made exactly when both stores succeeded for a redirected
      connect, or what is found instead, a leftover's record or that of the port's last user, is the same. */
  lemma LookupFindsOwnRecord(m: Maps, t: Thread, dest: Destination, stored: bool, between: seq<Step>, uidGid: U64,
                             sock: Sock, filed: bool, sourcePort: U16)
    requires Traced(m, t, sock) && forall s | s in between :: !Touches(s, t.pidTgid)
    requires dest.protocol == IPPROTO_TCP && Destination(sock.ip, sock.port, IPPROTO_TCP) == Rewritten(m, t, dest)
    requires TargetsOutside(m.policy) && sock.localPort == sourcePort
    requires t.pidTgid in m.local ==> m.local[t.pidTgid].protocol == IPPROTO_TCP
    ensures var before := Run(Apply(m, Connect(t, dest, stored)), between);
            var found := LookupAudit(Apply(before, Probe(t.(uidGid := uidGid), sock, filed)), sourcePort);
            var wanted := Some(RecordOf(FilingOf(EntryFor(t, dest), sock)));
            var other := if filed && t.pidTgid in m.local then Some(RecordOf(FilingOf(m.local[t.pidTgid], sock)))
                         else LookupAudit(before, sourcePort);
            found == wanted <==> (Redirects(m, t, dest) && stored && filed) || other == wanted
  {
    LookupAfterConnect(m, t, dest, stored, between, uidGid, sock, filed, sourcePort);
  }
}
