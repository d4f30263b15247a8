/**
 * One reconciliation cycle, `doMainLoopWork` (main.go:69-152): read the
 * preferences, ask the gateway for a TCP and a UDP port mapping with `natpmpc`,
 * parse the public port and address from the tool's output, and bring
 * qBittorrent's announce_port and announce_ip into line with them.
 *
 * Every effect is an input: the `Effects` record holds what each request and
 * each run of `natpmpc` gives back, and the cycle returns the ordered list of
 * effects it asked for together with how it ended. Effects the cycle does not
 * reach are never consulted.
 */
module Reconciler {
  import opened Wrappers
  import opened Digits
  import opened NatpmpOutput
  import opened Preferences

  datatype Protocol = TCP | UDP

  /** `CombinedOutput` of one run of `natpmpc`: exit status zero, or an error, with the output either way. */
  datatype CommandResult = Ran(output: string) | Failed(output: string)

  /** What each effect of one cycle gives back. */
  datatype Effects = Effects(
    prefs: Fetch,        // the first `getCurrentPreferences`
    tcp: CommandResult,  // `natpmpc ... TCP 60`
    udp: CommandResult,  // `natpmpc ... UDP 60`
    portRead: Fetch,     // the GET inside `updateAnnouncePort`
    portPosted: bool,    // its POST returned without error
    portRecheck: Fetch,  // the `getCurrentPreferences` after it
    ipRead: Fetch,       // the same three for `updateAnnounceIP`
    ipPosted: bool,
    ipRecheck: Fetch)

  datatype Setting = AnnouncePort | AnnounceIP

  datatype Action =
    | FetchPreferences
    | RunNatpmpc(args: seq<string>)
      /** An update call; payload is the document posted, None when its own read failed. */
    | Update(setting: Setting, payload: Option<Document>)
      /** The `getCurrentPreferences` that checks an update. */
    | Verify(setting: Setting)

  /** The steps that can end a cycle early, in the order they run. */
  datatype Step = ReadPreferences | MapTCP | MapUDP | ParseTCPPort | ParseTCPIP | ParseUDPPort

  /** What became of one setting in a finished cycle. */
  datatype Check =
    | Unchanged     // already equal, nothing sent
    | UpdateFailed  // the update returned an error
    | RecheckFailed // the update went through, reading the preferences back failed
    | Confirmed     // the value read back is the one sent
    | Unconfirmed   // the value read back differs

  datatype End =
    | Aborted(at: Step)
    | Finished(portsDisagree: bool, publicPort: nat, publicIP: string, port: Check, ip: Check)

  function Order(s: Step): nat {
    match s
    case ReadPreferences => 0
    case MapTCP => 1
    case MapUDP => 2
    case ParseTCPPort => 3
    case ParseTCPIP => 4
    case ParseUDPPort => 5
  }

  /** Step s, once reached, fails on these effects. */
  predicate StepFails(fx: Effects, s: Step) {
    match s
    case ReadPreferences => CurrentPreferences(fx.prefs).Err?
    case MapTCP => fx.tcp.Failed?
    case MapUDP => fx.udp.Failed?
    case ParseTCPPort => ParsePublicPort(fx.tcp.output).Err?
    case ParseTCPIP => ParsePublicIP(fx.tcp.output).Err?
    case ParseUDPPort => ParsePublicPort(fx.udp.output).Err?
  }

  function ProtocolName(p: Protocol): string {
    match p
    case TCP => "TCP"
    case UDP => "UDP"
  }

  /** `natpmpc -g <gateway> -a 1 <listen port> <protocol> 60`: map the listen port for 60 seconds. */
  function Probe(gateway: string, listenPort: nat, p: Protocol): Action {
    RunNatpmpc(["-g", gateway, "-a", "1", Decimal(listenPort), ProtocolName(p), "60"])
  }

  function Key(s: Setting): string {
    match s
    case AnnouncePort => AnnouncePortKey
    case AnnounceIP => AnnounceIPKey
  }

  /** The current value of a setting, as it sits in the preferences. */
  function Current(snap: Snapshot, s: Setting): Json {
    match s
    case AnnouncePort => JNumber(snap.announcePort)
    case AnnounceIP => JString(snap.announceIP)
  }

  /** The value the cycle wants a setting to have. */
  function Wanted(s: Setting, port: nat, ip: string): Json {
    match s
    case AnnouncePort => JNumber(port)
    case AnnounceIP => JString(ip)
  }

  // ------------------------------------------------------ counting actions

  function Updates(acts: seq<Action>, s: Setting): nat {
    if acts == [] then 0
    else (if acts[0].Update? && acts[0].setting == s then 1 else 0) + Updates(acts[1..], s)
  }

  function Verifies(acts: seq<Action>, s: Setting): nat {
    if acts == [] then 0
    else (if acts[0] == Verify(s) then 1 else 0) + Verifies(acts[1..], s)
  }

  lemma {:induction false} CountsAppend(a: seq<Action>, b: seq<Action>, s: Setting)
    ensures Updates(a + b, s) == Updates(a, s) + Updates(b, s)
    ensures Verifies(a + b, s) == Verifies(a, s) + Verifies(b, s)
  {
    if a == [] {
      assert a + b == b;
    } else {
      assert (a + b)[1..] == a[1..] + b;
      CountsAppend(a[1..], b, s);
    }
  }

  lemma CountsOfOne(a: Action, s: Setting)
    ensures Updates([a], s) == if a.Update? && a.setting == s then 1 else 0
    ensures Verifies([a], s) == if a == Verify(s) then 1 else 0
  {
    assert [a][1..] == [];
  }

  /** Actions that are neither updates nor checks of updates. */
  lemma {:induction false} CountsWithoutUpdates(a: seq<Action>, s: Setting)
    requires forall k :: 0 <= k < |a| ==> !a[k].Update? && !a[k].Verify?
    ensures Updates(a, s) == 0 && Verifies(a, s) == 0
  {
    if a != [] {
      CountsWithoutUpdates(a[1..], s);
    }
  }

  /** Actions all about another setting. */
  lemma {:induction false} CountsOfOtherSetting(a: seq<Action>, s: Setting, t: Setting)
    requires s != t
    requires forall k :: 0 <= k < |a| ==> (a[k].Update? || a[k].Verify?) && a[k].setting == t
    ensures Updates(a, s) == 0 && Verifies(a, s) == 0
  {
    if a != [] {
      CountsOfOtherSetting(a[1..], s, t);
    }
  }

  /** Every check of an update comes right after an update of the same setting that posted something. */
  predicate VerifyFollowsPostedUpdate(acts: seq<Action>) {
    forall k :: 0 <= k < |acts| && acts[k].Verify? ==>
      0 < k && acts[k - 1].Update? && acts[k - 1].setting == acts[k].setting && acts[k - 1].payload.Some?
  }

  lemma VerifyFollowsPostedUpdateAppend(a: seq<Action>, b: seq<Action>)
    requires VerifyFollowsPostedUpdate(a) && VerifyFollowsPostedUpdate(b)
    requires b == [] || !b[0].Verify?
    ensures VerifyFollowsPostedUpdate(a + b)
  {
    forall k | 0 <= k < |a + b| && (a + b)[k].Verify?
      ensures 0 < k && (a + b)[k - 1].Update? && (a + b)[k - 1].setting == (a + b)[k].setting
      ensures (a + b)[k - 1].payload.Some?
    {
      if k >= |a| {
        assert b[k - |a|].Verify?;
      }
    }
  }

  /** Each update of setting s posts the read document with only s's key set to wanted. */
  predicate PayloadsAssign(acts: seq<Action>, s: Setting, read: Fetch, wanted: Json) {
    forall k :: 0 <= k < |acts| && acts[k].Update? && acts[k].setting == s ==> PayloadAssigns(acts[k], read, wanted)
  }

  predicate PayloadAssigns(a: Action, read: Fetch, wanted: Json)
    requires a.Update?
  {
    (a.payload.Some? <==> read.Fetched?) &&
    (a.payload.Some? ==> SingleKeyUpdate(read.doc, a.payload.value, Key(a.setting), wanted))
  }

  lemma PayloadsAssignAppend(a: seq<Action>, b: seq<Action>, s: Setting, read: Fetch, wanted: Json)
    requires PayloadsAssign(a, s, read, wanted) && PayloadsAssign(b, s, read, wanted)
    ensures PayloadsAssign(a + b, s, read, wanted)
  {
    forall k | 0 <= k < |a + b| && (a + b)[k].Update? && (a + b)[k].setting == s
      ensures PayloadAssigns((a + b)[k], read, wanted)
    {
      if k < |a| {
        assert (a + b)[k] == a[k];
      } else {
        assert (a + b)[k] == b[k - |a|];
      }
    }
  }

  // ------------------------------------------------------ one setting

  /**
   * What check says about one setting whose value in the preferences was
   * current and which the cycle wanted to be wanted.
   */
  predicate Reports(check: Check, s: Setting, current: Json, wanted: Json, read: Fetch, posted: bool, recheck: Fetch) {
    && (check == Unchanged <==> wanted == current)
    && (check == UpdateFailed <==> wanted != current && (read.FetchFailed? || !posted))
    && (check == RecheckFailed <==> wanted != current && read.Fetched? && posted && CurrentPreferences(recheck).Err?)
    && (check == Confirmed <==>
          wanted != current && read.Fetched? && posted && CurrentPreferences(recheck).Ok? &&
          Current(CurrentPreferences(recheck).value, s) == wanted)
  }

  /**
   * The actions of one setting's block: none when the setting already holds
   * the wanted value; otherwise the update, whose payload is the read document
   * with the setting's key assigned (None when that read failed), followed by
   * the check of the update when the update returned without error.
   */
  function SettingActs(s: Setting, current: Json, wanted: Json, read: Fetch, posted: bool): seq<Action> {
    if wanted == current then []
    else
      var update := Update(s, if read.Fetched? then Some(read.doc[Key(s) := wanted]) else None);
      if read.Fetched? && posted then [update, Verify(s)] else [update]
  }

  /**
   * A setting's block only touches that setting, starts with its update,
   * updates it exactly when it differs, checks exactly an update that posted,
   * and posts the read document with only the setting's key changed.
   */
  lemma SettingActsShape(s: Setting, current: Json, wanted: Json, read: Fetch, posted: bool)
    ensures var acts := SettingActs(s, current, wanted, read, posted);
            && (forall k :: 0 <= k < |acts| ==> (acts[k].Update? || acts[k].Verify?) && acts[k].setting == s)
            && (acts != [] ==> acts[0].Update?)
            && Updates(acts, s) == (if wanted != current then 1 else 0)
            && Verifies(acts, s) == (if wanted != current && read.Fetched? && posted then 1 else 0)
            && VerifyFollowsPostedUpdate(acts)
            && PayloadsAssign(acts, s, read, wanted)
  {
    if wanted != current {
      var payload := if read.Fetched? then Some(read.doc[Key(s) := wanted]) else None;
      var update := Update(s, payload);
      if read.Fetched? {
        SingleKeyUpdateIsAssignment(read.doc, payload.value, Key(s), wanted);
      }
      CountsOfOne(update, s);
      if read.Fetched? && posted {
        CountsOfOne(Verify(s), s);
        CountsAppend([update], [Verify(s)], s);
        assert [update] + [Verify(s)] == [update, Verify(s)];
      }
    }
  }

  /**
   * The block of the cycle for one setting (main.go:115-132 for the port,
   * 134-151 for the address): update only when the wanted value differs from
   * the current one, and check a successful update by reading the preferences
   * back once.
   */
  method ReconcileSetting(s: Setting, snap: Snapshot, port: nat, ip: string, read: Fetch, posted: bool, recheck: Fetch)
    returns (acts: seq<Action>, check: Check)
    ensures acts == SettingActs(s, Current(snap, s), Wanted(s, port, ip), read, posted)
    ensures forall k :: 0 <= k < |acts| ==> (acts[k].Update? || acts[k].Verify?) && acts[k].setting == s
    ensures acts != [] ==> acts[0].Update?
    ensures Updates(acts, s) == if Wanted(s, port, ip) != Current(snap, s) then 1 else 0
    ensures Verifies(acts, s) == if Wanted(s, port, ip) != Current(snap, s) && read.Fetched? && posted then 1 else 0
    ensures VerifyFollowsPostedUpdate(acts)
    ensures PayloadsAssign(acts, s, read, Wanted(s, port, ip))
    ensures Reports(check, s, Current(snap, s), Wanted(s, port, ip), read, posted, recheck)
  {
    var wanted := Wanted(s, port, ip);
    SettingActsShape(s, Current(snap, s), wanted, read, posted);
    if wanted == Current(snap, s) {
      return [], Unchanged;
    }
    var payload, ok;
    match s {
      case AnnouncePort =>
        payload, ok := UpdateAnnouncePort(port, read, posted);
      case AnnounceIP =>
        payload, ok := UpdateAnnounceIP(ip, read, posted);
    }
    if payload.Some? {
      SingleKeyUpdateIsAssignment(read.doc, payload.value, Key(s), wanted);
    }
    acts := [Update(s, payload)];
    if !ok {
      check := UpdateFailed;
      return;
    }
    acts := acts + [Verify(s)];
    var again := CurrentPreferences(recheck);
    if again.Err? {
      check := RecheckFailed;
    } else if Current(again.value, s) == wanted {
      check := Confirmed;
    } else {
      check := Unconfirmed;
    }
  }

  // ------------------------------------------------------ the cycle

  /** What the first half of a cycle learns: the current preferences and the parsed ports and address. */
  datatype Observed = Observed(snap: Snapshot, tcpPort: nat, udpPort: nat, ip: string)

  /**
   * The first half of `doMainLoopWork` (main.go:70-105): read the preferences,
   * run `natpmpc` for TCP and then UDP, and parse the TCP port, the TCP
   * address and the UDP port, stopping at the first step that fails.
   */
  method Observe(gateway: string, fx: Effects) returns (actions: seq<Action>, r: Result<Observed, Step>)
    ensures r.Ok? <==> forall s :: !StepFails(fx, s)
    ensures r.Err? ==> StepFails(fx, r.error) && forall s :: Order(s) < Order(r.error) ==> !StepFails(fx, s)
    ensures r == Err(ReadPreferences) ==> actions == [FetchPreferences]
    ensures r != Err(ReadPreferences) ==>
              CurrentPreferences(fx.prefs).Ok? &&
              var listen := CurrentPreferences(fx.prefs).value.listenPort;
              actions == [FetchPreferences, Probe(gateway, listen, TCP)] +
                         (if r == Err(MapTCP) then [] else [Probe(gateway, listen, UDP)])
    ensures r.Ok? ==>
              && actions == [FetchPreferences, Probe(gateway, r.value.snap.listenPort, TCP),
                             Probe(gateway, r.value.snap.listenPort, UDP)]
              && Ok(r.value.snap) == CurrentPreferences(fx.prefs)
              && Ok(r.value.tcpPort) == ParsePublicPort(fx.tcp.output)
              && Ok(r.value.ip) == ParsePublicIP(fx.tcp.output)
              && Ok(r.value.udpPort) == ParsePublicPort(fx.udp.output)
  {
    actions := [FetchPreferences];
    var current := CurrentPreferences(fx.prefs);
    if current.Err? {
      assert StepFails(fx, ReadPreferences);
      return actions, Err(ReadPreferences);
    }
    var snap := current.value;

    actions := actions + [Probe(gateway, snap.listenPort, TCP)];
    if fx.tcp.Failed? {
      assert StepFails(fx, MapTCP);
      return actions, Err(MapTCP);
    }
    actions := actions + [Probe(gateway, snap.listenPort, UDP)];
    if fx.udp.Failed? {
      assert StepFails(fx, MapUDP);
      return actions, Err(MapUDP);
    }

    var tcpPort := ParsePublicPort(fx.tcp.output);
    if tcpPort.Err? {
      assert StepFails(fx, ParseTCPPort);
      return actions, Err(ParseTCPPort);
    }
    var tcpIP := ParsePublicIP(fx.tcp.output);
    if tcpIP.Err? {
      assert StepFails(fx, ParseTCPIP);
      return actions, Err(ParseTCPIP);
    }
    var udpPort := ParsePublicPort(fx.udp.output);
    if udpPort.Err? {
      assert StepFails(fx, ParseUDPPort);
      return actions, Err(ParseUDPPort);
    }
    r := Ok(Observed(snap, tcpPort.value, udpPort.value, tcpIP.value));
  }

  /**
   * The second half of `doMainLoopWork` (main.go:107-151): the UDP port wins
   * over the TCP one, a disagreement only being warned about, and then the
   * port and the address are each brought into line; the address is handled
   * whatever became of the port.
   */
  method Reconcile(o: Observed, fx: Effects) returns (acts: seq<Action>, end: End)
    ensures end.Finished? && end.publicPort == o.udpPort && end.publicIP == o.ip
    ensures end.portsDisagree <==> o.tcpPort != o.udpPort
    ensures acts == SettingActs(AnnouncePort, JNumber(o.snap.announcePort), JNumber(o.udpPort), fx.portRead, fx.portPosted) +
                    SettingActs(AnnounceIP, JString(o.snap.announceIP), JString(o.ip), fx.ipRead, fx.ipPosted)
    ensures forall k :: 0 <= k < |acts| ==> acts[k].Update? || acts[k].Verify?
    ensures acts != [] ==> acts[0].Update?
    ensures Updates(acts, AnnouncePort) == if o.udpPort != o.snap.announcePort then 1 else 0
    ensures Updates(acts, AnnounceIP) == if o.ip != o.snap.announceIP then 1 else 0
    ensures Verifies(acts, AnnouncePort) ==
              if o.udpPort != o.snap.announcePort && fx.portRead.Fetched? && fx.portPosted then 1 else 0
    ensures Verifies(acts, AnnounceIP) ==
              if o.ip != o.snap.announceIP && fx.ipRead.Fetched? && fx.ipPosted then 1 else 0
    ensures VerifyFollowsPostedUpdate(acts)
    ensures PayloadsAssign(acts, AnnouncePort, fx.portRead, JNumber(o.udpPort))
    ensures PayloadsAssign(acts, AnnounceIP, fx.ipRead, JString(o.ip))
    ensures Reports(end.port, AnnouncePort, JNumber(o.snap.announcePort), JNumber(o.udpPort),
                    fx.portRead, fx.portPosted, fx.portRecheck)
    ensures Reports(end.ip, AnnounceIP, JString(o.snap.announceIP), JString(o.ip),
                    fx.ipRead, fx.ipPosted, fx.ipRecheck)
  {
    var publicPort := o.tcpPort;
    var publicIP := o.ip;
    var disagree := false;
    if o.udpPort != o.tcpPort {
      disagree := true;
      publicPort := o.udpPort;
    }

    var portActs, portCheck := ReconcileSetting(AnnouncePort, o.snap, publicPort, publicIP,
                                                fx.portRead, fx.portPosted, fx.portRecheck);
    var ipActs, ipCheck := ReconcileSetting(AnnounceIP, o.snap, publicPort, publicIP,
                                            fx.ipRead, fx.ipPosted, fx.ipRecheck);
    acts := portActs + ipActs;
    end := Finished(disagree, publicPort, publicIP, portCheck, ipCheck);

    SettingCounts(portActs, ipActs);
    PayloadsAssignAppend(portActs, ipActs, AnnouncePort, fx.portRead, JNumber(publicPort));
    PayloadsAssignAppend(portActs, ipActs, AnnounceIP, fx.ipRead, JString(publicIP));
    VerifyFollowsPostedUpdateAppend(portActs, ipActs);
  }

  /**
   * `doMainLoopWork` on the given effects. It stops at the first step that
   * fails, in the order of Step, before any update; otherwise the published
   * port is the UDP one (the ports disagreeing only causes a warning), the
   * published address is the TCP one, and each setting is updated exactly when
   * it differs, the address whatever became of the port.
   */
  method DoMainLoopWork(gateway: string, fx: Effects) returns (actions: seq<Action>, end: End)
    ensures end.Finished? <==> forall s :: !StepFails(fx, s)
    ensures end.Aborted? ==> StepFails(fx, end.at) && forall s :: Order(s) < Order(end.at) ==> !StepFails(fx, s)
    ensures end.Aborted? ==> forall k :: 0 <= k < |actions| ==> !actions[k].Update? && !actions[k].Verify?
    ensures end == Aborted(ReadPreferences) ==> actions == [FetchPreferences]
    ensures end.Aborted? && end.at != ReadPreferences ==>
              CurrentPreferences(fx.prefs).Ok? &&
              var listen := CurrentPreferences(fx.prefs).value.listenPort;
              actions == [FetchPreferences, Probe(gateway, listen, TCP)] +
                         (if end.at == MapTCP then [] else [Probe(gateway, listen, UDP)])
    ensures end.Finished? ==>
              CurrentPreferences(fx.prefs).Ok? && ParsePublicPort(fx.tcp.output).Ok? &&
              ParsePublicIP(fx.tcp.output).Ok? && ParsePublicPort(fx.udp.output).Ok?
    ensures end.Finished? ==>
              var snap := CurrentPreferences(fx.prefs).value;
              var tcpPort := ParsePublicPort(fx.tcp.output).value;
              var udpPort := ParsePublicPort(fx.udp.output).value;
              var ip := ParsePublicIP(fx.tcp.output).value;
              && end.publicPort == udpPort
              && end.publicIP == ip
              && (end.portsDisagree <==> tcpPort != udpPort)
              && actions == [FetchPreferences, Probe(gateway, snap.listenPort, TCP), Probe(gateway, snap.listenPort, UDP)] +
                            (SettingActs(AnnouncePort, JNumber(snap.announcePort), JNumber(udpPort), fx.portRead, fx.portPosted) +
                             SettingActs(AnnounceIP, JString(snap.announceIP), JString(ip), fx.ipRead, fx.ipPosted))
              && Updates(actions, AnnouncePort) == (if udpPort != snap.announcePort then 1 else 0)
              && Updates(actions, AnnounceIP) == (if ip != snap.announceIP then 1 else 0)
              && Verifies(actions, AnnouncePort) ==
                   (if udpPort != snap.announcePort && fx.portRead.Fetched? && fx.portPosted then 1 else 0)
              && Verifies(actions, AnnounceIP) ==
                   (if ip != snap.announceIP && fx.ipRead.Fetched? && fx.ipPosted then 1 else 0)
              && PayloadsAssign(actions, AnnouncePort, fx.portRead, JNumber(udpPort))
              && PayloadsAssign(actions, AnnounceIP, fx.ipRead, JString(ip))
              && Reports(end.port, AnnouncePort, JNumber(snap.announcePort), JNumber(udpPort),
                         fx.portRead, fx.portPosted, fx.portRecheck)
              && Reports(end.ip, AnnounceIP, JString(snap.announceIP), JString(ip),
                         fx.ipRead, fx.ipPosted, fx.ipRecheck)
    ensures VerifyFollowsPostedUpdate(actions)
  {
    var observed;
    actions, observed := Observe(gateway, fx);
    NoUpdatesBeforeReconciling(gateway, fx, if observed.Err? then observed.error else ParseUDPPort, actions);
    if observed.Err? {
      end := Aborted(observed.error);
      return;
    }
    var probes := actions;
    var acts;
    acts, end := Reconcile(observed.value, fx);
    actions := probes + acts;
    FinishedCycle(gateway, fx, observed.value, probes, acts, end);
  }

  /** The two halves of a cycle that runs to the end, stated over the effects. */
  lemma FinishedCycle(gateway: string, fx: Effects, o: Observed, probes: seq<Action>, acts: seq<Action>, end: End)
    requires Ok(o.snap) == CurrentPreferences(fx.prefs) && Ok(o.tcpPort) == ParsePublicPort(fx.tcp.output)
    requires Ok(o.ip) == ParsePublicIP(fx.tcp.output) && Ok(o.udpPort) == ParsePublicPort(fx.udp.output)
    requires probes == [FetchPreferences, Probe(gateway, o.snap.listenPort, TCP), Probe(gateway, o.snap.listenPort, UDP)]
    requires forall k :: 0 <= k < |probes| ==> !probes[k].Update? && !probes[k].Verify?
    requires VerifyFollowsPostedUpdate(probes)
    requires end.Finished? && end.publicPort == o.udpPort && end.publicIP == o.ip
    requires end.portsDisagree <==> o.tcpPort != o.udpPort
    requires acts == SettingActs(AnnouncePort, JNumber(o.snap.announcePort), JNumber(o.udpPort), fx.portRead, fx.portPosted) +
                     SettingActs(AnnounceIP, JString(o.snap.announceIP), JString(o.ip), fx.ipRead, fx.ipPosted)
    requires acts != [] ==> acts[0].Update?
    requires Updates(acts, AnnouncePort) == if o.udpPort != o.snap.announcePort then 1 else 0
    requires Updates(acts, AnnounceIP) == if o.ip != o.snap.announceIP then 1 else 0
    requires Verifies(acts, AnnouncePort) ==
               if o.udpPort != o.snap.announcePort && fx.portRead.Fetched? && fx.portPosted then 1 else 0
    requires Verifies(acts, AnnounceIP) ==
               if o.ip != o.snap.announceIP && fx.ipRead.Fetched? && fx.ipPosted then 1 else 0
    requires VerifyFollowsPostedUpdate(acts)
    requires PayloadsAssign(acts, AnnouncePort, fx.portRead, JNumber(o.udpPort))
    requires PayloadsAssign(acts, AnnounceIP, fx.ipRead, JString(o.ip))
    requires Reports(end.port, AnnouncePort, JNumber(o.snap.announcePort), JNumber(o.udpPort),
                     fx.portRead, fx.portPosted, fx.portRecheck)
    requires Reports(end.ip, AnnounceIP, JString(o.snap.announceIP), JString(o.ip),
                     fx.ipRead, fx.ipPosted, fx.ipRecheck)
    ensures CurrentPreferences(fx.prefs).Ok? && ParsePublicPort(fx.tcp.output).Ok? &&
            ParsePublicIP(fx.tcp.output).Ok? && ParsePublicPort(fx.udp.output).Ok?
    ensures var snap := CurrentPreferences(fx.prefs).value;
            var tcpPort := ParsePublicPort(fx.tcp.output).value;
            var udpPort := ParsePublicPort(fx.udp.output).value;
            var ip := ParsePublicIP(fx.tcp.output).value;
            var actions := probes + acts;
            && end.publicPort == udpPort
            && end.publicIP == ip
            && (end.portsDisagree <==> tcpPort != udpPort)
            && actions == [FetchPreferences, Probe(gateway, snap.listenPort, TCP), Probe(gateway, snap.listenPort, UDP)] +
                          (SettingActs(AnnouncePort, JNumber(snap.announcePort), JNumber(udpPort), fx.portRead, fx.portPosted) +
                           SettingActs(AnnounceIP, JString(snap.announceIP), JString(ip), fx.ipRead, fx.ipPosted))
            && Updates(actions, AnnouncePort) == (if udpPort != snap.announcePort then 1 else 0)
            && Updates(actions, AnnounceIP) == (if ip != snap.announceIP then 1 else 0)
            && Verifies(actions, AnnouncePort) ==
                 (if udpPort != snap.announcePort && fx.portRead.Fetched? && fx.portPosted then 1 else 0)
            && Verifies(actions, AnnounceIP) ==
                 (if ip != snap.announceIP && fx.ipRead.Fetched? && fx.ipPosted then 1 else 0)
            && PayloadsAssign(actions, AnnouncePort, fx.portRead, JNumber(udpPort))
            && PayloadsAssign(actions, AnnounceIP, fx.ipRead, JString(ip))
            && Reports(end.port, AnnouncePort, JNumber(snap.announcePort), JNumber(udpPort),
                       fx.portRead, fx.portPosted, fx.portRecheck)
            && Reports(end.ip, AnnounceIP, JString(snap.announceIP), JString(ip),
                       fx.ipRead, fx.ipPosted, fx.ipRecheck)
    ensures VerifyFollowsPostedUpdate(probes + acts)
  {
    CountsAfterProbes(probes, acts, fx, o.udpPort, o.ip);
    VerifyFollowsPostedUpdateAppend(probes, acts);
  }

  /** The actions of a cycle up to step s are reads and runs of `natpmpc` only. */
  lemma NoUpdatesBeforeReconciling(gateway: string, fx: Effects, s: Step, actions: seq<Action>)
    requires s == ReadPreferences ==> actions == [FetchPreferences]
    requires s != ReadPreferences ==>
               CurrentPreferences(fx.prefs).Ok? &&
               var listen := CurrentPreferences(fx.prefs).value.listenPort;
               actions == [FetchPreferences, Probe(gateway, listen, TCP)] +
                          (if s == MapTCP then [] else [Probe(gateway, listen, UDP)])
    ensures forall k :: 0 <= k < |actions| ==> !actions[k].Update? && !actions[k].Verify?
    ensures VerifyFollowsPostedUpdate(actions)
  {
  }

  /** Counts over the two settings' blocks, each of which only touches its own setting. */
  lemma SettingCounts(portActs: seq<Action>, ipActs: seq<Action>)
    requires forall k :: 0 <= k < |portActs| ==> (portActs[k].Update? || portActs[k].Verify?) && portActs[k].setting == AnnouncePort
    requires forall k :: 0 <= k < |ipActs| ==> (ipActs[k].Update? || ipActs[k].Verify?) && ipActs[k].setting == AnnounceIP
    ensures Updates(portActs + ipActs, AnnouncePort) == Updates(portActs, AnnouncePort)
    ensures Verifies(portActs + ipActs, AnnouncePort) == Verifies(portActs, AnnouncePort)
    ensures Updates(portActs + ipActs, AnnounceIP) == Updates(ipActs, AnnounceIP)
    ensures Verifies(portActs + ipActs, AnnounceIP) == Verifies(ipActs, AnnounceIP)
  {
    CountsAppend(portActs, ipActs, AnnouncePort);
    CountsAppend(portActs, ipActs, AnnounceIP);
    CountsOfOtherSetting(ipActs, AnnouncePort, AnnounceIP);
    CountsOfOtherSetting(portActs, AnnounceIP, AnnouncePort);
  }

  /** Reads and runs of `natpmpc` before the updates change no count and no payload. */
  lemma CountsAfterProbes(probes: seq<Action>, acts: seq<Action>, fx: Effects, port: nat, ip: string)
    requires forall k :: 0 <= k < |probes| ==> !probes[k].Update? && !probes[k].Verify?
    requires PayloadsAssign(acts, AnnouncePort, fx.portRead, JNumber(port))
    requires PayloadsAssign(acts, AnnounceIP, fx.ipRead, JString(ip))
    ensures Updates(probes + acts, AnnouncePort) == Updates(acts, AnnouncePort)
    ensures Verifies(probes + acts, AnnouncePort) == Verifies(acts, AnnouncePort)
    ensures Updates(probes + acts, AnnounceIP) == Updates(acts, AnnounceIP)
    ensures Verifies(probes + acts, AnnounceIP) == Verifies(acts, AnnounceIP)
    ensures PayloadsAssign(probes + acts, AnnouncePort, fx.portRead, JNumber(port))
    ensures PayloadsAssign(probes + acts, AnnounceIP, fx.ipRead, JString(ip))
  {
    CountsAppend(probes, acts, AnnouncePort);
    CountsWithoutUpdates(probes, AnnouncePort);
    CountsAppend(probes, acts, AnnounceIP);
    CountsWithoutUpdates(probes, AnnounceIP);
    PayloadsAssignAppend(probes, acts, AnnouncePort, fx.portRead, JNumber(port));
    PayloadsAssignAppend(probes, acts, AnnounceIP, fx.ipRead, JString(ip));
  }
}
