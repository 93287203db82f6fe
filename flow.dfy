/**
 * The flow offload library's lifecycle: ports own pipes, pipes own entries,
 * destruction cascades down that ownership tree, control pipes hold a
 * bounded number of entries, and the aging sweep reports idle entries to the
 * caller a bounded amount of work at a time.
 *
 * Packet matching, header rewriting and metering happen in hardware and
 * are not modelled: pipes and entries keep their templates and rules as
 * data. Failures the hidden driver may report (out of memory, a template
 * that does not compile, a device error) are a `fault` parameter.
 */
module Flow {
  import opened Wrappers
  import opened FlowNet

  /** uint16_t port and queue identifiers. */
  type PortId = x: nat | x < 0x1_0000
  type QueueId = x: nat | x < 0x1_0000

  /** Host-order uint16_t, uint32_t and uint64_t fields. */
  type U16 = x: nat | x < 0x1_0000
  type U32 = x: nat | x < 0x1_0000_0000
  type U64 = x: nat | x < 0x1_0000_0000_0000_0000

  /**
   * An opaque pipe or entry handle, standing for the pointer the library returns. In this model a
   * handle is a number that is never reissued: every new one is at least `nextHandle`, which no call
   * lowers, and every live one is below it. A freed C pointer may be handed out again.
   */
  type Handle = nat

  // ---------------------------------------------------------------------
  // Errors

  /** enum doca_flow_error_type */
  datatype ErrorType =
    | ErrorUnknown
    | ErrorUnsupported
    | ErrorInvalidParam
    | ErrorPipeBuildItem
    | ErrorPipeModifyItem
    | ErrorPipeBuildAction
    | ErrorPipeModifyAction
    | ErrorPipeBuildFwd
    | ErrorFlowCreate
    | ErrorOom
    | ErrorPort

  // ---------------------------------------------------------------------
  // Configuration and templates

  datatype PortType = DpdkById

  datatype PortCfg = PortCfg(portId: PortId, portType: PortType, devargs: string, privDataSize: U16)

  /** enum doca_flow_match_flags */
  const MatchTcpFin: nat := 0

  datatype Match = Match(
    flags: U32,
    outSrcMac: MacAddr,
    outDstMac: MacAddr,
    outEthType: Be16,
    vlanId: Be16,
    outSrcIp: IpAddr,
    outDstIp: IpAddr,
    outL4Type: Byte,
    outSrcPort: Be16,
    outDstPort: Be16,
    tun: Tunnel,
    inEthType: Be16,
    inSrcIp: IpAddr,
    inDstIp: IpAddr,
    inL4Type: Byte,
    inSrcPort: Be16,
    inDstPort: Be16)

  datatype EncapAction = EncapAction(srcMac: MacAddr, dstMac: MacAddr, srcIp: IpAddr, dstIp: IpAddr, tun: Tunnel)

  /** `has_encap` and `encap` together are the optional encapsulation. */
  datatype Actions = Actions(
    decap: bool,
    modSrcMac: MacAddr,
    modDstMac: MacAddr,
    modSrcIp: IpAddr,
    modDstIp: IpAddr,
    modSrcPort: Be16,
    modDstPort: Be16,
    decTtl: bool,
    encap: Option<EncapAction>)

  /** enum doca_rss_type */
  const RssIp: nat := 1
  const RssUdp: nat := 2
  const RssTcp: nat := 4

  /** struct doca_flow_fwd: exactly one arm of the union is active. `num_of_queues` is the length of `rssQueues`. */
  datatype Fwd =
    | FwdNone
    | FwdRss(rssFlags: U32, rssQueues: seq<QueueId>, rssMark: U32)
    | FwdPort(portId: PortId)
    | FwdPipe(nextPipe: Handle)
    | FwdDrop

  /** enum doca_flow_fwd_type */
  const FwdTypeNone: nat := 0
  const FwdTypeRss: nat := 1
  const FwdTypePort: nat := 2
  const FwdTypePipe: nat := 3
  const FwdTypeDrop: nat := 4

  /** The tag of a forward: NONE, RSS, PORT, PIPE, DROP in declaration order. */
  function FwdType(f: Fwd): (code: nat)
    ensures code <= FwdTypeDrop
    ensures code == FwdTypeNone <==> f.FwdNone?
    ensures code == FwdTypeRss <==> f.FwdRss?
    ensures code == FwdTypePort <==> f.FwdPort?
    ensures code == FwdTypePipe <==> f.FwdPipe?
    ensures code == FwdTypeDrop <==> f.FwdDrop?
  {
    match f
    case FwdNone => FwdTypeNone
    case FwdRss(_, _, _) => FwdTypeRss
    case FwdPort(_) => FwdTypePort
    case FwdPipe(_) => FwdTypePipe
    case FwdDrop => FwdTypeDrop
  }

  /**
   * The raw form of struct doca_flow_fwd: the tag plus each arm's fields, kept apart here although
   * in C the arms of the union overlap in memory; only the arm the tag names is meaningful. The RSS
   * queues are the array `rssQueues` read up to `numOfQueues`.
   */
  datatype RawFwd = RawFwd(fwdType: nat, rssFlags: U32, rssQueues: seq<QueueId>, numOfQueues: int,
                           rssMark: U32, portId: PortId, nextPipe: Handle)

  function EncodeFwd(f: Fwd): (r: RawFwd)
    ensures r.fwdType == FwdType(f)
  {
    match f
    case FwdNone => RawFwd(FwdTypeNone, 0, [], 0, 0, 0, 0)
    case FwdRss(flags, queues, mark) => RawFwd(FwdTypeRss, flags, queues, |queues|, mark, 0, 0)
    case FwdPort(port) => RawFwd(FwdTypePort, 0, [], 0, 0, port, 0)
    case FwdPipe(next) => RawFwd(FwdTypePipe, 0, [], 0, 0, 0, next)
    case FwdDrop => RawFwd(FwdTypeDrop, 0, [], 0, 0, 0, 0)
  }

  /** A raw forward is well formed when its tag is a forward type and an RSS queue count fits its array. */
  predicate WellFormedFwd(r: RawFwd)
  {
    r.fwdType <= FwdTypeDrop && (r.fwdType == FwdTypeRss ==> 0 <= r.numOfQueues <= |r.rssQueues|)
  }

  function DecodeFwd(r: RawFwd): (f: Option<Fwd>)
    ensures f.Some? <==> WellFormedFwd(r)
    ensures f.Some? ==> FwdType(f.value) == r.fwdType
    ensures f.Some? && f.value.FwdRss? ==>
      f.value == FwdRss(r.rssFlags, r.rssQueues[..r.numOfQueues], r.rssMark)
    ensures f.Some? && f.value.FwdPort? ==> f.value.portId == r.portId
    ensures f.Some? && f.value.FwdPipe? ==> f.value.nextPipe == r.nextPipe
  {
    if r.fwdType == FwdTypeNone then Some(FwdNone)
    else if r.fwdType == FwdTypeRss then
      if 0 <= r.numOfQueues <= |r.rssQueues| then Some(FwdRss(r.rssFlags, r.rssQueues[..r.numOfQueues], r.rssMark))
      else None
    else if r.fwdType == FwdTypePort then Some(FwdPort(r.portId))
    else if r.fwdType == FwdTypePipe then Some(FwdPipe(r.nextPipe))
    else if r.fwdType == FwdTypeDrop then Some(FwdDrop)
    else None
  }

  lemma FwdRoundTrip(f: Fwd)
    ensures DecodeFwd(EncodeFwd(f)) == Some(f)
  {
    if f.FwdRss? {
      assert f.rssQueues[..|f.rssQueues|] == f.rssQueues;
    }
  }

  /** Fields outside the arm the tag names do not affect decoding. */
  lemma DecodeFwdReadsOnlyTaggedArm(r1: RawFwd, r2: RawFwd)
    requires r1.fwdType == r2.fwdType
    requires r1.fwdType == FwdTypeRss ==>
      && r1.rssFlags == r2.rssFlags && r1.rssMark == r2.rssMark && r1.numOfQueues == r2.numOfQueues
      && 0 <= r1.numOfQueues <= |r1.rssQueues| && 0 <= r1.numOfQueues <= |r2.rssQueues|
      && r1.rssQueues[..r1.numOfQueues] == r2.rssQueues[..r1.numOfQueues]
    requires r1.fwdType == FwdTypePort ==> r1.portId == r2.portId
    requires r1.fwdType == FwdTypePipe ==> r1.nextPipe == r2.nextPipe
    ensures DecodeFwd(r1) == DecodeFwd(r2)
  {
  }

  /** Monitor flags. */
  const MonitorNone: bv8 := 0
  const MonitorMeter: bv8 := 2
  const MonitorCount: bv8 := 4
  const MonitorAging: bv8 := 8

  /** struct doca_flow_monitor; an absent `userData` means the caller gave no aging context. */
  datatype Monitor = Monitor(flags: bv8, meterId: U32, cir: U64, cbs: U64, aging: U32, userData: Option<U64>)

  predicate AgingEnabled(m: Option<Monitor>)
  {
    m.Some? && m.value.flags & MonitorAging != 0
  }

  predicate CountEnabled(m: Option<Monitor>)
  {
    m.Some? && m.value.flags & MonitorCount != 0
  }

  datatype PipeCfg = PipeCfg(
    name: string,
    port: PortId,
    isRoot: bool,
    matcher: Option<Match>,
    matchMask: Option<Match>,
    actions: Option<Actions>,
    monitor: Option<Monitor>)

  /** A control pipe is capacity-bounded: it always holds fewer than this many entries. */
  const ControlPipeMaxEntries: nat := 64

  // ---------------------------------------------------------------------
  // Live state

  datatype PortState = PortState(cfg: PortCfg, started: bool)

  datatype PipeKind =
    | Basic(cfg: PipeCfg, fwd: Option<Fwd>, fwdMiss: Option<Fwd>)
    | Control

  datatype PipeState = PipeState(port: PortId, kind: PipeKind)

  datatype EntryRule =
    | PipeRule(matcher: Match, actions: Option<Actions>, fwd: Option<Fwd>)
    | ControlRule(priority: Byte, matcher: Match, matchMask: Match, fwd: Option<Fwd>)

  /** struct doca_flow_query */
  datatype QueryStats = QueryStats(totalBytes: nat, totalPkts: nat)

  /** `monitor` is the entry's effective monitor: the pipe's when the pipe defines one, otherwise the entry's own. */
  datatype EntryState = EntryState(pipe: Handle, queue: QueueId, rule: EntryRule, monitor: Option<Monitor>, stats: QueryStats)

  /** struct doca_flow_aged_query */
  datatype AgedQuery = AgedQuery(userData: nat)

  /** The monitor an entry runs with: the pipe's when the pipe defines one, otherwise the entry's own. */
  function EffectiveMonitor(pipeMonitor: Option<Monitor>, entryMonitor: Option<Monitor>): Option<Monitor>
  {
    if pipeMonitor.Some? then pipeMonitor else entryMonitor
  }

  /** The flow library's state after initialisation. */
  class FlowEngine {
    var ports: map<PortId, PortState>
    var pipes: map<Handle, PipeState>
    var entries: map<Handle, EntryState>
    /** Entries whose aging is still tracked: live, aging-enabled, not yet reported. */
    var aging: set<Handle>
    /** Tracked entries the current aging cycle of their queue has already examined. */
    var swept: set<Handle>
    var nextHandle: nat

    /** The entries a pipe owns. */
    function EntriesOf(p: Handle): set<Handle>
      reads this
    {
      EntriesIn(entries, p)
    }

    /** The pipes a port owns. */
    function PipesOf(port: PortId): set<Handle>
      reads this
    {
      set p | p in pipes && pipes[p].port == port
    }

    /** Tracked entries of a queue that its current aging cycle has not yet examined. */
    function Unswept(queue: QueueId): set<Handle>
      reads this
    {
      UnsweptIn(aging, swept, entries, queue)
    }

    /** Tracked entries of a queue. */
    function TrackedOn(queue: QueueId): set<Handle>
      reads this
    {
      UnsweptIn(aging, {}, entries, queue)
    }

    ghost predicate Valid()
      reads this
    {
      OwnershipValid(ports, pipes, entries, nextHandle) && AgingValid(entries, aging, swept) && CountersValid(entries)
    }

    /** Traffic reaches an entry only while the port owning its pipe is started. */
    function CarriesTraffic(e: Handle): bool
      requires e in entries
      reads this
    {
      var p := entries[e].pipe;
      p in pipes && pipes[p].port in ports && ports[pipes[p].port].started
    }

    /** The aging context reported for an entry: the user's, otherwise the entry handle itself. */
    function UserDataOf(e: Handle): nat
      requires e in entries
      reads this
    {
      AgedUserData(entries, e)
    }

    constructor ()
      ensures Valid()
      ensures ports == map[] && pipes == map[] && entries == map[]
      ensures aging == {} && swept == {}
    {
      ports, pipes, entries := map[], map[], map[];
      aging, swept := {}, {};
      nextHandle := 0;
    }

    /** doca_flow_port_start */
    method PortStart(cfg: PortCfg, fault: Option<ErrorType>) returns (r: Result<PortId, ErrorType>)
      requires Valid()
      modifies this
      ensures Valid()
      ensures r.Ok? <==> cfg.portId !in old(ports) && fault.None?
      ensures r.Ok? ==> r.value == cfg.portId && ports == old(ports)[cfg.portId := PortState(cfg, true)]
      ensures r.Err? ==> ports == old(ports)
      ensures r.Err? && cfg.portId in old(ports) ==> r.error == ErrorInvalidParam
      ensures r.Err? && cfg.portId !in old(ports) ==> r.error == fault.value
      ensures pipes == old(pipes) && entries == old(entries)
      ensures aging == old(aging) && swept == old(swept) && nextHandle == old(nextHandle)
    {
      if cfg.portId in ports {
        return Err(ErrorInvalidParam);
      }
      if fault.Some? {
        return Err(fault.value);
      }
      ports := ports[cfg.portId := PortState(cfg, true)];
      r := Ok(cfg.portId);
    }

    /** doca_flow_port_stop: traffic stops, the port keeps its pipes and entries. */
    method PortStop(port: PortId) returns (rc: int)
      requires Valid()
      modifies this
      ensures Valid()
      ensures rc == 0 <==> port in old(ports)
      ensures rc != 0 ==> rc < 0 && ports == old(ports)
      ensures rc == 0 ==> ports == old(ports)[port := old(ports)[port].(started := false)]
      ensures rc == 0 ==> forall e :: e in entries && entries[e].pipe in pipes && pipes[entries[e].pipe].port == port ==> !CarriesTraffic(e)
      ensures pipes == old(pipes) && entries == old(entries)
      ensures aging == old(aging) && swept == old(swept) && nextHandle == old(nextHandle)
    {
      if port !in ports {
        return -1;
      }
      ports := ports[port := ports[port].(started := false)];
      rc := 0;
    }

    /** doca_flow_create_pipe */
    method CreatePipe(cfg: PipeCfg, fwd: Option<Fwd>, fwdMiss: Option<Fwd>, fault: Option<ErrorType>)
      returns (r: Result<Handle, ErrorType>)
      requires Valid()
      modifies this
      ensures Valid()
      ensures r.Ok? <==> cfg.port in old(ports) && fault.None?
      ensures r.Ok? ==> r.value !in old(pipes) && r.value !in old(entries) && r.value >= old(nextHandle)
      ensures r.Ok? ==> pipes == old(pipes)[r.value := PipeState(cfg.port, Basic(cfg, fwd, fwdMiss))]
      ensures r.Err? ==> pipes == old(pipes)
      ensures r.Err? && cfg.port !in old(ports) ==> r.error == ErrorInvalidParam
      ensures r.Err? && cfg.port in old(ports) ==> r.error == fault.value
      ensures ports == old(ports) && entries == old(entries)
      ensures aging == old(aging) && swept == old(swept) && nextHandle >= old(nextHandle)
    {
      if cfg.port !in ports {
        return Err(ErrorInvalidParam);
      }
      if fault.Some? {
        return Err(fault.value);
      }
      var h := nextHandle;
      assert h !in pipes;
      pipes := pipes[h := PipeState(cfg.port, Basic(cfg, fwd, fwdMiss))];
      nextHandle := nextHandle + 1;
      assert forall p :: p in old(pipes) ==> EntriesOf(p) == old(EntriesOf(p));
      assert EntriesOf(h) == {};
      r := Ok(h);
    }

    /** doca_flow_create_control_pipe */
    method CreateControlPipe(port: PortId, fault: Option<ErrorType>) returns (r: Result<Handle, ErrorType>)
      requires Valid()
      modifies this
      ensures Valid()
      ensures r.Ok? <==> port in old(ports) && fault.None?
      ensures r.Ok? ==> r.value !in old(pipes) && r.value !in old(entries) && r.value >= old(nextHandle)
      ensures r.Ok? ==> pipes == old(pipes)[r.value := PipeState(port, Control)] && EntriesOf(r.value) == {}
      ensures r.Err? ==> pipes == old(pipes)
      ensures r.Err? && port !in old(ports) ==> r.error == ErrorInvalidParam
      ensures r.Err? && port in old(ports) ==> r.error == fault.value
      ensures ports == old(ports) && entries == old(entries)
      ensures aging == old(aging) && swept == old(swept) && nextHandle >= old(nextHandle)
    {
      if port !in ports {
        return Err(ErrorInvalidParam);
      }
      if fault.Some? {
        return Err(fault.value);
      }
      var h := nextHandle;
      assert h !in pipes;
      pipes := pipes[h := PipeState(port, Control)];
      nextHandle := nextHandle + 1;
      assert forall p :: p in old(pipes) ==> EntriesOf(p) == old(EntriesOf(p));
      assert EntriesOf(h) == {};
      r := Ok(h);
    }

    /** doca_flow_pipe_add_entry: entries of an ordinary pipe; a control pipe takes entries only with a priority. */
    method PipeAddEntry(queue: QueueId, pipe: Handle, matcher: Match, actions: Option<Actions>,
                        monitor: Option<Monitor>, fwd: Option<Fwd>, fault: Option<ErrorType>)
      returns (r: Result<Handle, ErrorType>)
      requires Valid()
      modifies this
      ensures Valid()
      ensures r.Ok? <==> pipe in old(pipes) && old(pipes)[pipe].kind.Basic? && fault.None?
      ensures r.Ok? ==> r.value !in old(entries) && r.value !in old(pipes) && r.value >= old(nextHandle)
      ensures r.Ok? ==>
        var m := EffectiveMonitor(old(pipes)[pipe].kind.cfg.monitor, monitor);
        && entries == old(entries)[r.value := EntryState(pipe, queue, PipeRule(matcher, actions, fwd), m, QueryStats(0, 0))]
        && aging == (if AgingEnabled(m) then old(aging) + {r.value} else old(aging))
      ensures r.Err? ==> entries == old(entries) && aging == old(aging)
      ensures r.Err? && pipe !in old(pipes) ==> r.error == ErrorInvalidParam
      ensures r.Err? && pipe in old(pipes) && old(pipes)[pipe].kind.Control? ==> r.error == ErrorUnsupported
      ensures r.Err? && pipe in old(pipes) && old(pipes)[pipe].kind.Basic? ==> r.error == fault.value
      ensures ports == old(ports) && pipes == old(pipes) && swept == old(swept) && nextHandle >= old(nextHandle)
    {
      if pipe !in pipes {
        return Err(ErrorInvalidParam);
      }
      if pipes[pipe].kind.Control? {
        return Err(ErrorUnsupported);
      }
      if fault.Some? {
        return Err(fault.value);
      }
      var m := EffectiveMonitor(pipes[pipe].kind.cfg.monitor, monitor);
      var h := nextHandle;
      assert h !in entries;
      entries := entries[h := EntryState(pipe, queue, PipeRule(matcher, actions, fwd), m, QueryStats(0, 0))];
      nextHandle := nextHandle + 1;
      if AgingEnabled(m) {
        aging := aging + {h};
      }
      assert forall p :: p in pipes && p != pipe ==> EntriesOf(p) == old(EntriesOf(p));
      r := Ok(h);
    }

    /** doca_flow_control_pipe_add_entry: refused once the pipe already holds its maximum, keeping every entry it has. */
    method ControlPipeAddEntry(queue: QueueId, priority: Byte, pipe: Handle, matcher: Match, matchMask: Match,
                               fwd: Option<Fwd>, fault: Option<ErrorType>)
      returns (r: Result<Handle, ErrorType>)
      requires Valid()
      modifies this
      ensures Valid()
      ensures r.Ok? <==>
        && pipe in old(pipes) && old(pipes)[pipe].kind.Control?
        && |old(EntriesOf(pipe))| < ControlPipeMaxEntries - 1
        && fault.None?
      ensures r.Ok? ==> r.value !in old(entries) && r.value !in old(pipes) && r.value >= old(nextHandle)
      ensures r.Ok? ==> entries == old(entries)[r.value := EntryState(pipe, queue, ControlRule(priority, matcher, matchMask, fwd), None, QueryStats(0, 0))]
      ensures r.Ok? ==> EntriesOf(pipe) == old(EntriesOf(pipe)) + {r.value}
      ensures r.Err? ==> entries == old(entries)
      ensures r.Err? && pipe !in old(pipes) ==> r.error == ErrorInvalidParam
      ensures r.Err? && pipe in old(pipes) && old(pipes)[pipe].kind.Basic? ==> r.error == ErrorUnsupported
      ensures r.Err? && pipe in old(pipes) && old(pipes)[pipe].kind.Control? ==>
        r.error == if |old(EntriesOf(pipe))| >= ControlPipeMaxEntries - 1 then ErrorFlowCreate else fault.value
      ensures ports == old(ports) && pipes == old(pipes) && aging == old(aging) && swept == old(swept)
      ensures nextHandle >= old(nextHandle)
    {
      if pipe !in pipes {
        return Err(ErrorInvalidParam);
      }
      if pipes[pipe].kind.Basic? {
        return Err(ErrorUnsupported);
      }
      if |EntriesOf(pipe)| >= ControlPipeMaxEntries - 1 {
        return Err(ErrorFlowCreate);
      }
      if fault.Some? {
        return Err(fault.value);
      }
      var h := nextHandle;
      assert h !in entries;
      entries := entries[h := EntryState(pipe, queue, ControlRule(priority, matcher, matchMask, fwd), None, QueryStats(0, 0))];
      nextHandle := nextHandle + 1;
      assert EntriesOf(pipe) == old(EntriesOf(pipe)) + {h};
      assert forall p :: p in pipes && p != pipe ==> EntriesOf(p) == old(EntriesOf(p));
      r := Ok(h);
    }

    /** doca_flow_pipe_rm_entry: frees exactly the given entry; an aged entry is still live until this call. */
    method PipeRmEntry(queue: QueueId, entry: Handle) returns (rc: int)
      requires Valid()
      modifies this
      ensures Valid()
      ensures rc == 0 <==> entry in old(entries)
      ensures rc != 0 ==> rc < 0
      ensures entries == old(entries) - {entry}
      ensures aging == old(aging) - {entry} && swept == old(swept) - {entry}
      ensures ports == old(ports) && pipes == old(pipes) && nextHandle == old(nextHandle)
    {
      if entry !in entries {
        return -1;
      }
      entries := entries - {entry};
      aging := aging - {entry};
      swept := swept - {entry};
      forall p | p in pipes && pipes[p].kind.Control?
        ensures |EntriesOf(p)| < ControlPipeMaxEntries
      {
        SubsetSize(EntriesOf(p), old(EntriesOf(p)));
      }
      rc := 0;
    }

    /** Retire the given pipes and every entry they own. */
    method RemovePipes(dead: set<Handle>)
      requires Valid()
      modifies this
      ensures Valid()
      ensures pipes == map p | p in old(pipes) && p !in dead :: old(pipes)[p]
      ensures entries == map e | e in old(entries) && old(entries)[e].pipe !in dead :: old(entries)[e]
      ensures aging == old(aging) * entries.Keys && swept == old(swept) * entries.Keys
      ensures ports == old(ports) && nextHandle == old(nextHandle)
    {
      pipes := map p | p in pipes && p !in dead :: pipes[p];
      entries := map e | e in entries && entries[e].pipe !in dead :: entries[e];
      aging := aging * entries.Keys;
      swept := swept * entries.Keys;
      forall p | p in pipes && pipes[p].kind.Control?
        ensures |EntriesOf(p)| < ControlPipeMaxEntries
      {
        SubsetSize(EntriesOf(p), old(EntriesOf(p)));
      }
    }

    /** doca_flow_destroy_pipe: the pipe and the entries created on it go; a pipe of another port is left alone. */
    method DestroyPipe(portId: PortId, pipe: Handle)
      requires Valid()
      modifies this
      ensures Valid()
      ensures var gone := pipe in old(pipes) && old(pipes)[pipe].port == portId;
        && (forall p :: p in pipes <==> p in old(pipes) && !(gone && p == pipe))
        && (forall e :: e in entries <==> e in old(entries) && !(gone && old(entries)[e].pipe == pipe))
      ensures forall p :: p in pipes ==> pipes[p] == old(pipes)[p]
      ensures forall e :: e in entries ==> entries[e] == old(entries)[e]
      ensures aging == old(aging) * entries.Keys && swept == old(swept) * entries.Keys
      ensures ports == old(ports) && nextHandle == old(nextHandle)
    {
      if pipe in pipes && pipes[pipe].port == portId {
        RemovePipes({pipe});
      }
    }

    /** doca_flow_flush_pipe: every pipe of the port and every entry of those pipes go; other ports keep theirs. */
    method FlushPipe(portId: PortId)
      requires Valid()
      modifies this
      ensures Valid()
      ensures forall p :: p in pipes <==> p in old(pipes) && old(pipes)[p].port != portId
      ensures forall e :: e in entries <==> e in old(entries) && old(pipes)[old(entries)[e].pipe].port != portId
      ensures forall p :: p in pipes ==> pipes[p] == old(pipes)[p]
      ensures forall e :: e in entries ==> entries[e] == old(entries)[e]
      ensures PipesOf(portId) == {}
      ensures old(PipesOf(portId)) == {} ==> pipes == old(pipes) && entries == old(entries)
      ensures aging == old(aging) * entries.Keys && swept == old(swept) * entries.Keys
      ensures ports == old(ports) && nextHandle == old(nextHandle)
    {
      var dead := PipesOf(portId);
      RemovePipes(dead);
      if old(PipesOf(portId)) == {} {
        assert pipes == old(pipes);
        assert entries == old(entries);
      }
    }

    /** doca_flow_destroy_port: the port, its pipes and their entries all go. */
    method DestroyPort(portId: PortId)
      requires Valid()
      modifies this
      ensures Valid()
      ensures ports == old(ports) - {portId}
      ensures forall p :: p in pipes <==> p in old(pipes) && old(pipes)[p].port != portId
      ensures forall e :: e in entries <==> e in old(entries) && old(pipes)[old(entries)[e].pipe].port != portId
      ensures forall p :: p in pipes ==> pipes[p] == old(pipes)[p]
      ensures forall e :: e in entries ==> entries[e] == old(entries)[e]
      ensures aging == old(aging) * entries.Keys && swept == old(swept) * entries.Keys
      ensures nextHandle == old(nextHandle)
    {
      FlushPipe(portId);
      ports := ports - {portId};
    }

    /** doca_flow_query: the entry's counters, or a negative code for a handle that is not live. */
    method Query(entry: Handle) returns (rc: int, stats: QueryStats)
      requires Valid()
      ensures rc == 0 <==> entry in entries
      ensures rc != 0 ==> rc < 0
      ensures rc == 0 ==> stats == entries[entry].stats
      ensures rc == 0 && !CountEnabled(entries[entry].monitor) ==> stats == QueryStats(0, 0)
    {
      if entry !in entries {
        return -1, QueryStats(0, 0);
      }
      rc, stats := 0, entries[entry].stats;
    }

    /**
     * The datapath's effect on an entry: one matched packet of `bytes` bytes. Only an entry of a
     * started port receives traffic, and only an entry whose monitor has the counter action counts it.
     */
    method CountPacket(entry: Handle, bytes: nat)
      requires Valid()
      requires entry in entries && CarriesTraffic(entry)
      modifies this
      ensures Valid()
      ensures CountEnabled(old(entries)[entry].monitor) ==>
        entries == old(entries)[entry := old(entries)[entry].(stats :=
          QueryStats(old(entries)[entry].stats.totalBytes + bytes, old(entries)[entry].stats.totalPkts + 1))]
      ensures !CountEnabled(old(entries)[entry].monitor) ==> entries == old(entries)
      ensures ports == old(ports) && pipes == old(pipes) && aging == old(aging) && swept == old(swept)
      ensures nextHandle == old(nextHandle)
    {
      if CountEnabled(entries[entry].monitor) {
        var s := entries[entry].stats;
        entries := entries[entry := entries[entry].(stats := QueryStats(s.totalBytes + bytes, s.totalPkts + 1))];
        assert forall p :: p in pipes ==> EntriesOf(p) == old(EntriesOf(p));
      }
    }

    /**
     * The scan part of doca_flow_handle_aging: examine at most `budget` entries of the current cycle of
     * `queue`, stopping once `cap` aged entries are found. The aged entries found are exactly the
     * examined ones in `expired`, each once.
     */
    method ScanAging(queue: QueueId, budget: nat, expired: set<Handle>, cap: nat)
      returns (found: seq<Handle>, examined: set<Handle>, complete: bool)
      ensures |found| <= cap && |examined| <= budget && examined <= Unswept(queue)
      ensures forall e :: e in found <==> e in examined && e in expired
      ensures forall i, j :: 0 <= i < j < |found| ==> found[i] != found[j]
      ensures complete <==> examined == Unswept(queue)
      ensures !complete ==> |examined| == budget || |found| == cap
    {
      var pending := Unswept(queue);
      ghost var cycle := pending;
      examined, found := {}, [];
      while |examined| < budget && |found| < cap && pending != {}
        invariant |found| <= cap && |examined| <= budget
        invariant examined !! pending && examined + pending == cycle
        invariant forall e :: e in found <==> e in examined && e in expired
        invariant forall i, j :: 0 <= i < j < |found| ==> found[i] != found[j]
        decreases pending
      {
        var e :| e in pending;
        pending := pending - {e};
        examined := examined + {e};
        if e in expired {
          found := found + [e];
        }
      }
      complete := pending == {};
    }

    /** Write the aging context of each reported entry to the caller's array, in order. */
    method FillAged(out: array<AgedQuery>, aged: seq<Handle>)
      requires |aged| <= out.Length
      requires forall e :: e in aged ==> e in entries
      modifies out
      ensures forall i :: 0 <= i < |aged| ==> out[i] == AgedQuery(UserDataOf(aged[i]))
      ensures forall i :: |aged| <= i < out.Length ==> out[i] == old(out[i])
    {
      forall i | 0 <= i < |aged| {
        out[i] := AgedQuery(AgedUserData(entries, aged[i]));
      }
    }

    /**
     * The bookkeeping after a scan: reported entries are no longer tracked, examined ones count as swept,
     * and a cycle that is complete restarts.
     */
    method SettleSweep(queue: QueueId, examined: set<Handle>, found: set<Handle>, restart: bool)
      requires Valid()
      requires examined <= Unswept(queue) && found <= examined
      modifies this
      ensures Valid()
      ensures aging == old(aging) - found
      ensures restart ==> Unswept(queue) == TrackedOn(queue)
      ensures !restart ==> Unswept(queue) == old(Unswept(queue)) - examined
      ensures forall q :: q != queue ==> Unswept(q) == old(Unswept(q))
      ensures ports == old(ports) && pipes == old(pipes) && entries == old(entries)
      ensures nextHandle == old(nextHandle)
    {
      SweepStep(aging, swept, entries, queue, examined, found);
      aging := aging - found;
      swept := swept + examined - found;
      if restart {
        CycleRestart(aging, swept, entries, queue);
        swept := set e | e in swept && e in entries && entries[e].queue != queue;
      }
    }

    /**
     * doca_flow_handle_aging. The sweep of `queue` examines at most `budget` of the tracked entries its
     * current cycle has not yet examined (the work the time quota allows). Of those, the ones in `expired`
     * (the entries the hardware reports idle past their timeout) are written to `out[0..r)` and are no
     * longer tracked; they stay live until removed. The result is their number when there is at least
     * one; otherwise -1 when the cycle has examined every tracked entry, after which the next call starts
     * a new cycle; otherwise 0.
     */
    method HandleAging(queue: QueueId, budget: nat, expired: set<Handle>, out: array<AgedQuery>, len: int)
      returns (r: int, ghost reported: seq<Handle>, ghost scanned: set<Handle>)
      requires Valid()
      requires len <= out.Length
      modifies this, out
      ensures Valid()
      ensures r == -1 || 0 <= r
      ensures r > 0 ==> r <= len
      ensures r > 0 <==> |reported| > 0
      ensures r > 0 ==> r == |reported|
      ensures |scanned| <= budget && scanned <= old(Unswept(queue))
      ensures forall e :: e in reported <==> e in scanned && e in expired
      ensures forall i, j :: 0 <= i < j < |reported| ==> reported[i] != reported[j]
      ensures forall i :: 0 <= i < |reported| ==> reported[i] in entries && out[i] == AgedQuery(UserDataOf(reported[i]))
      ensures forall i :: |reported| <= i < out.Length ==> out[i] == old(out[i])
      ensures aging == old(aging) - set e | e in reported
      ensures r == -1 <==> reported == [] && scanned == old(Unswept(queue))
      ensures r == 0 ==> reported == [] && (|scanned| == budget || len <= 0)
      ensures r == -1 ==> Unswept(queue) == TrackedOn(queue)
      ensures r != -1 ==> Unswept(queue) == old(Unswept(queue)) - scanned
      ensures forall q :: q != queue ==> Unswept(q) == old(Unswept(q))
      ensures ports == old(ports) && pipes == old(pipes) && entries == old(entries)
      ensures nextHandle == old(nextHandle)
    {
      var cap := if len > 0 then len else 0;
      var aged, examined, complete := ScanAging(queue, budget, expired, cap);
      assert forall e :: e in aged ==> e in entries;
      FillAged(out, aged);
      var found := examined * expired;
      assert found == set e | e in aged;
      SettleSweep(queue, examined, found, |aged| == 0 && complete);
      reported, scanned := aged, examined;
      r := if |aged| > 0 then |aged| else if complete then -1 else 0;
    }
  }

  /** The aging context reported for an entry: the user's, otherwise the entry handle itself. */
  function AgedUserData(entries: map<Handle, EntryState>, e: Handle): nat
    requires e in entries
  {
    var m := entries[e].monitor;
    if m.Some? && m.value.userData.Some? then m.value.userData.value else e
  }

  function EntriesIn(entries: map<Handle, EntryState>, p: Handle): set<Handle>
  {
    set e | e in entries && entries[e].pipe == p
  }

  /**
   * Ownership has no dangling edge: every pipe's port and every entry's pipe is live. Control pipes are
   * within capacity, and an entry carries a control rule exactly when its pipe is a control pipe. Every live handle was issued before `nextHandle`.
   */
  ghost predicate OwnershipValid(ports: map<PortId, PortState>, pipes: map<Handle, PipeState>,
                                 entries: map<Handle, EntryState>, nextHandle: nat)
  {
    && (forall p :: p in pipes ==> pipes[p].port in ports)
    && (forall e :: e in entries ==> entries[e].pipe in pipes)
    && (forall p :: p in pipes && pipes[p].kind.Control? ==> |EntriesIn(entries, p)| < ControlPipeMaxEntries)
    && (forall e :: e in entries ==> (entries[e].rule.ControlRule? <==> pipes[entries[e].pipe].kind.Control?))
    && (forall h :: h in pipes ==> h < nextHandle)
    && (forall h :: h in entries ==> h < nextHandle)
  }

  /** Aging tracks only live, aging-enabled entries, and a cycle sweeps only tracked ones. */
  ghost predicate AgingValid(entries: map<Handle, EntryState>, aging: set<Handle>, swept: set<Handle>)
  {
    && (forall e :: e in aging ==> e in entries && AgingEnabled(entries[e].monitor))
    && swept <= aging
  }

  /** An entry without the counter action never counts, so its counters stay zero. */
  ghost predicate CountersValid(entries: map<Handle, EntryState>)
  {
    forall e :: e in entries && !CountEnabled(entries[e].monitor) ==> entries[e].stats == QueryStats(0, 0)
  }

  /** Tracked entries of `queue` not yet examined in its current cycle. */
  function UnsweptIn(aging: set<Handle>, swept: set<Handle>, entries: map<Handle, EntryState>, queue: QueueId): set<Handle>
  {
    set e | e in aging && e in entries && entries[e].queue == queue && e !in swept
  }

  /** Marking examined entries swept and dropping the reported ones shrinks this queue's cycle and no other. */
  lemma SweepStep(aging: set<Handle>, swept: set<Handle>, entries: map<Handle, EntryState>, queue: QueueId,
                  examined: set<Handle>, found: set<Handle>)
    requires examined <= UnsweptIn(aging, swept, entries, queue) && found <= examined
    ensures UnsweptIn(aging - found, swept + examined - found, entries, queue) == UnsweptIn(aging, swept, entries, queue) - examined
    ensures forall q :: q != queue ==> UnsweptIn(aging - found, swept + examined - found, entries, q) == UnsweptIn(aging, swept, entries, q)
  {
  }

  /** Forgetting what a queue's cycle has swept makes its cycle cover every tracked entry again. */
  lemma CycleRestart(aging: set<Handle>, swept: set<Handle>, entries: map<Handle, EntryState>, queue: QueueId)
    ensures var rest := set e | e in swept && e in entries && entries[e].queue != queue;
      && UnsweptIn(aging, rest, entries, queue) == UnsweptIn(aging, {}, entries, queue)
      && forall q :: q != queue ==> UnsweptIn(aging, rest, entries, q) == UnsweptIn(aging, swept, entries, q)
  {
  }


  lemma SubsetSize<T>(a: set<T>, b: set<T>)
    requires a <= b
    ensures |a| <= |b|
  {
    assert b == a + (b - a);
  }
}
