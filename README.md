# DOCA flow lifecycle and version macros in Dafny

This project models the core of the DOCA SDK headers: the flow-offload library's
lifecycle contract (`doca_flow.h`), the network value types it uses
(`doca_flow_net.h`) and the version macros and formatter (`doca_version.h`).

- `flow.dfy` (module `Flow`): the flow library after `doca_flow_init`, as a
  class `FlowEngine`. It holds maps of live ports, pipes and pipe entries, plus
  the set of entries whose aging is still tracked and the set that the current
  aging cycle has already examined.
  - Every API call is a method. Handle-returning calls return
    `Result<Handle, ErrorType>`, which stands for "handle, or NULL with
    `error.type` set". Integer-returning calls return their code.
  - The invariant `Valid()` states the ownership tree: every pipe's port and
    every entry's pipe is live, and a control pipe holds fewer than 64 entries.
    It also states that aging tracks only live, aging-enabled entries. Every
    method preserves `Valid()`.
  - Destroying a pipe, flushing a port and destroying a port cascade down the
    tree. `doca_flow_handle_aging` is split into a bounded scan, a fill of the
    caller's array and the tracking bookkeeping.
- `flow_scenarios.dfy` (module `FlowScenarios`): client call sequences. They
  prove promises that span several calls:
  - a flow is reported aged at most once;
  - an aged flow stays removable until it is removed;
  - an entry is freed only once;
  - a control pipe accepts exactly 63 entries;
  - repeated aging calls reach "full cycle done";
  - nothing of a destroyed port can be queried.
- `flow_net.dfy` (module `FlowNet`):
  - the big-endian scalar types, with encode and decode to bytes;
  - the tagged unions `doca_flow_ip_addr` and `doca_flow_tun`, modelled as a
    raw form (tag plus storage) and a datatype, with round trips between them;
  - the VXLAN VNI/reserved split;
  - the protocol constants.
- `version.dfy` (module `DocaVersion`):
  - `DOCA_VERSION_NUM` as a bitwise OR of shifted fields over `nat`;
  - the EQ and LTE comparisons against 1.2.6;
  - `doca_version()` as `"%d.%d.%03d"` formatting followed by `snprintf` into
    a 12-byte buffer, with a parser that inverts the format.
- `wrappers.dfy` (module `Wrappers`): `Option` and `Result`.

Inputs the library takes from outside are parameters:
- the driver's hidden failure on an otherwise valid call (out of memory, a
  template that does not compile, a device error) is `fault: Option<ErrorType>`;
- the aging time quota is a `budget` of entries that may be examined;
- the hardware's idle verdict is the set `expired`;
- the datapath's effect on counters is the method `CountPacket`.

## Model

| member | source | states |
|---|---|---|
| DocaVersion.VersionNum | doca_version.h:49 | DOCA_VERSION_NUM: (major << 24) OR (minor << 16) OR patch, over naturals |
| DocaVersion.VersionEqCurrent | doca_version.h:59-60 | DOCA_VERSION_EQ_CURRENT: the packed triple equals the packed current version |
| DocaVersion.VersionLteCurrent | doca_version.h:65-66 | DOCA_VERSION_LTE_CURRENT: the packed triple is at most the packed current version |
| DocaVersion.FormatVersion | doca_version.h:78 | the text of "%d.%d.%03d" for a triple |
| DocaVersion.VersionString | doca_version.h:74-81 | doca_version(): that text printed by snprintf into the 12-byte buffer |
| DocaVersion.VersionNumIsSum | doca_version.h:33-49 | for major and minor at most 255 and patch below 2^16, the OR of the shifted fields equals major·2^24 + minor·2^16 + patch |
| DocaVersion.BitOrDisjoint | doca_version.h:49 | OR of a value shifted past another value's bits is their sum |
| DocaVersion.VersionNumFitsIn32Bits | doca_version.h:33-49 | an in-range version number is below 2^32 |
| DocaVersion.CurrentVersionNumValue | doca_version.h:36-54 | DOCA_CURRENT_VERSION_NUM is 0x01020006 |
| DocaVersion.VersionNumInjective | doca_version.h:33-49 | in range, equal version numbers mean equal triples |
| DocaVersion.VersionNumOrder | doca_version.h:49 | in range, NUM(a) <= NUM(b) exactly when a <= b lexicographically |
| DocaVersion.VersionNumCollidesOutOfRange | doca_version.h:41-49 | outside the documented patch range the packing is not injective: (0,1,0) and (0,0,65536) collide |
| DocaVersion.VersionEqCurrentIff | doca_version.h:56-60 | in range, EQ_CURRENT holds exactly for (1,2,6) |
| DocaVersion.VersionLteCurrentIff | doca_version.h:62-66 | in range, LTE_CURRENT holds exactly for triples lexicographically at most (1,2,6) |
| DocaVersion.Decimal | doca_version.h:78 | `%d` of a nat is a non-empty digit string with no leading zero |
| DocaVersion.DecimalRoundTrip | doca_version.h:78 | the digits of `%d` denote the number printed |
| DocaVersion.DecimalLength | doca_version.h:78 | `%d` of a number below 10^k has at most k digits |
| DocaVersion.ZeroPadValue | doca_version.h:78 | zero padding, as `%03d` does, keeps the digits' value |
| DocaVersion.Snprintf | doca_version.h:76-79 | snprintf returns the full length and writes a prefix of the text: all of it when it fits, exactly size-1 characters when it does not |
| DocaVersion.VersionStringValue | doca_version.h:74-81 | doca_version() yields "1.2.006" |
| DocaVersion.FormatVersionFits | doca_version.h:76-79 | every in-range version formats to at most 11 characters, so the 12-byte buffer never truncates |
| DocaVersion.FormatVersionRoundTrip | doca_version.h:72-78 | parsing the formatted string gives back the version |
| DocaVersion.FormatVersionInjective | doca_version.h:72-78 | distinct versions format to distinct strings |
| FlowNet.ToBigEndian | doca_flow_net.h:31-33 | a scalar is encoded to exactly its width in bytes |
| FlowNet.FromBigEndian | doca_flow_net.h:31-33 | decoding n bytes gives a value below 256^n |
| FlowNet.BigEndianRoundTrip | doca_flow_net.h:31-33 | decoding the big-endian encoding of a value that fits returns the value |
| FlowNet.BigEndianBytesRoundTrip | doca_flow_net.h:31-33 | encoding a decoded byte string returns the bytes |
| FlowNet.Be16RoundTrip | doca_flow_net.h:31 | doca_be16_t round-trips through 2 bytes |
| FlowNet.Be32RoundTrip | doca_flow_net.h:32 | doca_be32_t round-trips through 4 bytes |
| FlowNet.Be64RoundTrip | doca_flow_net.h:33 | doca_be64_t round-trips through 8 bytes |
| FlowNet.Ipv4WireExample | doca_flow_net.h:32 | 10.0.0.1 as doca_be32_t is the bytes 10,0,0,1, most significant first |
| FlowNet.IpType | doca_flow_net.h:45-52 | the tag of an address is NONE=0 exactly for no address, IP4=4 exactly for IPv4 and IP6=6 exactly for IPv6 |
| FlowNet.DecodeIp | doca_flow_net.h:54-66 | a raw address decodes exactly when its tag is 0, 4 or 6 |
| FlowNet.EncodeIp | doca_flow_net.h:57-66 | the C layout of an address: its tag and the storage of its arm |
| FlowNet.IpRoundTrip | doca_flow_net.h:54-66 | decoding an encoded address gives it back |
| FlowNet.DecodeIpReadsOnlyTaggedArm | doca_flow_net.h:57-66 | two raw addresses that agree on the tag and on the tagged arm decode alike |
| FlowNet.EncodeDecodedIp | doca_flow_net.h:57-66 | re-encoding a decoded address keeps the tag and the tagged arm |
| FlowNet.TunType | doca_flow_net.h:71-80 | the tag of a tunnel is NONE=0, VXLAN=1, GTPU=2 or GRE=3, each exactly for its variant |
| FlowNet.DecodeTun | doca_flow_net.h:85-105 | a raw tunnel decodes exactly when its tag is 0..3, to the variant its tag names with that key |
| FlowNet.EncodeTun | doca_flow_net.h:85-105 | the C layout of a tunnel carries its tag and, for a keyed tunnel, its key |
| FlowNet.TunRoundTrip | doca_flow_net.h:85-105 | decoding an encoded tunnel gives it back |
| FlowNet.VxlanVni | doca_flow_net.h:90-91 | the VNI is the top 24 bits of the tunnel id, always below 2^24 |
| FlowNet.VxlanReserved | doca_flow_net.h:90-91 | the reserved field is the low 8 bits |
| FlowNet.VxlanTunId | doca_flow_net.h:90-91 | the 32-bit tunnel id with the VNI in the top 24 bits and the reserved byte below |
| FlowNet.VxlanFieldsRoundTrip | doca_flow_net.h:90-91 | a tunnel id built from a VNI and reserved bits yields them back |
| FlowNet.VxlanTunIdRoundTrip | doca_flow_net.h:90-91 | splitting a tunnel id into VNI and reserved bits and reassembling it gives it back |
| Flow.FwdType | doca_flow.h:219-230 | the forward type codes are NONE=0, RSS=1, PORT=2, PIPE=3, DROP=4, each exactly for its variant |
| Flow.EncodeFwd | doca_flow.h:247-273 | the raw forward carries the type code of the forward it lays out |
| Flow.DecodeFwd | doca_flow.h:247-273 | a raw forward decodes exactly when its tag is 0..4 and an RSS queue count fits its array, to the variant the tag names with that arm's fields |
| Flow.FwdRoundTrip | doca_flow.h:247-273 | decoding an encoded forward gives it back |
| Flow.DecodeFwdReadsOnlyTaggedArm | doca_flow.h:247-273 | two raw forwards that agree on the tag and on the tagged arm decode alike |
| Flow.AgedUserData | doca_flow.h:343-346 | the aged-flow context: the user's `user_data` when the monitor gives one, otherwise the entry handle |
| Flow.OwnershipValid | doca_flow.h:467-618 | no pipe outlives its port and no entry its pipe, a control pipe holds fewer than 64 entries, an entry has a control rule exactly when its pipe is a control pipe, and every live handle is below the next one issued |
| Flow.FlowEngine.Valid | doca_flow.h:467-680 | ownership as above; aging tracks only live aging-enabled entries; an entry without the counter action has zero counters |
| Flow.FlowEngine.constructor | doca_flow.h:348-368 | after init there are no ports, pipes, entries or tracked flows |
| Flow.FlowEngine.PortStart | doca_flow.h:381-399 | a new port id starts a live, started port; an id already live gives InvalidParam; a driver failure gives its error; nothing else changes |
| Flow.FlowEngine.PortStop | doca_flow.h:401-413 | 0 exactly when the port is live; the port is then stopped, so no entry of it carries traffic, but it keeps its pipes and entries; otherwise negative |
| Flow.FlowEngine.CreatePipe | doca_flow.h:431-465 | on a live port a fresh pipe handle owning no entries, with its configuration and forwards; otherwise NULL with InvalidParam or the driver's error, state unchanged |
| Flow.FlowEngine.CreateControlPipe | doca_flow.h:467-482 | on a live port a fresh, empty control pipe; otherwise NULL with the error set |
| Flow.FlowEngine.PipeAddEntry | doca_flow.h:485-526 | on a live ordinary pipe a fresh entry with its rule and the pipe's monitor, or its own when the pipe defines none, tracked for aging exactly when aging is enabled; otherwise NULL with InvalidParam, Unsupported or the driver's error, entries unchanged |
| Flow.FlowEngine.ControlPipeAddEntry | doca_flow.h:467-559 | a fresh entry on a control pipe that holds fewer than 63; at the limit NULL with FlowCreate and every existing entry kept, so the pipe never reaches 64 |
| Flow.FlowEngine.PipeRmEntry | doca_flow.h:561-579 | 0 exactly when the entry was live; frees exactly that entry and stops its aging |
| Flow.FlowEngine.RemovePipes | doca_flow.h:581-606 | the given pipes and exactly their entries go; everything else is kept unchanged |
| Flow.FlowEngine.DestroyPipe | doca_flow.h:581-594 | the pipe and exactly the entries on it go when it belongs to the port; other pipes and entries are kept unchanged |
| Flow.FlowEngine.FlushPipe | doca_flow.h:596-606 | every pipe of the port and every entry of those pipes go, other ports keep all theirs; a port with no pipes leaves the state unchanged |
| Flow.FlowEngine.DestroyPort | doca_flow.h:608-618 | the port, its pipes and their entries all go; other ports keep theirs |
| Flow.FlowEngine.Query | doca_flow.h:634-649 | 0 and the entry's counters exactly when the entry is live, otherwise negative; an entry without the counter action reports zero |
| Flow.FlowEngine.CountPacket | doca_flow.h:330-338 | a packet reaches only an entry of a started port; it adds its bytes and one packet to that entry's counters when the entry's monitor has the counter action, and changes nothing otherwise |
| Flow.FlowEngine.ScanAging | doca_flow.h:651-680 | examines at most budget entries of the current cycle, finds each examined expired entry once, no more than the array holds, and is complete exactly when the cycle is exhausted |
| Flow.FlowEngine.FillAged | doca_flow.h:343-346 | the array's first slots get the reported flows' user context, otherwise the entry handle; the rest is untouched |
| Flow.FlowEngine.SettleSweep | doca_flow.h:654-665 | reported flows leave aging tracking, examined ones leave the current cycle, a finished cycle restarts, other queues are unaffected |
| Flow.FlowEngine.HandleAging | doca_flow.h:651-680 | returns -1 or 0..len; r > 0 is the number of aged flows written to entries[0..r), each examined, expired and distinct, and released from tracking; 0 means none this call; -1 means the full cycle done, which restarts it; pipes and entries stay live |
| Flow.SweepStep | doca_flow.h:654-665 | marking examined entries swept shrinks that queue's cycle by exactly them and no other queue's |
| Flow.CycleRestart | doca_flow.h:663-665 | forgetting a queue's swept entries makes its cycle cover every tracked entry again |
| FlowScenarios.AgingReportsOnce | doca_flow.h:654-656 | two aging calls never report the same flow, and a reported flow stays live |
| FlowScenarios.RemoveAgedEntries | doca_flow.h:561-579 | with no user contexts, every reported flow is freed by removing the handle from the report |
| FlowScenarios.RemoveThenCreate | doca_flow.h:457-465 | under the model's handle discipline (numbered handles, never reissued), a handle freed by removing its entry is not returned by a later create |
| FlowScenarios.RemoveTwice | doca_flow.h:561-579 | the first removal succeeds and the second of the same handle fails |
| FlowScenarios.FillControlPipe | doca_flow.h:467-559 | of n driver-clean adds to a fresh control pipe exactly min(n, 63) succeed and the pipe holds that many |
| FlowScenarios.SweepUntilCycleDone | doca_flow.h:658-665 | with a positive budget and a non-empty array, repeated calls reach -1, after which the cycle covers every tracked flow |
| FlowScenarios.QueryAfterDestroyPort | doca_flow.h:608-618 | after the port is destroyed, querying an entry it owned fails |

## Left out

- Packet matching, header rewriting, encapsulation and decapsulation, meter token buckets and RSS spreading happen in hidden hardware offload. Pipes and entries keep their match, mask, action, monitor and forward templates as data only.
- Control-pipe priority tie-breaking and forward-cycle detection are not described by the headers, so they are not modelled.
- The aging time quota in microseconds is an abstract `budget` of entries examined. Which entries have aged is the parameter `expired`, standing for the hardware's idle timers.
- The order in which one call examines entries is nondeterministic. Which flows a call reports is constrained, but not their order in the array.
- HandleAging: when one call both finds aged flows and exhausts the cycle, it reports the count. The next call then returns -1. The header leaves this case open.
- HandleAging, ScanAging: a negative `len` is treated as an empty array.
- Queues and concurrency: each call is atomic, and the `pipe_queue` argument of `doca_flow_pipe_rm_entry` is ignored.
- `doca_flow_init` and `doca_flow_destroy` are not methods. The constructor is the state right after init, and the global configuration is not modelled.
- `doca_flow_dump_pipe` writes to a FILE, so it is I/O and is not modelled.
- `doca_flow_port_priv_data` returns a raw pointer, so it is not modelled.
- `doca_flow_error.message` strings are not modelled. Only the error type is.
- Port start does no devargs validation, and the default jump and RSS flows it creates are not modelled.
- PortStart: the header does not say what starting a port id that is already live does. The model refuses it with InvalidParam.
- ControlPipeAddEntry: the header gives no error kind for a full control pipe. The model uses `ErrorFlowCreate`.
- PipeAddEntry: adding to a control pipe this way is refused with `ErrorUnsupported`, since the header gives control pipes their own add call.
- DestroyPipe: a pipe of a different port is left alone. The header does not say what happens.
- CreatePipe, CreateControlPipe, PipeAddEntry, ControlPipeAddEntry: a port or pipe that is not live gives `ErrorInvalidParam`. In C such a handle is a dangling pointer.
- ControlPipeAddEntry: adding to an ordinary pipe is refused with `ErrorUnsupported`.
- PortStop, PipeRmEntry, Query: a handle that is not live returns -1. In C each is a dangling pointer.
- RemoveThenCreate: handles are numbers that are never reissued, which the headers do not promise. In C a handle is a heap pointer, and a freed pointer may be handed out again by the allocator, after which a stale handle would alias a new entry or pipe.
- PortStart: a stopped port keeps its id, so starting that id again is refused like any live id.
- DecodeFwd: a negative RSS queue count or one larger than the queue array is treated as malformed. The header does not say what happens.
- CountPacket: a hit is modelled only on an entry of a started port; "disable the traffic" is this precondition.
- CountPacket stands in for the datapath. Counters are unbounded, so the 64-bit wrap of `total_bytes` and `total_pkts` is not modelled.
- VersionNum, VersionNumIsSum: stated over `nat`. For a major version of 128 or more, `major << 24` overflows C's signed `int` before the cast to `size_t`; that overflow and negative macro arguments are not modelled.
- FormatVersionFits: stated for the documented ranges. `%d` of a negative field is not modelled.
- The other headers are not part of this model: doca_apsh.h, doca_dpi.h, doca_telemetry.h, doca_netflow.h, doca_telemetry_netflow.h, doca_log.h and doca_compat.h. They are foreign I/O, asynchronous engines, logging and compiler macros.
