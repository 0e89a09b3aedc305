/** The libvirt domain exporter: it lists the hypervisor's domains, turns each
    into a flat `DomainInfo` record with a normalised state label, and wraps the
    records into `VMEvent` values in the nested `libvirt.vm` shape that the
    `/v1/domains` endpoint serves to the Elastic Agent. The libvirt calls and the
    clock are inputs of the model. */
module Exporter {
  import opened GoSlice

  /** Go's `uint64`; the exporter's `uint` fields are taken as 64 bits wide too. */
  newtype Uint64 = x: int | 0 <= x < 0x1_0000_0000_0000_0000

  // libvirt's virDomainState codes
  const NOSTATE: int := 0
  const RUNNING: int := 1
  const BLOCKED: int := 2
  const PAUSED: int := 3
  const SHUTDOWN: int := 4
  const SHUTOFF: int := 5
  const CRASHED: int := 6
  const PMSUSPENDED: int := 7

  /** The only labels an event's state can carry. */
  const Labels: set<string> := {"running", "paused", "shutdown", "shutoff", "crashed", "unknown"}

  /** The codes that have a label of their own, as a table. */
  const Named: map<int, string> :=
    map[RUNNING := "running", PAUSED := "paused", SHUTDOWN := "shutdown",
        SHUTOFF := "shutoff", CRASHED := "crashed"]

  // ---------------------------------------------------------------------------
  // Records and events

  datatype DomainInfo = DomainInfo(name: string, uuid: string, state: string, vcpu: Uint64, memoryKB: Uint64)

  datatype VMEvent = VMEvent(timestamp: string, libvirt: LibvirtField)

  datatype LibvirtField = LibvirtField(vm: VMField)

  datatype VMField = VMField(uuid: string, name: string, state: string, vcpu: Uint64, memory: MemoryData)

  datatype MemoryData = MemoryData(kb: Uint64)

  // ---------------------------------------------------------------------------
  // What libvirt hands back for one listed domain

  /** A Go `(value, error)` pair: `failed` says whether an error came with `value`. */
  datatype Read<T> = Read(value: T, failed: bool)

  /** The fields of libvirt's domain info that the exporter uses. */
  datatype RawInfo = RawInfo(state: int, nrVirtCpu: Uint64, memory: Uint64)

  /** The results of `GetName`, `GetUUIDString` and `GetInfo` on one domain. */
  datatype RawDomain = RawDomain(name: Read<string>, uuid: Read<string>, info: Read<RawInfo>)

  /** A Go `(result, error)` return where the error aborts the call. */
  datatype Result<T> = Success(value: T) | Failure(error: string)

  /** Two listed domains whose reads returned the same values, errors aside. */
  predicate SameValues(a: RawDomain, b: RawDomain) {
    a.name.value == b.name.value && a.uuid.value == b.uuid.value && a.info.value == b.info.value
  }

  // ---------------------------------------------------------------------------
  // State mapper

  /** `domainStateToString`: five codes get their own label, every other
      integer (NOSTATE, BLOCKED, PMSUSPENDED included) becomes "unknown". */
  function DomainStateToString(state: int): (stateLabel: string)
    ensures stateLabel in Labels
    ensures state in Named ==> stateLabel == Named[state]
    ensures state !in Named <==> stateLabel == "unknown"
  {
    if state == RUNNING then "running"
    else if state == PAUSED then "paused"
    else if state == SHUTDOWN then "shutdown"
    else if state == SHUTOFF then "shutoff"
    else if state == CRASHED then "crashed"
    else "unknown"
  }

  /** A label other than "unknown" tells which code it came from. */
  lemma LabelIdentifiesState(s1: int, s2: int)
    requires DomainStateToString(s1) == DomainStateToString(s2)
    requires DomainStateToString(s1) != "unknown"
    ensures s1 == s2 && s1 in Named
  {
  }

  /** The libvirt states without a label of their own, and every code outside
      libvirt's range, all read as "unknown". */
  lemma UnlabelledStatesAreUnknown(state: int)
    requires state in {NOSTATE, BLOCKED, PMSUSPENDED} || state < NOSTATE || state > PMSUSPENDED
    ensures DomainStateToString(state) == "unknown"
  {
  }

  // ---------------------------------------------------------------------------
  // Snapshot assembly (the loop of getDomains)

  /** The record built for one listed domain; read errors play no part. */
  function ToDomainInfo(raw: RawDomain): DomainInfo {
    DomainInfo(raw.name.value, raw.uuid.value, DomainStateToString(raw.info.value.state),
               raw.info.value.nrVirtCpu, raw.info.value.memory)
  }

  /** The records of a listing, one per listed domain, in listing order. */
  function Snapshot(listed: seq<RawDomain>): (records: seq<DomainInfo>)
    ensures |records| == |listed|
  {
    if listed == [] then [] else [ToDomainInfo(listed[0])] + Snapshot(listed[1..])
  }

  /** Record i is built from domain i and from nothing else: each read's value
      is copied and the state code goes through the mapper. */
  lemma {:induction false} SnapshotAt(listed: seq<RawDomain>, i: int)
    requires 0 <= i < |listed|
    ensures Snapshot(listed)[i].name == listed[i].name.value
    ensures Snapshot(listed)[i].uuid == listed[i].uuid.value
    ensures Snapshot(listed)[i].state == DomainStateToString(listed[i].info.value.state)
    ensures Snapshot(listed)[i].vcpu == listed[i].info.value.nrVirtCpu
    ensures Snapshot(listed)[i].memoryKB == listed[i].info.value.memory
  {
    if i > 0 {
      SnapshotAt(listed[1..], i - 1);
    }
  }

  /** Listing one more domain appends one record at the end. */
  lemma {:induction false} SnapshotAppend(listed: seq<RawDomain>, raw: RawDomain)
    ensures Snapshot(listed + [raw]) == Snapshot(listed) + [ToDomainInfo(raw)]
  {
    if listed != [] {
      assert (listed + [raw])[1..] == listed[1..] + [raw];
      SnapshotAppend(listed[1..], raw);
    }
  }

  /** A failed read never drops or alters a record: two listings whose reads
      returned the same values give the same records, whatever errors came along. */
  lemma {:induction false} SnapshotIgnoresReadErrors(a: seq<RawDomain>, b: seq<RawDomain>)
    requires |a| == |b|
    requires forall i :: 0 <= i < |a| ==> SameValues(a[i], b[i])
    ensures Snapshot(a) == Snapshot(b)
  {
    if a != [] {
      assert SameValues(a[0], b[0]);
      SnapshotIgnoresReadErrors(a[1..], b[1..]);
    }
  }

  /** No record carries a raw state code: every state is one of the labels. */
  lemma {:induction false} SnapshotStatesLabelled(listed: seq<RawDomain>)
    ensures forall d :: d in Snapshot(listed) ==> d.state in Labels
  {
    if listed != [] {
      SnapshotStatesLabelled(listed[1..]);
    }
  }

  /** `getDomains` with the connection abstracted: `enumeration` is what opening
      the connection and listing all domains gave, either an error or the list. */
  method GetDomains(enumeration: Result<seq<RawDomain>>) returns (r: Result<Slice<DomainInfo>>)
    ensures enumeration.Failure? ==> r == Failure(enumeration.error)
    ensures enumeration.Success? ==> r.Success? && r.value.Items() == Snapshot(enumeration.value)
    ensures enumeration.Success? ==> (r.value.Nil? <==> enumeration.value == [])
  {
    if enumeration.Failure? {
      return Failure(enumeration.error);
    }
    var listed := enumeration.value;
    var result: Slice<DomainInfo> := Nil;
    for i := 0 to |listed|
      invariant result.Items() == Snapshot(listed[..i])
      invariant result.Nil? <==> i == 0
    {
      assert listed[..i + 1] == listed[..i] + [listed[i]];
      SnapshotAppend(listed[..i], listed[i]);
      result := result.Append(ToDomainInfo(listed[i]));
    }
    assert listed[..|listed|] == listed;
    return Success(result);
  }

  // ---------------------------------------------------------------------------
  // Event builder (domainsToEvents)

  /** The event for one record, stamped with the cycle's timestamp. */
  function ToEvent(d: DomainInfo, now: string): VMEvent {
    VMEvent(now, LibvirtField(VMField(d.uuid, d.name, d.state, d.vcpu, MemoryData(d.memoryKB))))
  }

  /** The record an event carries, read back out of its nested shape. */
  function FromEvent(e: VMEvent): DomainInfo {
    DomainInfo(e.libvirt.vm.name, e.libvirt.vm.uuid, e.libvirt.vm.state,
               e.libvirt.vm.vcpu, e.libvirt.vm.memory.kb)
  }

  /** Building an event loses nothing of the record and stamps the given time. */
  lemma EventKeepsDomain(d: DomainInfo, now: string)
    ensures FromEvent(ToEvent(d, now)) == d
    ensures ToEvent(d, now).timestamp == now
  {
  }

  /** An event holds nothing but its record and its timestamp. */
  lemma EventIsDomainAndTimestamp(e: VMEvent)
    ensures ToEvent(FromEvent(e), e.timestamp) == e
  {
  }

  /** The events for a sequence of records, one per record, in order. */
  function Events(domains: seq<DomainInfo>, now: string): (events: seq<VMEvent>)
    ensures |events| == |domains|
  {
    if domains == [] then [] else [ToEvent(domains[0], now)] + Events(domains[1..], now)
  }

  /** Event i carries record i, field for field, and the shared timestamp. */
  lemma {:induction false} EventsAt(domains: seq<DomainInfo>, now: string, i: int)
    requires 0 <= i < |domains|
    ensures Events(domains, now)[i].timestamp == now
    ensures FromEvent(Events(domains, now)[i]) == domains[i]
  {
    if i > 0 {
      EventsAt(domains[1..], now, i - 1);
    }
  }

  /** One more record appends one more event at the end. */
  lemma {:induction false} EventsAppend(domains: seq<DomainInfo>, d: DomainInfo, now: string)
    ensures Events(domains + [d], now) == Events(domains, now) + [ToEvent(d, now)]
  {
    if domains != [] {
      assert (domains + [d])[1..] == domains[1..] + [d];
      EventsAppend(domains[1..], d, now);
    }
  }

  /** All events of one call carry the identical timestamp. */
  lemma {:induction false} EventsShareTimestamp(domains: seq<DomainInfo>, now: string)
    ensures forall i, j :: 0 <= i < |domains| && 0 <= j < |domains| ==>
      Events(domains, now)[i].timestamp == Events(domains, now)[j].timestamp
  {
    forall i | 0 <= i < |domains|
      ensures Events(domains, now)[i].timestamp == now
    {
      EventsAt(domains, now, i);
    }
  }

  /** `domainsToEvents`, with the clock reading passed in as `now`. The result
      is a made slice, so it is never nil, not even for no records. */
  method DomainsToEvents(domains: seq<DomainInfo>, now: string) returns (events: Slice<VMEvent>)
    ensures events.Made?
    ensures events.Items() == Events(domains, now)
  {
    events := Made([]);
    for i := 0 to |domains|
      invariant events.Made?
      invariant events.Items() == Events(domains[..i], now)
    {
      assert domains[..i + 1] == domains[..i] + [domains[i]];
      EventsAppend(domains[..i], domains[i], now);
      events := events.Append(ToEvent(domains[i], now));
    }
    assert domains[..|domains|] == domains;
  }

  // ---------------------------------------------------------------------------
  // What the endpoint's consumer sees

  /** Event i of a listing is domain i's reads under the `libvirt.vm` fields,
      its state a label and never a raw code, stamped with the shared time. */
  lemma ServedEventAt(listed: seq<RawDomain>, now: string, i: int)
    requires 0 <= i < |listed|
    ensures |Events(Snapshot(listed), now)| == |listed|
    ensures Events(Snapshot(listed), now)[i].timestamp == now
    ensures Events(Snapshot(listed), now)[i].libvirt.vm ==
      VMField(listed[i].uuid.value, listed[i].name.value,
              DomainStateToString(listed[i].info.value.state),
              listed[i].info.value.nrVirtCpu, MemoryData(listed[i].info.value.memory))
    ensures Events(Snapshot(listed), now)[i].libvirt.vm.state in Labels
  {
    SnapshotAt(listed, i);
    EventsAt(Snapshot(listed), now, i);
  }
}
