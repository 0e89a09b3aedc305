# libvirt domain exporter — verified model

The exporter answers `GET /v1/domains` with one JSON event per libvirt domain.
It opens a connection to `qemu:///system`, lists all domains, reads each
domain's name, UUID and info, and builds a flat `DomainInfo` record per domain.
The raw state code goes through `domainStateToString` to get a lowercase label.
`domainsToEvents` then wraps each record into a `VMEvent`: one timestamp, taken
once per call, plus the record's fields under `libvirt.vm`.

The model is two modules:

- `GoSlice` (`go_slice.dfy`) tells a nil Go slice from a made one. Both can be
  empty, but Go's JSON encoder writes `null` for the first and `[]` for the second.
- `Exporter` (`exporter.dfy`) holds the record and event types, the state
  mapper, the snapshot loop of `getDomains` and `domainsToEvents`.

libvirt and the clock are inputs. `GetDomains` takes the outcome of connecting
and listing: either an error message or the listed domains. Each listed domain
is the results of its three reads, each a value paired with an error flag.
`DomainsToEvents` takes the formatted timestamp as an opaque string.

Each loop is a method proved equal to a recursive specification function:
`Snapshot` for `getDomains` and `Events` for `domainsToEvents`. Lemmas then
prove what the consumer relies on:

- one record and one event per listed domain, in listing order;
- when each read returns a value, the errors that come with it make no difference to the output;
- every state is one of six fixed labels;
- every event carries the same timestamp;
- fields are copied exactly, with `FromEvent` as the inverse of building an event.

The model pins down these facts about the program:

- `domainStateToString` (cmd/main.go:73-88) gives only RUNNING, PAUSED,
  SHUTDOWN, SHUTOFF and CRASHED a label of their own. Every other code,
  NOSTATE, BLOCKED and PMSUSPENDED included, becomes `"unknown"`.
- Events have the shape `libvirt.vm` {uuid, name, state, vcpu, memory.kb}
  (cmd/main.go:20-40). They are served per HTTP request (cmd/main.go:116-126).

## Model

| member | source | states |
|---|---|---|
| `Exporter.DomainStateToString` | cmd/main.go:73-88 | Every integer gets a label. The label is always one of running, paused, shutdown, shutoff, crashed or unknown. The five named codes get their table label. A code gets "unknown" exactly when it has no label of its own. |
| `Exporter.LabelIdentifiesState` | cmd/main.go:75-84 | If two codes share a label other than "unknown", they are the same code, and it is one of the five named codes. |
| `Exporter.UnlabelledStatesAreUnknown` | cmd/main.go:85-86 | NOSTATE, BLOCKED and PMSUSPENDED map to "unknown". So does every code below 0 or above 7. |
| `Exporter.Snapshot` | cmd/main.go:54-70 | A listing gives exactly as many records as it has domains. |
| `Exporter.SnapshotAt` | cmd/main.go:56-68 | Record i comes from listed domain i. Name, UUID, vcpu and memory are the values the reads returned, and the state is the mapper's label for the info's state code. |
| `Exporter.SnapshotAppend` | cmd/main.go:54-69 | Listing one more domain appends its record at the end, so records stay in listing order. |
| `Exporter.SnapshotIgnoresReadErrors` | cmd/main.go:58-60 | Errors from the name, UUID and info reads are discarded. Two listings whose reads returned the same values give identical records, whatever the error flags say. |
| `Exporter.SnapshotStatesLabelled` | cmd/main.go:65 | Every assembled record's state is in the fixed label set and is never a raw code. |
| `Exporter.GetDomains` | cmd/main.go:42-71 | A failed connect or listing returns that error and no records. A successful listing returns the records `Snapshot` specifies. The returned slice is nil exactly when no domain was listed. |
| `Exporter.EventKeepsDomain` | cmd/main.go:96-109 | Reading the record back out of a built event gives the original record, so uuid, name, state, vcpu and memory (as memory.kb) are copied unchanged. The event carries the given timestamp. |
| `Exporter.EventIsDomainAndTimestamp` | cmd/main.go:96-109 | An event holds only its record and its timestamp: rebuilding it from these two gives the same event. |
| `Exporter.Events` | cmd/main.go:91-113 | There is exactly one event per record. |
| `Exporter.EventsAt` | cmd/main.go:95-110 | Event i carries record i field for field, and its timestamp is the one passed in. |
| `Exporter.EventsAppend` | cmd/main.go:95-110 | One more record appends one more event at the end, so events stay in record order. |
| `Exporter.EventsShareTimestamp` | cmd/main.go:93-97 | All events from one call carry the identical timestamp. |
| `Exporter.DomainsToEvents` | cmd/main.go:91-113 | The result is a made, never-nil slice, even when there are no records. Its elements are the events `Events` specifies, all stamped with the one timestamp. |
| `Exporter.ServedEventAt` | cmd/main.go:62-109 | Assembly followed by event building gives one event per listed domain. Event i's `libvirt.vm` holds domain i's uuid, name, mapped state label, vcpu count and memory in KB. Its state is in the label set, and its timestamp is the shared one. |

## Left out

- The libvirt calls `NewConnect`, `ListAllDomains`, `Close`, `GetName`, `GetUUIDString` and `GetInfo` are foreign code. Their results are model inputs. A failed connect and a failed listing are one input case, because both return the error unchanged.
- The libvirt Go binding is not part of this model. The model copies whatever value each read returned, even when an error came with it, and it assumes that `GetInfo` always returns an info value. If a failed `GetInfo` returns a nil pointer instead, cmd/main.go:65 dereferences nothing and the request panics, so no events are served; the model does not capture that.
- `time.Now().UTC().Format(time.RFC3339)` reads the clock and formats the time. The model takes its result as an opaque string parameter.
- The HTTP handler and server, the 500 error response and JSON encoding are network I/O and a library serialiser. The model keeps nil and made slices apart only so that the `[]` versus `null` distinction stays visible.
- The `log.Printf` diagnostics are output side effects only.
- The commented-out earlier version of the program is dead code.
- Go's `uint` fields (vcpu) are modelled as 64-bit unsigned integers, like `uint64`. No arithmetic is done on them, so only their range matters.
