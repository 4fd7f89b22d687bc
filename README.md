# Change-event hub and chat relay, modelled in Dafny

This project models the in-memory core of the two gRPC servers of the
syncer playground.

- **`Server`** (`internal/server/server.go`) is the change-event hub. Each
  `StreamDataChanges` session registers a bounded channel (capacity 100) in
  `eventChannels`. The relay-subscriber goroutine fans every event received
  from the relay out to all registered channels, with a non-blocking send that
  drops the event for a full channel. Each session's loop drains its own
  channel into its stream. When the session ends, a deferred block removes the
  channel from the registry and closes it. The replicator goroutine only hands
  its events to `PublishEvent`.
- **`ChatServer`** (`internal/server/chat_server.go`) is the peer chat relay.
  A session registers its stream under the sender name of the messages it
  receives, unless that name is already taken. It relays each message to every
  other registered client and skips any client whose send fails. At
  end-of-file it is meant to remove the departing client; see "Findings" for
  what the source actually does and for the corrected behaviour modelled here.

Each block the source runs under its `sync.RWMutex` is one atomic method.
Goroutine interleavings are sequences of method calls. A session's receive
from its channel is not under the mutex, so one session spans several
`Server.Serve` calls with `Server.Broadcast` calls between them.

Files:

- `wrappers.dfy`: the `Option` type.
- `events.dfy`: `ChangeEvent` and the relay's timestamp backfill.
- `hub.dfy`: the class `EventHub.Server`. It also holds the reference
  definitions: `RemoveFirst` (deregistration), `Offer`/`Fanout`/`OfferAll`
  (the drop-on-full send), `DropsAll` (the drop count), `RelayFeed` (what
  the relay's channel yields) and `SessionRun` (the session loop), with the lemmas
  about them.
- `hub_scenarios.dfy`: whole-system behaviours of the hub on a fresh server.
  Each is proved from the methods' contracts alone.
- `chat.dfy`: the class `Chat.ChatServer`, the reference definition
  `ChatRun` of one chat session, the lemmas about it, and the end-of-file
  branch as the source writes it.

How state is represented:

- A Go channel value is an abstract `ChanId`. The registry is the sequence
  `registry` of these ids. The buffered contents of every channel ever made
  live in the map `queues`, because the slice holds references to channels.
  `closed` records which channels are closed.
- An event pointer is an `Item`, an `Option<ChangeEvent>` whose `None` is
  Go's nil. Once the relay's channel is closed on cancellation and its buffer
  is drained, every receive from it yields nil and the hub fans that nil out
  like any event.
- The object invariant `Valid()` states four things:
  - the registry has no duplicates;
  - a registered channel is never closed;
  - every id was allocated;
  - no channel holds more than `Cap = 100` events.
- `Server.Serve` is the session loop. Its parameter `failAt` is the iteration
  whose `Send` the stream rejects. Its parameter `cancelAt` is the iteration at
  which `select` takes the context case. Its parameter `pauseAt` is the
  iteration before which the goroutine is descheduled (status `Paused`), with
  events still queued. Together they cover every choice Go's `select` can make
  and every point between two receives at which the relay's fan-out can run.
- A chat stream is an abstract `SinkId`. A successful send is recorded as a
  `Delivery`. In `Chat.ChatServer.Broadcast` a send fails when the stream is
  in the parameter set `failing`. `Chat.ChatServer.ChatStream` takes one such
  set per message, `failing(j)`, so a peer's stream can work for some messages
  and fail for later ones.

## Model

| member | source | states |
|---|---|---|
| `EventHub.Server.constructor` | internal/server/server.go:22-30 | A new server has no registered channel, no channel, nothing published and no drop logged. |
| `EventHub.Server.Register` | internal/server/server.go:33-37 | Appends exactly one fresh, empty channel at the end of the registry. Earlier entries, their order and every channel's contents are unchanged, and the bound of 100 still holds. |
| `EventHub.Server.Deregister` | internal/server/server.go:39-49 | The registry becomes `RemoveFirst(old registry, id)`, so no other entry is lost and none is added. The channel is no longer registered. It is closed only after removal, and no channel contents change. |
| `EventHub.RemoveFirstAt` | internal/server/server.go:41-46 | When the channel first occurs at position i, removal splices out exactly position i and keeps all other entries in their relative order. |
| `EventHub.RemoveFirstAbsent` | internal/server/server.go:41-46 | Removing a channel that is not registered leaves the registry unchanged. |
| `EventHub.RemoveFirstNoDup` | internal/server/server.go:40-47 | Removal from a duplicate-free registry keeps it duplicate-free. It drops the removed channel entirely and keeps every other member. |
| `EventHub.Server.Broadcast` | internal/server/server.go:75-83 | Each registered channel shorter than 100 gets the event at its back. A full channel is unchanged and counts one drop, so no channel ever exceeds 100. Unregistered and closed channels, the registry, the closed set and the publish log are untouched. |
| `EventHub.FanoutAt` | internal/server/server.go:76-82 | Isolation: after a fan-out, each channel's new contents depend only on its own old contents (`Offer`), whatever happens to other channels. |
| `EventHub.OfferAllKeepsPrefix` | internal/server/server.go:76-82 | If nobody drains a channel, it keeps the earliest events that fit, in publish order, and drops every later one. It never holds more than 100. |
| `EventHub.Server.RelayLoop` | internal/server/server.go:69-86 | Items from the relay go only to the local channels: each registered channel gains the prefix of them that fits. The drop counter grows by exactly the number of items that did not fit, summed over the registered channels (`DropsAll`). The publish log, the registry and the closed set are unchanged. |
| `EventHub.DropsAllNone` | internal/server/server.go:75-83 | Relaying nothing drops nothing. |
| `EventHub.DropsAllStep` | internal/server/server.go:75-83 | Relaying one more item adds exactly one drop for each registered channel that is full at that moment. |
| `EventHub.RelayFeed` | pkg/events/redis.go:57-86 | What the relay's channel yields: each decoded event with its timestamp backfilled at receipt time, in order, then, once the subscription's context is cancelled and the channel closed, any number of nil items. |
| `HubScenarios.CancelledRelay` | internal/server/server.go:69-83 | After the relay's channel closes, a registered subscriber's channel holds exactly the backfilled real event followed by one nil for each time the subscriber's `select` took the closed channel. |
| `EventHub.Server.ReplicatorLoop` | internal/server/server.go:94-105 | Replicator events are only appended, in order, to what is handed to `PublishEvent`. No channel and no registry entry changes. |
| `EventHub.SessionRunShape` | internal/server/server.go:51-60 | The session sends events front-first in enqueue order: the queue equals what was sent, then the one event lost on a failed send, then what remains. It stops on a send error only at the scheduled failure, on cancellation only when the context is done, and pauses only where it is descheduled. Otherwise it has sent everything. |
| `EventHub.SessionRunStep` | internal/server/server.go:51-56 | An iteration that receives and sends one event appends it to what was sent and continues with the rest of the channel. |
| `EventHub.Drain` | internal/server/server.go:51-60 | The session loop over its channel's contents sends, keeps and stops exactly as `SessionRun` prescribes, and never lengthens the channel. |
| `EventHub.Server.Serve` | internal/server/server.go:39-60 | The sink receives exactly `SessionRun` of the channel's contents, and the channel keeps the rest. If the loop ends (send error or cancellation), the deferred deregistration has run: the channel is out of the registry and closed. If it blocks or is descheduled, the registry and the closed set are unchanged. |
| `HubScenarios.ReceiveBetweenBroadcasts` | internal/server/server.go:51-83 | A session that takes one event off its full channel and is then descheduled makes room for exactly one relayed event; the next one is dropped. |
| `HubScenarios.LateJoiner` | internal/server/server.go:33-83 | A subscriber that registers, gets E1 and leaves keeps only E1. A subscriber that registers after E2 receives only E3. |
| `HubScenarios.SlowSubscriber` | internal/server/server.go:75-83 | One event with two subscribers, one with an empty channel and one with a full channel: the first receives the event, the full one keeps its backlog unchanged, and exactly one drop is logged. |
| `HubScenarios.InOrderDelivery` | internal/server/server.go:51-83 | Up to 100 relayed events reach a drained session's stream in publish order. Beyond 100, only the first 100 do. |
| `Events.Backfill` | pkg/events/redis.go:80-83 | After normalisation every event has a timestamp. An existing one is kept and a missing one becomes the receipt time. No other field changes. |
| `Events.BackfillIdempotent` | pkg/events/redis.go:80-83 | Backfilling twice is the same as backfilling once. |
| `Chat.ChatServer.constructor` | internal/server/chat_server.go:18-22 | A new chat server has no clients. |
| `Chat.Joined` | internal/server/chat_server.go:41-45 | After a message the sender is registered. Its stream is the existing one if the name was taken and the session's stream otherwise. Every other entry is unchanged. |
| `Chat.ChatServer.Join` | internal/server/chat_server.go:41-45 | The locked registration block makes `clients` equal to `Joined(old clients, sender, stream)`. |
| `Chat.FirstStreamWins` | internal/server/chat_server.go:41-45 | Registration is idempotent: a later stream under a taken name never replaces the first. |
| `Chat.Left` | internal/server/chat_server.go:30-32 | The source's `delete(s.clients, name)`: that key is gone and every other entry is unchanged. Deleting an absent key is a no-op. |
| `Chat.Departed` | internal/server/chat_server.go:28-33 | Corrected end-of-file cleanup: exactly the names registered to the departing stream are removed; every name held by another stream stays, with its stream. |
| `Chat.ChatServer.Disconnect` | internal/server/chat_server.go:30-32 | The locked delete makes `clients` equal to `Departed(old clients, stream)`. |
| `Chat.ChatServer.Broadcast` | internal/server/chat_server.go:48-56 | Every registered client whose key differs from the sender is tried exactly once. Each one whose stream works receives the message; those whose send fails are logged (`failed`) and skipped. The sender's key never receives, and `clients` is only read. |
| `Chat.ChatServer.ChatStream` | internal/server/chat_server.go:24-57 | The registry and the session's result follow `ChatRun` over the successive `Recv` results. The messages handled are the leading messages of the input, up to the first end-of-file or error. The deliveries are the handled messages' fan-outs one after the other (`batches`), so all of message j's sends come before any of message j+1's. Each fan-out gives the message exactly once to every name other than its sender that is registered once the message was received and whose stream works for it, on the stream registered under that name, and to nobody else. No message after end-of-file or an error is relayed. |
| `Chat.SessionDeliveries` | internal/server/chat_server.go:26-57 | When a session's deliveries are one complete fan-out per handled message, in turn, every delivery is tied to a handled message and to a name registered once it was received, and every name eligible for a message receives it. |
| `Chat.RunAfterMessages` | internal/server/chat_server.go:40-45 | A session that has received only messages has registered each sender in turn (`JoinAll`) and changed nothing else. |
| `Chat.JoinAllExtends` | internal/server/chat_server.go:40-45 | Registration only adds names, each bound to the session's own stream, never changes an existing entry, and leaves every name the session sent under registered. |
| `Chat.DepartedUndoesJoins` | internal/server/chat_server.go:28-45 | Removing a stream's names undoes any set of registrations by that stream, provided it held no name before. |
| `Chat.SessionRestoresRegistry` | internal/server/chat_server.go:24-57 | A client whose stream held no name, sends any messages under any sender names and then closes its stream leaves the registry exactly as it found it (corrected end-of-file branch). |
| `Chat.ErrorLeavesStaleEntries` | internal/server/chat_server.go:35-38 | A receive error other than end-of-file ends the session with that error and removes nobody: every name the client sent under stays registered, a stale entry. |
| `Chat.Received` | internal/server/chat_server.go:27 | `Recv` yields a message pointer exactly when it yields no error, so with end-of-file the pointer is nil. |
| `Chat.EofCleanupAsWritten` | internal/server/chat_server.go:28-33 | The end-of-file branch as written succeeds, deleting `msg.Sender`, exactly when `msg` is not nil. |
| `Chat.EofCleanupAsWrittenDereferencesNil` | internal/server/chat_server.go:27-31 | At end-of-file the as-written branch always dereferences a nil message and never removes the client. |

## Findings

| source | as written | input that shows it | evidently intended | confidence | as-written member | corrected member |
|---|---|---|---|---|---|---|
| internal/server/chat_server.go:27-31 | When `Recv` returns `io.EOF`, the branch deletes `msg.Sender`, but `msg` is the nil pointer returned with the error, so this dereferences nil. | A client sends one message as "alice", then closes its send side. `Recv` returns `(nil, io.EOF)`. | Remove the departing client, that is every name this stream was registered under, and leave every other entry as it was. | high (generated `Recv` returns nil with every error); not executed | `Chat.EofCleanupAsWrittenDereferencesNil` | `Chat.SessionRestoresRegistry` |

The corrected model (`ChatRun`, `Chat.ChatServer.ChatStream`) deletes at
end-of-file every name whose registered stream is the departing one
(`Chat.Departed`). Names that another stream registered first, even if this
client also sent under them, stay with that stream. A stream that never got a
name removes nobody.

## Left out

- Goroutines, `sync.RWMutex` and `select` scheduling are not modelled. Each
  locked block is one atomic method, and interleavings are call sequences.
  `select`'s random choice between a ready channel and a done context is
  covered by the `cancelAt` parameter of `Server.Serve`.
- The session loop's blocking wait is not modelled. `Server.Serve` returns
  `Waiting` when the channel is empty and the context is not done, and
  `Paused` when descheduled; a later call continues the same session.
- Error values are not modelled. The session's wrapped send error and
  `ctx.Err()` appear only as the `SendFailed` and `Cancelled` statuses.
- Redis and JSON are left out: `RedisEventManager.PublishEvent`, the pub/sub
  subscription and (un)marshalling. A `PublishEvent` call is recorded in
  `Server.published`. Its error is only logged by the source and has no
  further effect. Malformed payloads never reach the core.
- Wall-clock time is left out: `timestamppb.Now()` is the parameter `now` of
  `Events.Backfill`.
- `StartPostgresReplicator` creates `pgEventChan` and nothing in the source
  ever sends on it. `Server.ReplicatorLoop` models the loop over the events
  it would receive.
- The subscription error path of `StartRedisSubscriber` (lines 65-67) is not
  modelled, because it never runs: `SubscribeToEvents` always returns a nil
  error (`pkg/events/redis.go` line 90).
- Logging is not modelled, except for the drop counter `Server.dropped` and the
  `failed` set returned by `Chat.ChatServer.Broadcast`.
- The protobuf types of `pkg/chat` are not part of this model. `ChangeEvent` and `ChatMessage` carry the fields the core
  relies on, with column values as strings and timestamps as integers.
- Persistence, configuration, process bootstrap and the gRPC clients are left
  out. This covers gorm, `pkg/config`, the `cmd/*` programs and
  `internal/client/*`, which are I/O.
- Chat.ChatServer.ChatStream: its contract does not fix the order of the
  deliveries within one message's fan-out, because Go's map iteration order
  makes it nondeterministic.
- Streams are identified per key. A stream registered under two names, for
  example a client that sent under two sender names, gets one delivery per
  name. It can therefore receive its own message through its other name. The
  model keeps this behaviour of the source.
