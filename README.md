# discord_voice_list — roster reconciliation, modelled in Dafny

`discord_voice_list` keeps a text file listing who shares the operator's current Discord
voice channel. The file reads `On call: ` followed by the names. This project models the
event loop of `main` in `src/main.rs` and the roster store `Users`, and proves what they
guarantee.

The event loop keeps three things:
- the operator's known voice channel (`voice_channel`);
- the roster, a map from user id to display name (`users`);
- the resync flag (`needs_update`).

Every failed receive sets the flag. A received event first resynchronises when the flag
is set. A voice state change then takes one of two branches. If the user is the operator,
or the new channel equals the known channel, the roster is rebuilt from the cache. Otherwise
the user is removed from the roster.

The Discord state cache belongs to an external library. Each iteration is handed a
`Snapshot` of it, taken after `state.update(&event)`:
- `me` is `state.user().id`;
- `voice` answers `find_voice_user`;
- `channels` answers `find_channel`, with `Public(members)` for a server channel and `Other`
  for anything else.

Files:
- `discord_state.dfy` (module `DiscordState`): identifiers, members, events, receive
  errors, the snapshot and its lookups, and what it means for a snapshot to follow an event.
- `reconcile.dfy` (module `Reconcile`): the full rebuild as the pure functions `Collect` and
  `Rebuild`, with the lemmas about them.
- `roster.dfy` (module `Roster`):
  - the class `Users` (the `HashMap` with `clear`/`insert`/`remove`, and `save`, which
    overwrites the file);
  - the rendering `Content` and its inverse `ParseContent`;
  - `RenderRoster`, which walks the map's keys in an unspecified order, as `HashMap::values`
    does.
- `event_loop.dfy` (module `EventLoop`):
  - what one iteration does, as pure functions (`Resync`, `Dispatch`, `StepSpec`, `Fail`,
    `Run`);
  - the class `Reconciler`, which does it in place;
  - the theorems. The main one is `RunKeepsSync`: from the start of `main`, after any
    well-formed sequence of receive outcomes ending in an event, the roster is exactly
    `Rebuild` of the operator's channel in the latest cache, and the known channel is the
    operator's channel in that cache.

"Well-formed" has two parts. Each cache already contains its event. A cache received right
after another event differs from the previous one only by this event's voice change, and a
non-voice event changes nothing. After a failed receive the next cache is unconstrained.

Behaviours of `src/main.rs` that are easy to miss, and that the model follows:
- A user leaving the operator's channel is removed from the roster, and the removal branch
  itself does **not** save (src/main.rs:110-114). If a resync ran first in that iteration, its
  save (src/main.rs:80) leaves the file holding the resynced roster; otherwise `Step` states
  that the file is unchanged.
- **Every** receive error sets `needs_update`, whatever its kind (src/main.rs:51). A WebSocket
  error also replaces the connection.
- A non-operator joining the known channel causes a **full rebuild** of the roster from the
  cache (src/main.rs:91-109).
- The roster map is a `HashMap`, whose iteration order is unspecified. The rendered text is
  therefore specified up to the order of the keys (`Renders`).
- `None == None` sends a user who leaves voice into the rebuild branch when the operator is
  not in voice either (src/main.rs:91). That rebuild gives the empty roster.

## Model

| member | source | states |
|---|---|---|
| `Reconcile.Collect` | src/main.rs:68-76 | the map left by the member loop holds exactly the listed members whose voice channel is `c`, and each entry is an (id, name) pair from the member list |
| `Reconcile.Rebuild` | src/main.rs:65-77 | the rebuilt roster's keys are exactly the members of the channel's server whose voice channel equals `vc`, and the names come from that server's member list; the roster is empty without a public channel |
| `Reconcile.RebuildEmpty` | src/main.rs:61-67 | with no voice channel, or a channel that is not a server channel, the rebuild leaves the roster empty |
| `Reconcile.RebuildNames` | src/main.rs:68-73 | when the server lists each user once, every co-located member is in the roster under exactly its listed name |
| `Reconcile.CollectAfterLeave` | src/main.rs:97-105 | walking the members over a cache where only `u` moved away from `c` gives the earlier map without `u` |
| `Reconcile.RebuildAfterLeave` | src/main.rs:110-114 | the incremental removal agrees with a full rebuild: when only `u` left `vc`, rebuilding the new cache equals the old roster minus `u` |
| `Roster.RenderRoster` | src/main.rs:156-161 | the rendered text is `On call: ` followed by the roster's names joined with `, `, taken along an enumeration of the keys that lists each user exactly once; an empty roster gives exactly `On call: ` |
| `Roster.RenderedNames` | src/main.rs:157-160 | the rendered names are the multiset of the roster's names: as many names as entries, every entry's name appears, every name belongs to an entry, and each name occurs exactly as often as there are users bearing it |
| `Roster.ContentRoundTrip` | src/main.rs:156-161 | reading the rendered text back gives the names again, in order, when the names are non-empty and contain no comma |
| `Roster.Separators` | src/main.rs:156-161 | no names render as exactly `On call: `, and n >= 1 comma-free names are separated by exactly n - 1 commas |
| `Roster.NamesAlongCount` | src/main.rs:157-160 | along a duplicate-free key order, each name occurs in the collected names exactly as often as the listed users bearing it |
| `Roster.Join` | src/main.rs:160-161 | definition (no contract): the names joined with `, ` between consecutive names |
| `Roster.Content` | src/main.rs:156-161 | definition (no contract): `On call: ` followed by the joined names |
| `Roster.Users.constructor` | src/main.rs:30-33 | the roster store starts empty, bound to its file name, with no file written |
| `Roster.Users.Clear` | src/main.rs:65 | `clear` empties the roster |
| `Roster.Users.Insert` | src/main.rs:72 | `insert` adds the user or overwrites their name, and touches no other key |
| `Roster.Users.Remove` | src/main.rs:111 | `remove` drops the user and returns their name if they were present; removing an absent user changes nothing and returns nothing |
| `Roster.Users.Save` | src/main.rs:154-166 | `save` overwrites the file with a rendering of the current roster |
| `EventLoop.Initial` | src/main.rs:29-34 | definition (no contract): no voice channel, an empty roster, a resync pending |
| `EventLoop.Fail` | src/main.rs:39-52 | definition (no contract): a receive error sets the resync flag and nothing else |
| `EventLoop.Resync` | src/main.rs:56-82 | definition (no contract): with the flag set, the channel is the operator's lookup, the roster its rebuild, and the flag is cleared; otherwise nothing changes |
| `EventLoop.TakesRebuild` | src/main.rs:85-91 | definition (no contract): a voice state change by the operator, or into the known channel, takes the rebuild branch |
| `EventLoop.Dispatch` | src/main.rs:83-117 | definition (no contract): a non-voice event changes nothing; the operator's event sets the channel; a channel equal to the known one rebuilds, any other removes that user |
| `EventLoop.StepSpec` | src/main.rs:55-117 | definition (no contract): one iteration is the resync followed by the dispatch of the event |
| `EventLoop.Apply` | src/main.rs:37-53 | definition (no contract): a failed receive goes through `Fail`, a received event through `StepSpec` |
| `EventLoop.Run` | src/main.rs:36-118 | definition (no contract): the receive outcomes applied in order, an error through `Fail` and an event through `StepSpec` |
| `EventLoop.Reconciler.constructor` | src/main.rs:29-34 | the loop starts with no voice channel, an empty roster and a resync pending |
| `EventLoop.Reconciler.OnError` | src/main.rs:39-52 | any receive error sets `needs_update` and leaves the channel, the roster and the file unchanged; a WebSocket error also replaces the connection |
| `EventLoop.Reconciler.RebuildRoster` | src/main.rs:65-77 | clearing the roster and then inserting in a loop over the server's members leaves exactly `Rebuild` of the known channel |
| `EventLoop.Reconciler.Step` | src/main.rs:55-117 | one iteration moves the loop state as `StepSpec` says; the file renders the final roster after a rebuild branch, or the resynced roster when only the resync saved, and it is unchanged otherwise; the operator's event with a server records one `sync_servers` request |
| `EventLoop.Reconciler.RunLoop` | src/main.rs:36-118 | running the loop over a sequence of receive outcomes gives the state `Run` computes |
| `EventLoop.ErrorThenResync` | src/main.rs:39-81 | an error keeps channel and roster, and the next received event of any kind resynchronises from the cache and clears the flag |
| `EventLoop.ResyncFirst` | src/main.rs:56-82 | with a resync pending, the channel is looked up for the operator, the roster is rebuilt for it, and no iteration leaves the flag set |
| `EventLoop.OperatorMoveRebuilds` | src/main.rs:85-109 | the operator's voice change sets the known channel to the event's channel and always rebuilds the roster for it |
| `EventLoop.StepIdempotent` | src/main.rs:91-114 | an event taking the rebuild branch leaves the roster equal to the rebuild for the known channel, and repeating any event on the same cache changes nothing |
| `EventLoop.RemovalTouchesOneUser` | src/main.rs:110-114 | a non-operator's move away from the known channel removes only that user; channel, flag and all other entries are unchanged, and an absent user leaves the state unchanged |
| `EventLoop.JoinThenLeave` | src/main.rs:91-114 | a server member joining the known channel is in the roster afterwards, and their next move elsewhere removes them |
| `EventLoop.ResyncEstablishesSync` | src/main.rs:56-114 | after a resync, whatever the event, the roster is exactly the rebuild of the operator's channel in the cache, provided the cache reflects the event |
| `EventLoop.StepPreservesSync` | src/main.rs:83-117 | when the cache changed by the event alone, every iteration keeps the roster exactly equal to the rebuild of the operator's channel |
| `EventLoop.RunKeepsSync` | src/main.rs:29-117 | from the start of `main`, after any well-formed run, the roster equals the rebuild of the operator's channel if the last receive succeeded, and a resync is pending if it failed |

## Left out

- `DiscordConfig::load`/`save` (src/main.rs:121-145): JSON parsing and file I/O in libraries that are not part of this model.
- Login and connection establishment with `Retry::new(..).wait_between(200, 60000)` (src/main.rs:16-27, 42-49): the backoff policy lives inside the `retry` crate and is not part of this model. A WebSocket error is modelled only as a count of replaced connections, and no backoff property is stated.
- `connection.sync_servers` (src/main.rs:88): a network request, recorded only as a ghost list of requested server ids.
- `state.update` and the internals of the `State` cache (src/main.rs:27, 55, 57, 67, 70): each iteration receives the updated cache as a `Snapshot`. `find_voice_user` is reduced to the channel it reports, dropping the server id.
- The file writes and the `println!` logging (src/main.rs:40, 79, 108, 112, 162-165): the file is a field holding the last written text. A failed `File::create` or `write_all` panics through `expect`, and that is not modelled.
- The iteration order of `HashMap::values` (src/main.rs:157-158): it is left open. `RenderRoster` picks keys in an unspecified order, and the file content is stated up to that order (`Renders`).
- The loop runs forever; `RunLoop` and `Run` cover any finite prefix of its receive outcomes.
- User, channel and server ids are 64-bit in the library; here they are unbounded naturals, since the loop only compares them.
- The sync theorems assume that a non-voice event leaves the cache unchanged. In the library, events such as a server sync can change member lists; the loop then keeps the old roster until the next rebuild, and no invariant is claimed for that case.
