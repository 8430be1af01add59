/**
 The part of the Discord client library that the event loop of `src/main.rs` relies on:
 identifiers, the gateway events it reacts to, and the state cache seen as a read-only
 snapshot.  The cache is kept up to date by the library (`state.update(&event)`); here
 each loop iteration is simply handed the snapshot as it stands after that update.
 */
module DiscordState {

  datatype Option<T> = None | Some(value: T)

  type UserId = nat
  type ChannelId = nat
  type ServerId = nat

  /** An entry of `server.members`: the member's user id and display name. */
  datatype Member = Member(id: UserId, name: string)

  /** What `find_channel` tells about a channel: a server channel (`ChannelRef::Public`),
      which carries the member list of its server, or anything else (a private or group
      channel, or a channel the cache does not know). */
  datatype ChannelKind = Public(members: seq<Member>) | Other

  /** The state cache after the current event was applied.
      `me` is `state.user().id`, `voice` answers `find_voice_user`,
      `channels` answers `find_channel`. */
  datatype Snapshot = Snapshot(
    me: UserId,
    voice: map<UserId, ChannelId>,
    channels: map<ChannelId, ChannelKind>)

  /** The events of the gateway that the loop distinguishes: a voice state change of one
      user (with the server it happened in, if any) and everything else. */
  datatype Event =
    | VoiceStateUpdate(server: Option<ServerId>, user: UserId, channel: Option<ChannelId>)
    | OtherEvent

  /** A failed `recv_event`: a WebSocket error (the connection is replaced) or any other. */
  datatype RecvError = WebSocket | OtherError

  /** The voice channel the cache reports for `u`, if any. */
  function FindVoiceUser(s: Snapshot, u: UserId): Option<ChannelId>
  {
    if u in s.voice then Some(s.voice[u]) else None
  }

  /** The cache's description of channel `c`. */
  function FindChannel(s: Snapshot, c: ChannelId): ChannelKind
  {
    if c in s.channels then s.channels[c] else Other
  }

  /** The cache after user `u`'s voice state changed to `ch`, and nothing else. */
  function ApplyVoice(s: Snapshot, u: UserId, ch: Option<ChannelId>): (r: Snapshot)
    ensures FindVoiceUser(r, u) == ch
    ensures forall v :: v != u ==> FindVoiceUser(r, v) == FindVoiceUser(s, v)
    ensures r.me == s.me && r.channels == s.channels
  {
    match ch
    case Some(c) => s.(voice := s.voice[u := c])
    case None => s.(voice := s.voice - {u})
  }

  /** The snapshot already contains what the event announces. */
  predicate Reflects(s: Snapshot, e: Event)
  {
    e.VoiceStateUpdate? ==> FindVoiceUser(s, e.user) == e.channel
  }

  /** `s` is the cache obtained from `prev` by applying event `e` alone. */
  predicate Follows(prev: Snapshot, e: Event, s: Snapshot)
  {
    match e
    case OtherEvent => s == prev
    case VoiceStateUpdate(_, u, ch) => s == ApplyVoice(prev, u, ch)
  }
}
