/**
 The body of the event loop in `main` (src/main.rs:29-117).  Its state is the operator's
 known voice channel, the roster and the `needs_update` flag.  A failed receive sets the
 flag; a received event first resynchronises when the flag is set, then routes voice
 state changes either to a full rebuild of the roster or to the removal of one user.

 `LoopState` and the functions `Resync`, `Dispatch` and `StepSpec` state what one iteration
 does to that state; the class `Reconciler` performs it in place, and the lemmas at the
 end prove what the iterations guarantee.
 */
module EventLoop {
  import opened DiscordState
  import opened Reconcile
  import opened Roster

  /** The loop's state: `voice_channel`, the keys and names of `users`, `needs_update`. */
  datatype LoopState = LoopState(
    voiceChannel: Option<ChannelId>,
    users: map<UserId, string>,
    needsUpdate: bool)

  /** The state before the first event (src/main.rs:29-34). */
  function Initial(): LoopState
  {
    LoopState(None, map[], true)
  }

  /** A failed `recv_event`, whatever the error (src/main.rs:39-52). */
  function Fail(st: LoopState): LoopState
  {
    st.(needsUpdate := true)
  }

  /** The resynchronisation done before looking at a received event (src/main.rs:56-82). */
  function Resync(st: LoopState, s: Snapshot): LoopState
  {
    if st.needsUpdate then
      var vc := FindVoiceUser(s, s.me);
      LoopState(vc, Rebuild(s, vc), false)
    else st
  }

  /** Whether the event takes the rebuild branch at src/main.rs:91. */
  predicate TakesRebuild(st: LoopState, e: Event, s: Snapshot)
  {
    e.VoiceStateUpdate? && (e.user == s.me || e.channel == st.voiceChannel)
  }

  /** The handling of the event itself (src/main.rs:83-117). */
  function Dispatch(st: LoopState, e: Event, s: Snapshot): LoopState
  {
    match e
    case OtherEvent => st
    case VoiceStateUpdate(_, u, ch) =>
      var vc := if u == s.me then ch else st.voiceChannel;
      if ch == vc then LoopState(vc, Rebuild(s, vc), st.needsUpdate)
      else LoopState(vc, st.users - {u}, st.needsUpdate)
  }

  /** One iteration on a received event `e`, with `s` the cache after `e` was applied. */
  function StepSpec(st: LoopState, e: Event, s: Snapshot): LoopState
  {
    Dispatch(Resync(st, s), e, s)
  }

  /** What one `recv_event` may deliver. */
  datatype Input = Received(event: Event, snapshot: Snapshot) | Failed(error: RecvError)

  /** One receive outcome, as the `match connection.recv_event()` routes it (src/main.rs:37-53). */
  function Apply(st: LoopState, input: Input): LoopState
  {
    match input
    case Received(e, s) => StepSpec(st, e, s)
    case Failed(_) => Fail(st)
  }

  /** The state after the loop has consumed `inputs` in order. */
  function Run(st: LoopState, inputs: seq<Input>): LoopState
    decreases |inputs|
  {
    if inputs == [] then st else Apply(Run(st, inputs[..|inputs| - 1]), inputs[|inputs| - 1])
  }

  /** The roster invariant: no resync pending, the known channel is the operator's channel
      in the cache, and the roster is exactly the rebuild for that channel. */
  predicate Synced(st: LoopState, s: Snapshot)
  {
    && !st.needsUpdate
    && st.voiceChannel == FindVoiceUser(s, s.me)
    && st.users == Rebuild(s, st.voiceChannel)
  }

  /** The loop state as `main` keeps it, with the roster store and its file. */
  class Reconciler {
    var voiceChannel: Option<ChannelId>
    var needsUpdate: bool
    const users: Users
    /** The servers `sync_servers` was asked to refresh, in order. */
    ghost var syncRequests: seq<ServerId>
    /** How many times the connection was replaced after a WebSocket error. */
    ghost var reconnects: nat

    /** The loop state these fields hold. */
    function Current(): LoopState
      reads this, users
    {
      LoopState(voiceChannel, users.entries, needsUpdate)
    }

    constructor (filename: string)
      ensures Current() == Initial()
      ensures fresh(users) && users.filename == filename && users.file == None
      ensures syncRequests == [] && reconnects == 0
    {
      voiceChannel := None;
      needsUpdate := true;
      users := new Users(filename);
      syncRequests := [];
      reconnects := 0;
    }

    /** A failed receive: a WebSocket error replaces the connection, and every error asks
        for a resynchronisation; channel, roster and file stay as they are. */
    method OnError(err: RecvError)
      modifies this`needsUpdate, this`reconnects
      ensures Current() == Fail(old(Current()))
      ensures needsUpdate && voiceChannel == old(voiceChannel) && users.entries == old(users.entries)
      ensures reconnects == old(reconnects) + (if err.WebSocket? then 1 else 0)
      ensures syncRequests == old(syncRequests)
    {
      if err.WebSocket? {
        reconnects := reconnects + 1;
      }
      needsUpdate := true;
    }

    /** The full rebuild: clear the roster, then insert every member of the channel's
        server who sits in the channel. */
    method RebuildRoster(s: Snapshot)
      modifies users`entries
      ensures users.entries == Rebuild(s, voiceChannel)
    {
      users.Clear();
      if voiceChannel.Some? {
        var c := voiceChannel.value;
        match FindChannel(s, c)
        case Public(ms) =>
          for i := 0 to |ms|
            invariant users.entries == Collect(s, ms[..i], c)
          {
            var m := ms[i];
            assert ms[..i + 1][..i] == ms[..i];
            if FindVoiceUser(s, m.id) == Some(c) {
              users.Insert(m.id, m.name);
            }
          }
          assert ms[..|ms|] == ms;
        case Other =>
      }
    }

    /** One iteration on a received event `e`; `s` is the cache after `state.update`. */
    method Step(e: Event, s: Snapshot)
      modifies this, users
      ensures Current() == StepSpec(old(Current()), e, s)
      ensures TakesRebuild(Resync(old(Current()), s), e, s) ==>
        users.file.Some? && Renders(users.file.value, users.entries)
      ensures !TakesRebuild(Resync(old(Current()), s), e, s) && old(needsUpdate) ==>
        users.file.Some? && Renders(users.file.value, Resync(old(Current()), s).users)
      ensures !TakesRebuild(Resync(old(Current()), s), e, s) && !old(needsUpdate) ==>
        users.file == old(users.file)
      ensures syncRequests == old(syncRequests) +
        (if e.VoiceStateUpdate? && e.user == s.me && e.server.Some? then [e.server.value] else [])
      ensures reconnects == old(reconnects)
    {
      if needsUpdate {
        voiceChannel := FindVoiceUser(s, s.me);
        RebuildRoster(s);
        users.Save();
        needsUpdate := false;
      }
      match e
      case VoiceStateUpdate(server, u, ch) =>
        if u == s.me {
          voiceChannel := ch;
          if server.Some? {
            syncRequests := syncRequests + [server.value];
          }
        }
        if ch == voiceChannel {
          RebuildRoster(s);
          users.Save();
        } else {
          var removed := users.Remove(u);
        }
      case OtherEvent =>
    }

    /** The loop run over a finite sequence of receive outcomes. */
    method RunLoop(inputs: seq<Input>)
      modifies this, users
      ensures Current() == Run(old(Current()), inputs)
    {
      for i := 0 to |inputs|
        invariant Current() == Run(old(Current()), inputs[..i])
      {
        assert inputs[..i + 1][..i] == inputs[..i];
        match inputs[i]
        case Received(e, s) => Step(e, s);
        case Failed(err) => OnError(err);
      }
      assert inputs[..|inputs|] == inputs;
    }
  }

  /** A receive error keeps channel and roster and forces the next event to resync. */
  lemma ErrorThenResync(st: LoopState, e: Event, s: Snapshot)
    ensures Fail(st).voiceChannel == st.voiceChannel && Fail(st).users == st.users
    ensures var r := StepSpec(Fail(st), e, s);
      !r.needsUpdate && (e.OtherEvent? ==> r == LoopState(FindVoiceUser(s, s.me), Rebuild(s, FindVoiceUser(s, s.me)), false))
  {
  }

  /** A pending resync is done first, whatever the event: channel looked up, roster rebuilt,
      flag cleared; and no iteration leaves the flag set. */
  lemma ResyncFirst(st: LoopState, e: Event, s: Snapshot)
    requires st.needsUpdate
    ensures Resync(st, s).voiceChannel == FindVoiceUser(s, s.me)
    ensures Resync(st, s).users == Rebuild(s, FindVoiceUser(s, s.me))
    ensures !StepSpec(st, e, s).needsUpdate
  {
  }

  /** The operator's own voice state change sets the channel to the event's channel and
      always rebuilds the roster for it. */
  lemma OperatorMoveRebuilds(st: LoopState, server: Option<ServerId>, ch: Option<ChannelId>, s: Snapshot)
    ensures var r := StepSpec(st, VoiceStateUpdate(server, s.me, ch), s);
      r.voiceChannel == ch && r.users == Rebuild(s, ch) && !r.needsUpdate
  {
  }

  /** An event in the known channel replaces the roster by the rebuild, and repeating any
      event on the same cache changes nothing more. */
  lemma StepIdempotent(st: LoopState, e: Event, s: Snapshot)
    ensures TakesRebuild(Resync(st, s), e, s) ==>
      StepSpec(st, e, s).users == Rebuild(s, StepSpec(st, e, s).voiceChannel)
    ensures StepSpec(StepSpec(st, e, s), e, s) == StepSpec(st, e, s)
  {
    var r := StepSpec(st, e, s);
    if e.VoiceStateUpdate? && !TakesRebuild(Resync(st, s), e, s) {
      assert r.users - {e.user} == r.users;
    }
  }

  /** A voice state change away from the known channel, by someone else, removes that user
      and nothing else; if the user was not listed the state is unchanged. */
  lemma RemovalTouchesOneUser(st: LoopState, server: Option<ServerId>, u: UserId, ch: Option<ChannelId>, s: Snapshot)
    requires !st.needsUpdate && u != s.me && ch != st.voiceChannel
    ensures var r := StepSpec(st, VoiceStateUpdate(server, u, ch), s);
      && r.voiceChannel == st.voiceChannel && r.needsUpdate == st.needsUpdate
      && u !in r.users
      && (forall v :: v != u ==> (v in r.users <==> v in st.users))
      && (forall v :: v in r.users ==> r.users[v] == st.users[v])
      && (u !in st.users ==> r == st)
  {
    if u !in st.users {
      assert st.users - {u} == st.users;
    }
  }

  /** A non-operator joining the known channel shows up in the roster when the cache lists
      them in the channel's server; their next move elsewhere takes them out again. */
  lemma JoinThenLeave(st: LoopState, server: Option<ServerId>, u: UserId, c: ChannelId, ch: Option<ChannelId>,
                      s1: Snapshot, s2: Snapshot)
    requires !st.needsUpdate && st.voiceChannel == Some(c) && u != s1.me && s2.me == s1.me
    requires Reflects(s1, VoiceStateUpdate(server, u, Some(c)))
    requires u in MemberIds(ServerMembers(s1, Some(c)))
    requires ch != Some(c)
    ensures var r1 := StepSpec(st, VoiceStateUpdate(server, u, Some(c)), s1);
      && u in r1.users
      && u !in StepSpec(r1, VoiceStateUpdate(server, u, ch), s2).users
  {
  }

  /** After a resync the roster invariant holds, whatever the event, as long as the cache
      reflects the event. */
  lemma ResyncEstablishesSync(st: LoopState, e: Event, s: Snapshot)
    requires st.needsUpdate && Reflects(s, e)
    ensures Synced(StepSpec(st, e, s), s)
  {
    var mid := Resync(st, s);
    if e.VoiceStateUpdate? && !TakesRebuild(mid, e, s) {
      assert e.user !in mid.users;
      assert mid.users - {e.user} == mid.users;
    }
  }

  /** Every iteration keeps the roster invariant when the cache moved by the event alone:
      in particular the removal branch leaves exactly what a rebuild would give. */
  lemma StepPreservesSync(st: LoopState, prev: Snapshot, e: Event, s: Snapshot)
    requires Synced(st, prev) && Follows(prev, e, s)
    ensures Synced(StepSpec(st, e, s), s)
  {
    match e
    case OtherEvent =>
    case VoiceStateUpdate(_, u, ch) =>
      if u != s.me && ch != st.voiceChannel {
        RebuildAfterLeave(prev, s, st.voiceChannel, u);
      }
  }

  /** The inputs a live session produces: each cache reflects its event, and a cache that
      follows a received event differs from the previous one by that event alone.  After
      a failed receive the next cache is unconstrained, since the session may be new. */
  predicate WellFormed(inputs: seq<Input>)
  {
    forall i :: 0 <= i < |inputs| && inputs[i].Received? ==>
      && Reflects(inputs[i].snapshot, inputs[i].event)
      && (0 < i && inputs[i - 1].Received? ==>
            Follows(inputs[i - 1].snapshot, inputs[i].event, inputs[i].snapshot))
  }

  /** From the start of `main`, after any well-formed run: when the last receive succeeded
      the roster is exactly the operator's co-located users, and when it failed a resync
      is pending. */
  lemma {:induction false} RunKeepsSync(inputs: seq<Input>)
    requires |inputs| > 0 && WellFormed(inputs)
    ensures var st := Run(Initial(), inputs);
      match inputs[|inputs| - 1]
      case Received(_, s) => Synced(st, s)
      case Failed(_) => st.needsUpdate
    decreases |inputs|
  {
    var n := |inputs|;
    var init := inputs[..n - 1];
    var before := Run(Initial(), init);
    assert WellFormed(init) by {
      forall i | 0 <= i < |init| && init[i].Received?
        ensures Reflects(init[i].snapshot, init[i].event)
        ensures 0 < i && init[i - 1].Received? ==>
          Follows(init[i - 1].snapshot, init[i].event, init[i].snapshot)
      {
        assert init[i] == inputs[i];
        if 0 < i { assert init[i - 1] == inputs[i - 1]; }
      }
    }
    if n > 1 {
      RunKeepsSync(init);
    }
    match inputs[n - 1]
    case Failed(_) =>
    case Received(e, s) =>
      if n > 1 && inputs[n - 2].Received? {
        assert init[n - 2] == inputs[n - 2];
        StepPreservesSync(before, inputs[n - 2].snapshot, e, s);
      } else {
        ResyncEstablishesSync(before, e, s);
      }
  }
}
