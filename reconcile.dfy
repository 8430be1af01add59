/**
 The full rebuild of the roster (src/main.rs:65-77, written out a second time at 92-107):
 walk the member list of the server that owns the operator's voice channel and keep
 every member whose voice channel is that channel, under the member's display name.
 */
module Reconcile {
  import opened DiscordState

  /** The user ids listed in a member list. */
  function MemberIds(ms: seq<Member>): set<UserId>
  {
    set i | 0 <= i < |ms| :: ms[i].id
  }

  /** The members the rebuild walks: those of the server owning `vc` when `vc` is a
      public channel, and nobody otherwise. */
  function ServerMembers(s: Snapshot, vc: Option<ChannelId>): seq<Member>
  {
    match vc
    case None => []
    case Some(c) => if FindChannel(s, c).Public? then FindChannel(s, c).members else []
  }

  /** The map the `for member in &server.members` loop leaves behind after visiting the
      members `ms` in order: a member sitting in `c` is inserted, a later entry with the
      same id overwriting an earlier one, as `HashMap::insert` does. */
  function Collect(s: Snapshot, ms: seq<Member>, c: ChannelId): (r: map<UserId, string>)
    ensures forall u :: u in r <==> u in MemberIds(ms) && FindVoiceUser(s, u) == Some(c)
    ensures forall u :: u in r ==> Member(u, r[u]) in ms
    decreases |ms|
  {
    if ms == [] then map[]
    else
      var init := ms[..|ms| - 1];
      var m := ms[|ms| - 1];
      assert ms == init + [m];
      assert MemberIds(ms) == MemberIds(init) + {m.id} by {
        forall u | u in MemberIds(ms) ensures u in MemberIds(init) + {m.id} {
          var i :| 0 <= i < |ms| && ms[i].id == u;
          if i < |init| { assert init[i] == ms[i]; }
        }
      }
      var r := Collect(s, init, c);
      if FindVoiceUser(s, m.id) == Some(c) then r[m.id := m.name] else r
  }

  /** The roster a rebuild produces for the operator's channel `vc`. */
  function Rebuild(s: Snapshot, vc: Option<ChannelId>): (r: map<UserId, string>)
    ensures forall u :: u in r <==> u in MemberIds(ServerMembers(s, vc)) && vc.Some? && FindVoiceUser(s, u) == vc
    ensures forall u :: u in r ==> Member(u, r[u]) in ServerMembers(s, vc)
  {
    match vc
    case None => map[]
    case Some(c) =>
      match FindChannel(s, c)
      case Public(ms) => Collect(s, ms, c)
      case Other => map[]
  }

  /** Without a voice channel, or when it is not a server channel, the roster is empty. */
  lemma RebuildEmpty(s: Snapshot, vc: Option<ChannelId>)
    requires vc.None? || !FindChannel(s, vc.value).Public?
    ensures Rebuild(s, vc) == map[]
  {
  }

  /** When the server lists every user once, each co-located member is in the roster under
      exactly the name the member list gives. */
  lemma RebuildNames(s: Snapshot, vc: Option<ChannelId>)
    requires forall i, j :: 0 <= i < j < |ServerMembers(s, vc)| ==>
      ServerMembers(s, vc)[i].id != ServerMembers(s, vc)[j].id
    ensures forall i :: 0 <= i < |ServerMembers(s, vc)| && FindVoiceUser(s, ServerMembers(s, vc)[i].id) == vc ==>
      var m := ServerMembers(s, vc)[i];
      m.id in Rebuild(s, vc) && Rebuild(s, vc)[m.id] == m.name
  {
    var ms := ServerMembers(s, vc);
    var r := Rebuild(s, vc);
    forall i | 0 <= i < |ms| && FindVoiceUser(s, ms[i].id) == vc
      ensures ms[i].id in r && r[ms[i].id] == ms[i].name
    {
      assert ms[i].id in MemberIds(ms);
      var j :| 0 <= j < |ms| && ms[j] == Member(ms[i].id, r[ms[i].id]);
      assert ms[j].id == ms[i].id;
    }
  }

  /** Collecting over a cache in which only `u` moved, and moved away from `c`, gives the
      same map without `u`. */
  lemma {:induction false} CollectAfterLeave(s: Snapshot, s': Snapshot, ms: seq<Member>, c: ChannelId, u: UserId)
    requires forall v :: v != u ==> FindVoiceUser(s', v) == FindVoiceUser(s, v)
    requires FindVoiceUser(s', u) != Some(c)
    ensures Collect(s', ms, c) == Collect(s, ms, c) - {u}
    decreases |ms|
  {
    if ms != [] {
      var init := ms[..|ms| - 1];
      var m := ms[|ms| - 1];
      CollectAfterLeave(s, s', init, c, u);
      var r := Collect(s, init, c);
      var sits := FindVoiceUser(s, m.id) == Some(c);
      assert Collect(s, ms, c) == if sits then r[m.id := m.name] else r;
      assert Collect(s', ms, c) == if m.id != u && sits then (r - {u})[m.id := m.name] else r - {u};
      RemoveAfterInsert(r, u, m.id, m.name, sits);
    }
  }

  /** Removing `u` after a conditional insert is the same as doing the insert only for
      keys other than `u` on the map without `u`. */
  lemma RemoveAfterInsert(r: map<UserId, string>, u: UserId, k: UserId, name: string, insert: bool)
    ensures (if insert then r[k := name] else r) - {u} == if k != u && insert then (r - {u})[k := name] else r - {u}
  {
    if insert && k == u {
      assert r[k := name] - {u} == r - {u};
    } else if insert {
      assert r[k := name] - {u} == (r - {u})[k := name];
    }
  }

  /** The incremental removal agrees with a full rebuild: when only `u` changed voice
      channel, away from `vc`, rebuilding the new cache equals the old roster minus `u`. */
  lemma RebuildAfterLeave(s: Snapshot, s': Snapshot, vc: Option<ChannelId>, u: UserId)
    requires s'.channels == s.channels
    requires forall v :: v != u ==> FindVoiceUser(s', v) == FindVoiceUser(s, v)
    requires FindVoiceUser(s', u) != vc
    ensures Rebuild(s', vc) == Rebuild(s, vc) - {u}
  {
    match vc
    case None =>
    case Some(c) =>
      assert FindChannel(s', c) == FindChannel(s, c);
      match FindChannel(s, c)
      case Public(ms) => CollectAfterLeave(s, s', ms, c, u);
      case Other =>
  }
}
