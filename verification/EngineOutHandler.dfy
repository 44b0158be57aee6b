/**
 * The engine's lists of running skirmish AIs: who is told of an event, and which AIs are left to
 * release when the game ends.
 */
module EngineOutHandler {
  import opened Wrappers
  import opened SkirmishAIProtocol
  import Registry = SkirmishAIHandler
  import opened SkirmishAIWrapper

  const MAX_TEAMS := 255

  ghost predicate NoDuplicates(s: seq<int>) {
    forall i, j :: 0 <= i < j < |s| ==> s[i] != s[j]
  }

  /** Erasing the first occurrence. */
  function Without(s: seq<int>, id: int): seq<int> {
    if s == [] then [] else if s[0] == id then s[1..] else [s[0]] + Without(s[1..], id)
  }

  lemma {:induction false} WithoutIsOneLess(s: seq<int>, id: int)
    requires NoDuplicates(s)
    ensures NoDuplicates(Without(s, id))
    ensures forall i :: i in Without(s, id) <==> i in s && i != id
    ensures |Without(s, id)| == |s| - if id in s then 1 else 0
  {
    if s != [] {
      assert s == [s[0]] + s[1..];
      WithoutIsOneLess(s[1..], id);
      assert s[0] !in s[1..];
    }
  }

  /** Pushing an id keeps a list free of duplicates exactly when the id is new to it. */
  lemma PushNeedsNewId(s: seq<int>, id: int)
    requires NoDuplicates(s)
    ensures NoDuplicates(s + [id]) <==> id !in s
    ensures forall i :: i in s + [id] <==> i in s || i == id
  {
    var r := s + [id];
    if id in s {
      var i :| 0 <= i < |s| && s[i] == id;
      assert r[i] == r[|s|];
    }
  }

  /** Erasing the last of a duplicate-free list is popping it. */
  lemma {:induction false} WithoutLast(s: seq<int>)
    requires NoDuplicates(s) && s != []
    ensures Without(s, s[|s| - 1]) == s[..|s| - 1]
  {
    if |s| > 1 {
      WithoutLast(s[1..]);
      assert s[..|s| - 1] == [s[0]] + s[1..][..|s| - 2];
    }
  }

  lemma HasMember(s: seq<int>)
    ensures s == [] || exists i :: i in s
  {
    if s != [] {
      var first := s[0];
      assert first in s;
    }
  }

  function ToldAlone(h: Host, id: int, s: Sending): Host {
    if s.id == id then Deliver(h, Other(s.code), s.answer) else h
  }

  /** Only an AI in the lists is told. */
  function Overheard(h: Host, listed: bool, id: int, sendings: seq<Sending>): Host {
    if listed then Told(h, id, sendings) else h
  }

  function Addressed(id: int, code: int, answer: int -> Answer): Sending {
    Sending(id, code, answer(id))
  }

  /** An event for each AI of a list in turn, with the events its handling provokes at other AIs. */
  function Broadcast(ids: seq<int>, code: int, answer: int -> Answer, aside: int -> seq<Sending>): seq<Sending> {
    if ids == [] then []
    else
      var last := ids[|ids| - 1];
      Broadcast(ids[..|ids| - 1], code, answer, aside) + ([Addressed(last, code, answer)] + aside(last))
  }

  /** Without such side events each AI of the list is told exactly once, and no other AI notices. */
  lemma {:induction false} BroadcastTellsOnce(
    ids: seq<int>, code: int, answer: int -> Answer, aside: int -> seq<Sending>, h: Host, id: int)
    requires NoDuplicates(ids) && forall i :: aside(i) == []
    ensures Told(h, id, Broadcast(ids, code, answer, aside))
         == if id in ids then Deliver(h, Other(code), answer(id)) else h
  {
    if ids != [] {
      var front, last := ids[..|ids| - 1], ids[|ids| - 1];
      BroadcastTellsOnce(front, code, answer, aside, h, id);
      ToldOneMore(h, id, Broadcast(front, code, answer, aside), Addressed(last, code, answer));
      assert [Addressed(last, code, answer)] + aside(last) == [Addressed(last, code, answer)];
      assert ids == front + [last];
      assert last !in front;
    }
  }

  lemma {:induction false} NotTold(h: Host, id: int, sendings: seq<Sending>)
    requires forall s :: s in sendings ==> s.id != id
    ensures Told(h, id, sendings) == h
  {
    if sendings != [] {
      assert sendings[|sendings| - 1] in sendings;
      NotTold(h, id, sendings[..|sendings| - 1]);
    }
  }

  /** The events provoked elsewhere while AIs k and up are released, the last one first. */
  function ReleaseAsides(ids: seq<int>, k: nat, aside: int -> seq<Sending>): seq<Sending>
    requires k <= |ids|
    decreases |ids| - k
  {
    if k == |ids| then [] else ReleaseAsides(ids, k + 1, aside) + aside(ids[k])
  }

  /** A host after the AIs from k up have been released, the last one first. */
  function Leftover(h: Host, ids: seq<int>, k: nat, release: int -> Answer, unload: int -> Answer,
                    aside: int -> seq<Sending>, id: int): Host
    requires k <= |ids|
    decreases |ids| - k
  {
    if k == |ids| then h
    else
      var before := Leftover(h, ids, k + 1, release, unload, aside, id);
      if id == ids[k] then Unloaded(before, release(id), unload(id))
      else Overheard(before, id in ids[..k], id, aside(ids[k]))
  }

  /**
   * Every AI of the list is told of what the releases after it in the list provoked, released once, and
   * then left alone; any other host is left alone throughout.
   */
  lemma {:induction false} EachIsReleasedOnce(h: Host, ids: seq<int>, k: nat, release: int -> Answer,
                                              unload: int -> Answer, aside: int -> seq<Sending>, id: int)
    requires k <= |ids| && NoDuplicates(ids)
    ensures
      var left := Leftover(h, ids, k, release, unload, aside, id);
      && (id !in ids ==> left == h)
      && (id in ids[..k] ==> left == Told(h, id, ReleaseAsides(ids, k, aside)))
      && forall i :: k <= i < |ids| && ids[i] == id ==>
           left == Unloaded(Told(h, id, ReleaseAsides(ids, i + 1, aside)), release(id), unload(id))
    decreases |ids| - k
  {
    if k < |ids| {
      EachIsReleasedOnce(h, ids, k + 1, release, unload, aside, id);
      assert ids[..k + 1] == ids[..k] + [ids[k]];
      assert id in ids[..k] ==> id in ids;
      ToldConcat(h, id, ReleaseAsides(ids, k + 1, aside), aside(ids[k]));
    }
  }

  class EngineOutHandler {
    const handler: Registry.SkirmishAIHandler
    const hostSkirmishAIs: seq<SkirmishAIWrapper>
    var teamSkirmishAIs: seq<seq<int>>
    var activeSkirmishAIs: seq<int>

    constructor (handler: Registry.SkirmishAIHandler)
      requires |handler.aiKillFlags| == Registry.MAX_AIS
      ensures Valid() && this.handler == handler
      ensures activeSkirmishAIs == [] && fresh(hostSkirmishAIs)
    {
      var hosts: seq<SkirmishAIWrapper> := [];
      while |hosts| < Registry.MAX_AIS
        invariant |hosts| <= Registry.MAX_AIS && fresh(hosts)
        invariant forall h :: h in hosts ==> h.handler == handler && h.skirmishAIId == h.teamId == INACTIVE
        invariant forall i, j :: 0 <= i < j < |hosts| ==> hosts[i] != hosts[j]
      {
        var h := new SkirmishAIWrapper(handler);
        hosts := hosts + [h];
      }
      this.handler, hostSkirmishAIs := handler, hosts;
      teamSkirmishAIs, activeSkirmishAIs := seq(MAX_TEAMS, _ => []), [];
    }

    /** The wrappers are distinct objects sharing one registry. */
    ghost predicate Built()
      reads handler`aiKillFlags
    {
      && |hostSkirmishAIs| == Registry.MAX_AIS
      && |handler.aiKillFlags| == Registry.MAX_AIS
      && (forall i :: 0 <= i < Registry.MAX_AIS ==> hostSkirmishAIs[i].handler == handler)
      && (forall i, j :: 0 <= i < j < Registry.MAX_AIS ==> hostSkirmishAIs[i] != hostSkirmishAIs[j])
    }

    ghost function HostState(id: AIId): Host
      requires Built()
      reads hostSkirmishAIs, handler`aiKillFlags
    {
      hostSkirmishAIs[id].State(id)
    }

    ghost predicate HostFits(id: AIId)
      requires Built()
      reads this, hostSkirmishAIs, handler`aiKillFlags
    {
      var h := hostSkirmishAIs[id];
      if id in activeSkirmishAIs
      then
        && h.skirmishAIId == id && 0 <= h.teamId < |teamSkirmishAIs|
        && id in teamSkirmishAIs[h.teamId] && AtRest(h.State(id))
      else h.skirmishAIId == INACTIVE && h.teamId == INACTIVE
    }

    ghost predicate TeamFits(t: int)
      requires Built() && 0 <= t < |teamSkirmishAIs|
      reads this, hostSkirmishAIs, handler`aiKillFlags
    {
      && NoDuplicates(teamSkirmishAIs[t])
      && forall id :: id in teamSkirmishAIs[t] ==>
           0 <= id < Registry.MAX_AIS && id in activeSkirmishAIs && hostSkirmishAIs[id].teamId == t
    }

    /** The active AIs are, without duplicates, the disjoint union of the teams' AIs. */
    ghost predicate Valid()
      reads this, hostSkirmishAIs, handler`aiKillFlags
    {
      && Built() && |teamSkirmishAIs| == MAX_TEAMS
      && NoDuplicates(activeSkirmishAIs)
      && (forall id :: id in activeSkirmishAIs ==> 0 <= id < Registry.MAX_AIS)
      && (forall id: AIId :: HostFits(id))
      && (forall t :: 0 <= t < MAX_TEAMS ==> TeamFits(t))
    }

    /** Each id is in one team's list, its wrapper's team, if it is active, and else in none. */
    lemma ListsPartition(id: AIId, t: int)
      requires Valid() && 0 <= t < MAX_TEAMS
      ensures id in teamSkirmishAIs[t] <==> id in activeSkirmishAIs && hostSkirmishAIs[id].teamId == t
    {
      assert HostFits(id) && TeamFits(t);
    }

    /** A wrapper's team indexes a list exactly while its AI is active. */
    lemma TeamIsListed(id: AIId)
      requires Valid()
      ensures 0 <= hostSkirmishAIs[id].teamId < MAX_TEAMS <==> id in activeSkirmishAIs
    {
      assert HostFits(id);
    }

    lemma NobodyLeft(t: int)
      requires Valid() && activeSkirmishAIs == [] && 0 <= t < MAX_TEAMS
      ensures teamSkirmishAIs[t] == []
    {
      assert TeamFits(t);
      HasMember(teamSkirmishAIs[t]);
    }

    /** In every state the trace of every running AI follows the protocol. */
    lemma RunningAIsFollow(id: AIId)
      requires Valid() && id in activeSkirmishAIs
      ensures Follows(hostSkirmishAIs[id].log)
    {
      assert HostFits(id);
    }

    /** When only one AI's wrapper and membership change, the rest of the invariant carries over. */
    twostate lemma OthersKept(id: AIId)
      requires old(Valid()) && Built() && HostFits(id)
      requires forall j: AIId :: j != id ==> unchanged(hostSkirmishAIs[j])
      requires handler.aiKillFlags == old(handler.aiKillFlags)[id := handler.aiKillFlags[id]]
      requires NoDuplicates(activeSkirmishAIs)
      requires forall j :: j != id ==> (j in activeSkirmishAIs <==> j in old(activeSkirmishAIs))
      requires |teamSkirmishAIs| == MAX_TEAMS
      requires forall t :: 0 <= t < MAX_TEAMS ==> TeamKept(id, t)
      ensures Valid()
    {
      forall j: AIId ensures HostFits(j) {
        assert old(HostFits(j));
        if j != id && j in activeSkirmishAIs {
          assert TeamKept(id, hostSkirmishAIs[j].teamId);
        }
      }
      forall t | 0 <= t < MAX_TEAMS ensures TeamFits(t) {
        assert TeamKept(id, t) && old(TeamFits(t));
      }
    }

    twostate predicate TeamKept(id: AIId, t: int)
      requires 0 <= t < |teamSkirmishAIs| == |old(teamSkirmishAIs)| && Built()
      reads this, hostSkirmishAIs, handler`aiKillFlags
    {
      && NoDuplicates(teamSkirmishAIs[t])
      && (forall j :: j != id ==> (j in teamSkirmishAIs[t] <==> j in old(teamSkirmishAIs)[t]))
      && (id in teamSkirmishAIs[t] ==> id in activeSkirmishAIs && hostSkirmishAIs[id].teamId == t)
    }

    twostate lemma ListedIsKept(id: AIId)
      requires old(Valid()) && Built() && HostFits(id)
      requires id !in old(activeSkirmishAIs) && activeSkirmishAIs == old(activeSkirmishAIs) + [id]
      requires forall j: AIId :: j != id ==> unchanged(hostSkirmishAIs[j])
      requires handler.aiKillFlags == old(handler.aiKillFlags)[id := handler.aiKillFlags[id]]
      requires
        var t := hostSkirmishAIs[id].teamId;
        0 <= t < MAX_TEAMS && teamSkirmishAIs == old(teamSkirmishAIs)[t := old(teamSkirmishAIs)[t] + [id]]
      ensures Valid()
    {
      var t := hostSkirmishAIs[id].teamId;
      PushNeedsNewId(old(activeSkirmishAIs), id);
      assert old(TeamFits(t));
      PushNeedsNewId(old(teamSkirmishAIs)[t], id);
      forall u | 0 <= u < MAX_TEAMS ensures TeamKept(id, u) {
        assert old(TeamFits(u));
      }
      OthersKept(id);
    }

    method ListAI(id: AIId)
      requires Valid() && 0 <= handler.aiInstanceData[id].team < MAX_TEAMS
      requires id !in activeSkirmishAIs
      modifies this, hostSkirmishAIs[id]
      ensures Built() && hostSkirmishAIs[id].skirmishAIId == id
      ensures hostSkirmishAIs[id].teamId == handler.aiInstanceData[id].team
      ensures HostState(id) == PreInited(handler.aiKillFlags[id])
      ensures activeSkirmishAIs == old(activeSkirmishAIs) + [id]
      ensures var t := handler.aiInstanceData[id].team;
        teamSkirmishAIs == old(teamSkirmishAIs)[t := old(teamSkirmishAIs)[t] + [id]]
    {
      var h := hostSkirmishAIs[id];
      h.PreInit(id);
      var t := h.teamId;
      teamSkirmishAIs := teamSkirmishAIs[t := teamSkirmishAIs[t] + [id]];
      activeSkirmishAIs := activeSkirmishAIs + [id];
    }

    /** The part of creation that runs with the AI already listed. */
    method InitListedAI(id: AIId, library: Option<Answer>, init: Answer, news: seq<Happening>)
      requires Built() && hostSkirmishAIs[id].skirmishAIId == id
      requires HostState(id) == PreInited(handler.aiKillFlags[id])
      requires forall n :: n in news ==> n.Happens?
      modifies hostSkirmishAIs[id], handler`aiKillFlags
      ensures Built() && hostSkirmishAIs[id].skirmishAIId == id
      ensures hostSkirmishAIs[id].teamId == old(hostSkirmishAIs[id].teamId)
      ensures HostState(id) == Created(old(handler.aiKillFlags[id]), library, init, news) && AtRest(HostState(id))
      ensures handler.aiKillFlags == old(handler.aiKillFlags)[id := HostState(id).killFlag]
    {
      var h := hostSkirmishAIs[id];
      h.InitAI(id, library, init);
      if !handler.HasLocalKillFlag(id) {
        h.SendNews(id, news);
      }
    }

    /** Sends events one after the other; what is meant for an AI that is not listed is not sent. */
    method Send(sendings: seq<Sending>)
      requires Valid()
      modifies hostSkirmishAIs, handler`aiKillFlags
      ensures Valid()
      ensures forall id: AIId ::
        HostState(id) == Overheard(old(HostState(id)), id in activeSkirmishAIs, id, sendings)
    {
      var i := 0;
      while i < |sendings|
        invariant 0 <= i <= |sendings| && Valid()
        invariant forall id: AIId ::
          HostState(id) == Overheard(old(HostState(id)), id in activeSkirmishAIs, id, sendings[..i])
      {
        assert sendings[..i + 1] == sendings[..i] + [sendings[i]];
        label Before:
        SendOne(sendings[i]);
        forall id: AIId
          ensures HostState(id) == Overheard(old(HostState(id)), id in activeSkirmishAIs, id, sendings[..i + 1])
        {
          assert old@Before(HostState(id)) == Overheard(old(HostState(id)), id in activeSkirmishAIs, id, sendings[..i]);
          ToldConcat(old(HostState(id)), id, sendings[..i], [sendings[i]]);
        }
        i := i + 1;
      }
      assert sendings[..i] == sendings;
    }

    method SendOne(s: Sending)
      requires Valid()
      modifies hostSkirmishAIs, handler`aiKillFlags
      ensures Valid()
      ensures forall id: AIId ::
        HostState(id) == Overheard(old(HostState(id)), id in activeSkirmishAIs, id, [s])
    {
      forall id: AIId ensures Told(HostState(id), id, [s]) == ToldAlone(HostState(id), id, s) {
        ToldOneMore(HostState(id), id, [], s);
        assert [] + [s] == [s];
      }
      if s.id !in activeSkirmishAIs {
        return;
      }
      var id: AIId := s.id;
      assert HostFits(id);
      EventKeepsRest(HostState(id), s.code, s.answer);
      var _ := hostSkirmishAIs[id].HandleEvent(id, Other(s.code), s.answer);
      forall u | 0 <= u < MAX_TEAMS ensures TeamKept(id, u) {
        assert old(TeamFits(u));
      }
      OthersKept(id);
    }

    /** A Lua AI has no host; any other is listed before it is initialised. */
    method CreateSkirmishAI(
      id: AIId, library: Option<Answer>, init: Answer, news: seq<Happening>, aside: seq<Sending>)
      requires Valid() && 0 <= handler.aiInstanceData[id].team < MAX_TEAMS
      requires id !in activeSkirmishAIs
      requires forall n :: n in news ==> n.Happens?
      requires forall s :: s in aside ==> s.id != id
      modifies this, hostSkirmishAIs, handler`aiKillFlags
      ensures Valid()
      ensures
        var data := handler.aiInstanceData[id];
        if data.isLuaAI then
          && activeSkirmishAIs == old(activeSkirmishAIs) && teamSkirmishAIs == old(teamSkirmishAIs)
          && forall j: AIId :: HostState(j) == old(HostState(j))
        else
          && activeSkirmishAIs == old(activeSkirmishAIs) + [id]
          && teamSkirmishAIs == old(teamSkirmishAIs)[data.team := old(teamSkirmishAIs)[data.team] + [id]]
          && HostState(id) == Created(old(handler.aiKillFlags[id]), library, init, news)
          && forall j: AIId :: j != id ==>
               HostState(j) == Overheard(old(HostState(j)), j in old(activeSkirmishAIs), j, aside)
    {
      if handler.aiInstanceData[id].isLuaAI {
        return;
      }
      CreateHostedAI(id, library, init, news);
      ghost var created := HostState(id);
      Send(aside);
      NotTold(created, id, aside);
    }

    method CreateHostedAI(id: AIId, library: Option<Answer>, init: Answer, news: seq<Happening>)
      requires Valid() && 0 <= handler.aiInstanceData[id].team < MAX_TEAMS
      requires id !in activeSkirmishAIs
      requires forall n :: n in news ==> n.Happens?
      modifies this, hostSkirmishAIs[id], handler`aiKillFlags
      ensures Valid()
      ensures activeSkirmishAIs == old(activeSkirmishAIs) + [id]
      ensures
        var t := handler.aiInstanceData[id].team;
        teamSkirmishAIs == old(teamSkirmishAIs)[t := old(teamSkirmishAIs)[t] + [id]]
      ensures HostState(id) == Created(old(handler.aiKillFlags[id]), library, init, news)
      ensures forall j: AIId :: j != id ==> HostState(j) == old(HostState(j))
    {
      ListAI(id);
      InitListedAI(id, library, init, news);
      ListedIsKept(id);
    }

    /** Killing an AI that has no host, a Lua AI, only leaves the reason. */
    method SetLocalKillFlag(id: AIId, reason: nat)
      requires Valid()
      requires handler.aiInstanceData[id].isLuaAI ==> id !in activeSkirmishAIs
      modifies hostSkirmishAIs[id], handler`aiKillFlags
      ensures Valid() && handler.aiKillFlags == old(handler.aiKillFlags)[id := reason]
      ensures id in activeSkirmishAIs ==> HostState(id) == old(HostState(id)).Kill(reason)
    {
      assert HostFits(id);
      if id in activeSkirmishAIs {
        KillFlagKeepsRest(HostState(id), reason);
      }
      handler.StoreKillFlag(id, reason);
      if !handler.aiInstanceData[id].isLuaAI {
        hostSkirmishAIs[id].SetBlockEvents(id);
      }
      forall u | 0 <= u < MAX_TEAMS ensures TeamKept(id, u) {
        assert old(TeamFits(u));
      }
      OthersKept(id);
    }

    /**
     * Takes the AI off both lists before its wrapper sends RELEASE. An AI that is not active has team
     * -1, which indexes no list: nothing but the caller prevents a second destruction.
     */
    method DestroySkirmishAI(id: AIId, release: Answer, unload: Answer, aside: seq<Sending>)
      requires Valid() && id in activeSkirmishAIs
      modifies this, hostSkirmishAIs, handler`aiKillFlags
      ensures Valid()
      ensures activeSkirmishAIs == Without(old(activeSkirmishAIs), id)
      ensures
        var t := old(hostSkirmishAIs[id].teamId);
        0 <= t < MAX_TEAMS && teamSkirmishAIs == old(teamSkirmishAIs)[t := Without(old(teamSkirmishAIs)[t], id)]
      ensures HostState(id) == Unloaded(old(HostState(id)), release, unload)
      ensures Follows(hostSkirmishAIs[id].log)
      ensures forall j: AIId :: j != id ==>
        HostState(j) == Overheard(old(HostState(j)), j in activeSkirmishAIs, j, aside)
    {
      RemoveAI(id, release, unload);
      Send(aside);
    }

    method RemoveAI(id: AIId, release: Answer, unload: Answer)
      requires Valid() && id in activeSkirmishAIs
      modifies this, hostSkirmishAIs[id], handler`aiKillFlags
      ensures Valid()
      ensures activeSkirmishAIs == Without(old(activeSkirmishAIs), id) && id !in activeSkirmishAIs
      ensures
        var t := old(hostSkirmishAIs[id].teamId);
        0 <= t < MAX_TEAMS && teamSkirmishAIs == old(teamSkirmishAIs)[t := Without(old(teamSkirmishAIs)[t], id)]
      ensures HostState(id) == Unloaded(old(HostState(id)), release, unload)
      ensures Follows(hostSkirmishAIs[id].log)
      ensures forall j: AIId :: j != id ==> HostState(j) == old(HostState(j))
    {
      var h := hostSkirmishAIs[id];
      var t := h.teamId;
      assert HostFits(id) && TeamFits(t);
      WithoutIsOneLess(activeSkirmishAIs, id);
      WithoutIsOneLess(teamSkirmishAIs[t], id);
      UnloadingEndsLife(h.State(id), release, unload);
      teamSkirmishAIs := teamSkirmishAIs[t := Without(teamSkirmishAIs[t], id)];
      activeSkirmishAIs := Without(activeSkirmishAIs, id);
      h.Kill(id, release, unload);
      forall u | 0 <= u < MAX_TEAMS ensures TeamKept(id, u) {
        assert old(TeamFits(u));
      }
      OthersKept(id);
    }

    /**
     * Releases every AI that is left, last created first, and both kinds of list end empty. An AI may
     * still be told of what earlier releases provoke, and is then released once.
     */
    method Kill(release: int -> Answer, unload: int -> Answer, aside: int -> seq<Sending>)
      requires Valid()
      modifies this, hostSkirmishAIs, handler`aiKillFlags
      ensures Valid() && activeSkirmishAIs == []
      ensures forall t :: 0 <= t < MAX_TEAMS ==> teamSkirmishAIs[t] == []
      ensures forall id: AIId ::
        HostState(id) == Leftover(old(HostState(id)), old(activeSkirmishAIs), 0, release, unload, aside, id)
    {
      hide Overheard, Unloaded, Told;
      ghost var ids := activeSkirmishAIs;
      while activeSkirmishAIs != []
        invariant Valid() && |activeSkirmishAIs| <= |ids| && activeSkirmishAIs == ids[..|activeSkirmishAIs|]
        invariant forall id: AIId ::
          HostState(id) == Leftover(old(HostState(id)), ids, |activeSkirmishAIs|, release, unload, aside, id)
        decreases |activeSkirmishAIs|
      {
        var id := activeSkirmishAIs[|activeSkirmishAIs| - 1];
        assert id in activeSkirmishAIs;
        WithoutLast(activeSkirmishAIs);
        DestroySkirmishAI(id, release(id), unload(id), aside(id));
        assert activeSkirmishAIs == ids[..|activeSkirmishAIs|];
      }
      forall t | 0 <= t < MAX_TEAMS ensures teamSkirmishAIs[t] == [] {
        NobodyLeft(t);
      }
    }

    /** An event for every AI of a list of running ones. */
    method SendTo(ids: seq<int>, code: int, answer: int -> Answer, aside: int -> seq<Sending>)
      requires Valid()
      modifies hostSkirmishAIs, handler`aiKillFlags
      ensures Valid()
      ensures forall id: AIId ::
        HostState(id)
        == Overheard(old(HostState(id)), id in activeSkirmishAIs, id, Broadcast(ids, code, answer, aside))
    {
      var i := 0;
      while i < |ids|
        invariant 0 <= i <= |ids| && Valid()
        invariant forall id: AIId ::
          HostState(id)
          == Overheard(old(HostState(id)), id in activeSkirmishAIs, id, Broadcast(ids[..i], code, answer, aside))
      {
        assert ids[..i + 1][..i] == ids[..i];
        label Before:
        var next := [Addressed(ids[i], code, answer)] + aside(ids[i]);
        Send(next);
        forall id: AIId
          ensures
            HostState(id)
            == Overheard(old(HostState(id)), id in activeSkirmishAIs, id, Broadcast(ids[..i + 1], code, answer, aside))
        {
          assert old@Before(HostState(id))
            == Overheard(old(HostState(id)), id in activeSkirmishAIs, id, Broadcast(ids[..i], code, answer, aside));
          ToldConcat(old(HostState(id)), id, Broadcast(ids[..i], code, answer, aside), next);
        }
        i := i + 1;
      }
      assert ids[..i] == ids;
    }

    /** The event goes to every running AI. */
    method Update(code: int, answer: int -> Answer, aside: int -> seq<Sending>)
      requires Valid()
      modifies hostSkirmishAIs, handler`aiKillFlags
      ensures Valid()
      ensures forall id: AIId ::
        HostState(id)
        == Overheard(old(HostState(id)), id in activeSkirmishAIs, id, Broadcast(activeSkirmishAIs, code, answer, aside))
      ensures NoDuplicates(activeSkirmishAIs)
    {
      SendTo(activeSkirmishAIs, code, answer, aside);
    }

    /** A unit's event goes to exactly the AIs of its team. */
    method SendToTeam(teamId: int, code: int, answer: int -> Answer, aside: int -> seq<Sending>)
      requires Valid() && 0 <= teamId < MAX_TEAMS
      modifies hostSkirmishAIs, handler`aiKillFlags
      ensures Valid()
      ensures forall id: AIId ::
        HostState(id)
        == Overheard(old(HostState(id)), id in activeSkirmishAIs, id,
                     Broadcast(teamSkirmishAIs[teamId], code, answer, aside))
      ensures NoDuplicates(teamSkirmishAIs[teamId])
      ensures forall id: AIId ::
        id in teamSkirmishAIs[teamId] <==> id in activeSkirmishAIs && hostSkirmishAIs[id].teamId == teamId
    {
      SendTo(teamSkirmishAIs[teamId], code, answer, aside);
      assert TeamFits(teamId);
      forall id: AIId
        ensures id in teamSkirmishAIs[teamId] <==> id in activeSkirmishAIs && hostSkirmishAIs[id].teamId == teamId
      {
        ListsPartition(id, teamId);
      }
    }
  }
}
