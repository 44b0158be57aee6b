/**
 * The registry of skirmish AIs: a slot per id, an id map over the taken slots and an 8-bit counter,
 * which must agree in every state.
 */
module SkirmishAIHandler {
  const MAX_AIS := 255

  type AIId = i: int | 0 <= i < MAX_AIS witness 0

  datatype SkirmishAIData = SkirmishAIData(shortName: string, team: int, hostPlayer: int, isLuaAI: bool)

  const NO_DATA := SkirmishAIData("", -1, -1, false)

  /** No kill reason is stored. */
  const NOT_KILLED := -1

  /** A slot is taken when its data has a short name. */
  predicate IsValidSkirmishAI(data: SkirmishAIData) {
    data.shortName != ""
  }

  type Slots = s: seq<SkirmishAIData> | |s| == MAX_AIS witness seq(MAX_AIS, _ => NO_DATA)

  /** Slots, the keys of the id map (which points back into the slots) and the counter. */
  datatype Registry = Registry(slots: Slots, ids: set<AIId>, count: int)

  ghost predicate Agrees(r: Registry) {
    r.ids == ValidIds(r.slots) && r.count == |r.ids|
  }

  function ValidIds(slots: Slots): set<AIId> {
    set i: AIId | IsValidSkirmishAI(slots[i])
  }

  function EmptyRegistry(): Registry {
    Registry(seq(MAX_AIS, _ => NO_DATA), {}, 0)
  }

  function NoFlags(): seq<int> {
    seq(MAX_AIS, _ => NOT_KILLED)
  }

  /** A taken slot is left alone. */
  function Added(r: Registry, data: SkirmishAIData, id: AIId): Registry {
    if IsValidSkirmishAI(r.slots[id]) then r
    else Registry(r.slots[id := data], r.ids + {id}, (r.count + 1) % 0x100)
  }

  function Removed(r: Registry, id: AIId): Registry {
    if !IsValidSkirmishAI(r.slots[id]) then r
    else Registry(r.slots[id := NO_DATA], r.ids - {id}, (r.count - 1) % 0x100)
  }

  lemma EmptyAgrees()
    ensures Agrees(EmptyRegistry())
  {
    assert ValidIds(EmptyRegistry().slots) == {};
  }

  lemma {:induction false} IdsAreFew(ids: set<int>, n: nat)
    requires forall i :: i in ids ==> 0 <= i < n
    ensures |ids| <= n
    decreases n
  {
    if n == 0 {
      assert forall i :: i !in ids;
    } else {
      IdsAreFew(ids - {n - 1}, n - 1);
      assert ids <= (ids - {n - 1}) + {n - 1};
    }
  }

  /** With 255 ids the 8-bit counter never wraps. */
  lemma CountFits(r: Registry)
    requires Agrees(r)
    ensures 0 <= r.count <= 0xFF
    ensures (exists id: AIId :: !IsValidSkirmishAI(r.slots[id])) ==> r.count < 0xFF
  {
    var all: set<int> := set i: AIId | i in r.ids;
    assert all == r.ids;
    IdsAreFew(all, MAX_AIS);
    if id: AIId :| !IsValidSkirmishAI(r.slots[id]) {
      IdsAreFew(all + {id}, MAX_AIS);
    }
  }

  /**
   * Adding to a free slot keeps slots, map and counter in agreement exactly when the data is valid;
   * the code only asserts that it is.
   */
  lemma AddNeedsValidData(r: Registry, data: SkirmishAIData, id: AIId)
    requires Agrees(r) && !IsValidSkirmishAI(r.slots[id])
    ensures Agrees(Added(r, data, id)) <==> IsValidSkirmishAI(data)
  {
    CountFits(r);
    var slots: Slots := r.slots[id := data];
    assert id in ValidIds(slots) <==> IsValidSkirmishAI(data);
    assert ValidIds(slots) - {id} == r.ids;
    if IsValidSkirmishAI(data) {
      assert ValidIds(slots) == r.ids + {id};
    }
  }

  lemma RemoveAgrees(r: Registry, id: AIId)
    requires Agrees(r)
    ensures Agrees(Removed(r, id)) && !IsValidSkirmishAI(Removed(r, id).slots[id])
    ensures IsValidSkirmishAI(r.slots[id]) ==> Removed(r, id).count == r.count - 1
  {
    CountFits(r);
    if IsValidSkirmishAI(r.slots[id]) {
      var slots: Slots := r.slots[id := NO_DATA];
      assert ValidIds(slots) == r.ids - {id};
      assert r.ids == (r.ids - {id}) + {id};
    }
  }

  /** Removing what was added to a clean free slot restores the registry. */
  lemma RemoveUndoesAdd(r: Registry, data: SkirmishAIData, id: AIId)
    requires Agrees(r) && r.slots[id] == NO_DATA && IsValidSkirmishAI(data)
    ensures Removed(Added(r, data, id), id) == r
  {
    CountFits(r);
    assert r.slots[id := data][id := NO_DATA] == r.slots;
    assert (r.ids + {id}) - {id} == r.ids;
  }

  predicate Ascending(ids: seq<int>) {
    forall i, j :: 0 <= i < j < |ids| ==> ids[i] < ids[j]
  }

  /** Where a new id goes in an ascending list. */
  function Place(id: int, ids: seq<int>): (k: nat)
    ensures k <= |ids|
    ensures forall i :: 0 <= i < k ==> ids[i] < id
    ensures k < |ids| ==> id <= ids[k]
  {
    if ids == [] || id <= ids[0] then 0 else 1 + Place(id, ids[1..])
  }

  function InsertId(id: int, ids: seq<int>): seq<int> {
    var k := Place(id, ids);
    ids[..k] + [id] + ids[k..]
  }

  lemma InsertIdMembers(id: int, ids: seq<int>)
    ensures forall i: int :: i in InsertId(id, ids) <==> i == id || i in ids
  {
    var k := Place(id, ids);
    assert ids == ids[..k] + ids[k..];
  }

  lemma InsertIdKeepsOrder(id: int, ids: seq<int>)
    requires Ascending(ids) && id !in ids
    ensures Ascending(InsertId(id, ids))
    ensures forall i: int :: i in InsertId(id, ids) <==> i == id || i in ids
  {
    hide Place;
    var k := Place(id, ids);
    var r := InsertId(id, ids);
    InsertIdMembers(id, ids);
    assert forall i :: k <= i < |ids| ==> id < ids[i];
    forall i, j | 0 <= i < j < |r| ensures r[i] < r[j] {
      assert r[i] == if i < k then ids[i] else if i == k then id else ids[i - 1];
      assert r[j] == if j < k then ids[j] else if j == k then id else ids[j - 1];
    }
  }

  class SkirmishAIHandler {
    var aiInstanceData: Slots
    var aiKillFlags: seq<int>
    var skirmishAIDataMap: set<AIId>
    var numSkirmishAIs: int

    function Books(): Registry
      reads this`aiInstanceData, this`skirmishAIDataMap, this`numSkirmishAIs
    {
      Registry(aiInstanceData, skirmishAIDataMap, numSkirmishAIs)
    }

    ghost predicate Valid()
      reads this
    {
      Agrees(Books()) && |aiKillFlags| == MAX_AIS
    }

    constructor ()
      ensures Valid() && Books() == EmptyRegistry() && aiKillFlags == NoFlags()
    {
      aiInstanceData, aiKillFlags := EmptyRegistry().slots, NoFlags();
      skirmishAIDataMap, numSkirmishAIs := {}, 0;
      new;
      EmptyAgrees();
    }

    method ResetState()
      modifies this
      ensures Valid() && Books() == EmptyRegistry() && aiKillFlags == NoFlags()
    {
      aiInstanceData, aiKillFlags := EmptyRegistry().slots, NoFlags();
      skirmishAIDataMap, numSkirmishAIs := {}, 0;
      EmptyAgrees();
    }

    /** Refuses a taken id. */
    method AddSkirmishAI(data: SkirmishAIData, id: AIId) returns (added: bool)
      requires Valid() && IsValidSkirmishAI(data)
      modifies this`aiInstanceData, this`skirmishAIDataMap, this`numSkirmishAIs
      ensures Valid() && Books() == Added(old(Books()), data, id)
      ensures added <==> old(id !in skirmishAIDataMap)
      ensures id in skirmishAIDataMap
    {
      if IsValidSkirmishAI(aiInstanceData[id]) {
        return false;
      }
      AddNeedsValidData(Books(), data, id);
      aiInstanceData := aiInstanceData[id := data];
      skirmishAIDataMap := skirmishAIDataMap + {id};
      numSkirmishAIs := (numSkirmishAIs + 1) % 0x100;
      added := true;
    }

    /** Clears the slot and its kill flag. */
    method RemoveSkirmishAI(id: AIId) returns (removed: bool)
      requires Valid()
      modifies this
      ensures Valid() && Books() == Removed(old(Books()), id)
      ensures removed <==> old(id in skirmishAIDataMap)
      ensures aiKillFlags == if removed then old(aiKillFlags)[id := NOT_KILLED] else old(aiKillFlags)
      ensures id !in skirmishAIDataMap
    {
      if !IsValidSkirmishAI(aiInstanceData[id]) {
        return false;
      }
      RemoveAgrees(Books(), id);
      aiKillFlags := aiKillFlags[id := NOT_KILLED];
      aiInstanceData := aiInstanceData[id := NO_DATA];
      skirmishAIDataMap := skirmishAIDataMap - {id};
      numSkirmishAIs := (numSkirmishAIs - 1) % 0x100;
      removed := true;
    }

    /**
     * After a saved game is read only slots and kill flags are there; map and counter are rebuilt by
     * adding every valid slot again. The kill flags, although saved, do not survive the reset.
     */
    method PostLoad()
      requires |aiKillFlags| == MAX_AIS
      modifies this
      ensures Valid() && aiKillFlags == NoFlags()
      ensures forall i: AIId :: aiInstanceData[i] == Kept(old(aiInstanceData)[i])
    {
      var loaded := aiInstanceData;
      ResetState();
      var i := 0;
      while i < MAX_AIS
        invariant 0 <= i <= MAX_AIS
        invariant Valid() && aiKillFlags == NoFlags()
        invariant forall j: AIId :: aiInstanceData[j] == if j < i then Kept(loaded[j]) else NO_DATA
      {
        if IsValidSkirmishAI(loaded[i]) {
          var added := AddSkirmishAI(loaded[i], i);
        }
        i := i + 1;
      }
    }

    /** The team's AIs, of one host or of all, in ascending order whatever order the map is walked in. */
    method GetSkirmishAIsInTeam(teamId: int, hostPlayerId: int) returns (ids: seq<int>)
      requires Valid()
      ensures Ascending(ids)
      ensures forall i: int :: i in ids ==> 0 <= i < MAX_AIS
      ensures forall i: AIId :: i in ids <==> InTeam(aiInstanceData[i], teamId, hostPlayerId)
    {
      ids := [];
      var rest := skirmishAIDataMap;
      while rest != {}
        invariant rest <= skirmishAIDataMap && Ascending(ids)
        invariant forall i: int :: i in ids ==> 0 <= i < MAX_AIS
        invariant forall i: AIId :: i in ids <==> i !in rest && InTeam(aiInstanceData[i], teamId, hostPlayerId)
        decreases rest
      {
        var i :| i in rest;
        rest := rest - {i};
        if aiInstanceData[i].team != teamId {
          continue;
        }
        if hostPlayerId >= 0 && aiInstanceData[i].hostPlayer != hostPlayerId {
          continue;
        }
        InsertIdKeepsOrder(i, ids);
        ids := InsertId(i, ids);
      }
    }

    predicate HasLocalKillFlag(id: AIId)
      requires |aiKillFlags| == MAX_AIS
      reads this`aiKillFlags
    {
      aiKillFlags[id] != NOT_KILLED
    }

    /** The reason is stored here; blocking the AI's events is the caller's part. */
    method StoreKillFlag(id: AIId, reason: int)
      requires |aiKillFlags| == MAX_AIS
      modifies this`aiKillFlags
      ensures aiKillFlags == old(aiKillFlags)[id := reason]
    {
      aiKillFlags := aiKillFlags[id := reason];
    }
  }

  function Kept(data: SkirmishAIData): SkirmishAIData {
    if IsValidSkirmishAI(data) then data else NO_DATA
  }

  /** A negative host asks for every host's AIs. */
  predicate InTeam(data: SkirmishAIData, teamId: int, hostPlayerId: int) {
    IsValidSkirmishAI(data) && data.team == teamId && (hostPlayerId < 0 || data.hostPlayer == hostPlayerId)
  }
}
