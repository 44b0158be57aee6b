/**
 * The running AIs as users of AI libraries. A wrapper fetches its library when it is initialised and
 * gives one hold back when it is killed, even if the fetch had failed; still the holds of a library
 * are exactly the wrappers that have it.
 */
module LibraryUse {
  import opened Wrappers
  import opened KeyResolution
  import opened LibraryLoading

  /** The key of a running wrapper, and whether its library pointer is set. */
  datatype Use = Use(key: SkirmishAIKey, library: bool)

  function PlaceOf(key: SkirmishAIKey): Place {
    Place(key.interfaceKey, NameOf(key))
  }

  type Uses = map<int, Use>

  /** The wrappers that have the library of a place. */
  function UsersOf(uses: Uses, p: Place): set<int> {
    set id | id in uses && uses[id].library && PlaceOf(uses[id].key) == p
  }

  /** Every library is held as often as there are wrappers that have it. */
  ghost predicate HeldByUsers(held: map<Place, nat>, uses: Uses) {
    forall p :: Tally(held, p) == |UsersOf(uses, p)|
  }

  lemma UsersAfterStart(uses: Uses, id: int, use: Use, p: Place)
    requires id !in uses
    ensures |UsersOf(uses[id := use], p)| == |UsersOf(uses, p)| + if use.library && PlaceOf(use.key) == p then 1 else 0
  {
    assert uses[id := use] - {id} == uses;
    UsersAfterStop(uses[id := use], id, p);
  }

  lemma UsersAfterStop(uses: Uses, id: int, p: Place)
    requires id in uses
    ensures |UsersOf(uses, p)|
         == |UsersOf(uses - {id}, p)| + if uses[id].library && PlaceOf(uses[id].key) == p then 1 else 0
  {
    hide PlaceOf;
    var fewer := UsersOf(uses - {id}, p);
    if uses[id].library && PlaceOf(uses[id].key) == p {
      assert UsersOf(uses, p) == fewer + {id};
    } else {
      assert UsersOf(uses, p) == fewer;
    }
  }

  lemma FetchKeepsUsers(run: seq<Request>, uses: Uses, id: int, key: SkirmishAIKey)
    requires HeldByUsers(AfterRun(run).held, uses) && id !in uses
    ensures HeldByUsers(AfterRun(run + [Fetch(PlaceOf(key))]).held, uses[id := Use(key, true)])
  {
    RunStep(run, Fetch(PlaceOf(key)));
    HeldAfterFetch(AfterRun(run), PlaceOf(key));
    forall p ensures Tally(AfterRun(run + [Fetch(PlaceOf(key))]).held, p) == |UsersOf(uses[id := Use(key, true)], p)| {
      UsersAfterStart(uses, id, Use(key, true), p);
    }
  }

  lemma FailureKeepsUsers(held: map<Place, nat>, uses: Uses, id: int, key: SkirmishAIKey)
    requires HeldByUsers(held, uses) && id !in uses
    ensures HeldByUsers(held, uses[id := Use(key, false)])
  {
    forall p ensures Tally(held, p) == |UsersOf(uses[id := Use(key, false)], p)| {
      UsersAfterStart(uses, id, Use(key, false), p);
    }
  }

  lemma ReleaseKeepsUsers(run: seq<Request>, uses: Uses, id: int)
    requires HeldByUsers(AfterRun(run).held, uses) && id in uses && uses[id].library
    ensures HeldByUsers(AfterRun(run + [Release(PlaceOf(uses[id].key))]).held, uses - {id})
  {
    var at := PlaceOf(uses[id].key);
    RunStep(run, Release(at));
    HeldAfterRelease(AfterRun(run), at);
    forall p ensures Tally(AfterRun(run + [Release(at)]).held, p) == |UsersOf(uses - {id}, p)| {
      UsersAfterStop(uses, id, p);
    }
  }

  lemma StopKeepsOthers(held: map<Place, nat>, uses: Uses, id: int)
    requires HeldByUsers(held, uses) && id in uses && !uses[id].library
    ensures HeldByUsers(held, uses - {id})
  {
    forall p ensures Tally(held, p) == |UsersOf(uses - {id}, p)| {
      UsersAfterStop(uses, id, p);
    }
  }

  class LibraryUse {
    const manager: AILibraryManager
    var uses: Uses

    constructor (manager: AILibraryManager)
      requires manager.Valid() && manager.run == []
      ensures this.manager == manager && Valid() && uses == map[]
    {
      this.manager, uses := manager, map[];
      new;
      forall p ensures Tally(AfterRun(manager.run).held, p) == |UsersOf(uses, p)| {
        assert UsersOf(uses, p) == {};
      }
    }

    /** A key of a known AI, as resolving yields, or one whose interface is unknown too. */
    predicate Resolved(key: SkirmishAIKey) {
      key.interfaceKey in manager.interfaceInfos ==> NameOf(key) in manager.skirmishAIInfos
    }

    ghost predicate UseFits(id: int)
      requires id in uses
      reads this, manager
    {
      Resolved(uses[id].key) && (!uses[id].library ==> manager.Unavailable(uses[id].key.interfaceKey))
    }

    ghost predicate Valid()
      reads this, manager, manager.Objects()
    {
      && manager.Valid()
      && HeldByUsers(AfterRun(manager.run).held, uses)
      && (forall id :: id in uses ==> UseFits(id))
    }

    /** In every state a library is loaded exactly while some wrapper has it. */
    lemma LoadedWhileUsed(p: Place)
      requires Valid()
      ensures manager.IsLoaded(p.interfaceKey)
           && p.name in manager.loadedAIInterfaceLibs[p.interfaceKey].loadedSkirmishAILibraries
         <==> UsersOf(uses, p) != {}
    {
      assert manager.CountAt(p) == Tally(AfterRun(manager.run).held, p) == |UsersOf(uses, p)|;
    }

    /** The fetch of a wrapper's initialisation; it may fail. */
    method InitLibrary(id: int, key: SkirmishAIKey, inits: bool, loads: bool) returns (library: bool)
      requires Valid() && id !in uses && Resolved(key)
      modifies this, manager, manager.Objects()
      ensures Valid() && uses == old(uses)[id := Use(key, library)]
      ensures fresh(manager.Objects() - old(manager.Objects()))
    {
      ghost var run := manager.run;
      var lib := manager.FetchSkirmishAILibrary(key, inits, loads);
      library := lib.Some?;
      if library {
        FetchKeepsUsers(run, uses, id, key);
      } else {
        assert manager.run == run;
        FailureKeepsUsers(AfterRun(run).held, uses, id, key);
      }
      uses := uses[id := Use(key, library)];
    }

    /** The release of a killed wrapper, made whether or not the fetch had succeeded. */
    method Kill(id: int, inits: bool)
      requires Valid() && id in uses
      modifies this, manager, manager.Objects()
      ensures Valid() && uses == old(uses) - {id}
      ensures fresh(manager.Objects() - old(manager.Objects()))
    {
      ghost var run := manager.run;
      assert UseFits(id);
      if uses[id].library {
        LoadedWhileUsed(PlaceOf(uses[id].key));
        assert id in UsersOf(uses, PlaceOf(uses[id].key));
        ReleaseKeepsUsers(run, uses, id);
      } else {
        StopKeepsOthers(AfterRun(run).held, uses, id);
      }
      manager.ReleaseSkirmishAILibrary(uses[id].key, inits);
      uses := uses - {id};
    }

    /** Asking whether an AI supports loading holds its library for the length of the question. */
    method IsLoadSupported(key: SkirmishAIKey, inits: bool, loads: bool)
      requires Valid() && Resolved(key)
      modifies this, manager, manager.Objects()
      ensures Valid() && uses == old(uses)
    {
      ghost var run := manager.run;
      var lib := manager.FetchSkirmishAILibrary(key, inits, loads);
      if lib.Some? {
        FetchThenRelease(run, uses, PlaceOf(key));
      } else {
        assert manager.run == run;
      }
      assert manager.Valid();
      manager.ReleaseSkirmishAILibrary(key, inits);
    }
  }

  lemma FetchThenRelease(run: seq<Request>, uses: Uses, at: Place)
    requires HeldByUsers(AfterRun(run).held, uses)
    ensures HeldByUsers(AfterRun(run + [Fetch(at)] + [Release(at)]).held, uses)
  {
    RunStep(run, Fetch(at));
    RunStep(run + [Fetch(at)], Release(at));
    HeldAfterFetch(AfterRun(run), at);
    HeldAfterRelease(AfterRun(run + [Fetch(at)]), at);
  }
}
