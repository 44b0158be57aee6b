/**
 * The engine's end of one skirmish AI: flags that decide which calls reach the AI library. Every
 * method is tied to the protocol's step, and none can call a null library.
 */
module SkirmishAIWrapper {
  import opened Wrappers
  import opened SkirmishAIProtocol
  import Registry = SkirmishAIHandler

  type AIId = Registry.AIId

  const INACTIVE := -1

  class SkirmishAIWrapper {
    const handler: Registry.SkirmishAIHandler
    var skirmishAIId: int
    var teamId: int
    /** Whether the library pointer is set. */
    var library: bool
    var libraryInit: bool
    var initialized: bool
    var released: bool
    var blockEvents: bool
    /** The calls of this life. */
    ghost var log: seq<Entry>

    constructor (handler: Registry.SkirmishAIHandler)
      ensures this.handler == handler && skirmishAIId == teamId == INACTIVE
    {
      this.handler := handler;
      skirmishAIId, teamId := INACTIVE, INACTIVE;
      library, libraryInit, initialized, released, blockEvents := false, false, false, false, false;
      log := [];
    }

    /** The host as the protocol sees it, with the kill flag its id has in the handler. */
    ghost function State(id: AIId): Host
      requires |handler.aiKillFlags| == Registry.MAX_AIS
      reads this, handler`aiKillFlags
    {
      Host(library, libraryInit, initialized, released, blockEvents, handler.aiKillFlags[id], log)
    }

    ghost predicate Serves(id: AIId)
      reads this, handler`aiKillFlags
    {
      skirmishAIId == id && |handler.aiKillFlags| == Registry.MAX_AIS
    }

    method PreInit(id: AIId)
      requires |handler.aiKillFlags| == Registry.MAX_AIS
      modifies this
      ensures Serves(id) && State(id) == PreInited(handler.aiKillFlags[id])
      ensures teamId == handler.aiInstanceData[id].team
    {
      skirmishAIId, teamId := id, handler.aiInstanceData[id].team;
      initialized, released, libraryInit, blockEvents := false, false, false, false;
      library := false;
      log := [];
    }

    method SetBlockEvents(ghost id: AIId)
      requires |handler.aiKillFlags| == Registry.MAX_AIS
      modifies this`blockEvents, this`log
      ensures State(id) == old(State(id)).Block()
    {
      blockEvents := true;
      log := log + [Blocked];
    }

    /** Stores the reason and blocks the AI's events. */
    method SetLocalKillFlag(id: AIId, reason: int)
      requires Serves(id)
      modifies this`blockEvents, this`log, handler`aiKillFlags
      ensures Serves(id) && State(id) == old(State(id)).Kill(reason)
      ensures handler.aiKillFlags == old(handler.aiKillFlags)[id := reason]
    {
      handler.StoreKillFlag(id, reason);
      SetBlockEvents(id);
    }

    /** The library's side: killing its AI and provoking events, some of which come back here. */
    method RunLibrary(id: AIId, reaction: Reaction, listed: bool)
      requires Serves(id) && library
      modifies this`blockEvents, this`log, handler`aiKillFlags
      ensures Serves(id) && State(id) == React(old(State(id)), reaction, listed)
      ensures handler.aiKillFlags == old(handler.aiKillFlags)[id := State(id).killFlag]
      decreases reaction, 0
    {
      match reaction
      case Done =>
      case Die(reason, rest) =>
        SetLocalKillFlag(id, reason);
        RunLibrary(id, rest, listed);
      case Provoke(code, inner, error, rest) =>
        if listed {
          var _ := HandleEvent(id, Other(code), Answer(inner, error));
        }
        RunLibrary(id, rest, listed);
    }

    /** The library is called unless blocked; RELEASE always passes. */
    method HandleEvent(id: AIId, topic: Topic, a: Answer) returns (error: int)
      requires Serves(id)
      requires !blockEvents || topic.Release? ==> library
      modifies this`blockEvents, this`log, handler`aiKillFlags
      ensures Serves(id) && State(id) == Deliver(old(State(id)), topic, a)
      ensures error == Returned(old(State(id)), topic, a)
      ensures handler.aiKillFlags == old(handler.aiKillFlags)[id := State(id).killFlag]
      decreases a.reaction, 1
    {
      if !blockEvents || topic.Release? {
        log := log + [Enter(Event(topic))];
        RunLibrary(id, a.reaction, !topic.Release?);
        log := log + [Leave(Event(topic), a.error)];
        return a.error;
      }
      return 0;
    }

    /** Fetching the library and calling its init function; either can fail. */
    method CallLibrary(id: AIId, answer: Option<Answer>)
      requires Serves(id)
      modifies this`library, this`libraryInit, this`blockEvents, this`log, handler`aiKillFlags
      ensures Serves(id) && State(id) == LibraryCalled(old(State(id)), answer)
      ensures handler.aiKillFlags == old(handler.aiKillFlags)[id := State(id).killFlag]
    {
      if answer.None? {
        SetLocalKillFlag(id, FAILED_TO_INIT);
        return;
      }
      var a := answer.value;
      library := true;
      log := log + [Enter(LibraryInit)];
      RunLibrary(id, a.reaction, true);
      log := log + [Leave(LibraryInit, a.error)];
      libraryInit := a.error == 0;
      if !libraryInit {
        SetLocalKillFlag(id, FAILED_TO_INIT);
      }
    }

    method InitLibrary(id: AIId, answer: Option<Answer>) returns (ok: bool)
      requires Serves(id)
      modifies this`library, this`libraryInit, this`blockEvents, this`log, handler`aiKillFlags
      ensures Serves(id)
      ensures State(id) == LibraryInited(old(State(id)), answer)
      ensures ok <==> handler.aiKillFlags[id] == Registry.NOT_KILLED
      ensures handler.aiKillFlags == old(handler.aiKillFlags)[id := State(id).killFlag]
    {
      CallLibrary(id, answer);
      if handler.HasLocalKillFlag(id) {
        SetBlockEvents(id);
        return false;
      }
      return true;
    }

    method SendInitEvent(id: AIId, a: Answer)
      requires Serves(id) && library
      modifies this`initialized, this`blockEvents, this`log, handler`aiKillFlags
      ensures Serves(id) && State(id) == InitSent(old(State(id)), a)
      ensures handler.aiKillFlags == old(handler.aiKillFlags)[id := State(id).killFlag]
    {
      var error := HandleEvent(id, Init, a);
      if error == 0 {
        initialized := true;
        return;
      }
      SetLocalKillFlag(id, FAILED_TO_INIT);
    }

    method InitAI(id: AIId, answer: Option<Answer>, init: Answer)
      requires Serves(id) && State(id) == PreInited(handler.aiKillFlags[id])
      modifies this, handler`aiKillFlags
      ensures Serves(id) && teamId == old(teamId)
      ensures State(id) == Inited(old(State(id)), answer, init) && AtRest(State(id))
      ensures handler.aiKillFlags == old(handler.aiKillFlags)[id := State(id).killFlag]
    {
      hide React, Deliver, LibraryCalled, LibraryInited, InitSent, AtRest, Observed;
      CreationReachesRest(handler.aiKillFlags[id], answer, init);
      LibraryInitIsSeen(handler.aiKillFlags[id], answer);
      var ok := InitLibrary(id, answer);
      if !ok {
        return;
      }
      SendInitEvent(id, init);
    }

    /** The frame and unit events of a newly created AI, in order. */
    method SendNews(id: AIId, news: seq<Happening>)
      requires Serves(id) && AtRest(State(id))
      requires forall n :: n in news ==> n.Happens?
      modifies this`blockEvents, this`log, handler`aiKillFlags
      ensures Serves(id) && State(id) == Lived(old(State(id)), news) && AtRest(State(id))
      ensures handler.aiKillFlags == old(handler.aiKillFlags)[id := State(id).killFlag]
    {
      ghost var before := State(id);
      var i := 0;
      while i < |news|
        invariant 0 <= i <= |news|
        invariant Serves(id) && State(id) == Lived(before, news[..i]) && AtRest(State(id))
        invariant handler.aiKillFlags == old(handler.aiKillFlags)[id := State(id).killFlag]
      {
        assert news[..i + 1][..i] == news[..i];
        EventKeepsRest(State(id), news[i].code, news[i].answer);
        var _ := HandleEvent(id, Other(news[i].code), news[i].answer);
        i := i + 1;
      }
      assert news[..i] == news;
    }

    method ReleaseAI(id: AIId, a: Answer)
      requires Serves(id) && AtRest(State(id))
      modifies this`released, this`blockEvents, this`log, handler`aiKillFlags
      ensures Serves(id) && State(id) == Released(old(State(id)), a)
      ensures handler.aiKillFlags == old(handler.aiKillFlags)[id := State(id).killFlag]
    {
      if !initialized || released {
        return;
      }
      var _ := HandleEvent(id, Release, a);
      released := true;
    }

    /** RELEASE, the library's own release, and the wrapper is inactive. */
    method Kill(id: AIId, release: Answer, unload: Answer)
      requires Serves(id) && AtRest(State(id))
      modifies this, handler`aiKillFlags
      ensures skirmishAIId == teamId == INACTIVE
      ensures |handler.aiKillFlags| == Registry.MAX_AIS
      ensures State(id) == Unloaded(old(State(id)), release, unload)
      ensures handler.aiKillFlags == old(handler.aiKillFlags)[id := State(id).killFlag]
    {
      hide React, Deliver, Released, Observed;
      ReleaseAI(id, release);
      if libraryInit {
        log := log + [Enter(LibraryRelease)];
        RunLibrary(id, unload.reaction, false);
        log := log + [Leave(LibraryRelease, unload.error)];
      }
      library := false;
      skirmishAIId, teamId := INACTIVE, INACTIVE;
    }
  }
}
