/**
 * Reference-counted loading on two levels: an AI interface is loaded while any of its AI libraries
 * is, and an AI library while it has been fetched more often than released. Whether a plugin
 * initialises or loads is decided outside and passed in.
 */
module LibraryLoading {
  import opened Wrappers
  import opened KeyResolution
  import opened Versions
  import opened MapTotals

  /** Maps over skirmish AI keys compare name and version only; the interface part is ignored. */
  datatype AIName = AIName(shortName: string, version: string)

  function NameOf(key: SkirmishAIKey): AIName {
    AIName(key.shortName, key.version)
  }

  /** Two keys share a map entry, neither being less than the other, exactly if they stand for the same AI. */
  lemma MapKeysAreNames(a: SkirmishAIKey, b: SkirmishAIKey)
    ensures NameOf(a) == NameOf(b) <==> !a.LessThan(b) && !b.LessThan(a)
  {
    StringsAntisymmetric(a.shortName, b.shortName);
    StringsAntisymmetric(a.version, b.version);
  }

  /** What a fetch hands out; the empty library stands in for an AI the plugin could not load. */
  datatype Library = Loaded | Empty

  datatype PluginCall = Load(name: AIName) | Unload(name: AIName)

  function CountIn(counts: map<AIName, nat>, name: AIName): nat {
    if name in counts then counts[name] else 0
  }

  lemma NothingHeld(counts: map<AIName, nat>)
    ensures Total(counts) == 0 <==> forall name :: CountIn(counts, name) == 0
  {
    TotalZero(counts);
    assert forall name :: name in counts ==> CountIn(counts, name) == counts[name];
  }

  // -------------------------------------------------------------------- one loaded interface

  class AIInterfaceLibrary {
    const key: InterfaceKey
    var skirmishAILoadCount: map<AIName, nat>
    var loadedSkirmishAILibraries: map<AIName, Library>

    constructor (k: InterfaceKey)
      ensures key == k && skirmishAILoadCount == map[] && loadedSkirmishAILibraries == map[]
      ensures Valid()
    {
      key := k;
      skirmishAILoadCount, loadedSkirmishAILibraries := map[], map[];
    }

    function Count(name: AIName): nat
      reads this
    {
      CountIn(skirmishAILoadCount, name)
    }

    /** A library is present exactly while its count is positive. */
    ghost predicate Valid()
      reads this
    {
      forall name :: name in loadedSkirmishAILibraries <==> Count(name) > 0
    }

    method GetLoadCount() returns (total: nat)
      ensures total == Total(skirmishAILoadCount)
    {
      total := 0;
      var rest := skirmishAILoadCount;
      while rest != map[]
        invariant total + Total(rest) == Total(skirmishAILoadCount)
        decreases |rest|
      {
        var name :| name in rest;
        TotalWithout(rest, name);
        total := total + rest[name];
        rest := rest - {name};
      }
    }

    method FetchSkirmishAILibrary(name: AIName, loads: bool) returns (lib: Library, ghost call: Option<PluginCall>)
      requires Valid()
      modifies this
      ensures Valid()
      ensures Count(name) == old(Count(name)) + 1
      ensures forall n :: n != name ==> Count(n) == old(Count(n))
      ensures call == if old(Count(name)) == 0 then Some(Load(name)) else None
      ensures name in loadedSkirmishAILibraries && lib == loadedSkirmishAILibraries[name]
      ensures old(Count(name)) == 0 ==> lib == if loads then Loaded else Empty
      ensures loadedSkirmishAILibraries
           == if old(Count(name)) == 0 then old(loadedSkirmishAILibraries)[name := lib]
              else old(loadedSkirmishAILibraries)
    {
      call := None;
      if name !in skirmishAILoadCount {
        skirmishAILoadCount := skirmishAILoadCount[name := 0];
      }
      if skirmishAILoadCount[name] == 0 {
        call := Some(Load(name));
        loadedSkirmishAILibraries := loadedSkirmishAILibraries[name := if loads then Loaded else Empty];
      }
      skirmishAILoadCount := skirmishAILoadCount[name := skirmishAILoadCount[name] + 1];
      lib := loadedSkirmishAILibraries[name];
    }

    method ReleaseSkirmishAILibrary(name: AIName) returns (left: nat, ghost call: Option<PluginCall>)
      requires Valid()
      modifies this
      ensures Valid()
      ensures left == Count(name) == if old(Count(name)) == 0 then 0 else old(Count(name)) - 1
      ensures forall n :: n != name ==> Count(n) == old(Count(n))
      ensures call == if old(Count(name)) == 1 then Some(Unload(name)) else None
      ensures loadedSkirmishAILibraries
           == if old(Count(name)) == 1 then old(loadedSkirmishAILibraries) - {name} else old(loadedSkirmishAILibraries)
    {
      call := None;
      if name !in skirmishAILoadCount {
        skirmishAILoadCount := skirmishAILoadCount[name := 0];
      }
      if skirmishAILoadCount[name] == 0 {
        return 0, None;
      }
      skirmishAILoadCount := skirmishAILoadCount[name := skirmishAILoadCount[name] - 1];
      if skirmishAILoadCount[name] == 0 {
        call := Some(Unload(name));
        loadedSkirmishAILibraries := loadedSkirmishAILibraries - {name};
      }
      left := skirmishAILoadCount[name];
    }
  }

  // ------------------------------------------------------------------------ the plugin trace

  /** One AI library of one interface. */
  datatype Place = Place(interfaceKey: InterfaceKey, name: AIName)

  datatype Logged = Logged(interfaceKey: InterfaceKey, call: PluginCall)

  /** The calls that concern one place, in order. */
  function CallsAt(trace: seq<Logged>, p: Place): seq<PluginCall> {
    if trace == [] then []
    else
      var last := trace[|trace| - 1];
      CallsAt(trace[..|trace| - 1], p) + if Place(last.interfaceKey, last.call.name) == p then [last.call] else []
  }

  /** Load, unload, load, unload, ... starting with a load. */
  predicate Alternates(calls: seq<PluginCall>) {
    forall i :: 0 <= i < |calls| ==> (calls[i].Load? <==> i % 2 == 0)
  }

  function Tally(m: map<Place, nat>, p: Place): nat {
    if p in m then m[p] else 0
  }

  /**
   * The books over a whole run: every plugin load and unload call, and per place the successful
   * fetches, the effective releases, and how often the library is held now.
   */
  datatype Books = Books(trace: seq<Logged>, fetches: map<Place, nat>, releases: map<Place, nat>, held: map<Place, nat>)

  const EMPTY_BOOKS := Books([], map[], map[], map[])

  function Log(trace: seq<Logged>, p: Place, call: PluginCall): seq<Logged> {
    trace + [Logged(p.interfaceKey, call)]
  }

  function AfterFetch(b: Books, p: Place): Books {
    Books(if Tally(b.held, p) == 0 then Log(b.trace, p, Load(p.name)) else b.trace,
          b.fetches[p := Tally(b.fetches, p) + 1],
          b.releases,
          b.held[p := Tally(b.held, p) + 1])
  }

  /** A release of something that is not held has no effect. */
  function AfterRelease(b: Books, p: Place): Books {
    if Tally(b.held, p) == 0 then b
    else Books(if Tally(b.held, p) == 1 then Log(b.trace, p, Unload(p.name)) else b.trace,
               b.fetches,
               b.releases[p := Tally(b.releases, p) + 1],
               b.held[p := Tally(b.held, p) - 1])
  }

  /**
   * At a place the plugin calls alternate, starting with a load; the last one is a load exactly
   * while the library is held; and it is held as often as it was fetched and not yet released.
   */
  predicate Accounted(b: Books, p: Place) {
    Alternates(CallsAt(b.trace, p))
    && (Tally(b.held, p) > 0 <==> |CallsAt(b.trace, p)| % 2 == 1)
    && Tally(b.fetches, p) == Tally(b.releases, p) + Tally(b.held, p)
  }

  lemma CallsAtLog(trace: seq<Logged>, at: Place, call: PluginCall, p: Place)
    requires call.name == at.name
    ensures CallsAt(Log(trace, at, call), p) == CallsAt(trace, p) + if at == p then [call] else []
  {
    var more := Log(trace, at, call);
    assert more[..|more| - 1] == trace;
    assert at == Place(at.interfaceKey, at.name);
  }

  lemma AlternationGoesOn(calls: seq<PluginCall>, call: PluginCall)
    requires Alternates(calls) && (call.Load? <==> |calls| % 2 == 0)
    ensures Alternates(calls + [call])
  {
  }

  lemma FetchKeepsAccounts(b: Books, at: Place, p: Place)
    requires Accounted(b, p)
    ensures Accounted(AfterFetch(b, at), p)
  {
    CallsAtLog(b.trace, at, Load(at.name), p);
    if at == p && Tally(b.held, p) == 0 {
      AlternationGoesOn(CallsAt(b.trace, p), Load(p.name));
    }
  }

  lemma ReleaseKeepsAccounts(b: Books, at: Place, p: Place)
    requires Accounted(b, p)
    ensures Accounted(AfterRelease(b, at), p)
  {
    CallsAtLog(b.trace, at, Unload(at.name), p);
    if at == p {
      if Tally(b.held, p) == 1 {
        AlternationGoesOn(CallsAt(b.trace, p), Unload(p.name));
      }
    } else {
      assert CallsAt(b.trace, p) + [] == CallsAt(b.trace, p);
      assert Tally(AfterRelease(b, at).held, p) == Tally(b.held, p);
    }
  }

  lemma HeldAfterFetch(b: Books, at: Place)
    ensures forall p :: Tally(AfterFetch(b, at).held, p) == if p == at then Tally(b.held, p) + 1 else Tally(b.held, p)
  {
  }

  lemma HeldAfterRelease(b: Books, at: Place)
    ensures forall p :: Tally(AfterRelease(b, at).held, p)
                     == if p == at && Tally(b.held, p) > 0 then Tally(b.held, p) - 1 else Tally(b.held, p)
  {
  }

  datatype Request = Fetch(p: Place) | Release(p: Place)

  function After(b: Books, request: Request): Books {
    match request
    case Fetch(p) => AfterFetch(b, p)
    case Release(p) => AfterRelease(b, p)
  }

  function AfterRun(requests: seq<Request>): Books {
    if requests == [] then EMPTY_BOOKS
    else After(AfterRun(requests[..|requests| - 1]), requests[|requests| - 1])
  }

  /** Over any run of fetches and releases the accounts of every place are in order. */
  lemma {:induction false} RunsAreAccounted(requests: seq<Request>, p: Place)
    ensures Accounted(AfterRun(requests), p)
  {
    if requests != [] {
      var before := requests[..|requests| - 1];
      RunsAreAccounted(before, p);
      match requests[|requests| - 1] {
        case Fetch(at) => FetchKeepsAccounts(AfterRun(before), at, p);
        case Release(at) => ReleaseKeepsAccounts(AfterRun(before), at, p);
      }
    }
  }

  lemma RunStep(requests: seq<Request>, next: Request)
    ensures AfterRun(requests + [next]) == After(AfterRun(requests), next)
  {
    assert (requests + [next])[..|requests|] == requests;
  }

  function LogCall(trace: seq<Logged>, k: InterfaceKey, call: Option<PluginCall>): seq<Logged> {
    match call
    case None => trace
    case Some(c) => trace + [Logged(k, c)]
  }

  // ------------------------------------------------------------------------------ the manager

  class AILibraryManager {
    const interfaceInfos: set<InterfaceKey>
    const skirmishAIInfos: set<AIName>
    var loadedAIInterfaceLibs: map<InterfaceKey, AIInterfaceLibrary?>
    /** Every fetch and release that took effect, and every plugin load and unload call made. */
    ghost var run: seq<Request>
    ghost var trace: seq<Logged>

    ghost function Objects(): set<object>
      reads `loadedAIInterfaceLibs
    {
      set k | k in loadedAIInterfaceLibs && loadedAIInterfaceLibs[k] != null :: loadedAIInterfaceLibs[k]
    }

    predicate IsLoaded(k: InterfaceKey)
      reads `loadedAIInterfaceLibs
    {
      k in loadedAIInterfaceLibs && loadedAIInterfaceLibs[k] != null
    }

    /** How often a library is held by its interface; not at all when the interface is not loaded. */
    function CountAt(p: Place): nat
      reads `loadedAIInterfaceLibs, Objects()
    {
      if IsLoaded(p.interfaceKey) then loadedAIInterfaceLibs[p.interfaceKey].Count(p.name) else 0
    }

    ghost predicate Wired()
      reads `loadedAIInterfaceLibs, Objects()
    {
      forall k :: IsLoaded(k) ==> loadedAIInterfaceLibs[k].key == k && loadedAIInterfaceLibs[k].Valid()
    }

    /** No library can be had from this interface now, nor later: it is unknown, or failed before. */
    ghost predicate Unavailable(k: InterfaceKey)
      reads `loadedAIInterfaceLibs
    {
      if k in loadedAIInterfaceLibs then loadedAIInterfaceLibs[k] == null else k !in interfaceInfos
    }

    /** The interfaces hold exactly the libraries the run so far accounts for. */
    ghost predicate Holds(held: map<Place, nat>)
      reads `loadedAIInterfaceLibs, Objects()
    {
      forall p :: CountAt(p) == Tally(held, p)
    }

    ghost predicate Valid()
      reads this, Objects()
    {
      Wired() && Holds(AfterRun(run).held) && trace == AfterRun(run).trace
      && loadedAIInterfaceLibs.Keys <= interfaceInfos
    }

    /**
     * In every reachable state: a library is present in its interface exactly while its fetches
     * exceed its effective releases, and its plugin calls alternate, starting with a load.
     */
    lemma PresentWhileFetched(p: Place)
      requires Valid()
      ensures IsLoaded(p.interfaceKey) && p.name in loadedAIInterfaceLibs[p.interfaceKey].loadedSkirmishAILibraries
         <==> Tally(AfterRun(run).fetches, p) > Tally(AfterRun(run).releases, p)
      ensures Alternates(CallsAt(trace, p))
    {
      RunsAreAccounted(run, p);
      assert CountAt(p) == Tally(AfterRun(run).held, p);
    }

    constructor (interfaces: set<InterfaceKey>, skirmishAIs: set<AIName>)
      ensures Valid() && loadedAIInterfaceLibs == map[] && run == [] && trace == []
      ensures interfaceInfos == interfaces && skirmishAIInfos == skirmishAIs
    {
      interfaceInfos, skirmishAIInfos := interfaces, skirmishAIs;
      loadedAIInterfaceLibs, run, trace := map[], [], [];
    }

    /** A failed interface is remembered as null and never tried again. */
    method FetchInterface(k: InterfaceKey, inits: bool) returns (lib: AIInterfaceLibrary?)
      requires Valid()
      modifies this`loadedAIInterfaceLibs
      ensures Valid()
      ensures k in old(loadedAIInterfaceLibs) ==>
                loadedAIInterfaceLibs == old(loadedAIInterfaceLibs) && lib == loadedAIInterfaceLibs[k]
      ensures k !in old(loadedAIInterfaceLibs) && k !in interfaceInfos ==>
                loadedAIInterfaceLibs == old(loadedAIInterfaceLibs) && lib == null
      ensures k !in old(loadedAIInterfaceLibs) && k in interfaceInfos ==>
                loadedAIInterfaceLibs == old(loadedAIInterfaceLibs)[k := lib] && (lib != null <==> inits)
      ensures lib != null ==> IsLoaded(k) && loadedAIInterfaceLibs[k] == lib
      ensures k !in old(loadedAIInterfaceLibs) && lib != null ==> fresh(lib)
      ensures fresh(Objects() - old(Objects()))
      ensures lib == null ==> Unavailable(k)
      ensures forall j :: old(Unavailable(j)) ==> Unavailable(j)
    {
      if k in loadedAIInterfaceLibs {
        return loadedAIInterfaceLibs[k];
      }
      if k !in interfaceInfos {
        return null;
      }
      lib := new AIInterfaceLibrary(k);
      if !inits {
        lib := null;
      }
      loadedAIInterfaceLibs := loadedAIInterfaceLibs[k := lib];
      assert forall p :: CountAt(p) == old(CountAt(p));
    }

    /** Erases the interface if it is loaded and nothing is held from it. Never entered for a null entry. */
    method ReleaseInterface(k: InterfaceKey)
      requires Valid()
      requires k in loadedAIInterfaceLibs ==> loadedAIInterfaceLibs[k] != null
      modifies this`loadedAIInterfaceLibs
      ensures Valid()
      ensures loadedAIInterfaceLibs == old(loadedAIInterfaceLibs)
           || loadedAIInterfaceLibs == old(loadedAIInterfaceLibs) - {k}
      ensures k in loadedAIInterfaceLibs <==> exists n :: CountAt(Place(k, n)) > 0
      ensures Objects() <= old(Objects())
      ensures forall j :: old(Unavailable(j)) ==> Unavailable(j)
    {
      if k !in loadedAIInterfaceLibs {
        return;
      }
      var interfaceLib := loadedAIInterfaceLibs[k];
      NothingHeld(interfaceLib.skirmishAILoadCount);
      var count := interfaceLib.GetLoadCount();
      if count != 0 {
        ghost var n :| CountIn(interfaceLib.skirmishAILoadCount, n) != 0;
        assert CountAt(Place(k, n)) > 0;
        return;
      }
      assert forall n :: interfaceLib.Count(n) == 0;
      loadedAIInterfaceLibs := loadedAIInterfaceLibs - {k};
      assert forall p :: CountAt(p) == old(CountAt(p));
    }

    /**
     * Hands out the AI library, loading interface and library as needed; None when the AI or its
     * interface is unavailable.
     */
    method FetchSkirmishAILibrary(key: SkirmishAIKey, inits: bool, loads: bool) returns (aiLib: Option<Library>)
      requires Valid()
      modifies this, Objects()
      ensures Valid()
      ensures run == old(run) + if aiLib.Some? then [Fetch(Place(key.interfaceKey, NameOf(key)))] else []
      ensures aiLib.Some? <==> NameOf(key) in skirmishAIInfos && IsLoaded(key.interfaceKey)
      ensures fresh(Objects() - old(Objects()))
      ensures aiLib.None? && NameOf(key) in skirmishAIInfos ==> Unavailable(key.interfaceKey)
      ensures forall k :: old(Unavailable(k)) ==> Unavailable(k)
      ensures aiLib.Some? ==>
                var libs := loadedAIInterfaceLibs[key.interfaceKey].loadedSkirmishAILibraries;
                NameOf(key) in libs && aiLib.value == libs[NameOf(key)]
    {
      hide AfterRun, Tally, AIInterfaceLibrary.Valid;
      var name := NameOf(key);
      if name !in skirmishAIInfos {
        return None;
      }
      var intLib := FetchInterface(key.interfaceKey, inits);
      if intLib == null {
        return None;
      }
      aiLib := FetchFrom(intLib, name, loads);
    }

    method FetchFrom(intLib: AIInterfaceLibrary, name: AIName, loads: bool) returns (aiLib: Option<Library>)
      requires Valid()
      requires IsLoaded(intLib.key) && loadedAIInterfaceLibs[intLib.key] == intLib
      modifies this`run, this`trace, intLib
      ensures Valid()
      ensures run == old(run) + [Fetch(Place(intLib.key, name))]
      ensures name in intLib.loadedSkirmishAILibraries && aiLib == Some(intLib.loadedSkirmishAILibraries[name])
    {
      var lib;
      ghost var call;
      ghost var at := Place(intLib.key, name);
      assert CountAt(at) == intLib.Count(name);
      lib, call := intLib.FetchSkirmishAILibrary(name, loads);
      forall p ensures CountAt(p) == if p == at then old(CountAt(p)) + 1 else old(CountAt(p)) {
      }
      RunStep(run, Fetch(at));
      HeldAfterFetch(AfterRun(run), at);
      run := run + [Fetch(at)];
      trace := LogCall(trace, intLib.key, call);
      aiLib := Some(lib);
    }

    method ReleaseTo(intLib: AIInterfaceLibrary, name: AIName)
      requires Valid()
      requires IsLoaded(intLib.key) && loadedAIInterfaceLibs[intLib.key] == intLib
      modifies this`run, this`trace, intLib
      ensures Valid()
      ensures run == old(run) + [Release(Place(intLib.key, name))]
    {
      var left;
      ghost var call;
      ghost var at := Place(intLib.key, name);
      assert CountAt(at) == intLib.Count(name);
      left, call := intLib.ReleaseSkirmishAILibrary(name);
      forall p ensures CountAt(p) == if p == at && old(CountAt(p)) > 0 then old(CountAt(p)) - 1 else old(CountAt(p)) {
      }
      RunStep(run, Release(at));
      HeldAfterRelease(AfterRun(run), at);
      run := run + [Release(at)];
      trace := LogCall(trace, intLib.key, call);
    }

    /**
     * Gives one hold back; does nothing for a library that is not held. The source looks the key up
     * among the known AIs without checking that it is there.
     */
    method ReleaseSkirmishAILibrary(key: SkirmishAIKey, inits: bool)
      requires Valid()
      requires key.interfaceKey in loadedAIInterfaceLibs || key.interfaceKey in interfaceInfos
            ==> NameOf(key) in skirmishAIInfos
      modifies this, Objects()
      ensures Valid()
      ensures run == old(run) || run == old(run) + [Release(Place(key.interfaceKey, NameOf(key)))]
      ensures old(IsLoaded(key.interfaceKey)) ==> run != old(run)
      ensures fresh(Objects() - old(Objects()))
      ensures old(Unavailable(key.interfaceKey)) ==> run == old(run)
      ensures forall k :: old(Unavailable(k)) ==> Unavailable(k)
      ensures IsLoaded(key.interfaceKey) <==> exists n :: CountAt(Place(key.interfaceKey, n)) > 0
    {
      hide AfterRun, Tally, AIInterfaceLibrary.Valid;
      var intLib := FetchInterface(key.interfaceKey, inits);
      if intLib == null {
        return;
      }
      ReleaseTo(intLib, NameOf(key));
      ReleaseInterface(key.interfaceKey);
    }
  }
}
