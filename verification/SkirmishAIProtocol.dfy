/**
 * What an AI library sees of one life of a skirmish AI: the calls that reach it, in order, including
 * those it provokes itself while another call is still running.
 */
module SkirmishAIProtocol {
  import opened Wrappers
  import Registry = SkirmishAIHandler

  datatype Topic = Init | Release | Other(code: int)

  datatype Call = LibraryInit | Event(topic: Topic) | LibraryRelease

  /** The trace of one life; Blocked is the engine blocking the AI's events. */
  datatype Entry = Enter(call: Call) | Leave(call: Call, error: int) | Blocked

  /**
   * What the library does during a call, as far as the engine notices: it may get itself killed and it
   * may provoke an event which is sent to it at once, and to which it reacts in turn.
   */
  datatype Reaction =
    | Done
    | Die(reason: nat, rest: Reaction)
    | Provoke(code: int, inner: Reaction, error: int, rest: Reaction)

  /** A call's reaction and return value. */
  datatype Answer = Answer(reaction: Reaction, error: int)

  const FAILED_TO_INIT := 5

  /** The wrapper's flags, the AI's kill flag and the trace. */
  datatype Host = Host(
    library: bool, libraryInit: bool, initialized: bool, released: bool, blocked: bool, killFlag: int, log: seq<Entry>)
  {
    function Noted(e: Entry): Host {
      this.(log := log + [e])
    }

    function Block(): Host {
      Noted(Blocked).(blocked := true)
    }

    function Kill(reason: int): Host {
      this.(killFlag := reason).Block()
    }

    /** A blocked host lets only RELEASE through. */
    predicate Passes(topic: Topic) {
      !blocked || topic.Release?
    }
  }

  /** Only a listed AI, one in the handler's lists, can be sent an event. */
  function React(h: Host, reaction: Reaction, listed: bool): Host
    decreases reaction, 0
  {
    match reaction
    case Done => h
    case Die(reason, rest) => React(h.Kill(reason), rest, listed)
    case Provoke(code, inner, error, rest) =>
      React(if listed then Deliver(h, Other(code), Answer(inner, error)) else h, rest, listed)
  }

  /** RELEASE is sent after the AI has left the lists. */
  function Deliver(h: Host, topic: Topic, a: Answer): Host
    decreases a.reaction, 1
  {
    if !h.Passes(topic) then h
    else React(h.Noted(Enter(Event(topic))), a.reaction, !topic.Release?).Noted(Leave(Event(topic), a.error))
  }

  /** A blocked event counts as handled. */
  function Returned(h: Host, topic: Topic, a: Answer): int {
    if h.Passes(topic) then a.error else 0
  }

  function PreInited(killFlag: int): Host {
    Host(false, false, false, false, false, killFlag, [])
  }

  /** No library when it could not be fetched. */
  function LibraryCalled(h: Host, a: Option<Answer>): Host {
    match a
    case None => h.Kill(FAILED_TO_INIT)
    case Some(answer) =>
      var called := React(h.(library := true).Noted(Enter(LibraryInit)), answer.reaction, true);
      var left := called.Noted(Leave(LibraryInit, answer.error)).(libraryInit := answer.error == 0);
      if left.libraryInit then left else left.Kill(FAILED_TO_INIT)
  }

  function LibraryInited(h: Host, a: Option<Answer>): Host {
    var called := LibraryCalled(h, a);
    if called.killFlag != Registry.NOT_KILLED then called.Block() else called
  }

  function InitSent(h: Host, a: Answer): Host {
    var sent := Deliver(h, Init, a);
    if Returned(h, Init, a) == 0 then sent.(initialized := true) else sent.Kill(FAILED_TO_INIT)
  }

  function Inited(h: Host, library: Option<Answer>, init: Answer): Host {
    var loaded := LibraryInited(h, library);
    if loaded.killFlag != Registry.NOT_KILLED then loaded else InitSent(loaded, init)
  }

  function Released(h: Host, a: Answer): Host {
    if !h.initialized || h.released then h else Deliver(h, Release, a).(released := true)
  }

  function Unloaded(h: Host, release: Answer, unload: Answer): Host {
    var gone := Released(h, release);
    var left := if gone.libraryInit
      then React(gone.Noted(Enter(LibraryRelease)), unload.reaction, false).Noted(Leave(LibraryRelease, unload.error))
      else gone;
    left.(library := false)
  }

  /** What can happen to a living AI from outside. */
  datatype Happening = Happens(code: int, answer: Answer) | IsKilled(reason: nat)

  function After(h: Host, next: Happening): Host {
    match next
    case Happens(code, a) => Deliver(h, Other(code), a)
    case IsKilled(reason) => h.Kill(reason)
  }

  function Lived(h: Host, life: seq<Happening>): Host {
    if life == [] then h else After(Lived(h, life[..|life| - 1]), life[|life| - 1])
  }

  /**
   * An event sent to one AI. While a library runs it can provoke events at other AIs too; since each AI
   * only sees its own calls, those count as sent right afterwards. What reaches an AI in the middle of
   * its own call is part of its reaction.
   */
  datatype Sending = Sending(id: int, code: int, answer: Answer)

  /** The host of an AI after some sendings, of which it notices its own. */
  function Told(h: Host, id: int, sendings: seq<Sending>): Host {
    if sendings == [] then h
    else
      var last := sendings[|sendings| - 1];
      var before := Told(h, id, sendings[..|sendings| - 1]);
      if last.id == id then Deliver(before, Other(last.code), last.answer) else before
  }

  /** A created AI is told nothing more once it is to be killed, else the frame and the team's units. */
  function Created(killFlag: int, library: Option<Answer>, init: Answer, news: seq<Happening>): Host {
    var h := Inited(PreInited(killFlag), library, init);
    if h.killFlag != Registry.NOT_KILLED then h else Lived(h, news)
  }

  // The protocol, as an automaton that knows nothing of the wrapper's flags.

  datatype Phase = Unborn | InLibrary | LibraryFailed | Loaded | Initializing | InitFailed | Ready
    | Releasing | ReleasedOnce | Unloading | Over | Broken

  datatype Monitor = Monitor(phase: Phase, muted: bool)

  predicate Listens(p: Phase) {
    p.InLibrary? || p.Initializing? || p.Ready?
  }

  function Entered(m: Monitor, call: Call): Phase {
    match call
    case LibraryInit => if m.phase.Unborn? then InLibrary else Broken
    case Event(Init) => if m.phase.Loaded? && !m.muted then Initializing else Broken
    case Event(Release) => if m.phase.Ready? then Releasing else Broken
    case Event(Other(_)) => if Listens(m.phase) && !m.muted then m.phase else Broken
    case LibraryRelease =>
      if m.phase.ReleasedOnce? || (m.muted && (m.phase.Loaded? || m.phase.InitFailed?)) then Unloading else Broken
  }

  function Left(p: Phase, call: Call, error: int): Phase {
    match call
    case LibraryInit => if !p.InLibrary? then Broken else if error == 0 then Loaded else LibraryFailed
    case Event(Init) => if !p.Initializing? then Broken else if error == 0 then Ready else InitFailed
    case Event(Release) => if p.Releasing? then ReleasedOnce else Broken
    case Event(Other(_)) => if Listens(p) then p else Broken
    case LibraryRelease => if p.Unloading? then Over else Broken
  }

  function Next(m: Monitor, e: Entry): Monitor {
    match e
    case Enter(call) => Monitor(Entered(m, call), m.muted)
    case Leave(call, error) => Monitor(Left(m.phase, call, error), m.muted)
    case Blocked => Monitor(m.phase, true)
  }

  function Observed(log: seq<Entry>): Monitor {
    if log == [] then Monitor(Unborn, false) else Next(Observed(log[..|log| - 1]), log[|log| - 1])
  }

  lemma ObservedNext(log: seq<Entry>, e: Entry)
    ensures Observed(log + [e]) == Next(Observed(log), e)
  {
    assert (log + [e])[..|log|] == log;
  }

  lemma NotedIsObserved(h: Host, e: Entry)
    ensures Observed(h.Noted(e).log) == Next(Observed(h.log), e)
  {
    ObservedNext(h.log, e);
  }

  /** The protocol's view of a host: its phase and whether it is muted. */
  ghost predicate Seen(h: Host, phase: Phase) {
    Observed(h.log) == Monitor(phase, h.blocked)
  }

  /** The fields a reaction cannot touch, and that being blocked goes with being killed. */
  ghost predicate OnlyReacted(h: Host, r: Host) {
    && h.library == r.library && h.libraryInit == r.libraryInit
    && h.initialized == r.initialized && h.released == r.released
    && (h.blocked ==> r.blocked)
    && (r.blocked && !h.blocked ==> r.killFlag != Registry.NOT_KILLED)
    && (h.killFlag != Registry.NOT_KILLED ==> r.killFlag != Registry.NOT_KILLED)
  }

  lemma KillIsSeen(h: Host, reason: nat, phase: Phase)
    requires Seen(h, phase)
    ensures Seen(h.Kill(reason), phase) && OnlyReacted(h, h.Kill(reason))
  {
    ObservedNext(h.log, Blocked);
  }

  /** Whatever a library does in reaction keeps the protocol where it was. */
  lemma {:induction false} ReactKeepsPhase(h: Host, reaction: Reaction, listed: bool, phase: Phase)
    requires Seen(h, phase)
    requires listed ==> Listens(phase)
    ensures Seen(React(h, reaction, listed), phase) && OnlyReacted(h, React(h, reaction, listed))
    decreases reaction, 0
  {
    match reaction
    case Done =>
    case Die(reason, rest) =>
      KillIsSeen(h, reason, phase);
      ReactKeepsPhase(h.Kill(reason), rest, listed, phase);
    case Provoke(code, inner, error, rest) =>
      if listed {
        OtherKeepsPhase(h, code, Answer(inner, error), phase);
        ReactKeepsPhase(Deliver(h, Other(code), Answer(inner, error)), rest, listed, phase);
      } else {
        ReactKeepsPhase(h, rest, listed, phase);
      }
  }

  lemma {:induction false} OtherKeepsPhase(h: Host, code: int, a: Answer, phase: Phase)
    requires Seen(h, phase) && Listens(phase)
    ensures Seen(Deliver(h, Other(code), a), phase) && OnlyReacted(h, Deliver(h, Other(code), a))
    decreases a.reaction, 1
  {
    if h.Passes(Other(code)) {
      var entered := h.Noted(Enter(Event(Other(code))));
      NotedIsObserved(h, Enter(Event(Other(code))));
      ReactKeepsPhase(entered, a.reaction, true, phase);
      NotedIsObserved(React(entered, a.reaction, true), Leave(Event(Other(code)), a.error));
    }
  }

  /** Between calls the flags of a living AI say exactly where the protocol stands. */
  ghost predicate AtRest(h: Host) {
    && !h.released
    && (h.libraryInit ==> h.library)
    && (h.initialized ==> h.libraryInit)
    && (!h.initialized ==> h.blocked)
    && if h.initialized then Seen(h, Ready)
       else if !h.library then Seen(h, Unborn)
       else if !h.libraryInit then Seen(h, LibraryFailed)
       else Seen(h, Loaded) || Seen(h, InitFailed)
  }

  lemma LibraryInitIsSeen(killFlag: int, a: Option<Answer>)
    ensures
      var r := LibraryInited(PreInited(killFlag), a);
      && (r.killFlag != Registry.NOT_KILLED ==> AtRest(r))
      && (r.killFlag == Registry.NOT_KILLED ==> r.library && r.libraryInit && !r.blocked && Seen(r, Loaded))
      && !r.initialized && !r.released
  {
    hide React;
    var h := PreInited(killFlag);
    match a
    case None =>
      KillIsSeen(h, FAILED_TO_INIT, Unborn);
      ObservedNext(h.Kill(FAILED_TO_INIT).log, Blocked);
    case Some(answer) =>
      var entered := h.(library := true).Noted(Enter(LibraryInit));
      NotedIsObserved(h.(library := true), Enter(LibraryInit));
      ReactKeepsPhase(entered, answer.reaction, true, InLibrary);
      var called := React(entered, answer.reaction, true);
      NotedIsObserved(called, Leave(LibraryInit, answer.error));
      var left := called.Noted(Leave(LibraryInit, answer.error)).(libraryInit := answer.error == 0);
      if !left.libraryInit {
        KillIsSeen(left, FAILED_TO_INIT, LibraryFailed);
      }
      ObservedNext(LibraryCalled(h, a).log, Blocked);
  }

  lemma InitIsSeen(h: Host, a: Answer)
    requires Seen(h, Loaded) && h.library && h.libraryInit && !h.blocked && !h.initialized && !h.released
    ensures AtRest(InitSent(h, a)) && (InitSent(h, a).initialized <==> a.error == 0)
  {
    var entered := h.Noted(Enter(Event(Init)));
    NotedIsObserved(h, Enter(Event(Init)));
    ReactKeepsPhase(entered, a.reaction, true, Initializing);
    var reacted := React(entered, a.reaction, true);
    NotedIsObserved(reacted, Leave(Event(Init), a.error));
    if a.error != 0 {
      KillIsSeen(reacted.Noted(Leave(Event(Init), a.error)), FAILED_TO_INIT, InitFailed);
    }
  }

  /** However library and AI answer, a created AI is in a state its flags describe. */
  lemma CreationReachesRest(killFlag: int, library: Option<Answer>, init: Answer)
    ensures AtRest(Inited(PreInited(killFlag), library, init))
  {
    LibraryInitIsSeen(killFlag, library);
    var loaded := LibraryInited(PreInited(killFlag), library);
    if loaded.killFlag == Registry.NOT_KILLED {
      InitIsSeen(loaded, init);
    }
  }

  lemma EventKeepsRest(h: Host, code: int, a: Answer)
    requires AtRest(h)
    ensures AtRest(Deliver(h, Other(code), a))
  {
    if h.initialized {
      OtherKeepsPhase(h, code, a, Ready);
    }
  }

  lemma KillFlagKeepsRest(h: Host, reason: nat)
    requires AtRest(h)
    ensures AtRest(h.Kill(reason))
  {
    KillIsSeen(h, reason, Observed(h.log).phase);
  }

  /** RELEASE goes to exactly the AIs that acknowledged INIT, the library's release to those it initialised. */
  lemma UnloadingEndsLife(h: Host, release: Answer, unload: Answer)
    requires AtRest(h)
    ensures
      var r := Unloaded(h, release, unload);
      && !r.library && (r.released <==> h.initialized)
      && Seen(r, if h.libraryInit then Over else if h.library then LibraryFailed else Unborn)
  {
    var gone := Released(h, release);
    if h.initialized {
      var entered := h.Noted(Enter(Event(Release)));
      NotedIsObserved(h, Enter(Event(Release)));
      ReactKeepsPhase(entered, release.reaction, false, Releasing);
      NotedIsObserved(React(entered, release.reaction, false), Leave(Event(Release), release.error));
    }
    if h.libraryInit {
      NotedIsObserved(gone, Enter(LibraryRelease));
      var entered := gone.Noted(Enter(LibraryRelease));
      ReactKeepsPhase(entered, unload.reaction, false, Unloading);
      NotedIsObserved(React(entered, unload.reaction, false), Leave(LibraryRelease, unload.error));
    }
  }

  lemma {:induction false} LifeKeepsRest(h: Host, life: seq<Happening>)
    requires AtRest(h)
    ensures AtRest(Lived(h, life))
  {
    if life != [] {
      var before := life[..|life| - 1];
      LifeKeepsRest(h, before);
      match life[|life| - 1]
      case Happens(code, a) => EventKeepsRest(Lived(h, before), code, a);
      case IsKilled(reason) => KillFlagKeepsRest(Lived(h, before), reason);
    }
  }

  lemma ToldOneMore(h: Host, id: int, sendings: seq<Sending>, next: Sending)
    ensures Told(h, id, sendings + [next])
         == if next.id == id then Deliver(Told(h, id, sendings), Other(next.code), next.answer)
            else Told(h, id, sendings)
  {
    assert (sendings + [next])[..|sendings|] == sendings;
  }

  lemma {:induction false} ToldConcat(h: Host, id: int, a: seq<Sending>, b: seq<Sending>)
    ensures Told(h, id, a + b) == Told(Told(h, id, a), id, b)
    decreases |b|
  {
    if b == [] {
      assert a + b == a;
    } else {
      assert (a + b)[..|a + b| - 1] == a + b[..|b| - 1];
      ToldConcat(h, id, a, b[..|b| - 1]);
    }
  }

  // What an unbroken trace looks like.

  function Rank(p: Phase): nat {
    match p
    case Unborn => 0
    case InLibrary => 1
    case Loaded => 2
    case Initializing => 3
    case Ready => 4
    case Releasing => 5
    case ReleasedOnce => 6
    case InitFailed => 7
    case Unloading => 8
    case LibraryFailed => 9
    case Over => 9
    case Broken => 10
  }

  ghost predicate Follows(log: seq<Entry>) {
    !Observed(log).phase.Broken?
  }

  lemma NextAdvances(m: Monitor, e: Entry)
    ensures Rank(m.phase) <= Rank(Next(m, e).phase) && (m.muted ==> Next(m, e).muted)
  {
  }

  lemma {:induction false} PhaseAdvances(log: seq<Entry>, i: nat)
    requires i <= |log|
    ensures Rank(Observed(log[..i]).phase) <= Rank(Observed(log).phase)
    ensures Observed(log[..i]).muted ==> Observed(log).muted
    decreases |log|
  {
    if i == |log| {
      assert log[..i] == log;
    } else {
      var shorter := log[..|log| - 1];
      PhaseAdvances(shorter, i);
      NextAdvances(Observed(shorter), log[|log| - 1]);
      assert shorter[..i] == log[..i];
    }
  }

  /** The monitor just before and just after entry i of an unbroken trace. */
  lemma StepAt(log: seq<Entry>, i: nat)
    requires Follows(log) && i < |log|
    ensures Observed(log[..i + 1]) == Next(Observed(log[..i]), log[i])
    ensures Follows(log[..i]) && Follows(log[..i + 1])
  {
    assert log[..i + 1][..i] == log[..i];
    PhaseAdvances(log, i);
    PhaseAdvances(log, i + 1);
  }

  /** Phases never go back between two entries of a trace. */
  lemma Between(log: seq<Entry>, i: nat, j: nat)
    requires i <= j <= |log|
    ensures Rank(Observed(log[..i]).phase) <= Rank(Observed(log[..j]).phase)
    ensures Observed(log[..i]).muted ==> Observed(log[..j]).muted
  {
    assert log[..j][..i] == log[..i];
    PhaseAdvances(log[..j], i);
  }

  lemma {:induction false} ReadyWasAcknowledged(log: seq<Entry>) returns (i: nat)
    requires Observed(log).phase.Ready?
    ensures i < |log| && log[i] == Leave(Event(Init), 0)
  {
    var last := log[|log| - 1];
    if last == Leave(Event(Init), 0) {
      i := |log| - 1;
    } else {
      i := ReadyWasAcknowledged(log[..|log| - 1]);
    }
  }

  /** INIT is sent at most once. */
  lemma InitOnce(log: seq<Entry>, i: nat, j: nat)
    requires Follows(log) && i < |log| && j < |log|
    requires log[i] == Enter(Event(Init)) && log[j] == Enter(Event(Init))
    ensures i == j
  {
    StepAt(log, i);
    StepAt(log, j);
    if i < j {
      Between(log, i + 1, j);
    } else if j < i {
      Between(log, j + 1, i);
    }
  }

  /** After RELEASE, or after a refused INIT, no event is sent at all. */
  lemma NothingAfterTheEnd(log: seq<Entry>, i: nat, j: nat, error: int, topic: Topic)
    requires Follows(log) && i < j < |log|
    requires log[i] == Enter(Event(Release)) || (log[i] == Leave(Event(Init), error) && error != 0)
    ensures log[j] != Enter(Event(topic))
  {
    StepAt(log, i);
    StepAt(log, j);
    Between(log, i + 1, j);
  }

  /** RELEASE is sent only after INIT was acknowledged. */
  lemma ReleaseNeedsInit(log: seq<Entry>, j: nat) returns (i: nat)
    requires Follows(log) && j < |log| && log[j] == Enter(Event(Release))
    ensures i < j && log[i] == Leave(Event(Init), 0)
  {
    StepAt(log, j);
    i := ReadyWasAcknowledged(log[..j]);
  }

  /** Once blocked only RELEASE passes. */
  lemma OnlyReleaseWhenBlocked(log: seq<Entry>, i: nat, j: nat, topic: Topic)
    requires Follows(log) && i < j < |log|
    requires log[i] == Blocked && log[j] == Enter(Event(topic))
    ensures topic == Release
  {
    StepAt(log, i);
    StepAt(log, j);
    Between(log, i + 1, j);
  }

  /** Every life, from creation to unloading, follows the protocol, and so does each part of it. */
  lemma EveryLifeFollows(
    killFlag: int, library: Option<Answer>, init: Answer, life: seq<Happening>, release: Answer, unload: Answer)
    ensures
      var h := Lived(Inited(PreInited(killFlag), library, init), life);
      Follows(h.log) && Follows(Unloaded(h, release, unload).log)
  {
    CreationReachesRest(killFlag, library, init);
    var born := Inited(PreInited(killFlag), library, init);
    LifeKeepsRest(born, life);
    UnloadingEndsLife(Lived(born, life), release, unload);
  }

  // Events before INIT.

  ghost predicate HasEvent(log: seq<Entry>) {
    exists i :: 0 <= i < |log| && log[i].Enter? && log[i].call.Event?
  }

  lemma {:induction false} ReactAppends(h: Host, reaction: Reaction, listed: bool)
    ensures h.log <= React(h, reaction, listed).log
    ensures h.blocked ==> (HasEvent(React(h, reaction, listed).log) <==> HasEvent(h.log))
    decreases reaction, 0
  {
    match reaction
    case Done =>
    case Die(reason, rest) =>
      ReactAppends(h.Kill(reason), rest, listed);
      NoEventAdded(h.log, Blocked);
    case Provoke(code, inner, error, rest) =>
      if listed {
        DeliverAppends(h, Other(code), Answer(inner, error));
        ReactAppends(Deliver(h, Other(code), Answer(inner, error)), rest, listed);
      } else {
        ReactAppends(h, rest, listed);
      }
  }

  lemma {:induction false} DeliverAppends(h: Host, topic: Topic, a: Answer)
    requires !topic.Release?
    ensures h.log <= Deliver(h, topic, a).log
    ensures h.blocked ==> Deliver(h, topic, a) == h
    ensures !h.blocked ==> h.log + [Enter(Event(topic))] <= Deliver(h, topic, a).log
    decreases a.reaction, 1
  {
    if h.Passes(topic) {
      ReactAppends(h.Noted(Enter(Event(topic))), a.reaction, true);
    }
  }

  lemma NoEventAdded(log: seq<Entry>, e: Entry)
    requires e == Blocked || e.Leave?
    ensures HasEvent(log + [e]) <==> HasEvent(log)
  {
    if HasEvent(log) {
      var i :| 0 <= i < |log| && log[i].Enter? && log[i].call.Event?;
      assert (log + [e])[i] == log[i];
    }
  }

  lemma EventInPrefix(log: seq<Entry>, longer: seq<Entry>)
    requires log <= longer && HasEvent(log)
    ensures HasEvent(longer)
  {
    var i :| 0 <= i < |log| && log[i].Enter? && log[i].call.Event?;
    assert longer[i] == log[i];
  }

  /** A reaction shows the library an event exactly when it begins by provoking one: the first death blocks. */
  lemma FirstProvocation(h: Host, reaction: Reaction)
    requires !h.blocked && !HasEvent(h.log)
    ensures HasEvent(React(h, reaction, true).log) <==> reaction.Provoke?
  {
    match reaction
    case Done =>
    case Die(reason, rest) =>
      NoEventAdded(h.log, Blocked);
      ReactAppends(h.Kill(reason), rest, true);
    case Provoke(code, inner, error, rest) =>
      var sent := Deliver(h, Other(code), Answer(inner, error));
      DeliverAppends(h, Other(code), Answer(inner, error));
      ReactAppends(sent, rest, true);
      var entered := h.log + [Enter(Event(Other(code)))];
      assert entered[|h.log|].call.Event?;
      EventInPrefix(entered, sent.log);
      EventInPrefix(sent.log, React(sent, rest, true).log);
  }

  lemma BlockingShowsNoEvent(h: Host, reason: int)
    ensures HasEvent(h.Kill(reason).log) <==> HasEvent(h.log)
    ensures HasEvent(h.Block().log) <==> HasEvent(h.log)
  {
    NoEventAdded(h.log, Blocked);
  }

  /**
   * INIT is the first event an AI sees unless the first thing its library does in its own init function
   * is to provoke one: there the AI is already in the lists and not yet blocked, until it dies.
   */
  lemma EventsBeforeInit(killFlag: int, a: Answer)
    ensures HasEvent(LibraryInited(PreInited(killFlag), Some(a)).log) <==> a.reaction.Provoke?
  {
    var h := PreInited(killFlag).(library := true).Noted(Enter(LibraryInit));
    assert h.log == [Enter(LibraryInit)];
    var called := React(h, a.reaction, true);
    FirstProvocation(h, a.reaction);
    var left := called.Noted(Leave(LibraryInit, a.error)).(libraryInit := a.error == 0);
    NoEventAdded(called.log, Leave(LibraryInit, a.error));
    BlockingShowsNoEvent(left, FAILED_TO_INIT);
    BlockingShowsNoEvent(LibraryCalled(PreInited(killFlag), Some(a)), FAILED_TO_INIT);
  }

  // Who is blocked.

  /** A reaction in which the AI dies; what it provokes only counts if it is listed. */
  predicate Deadly(reaction: Reaction, listed: bool) {
    match reaction
    case Done => false
    case Die(_, _) => true
    case Provoke(_, inner, _, rest) => (listed && Deadly(inner, true)) || Deadly(rest, listed)
  }

  /** Dying in a reaction, at any depth, is the only way it gets an AI blocked. */
  lemma {:induction false} ReactionBlocks(h: Host, reaction: Reaction, listed: bool)
    ensures React(h, reaction, listed).blocked <==> h.blocked || Deadly(reaction, listed)
    ensures !React(h, reaction, listed).blocked ==> React(h, reaction, listed).killFlag == h.killFlag
    decreases reaction, 0
  {
    match reaction
    case Done =>
    case Die(reason, rest) => ReactionBlocks(h.Kill(reason), rest, listed);
    case Provoke(code, inner, error, rest) =>
      DeliveryBlocks(h, code, Answer(inner, error));
      ReactionBlocks(if listed then Deliver(h, Other(code), Answer(inner, error)) else h, rest, listed);
  }

  lemma {:induction false} DeliveryBlocks(h: Host, code: int, a: Answer)
    ensures Deliver(h, Other(code), a).blocked <==> h.blocked || Deadly(a.reaction, true)
    ensures !Deliver(h, Other(code), a).blocked ==> Deliver(h, Other(code), a).killFlag == h.killFlag
    decreases a.reaction, 1
  {
    if h.Passes(Other(code)) {
      ReactionBlocks(h.Noted(Enter(Event(Other(code)))), a.reaction, true);
    }
  }

  // What reaches a living AI.

  lemma LivedOneMore(h: Host, life: seq<Happening>, next: Happening)
    ensures Lived(h, life + [next]) == After(Lived(h, life), next)
  {
    assert (life + [next])[..|life|] == life;
  }

  lemma {:induction false} LivedAppends(h: Host, life: seq<Happening>, k: nat)
    requires k <= |life|
    ensures Lived(h, life[..k]).log <= Lived(h, life).log
    ensures Lived(h, life[..k]).blocked ==> Lived(h, life).blocked
    decreases |life|
  {
    if k == |life| {
      assert life[..k] == life;
    } else {
      var shorter := life[..|life| - 1];
      LivedAppends(h, shorter, k);
      assert shorter[..k] == life[..k];
      match life[|life| - 1]
      case Happens(code, a) =>
        DeliverAppends(Lived(h, shorter), Other(code), a);
        DeliveryBlocks(Lived(h, shorter), code, a);
      case IsKilled(_) =>
    }
  }

  /**
   * Every event sent to a living AI is entered in its trace, right after what it saw before, until it is
   * blocked; from then on nothing is added.
   */
  lemma EventsArrive(h: Host, life: seq<Happening>, k: nat)
    requires k < |life| && life[k].Happens?
    ensures
      var before := Lived(h, life[..k]);
      if before.blocked then Lived(h, life[..k + 1]) == before
      else before.log + [Enter(Event(Other(life[k].code)))] <= Lived(h, life).log
  {
    assert life[..k + 1] == life[..k] + [life[k]];
    LivedOneMore(h, life[..k], life[k]);
    DeliverAppends(Lived(h, life[..k]), Other(life[k].code), life[k].answer);
    LivedAppends(h, life, k + 1);
  }

  /** The places in the trace where an AI that is never blocked is told its news: all of them, in order. */
  lemma {:induction false} NewsArrive(h: Host, news: seq<Happening>) returns (at: seq<nat>)
    requires (forall n :: n in news ==> n.Happens?) && !Lived(h, news).blocked
    ensures |at| == |news|
    ensures forall i :: 0 <= i < |at| ==> |h.log| <= at[i] < |Lived(h, news).log|
    ensures forall i :: 0 <= i < |at| ==> Lived(h, news).log[at[i]] == Enter(Event(Other(news[i].code)))
    ensures forall i, j :: 0 <= i < j < |at| ==> at[i] < at[j]
  {
    if news == [] {
      at := [];
    } else {
      var k := |news| - 1;
      LivedAppends(h, news, k);
      LivedAppends(h, news, 0);
      LivedAppends(h, news[..k], 0);
      at := NewsArrive(h, news[..k]);
      EventsArrive(h, news, k);
      at := at + [|Lived(h, news[..k]).log|];
    }
  }

  /** An AI that is not blocked after its creation is to live on, and has acknowledged INIT. */
  lemma UnblockedLivesOn(killFlag: int, library: Option<Answer>, init: Answer) returns (inited: nat)
    requires !Inited(PreInited(killFlag), library, init).blocked
    ensures
      var h := Inited(PreInited(killFlag), library, init);
      h.killFlag == Registry.NOT_KILLED && inited < |h.log| && h.log[inited] == Leave(Event(Init), 0)
  {
    hide React, Next, Observed;
    CreationReachesRest(killFlag, library, init);
    LibraryInitIsSeen(killFlag, library);
    var loaded := LibraryInited(PreInited(killFlag), library);
    if loaded.killFlag == Registry.NOT_KILLED {
      ReactionBlocks(loaded.Noted(Enter(Event(Init))), init.reaction, true);
    }
    inited := ReadyWasAcknowledged(Inited(PreInited(killFlag), library, init).log);
  }

  /** A created AI that lives on is told INIT and then all its news. */
  lemma CreatedIsTold(killFlag: int, library: Option<Answer>, init: Answer, news: seq<Happening>)
    returns (at: seq<nat>)
    requires forall n :: n in news ==> n.Happens?
    requires !Created(killFlag, library, init, news).blocked
    ensures
      var log := Created(killFlag, library, init, news).log;
      && |at| == |news| + 1 && (forall i, j :: 0 <= i < j < |at| ==> at[i] < at[j])
      && (forall i :: 0 <= i < |at| ==> at[i] < |log|)
      && log[at[0]] == Leave(Event(Init), 0)
      && forall i :: 0 <= i < |news| ==> log[at[i + 1]] == Enter(Event(Other(news[i].code)))
  {
    hide Inited;
    var h := Inited(PreInited(killFlag), library, init);
    LivedAppends(h, news, 0);
    assert news[..0] == [];
    var inited := UnblockedLivesOn(killFlag, library, init);
    var told := NewsArrive(h, news);
    at := [inited] + told;
  }
}
