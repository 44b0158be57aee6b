/**
 * Unit commands between skirmish AIs and the engine: typed commands are written as an engine command
 * (an id and a flat parameter list), engine commands are classified, and raw commands handed in by
 * an AI are classified, decoded to a typed command and written again.
 *
 * Every S*UnitCommand struct is a topic with a payload of one of nine shapes. Parameters are reals;
 * conversions to int truncate.
 */
module UnitCommands {
  import opened Arithmetic
  import opened Wrappers

  const CMD_STOP := 0
  const CMD_WAIT := 5
  const CMD_TIMEWAIT := 6
  const CMD_DEATHWAIT := 7
  const CMD_SQUADWAIT := 8
  const CMD_GATHERWAIT := 9
  const CMD_MOVE := 10
  const CMD_PATROL := 15
  const CMD_FIGHT := 16
  const CMD_ATTACK := 20
  const CMD_GUARD := 25
  const CMD_GROUPADD := 36
  const CMD_GROUPCLEAR := 37
  const CMD_REPAIR := 40
  const CMD_FIRE_STATE := 45
  const CMD_MOVE_STATE := 50
  const CMD_SETBASE := 55
  const CMD_SELFD := 65
  const CMD_LOAD_UNITS := 75
  const CMD_LOAD_ONTO := 76
  const CMD_UNLOAD_UNITS := 80
  const CMD_UNLOAD_UNIT := 81
  const CMD_ONOFF := 85
  const CMD_RECLAIM := 90
  const CMD_CLOAK := 95
  const CMD_STOCKPILE := 100
  const CMD_MANUALFIRE := 105
  const CMD_RESTORE := 110
  const CMD_REPEAT := 115
  const CMD_TRAJECTORY := 120
  const CMD_RESURRECT := 125
  const CMD_CAPTURE := 130
  const CMD_AUTOREPAIRLEVEL := 135
  const CMD_IDLEMODE := 145

  const NO_FACING := -1

  /** Parameters kept inside the command itself; longer lists live in a shared pool. */
  const MAX_COMMAND_PARAMS := 8

  datatype Pos = Pos(x: real, y: real, z: real)

  // ------------------------------------------------------------------------- typed commands

  datatype Topic =
    | Build | Stop | Wait | WaitTime | WaitDeath | WaitSquad | WaitGather | Move | Patrol | Fight | Attack
    | AttackArea | Guard | GroupAdd | GroupClear | Repair | SetFireState | SetMoveState | SetBase | SelfDestroy
    | LoadUnits | LoadUnitsArea | LoadOnto | UnloadUnit | UnloadUnitsArea | SetOnOff | ReclaimUnit
    | ReclaimFeature | ReclaimArea | Cloak | Stockpile | DGun | DGunPos | RestoreArea | SetRepeat
    | SetTrajectory | Resurrect | ResurrectArea | Capture | CaptureArea | SetAutoRepairLevel | SetIdleMode
    | Custom

  datatype Shape = Bare | Number | Switch | Place | Area | PlaceNumber | Numbers | Site | Free

  /** Which fields, besides options and timeout, the struct of a topic has. */
  function ShapeOf(t: Topic): Shape {
    match t
    case Build => Site
    case Custom => Free
    case Stop | Wait | WaitGather | GroupClear | SelfDestroy | Stockpile => Bare
    case SetOnOff | Cloak | SetRepeat => Switch
    case Move | Patrol | Fight | SetBase | DGunPos => Place
    case AttackArea | LoadUnitsArea | UnloadUnitsArea | ReclaimArea | RestoreArea | ResurrectArea
       | CaptureArea => Area
    case UnloadUnit => PlaceNumber
    case LoadUnits => Numbers
    case _ => Number
  }

  /** The engine id of a topic; BUILD and CUSTOM carry theirs in the payload. */
  function IdOf(t: Topic): int
    requires t != Build && t != Custom
  {
    match t
    case Stop => CMD_STOP
    case Wait => CMD_WAIT
    case WaitTime => CMD_TIMEWAIT
    case WaitDeath => CMD_DEATHWAIT
    case WaitSquad => CMD_SQUADWAIT
    case WaitGather => CMD_GATHERWAIT
    case Move => CMD_MOVE
    case Patrol => CMD_PATROL
    case Fight => CMD_FIGHT
    case Attack => CMD_ATTACK
    case AttackArea => CMD_ATTACK
    case Guard => CMD_GUARD
    case GroupAdd => CMD_GROUPADD
    case GroupClear => CMD_GROUPCLEAR
    case Repair => CMD_REPAIR
    case SetFireState => CMD_FIRE_STATE
    case SetMoveState => CMD_MOVE_STATE
    case SetBase => CMD_SETBASE
    case SelfDestroy => CMD_SELFD
    case LoadUnits => CMD_LOAD_UNITS
    case LoadUnitsArea => CMD_LOAD_UNITS
    case LoadOnto => CMD_LOAD_ONTO
    case UnloadUnit => CMD_UNLOAD_UNIT
    case UnloadUnitsArea => CMD_UNLOAD_UNITS
    case SetOnOff => CMD_ONOFF
    case ReclaimUnit => CMD_RECLAIM
    case ReclaimFeature => CMD_RECLAIM
    case ReclaimArea => CMD_RECLAIM
    case Cloak => CMD_CLOAK
    case Stockpile => CMD_STOCKPILE
    case DGun => CMD_MANUALFIRE
    case DGunPos => CMD_MANUALFIRE
    case RestoreArea => CMD_RESTORE
    case SetRepeat => CMD_REPEAT
    case SetTrajectory => CMD_TRAJECTORY
    case Resurrect => CMD_RESURRECT
    case ResurrectArea => CMD_RESURRECT
    case Capture => CMD_CAPTURE
    case CaptureArea => CMD_CAPTURE
    case SetAutoRepairLevel => CMD_AUTOREPAIRLEVEL
    case SetIdleMode => CMD_IDLEMODE
  }

  datatype Payload =
    | NoPayload
    | ANumber(n: int)
    | ASwitch(on: bool)
    | APlace(pos: Pos)
    | AnArea(center: Pos, radius: real)
    | APlaceNumber(toPos: Pos, toUnloadUnitId: int)
    | SomeNumbers(toLoadUnitIds: seq<int>)
    | ASite(toBuildUnitDefId: int, buildPos: Option<Pos>, facing: int)
    | Anything(cmdId: int, params: seq<real>)

  predicate HasShape(p: Payload, s: Shape) {
    match s
    case Bare => p.NoPayload?
    case Number => p.ANumber?
    case Switch => p.ASwitch?
    case Place => p.APlace?
    case Area => p.AnArea?
    case PlaceNumber => p.APlaceNumber?
    case Numbers => p.SomeNumbers?
    case Site => p.ASite?
    case Free => p.Anything?
  }

  datatype Order = Order(topic: Topic, payload: Payload) {
    predicate Typed() {
      HasShape(payload, ShapeOf(topic))
    }
  }

  type Short = i: int | -0x8000 <= i < 0x8000 witness 0

  type Byte = i: int | 0 <= i < 0x100 witness 0

  /** An order with the fields every struct shares. */
  datatype TypedCommand = TypedCommand(options: Short, timeOut: int, order: Order)

  /** A short passed on as an unsigned char. */
  function Narrowed(options: Short): Byte {
    options % 0x100
  }

  /** toInternalUnitCommandTopic: the engine command id of a typed command. */
  function InternalTopic(o: Order): int
    requires o.Typed()
  {
    match o.topic
    case Build => -o.payload.toBuildUnitDefId
    case Custom => o.payload.cmdId
    case _ => IdOf(o.topic)
  }

  // ------------------------------------------------------------------------ engine commands

  datatype EngineCommand = EngineCommand(id: int, options: Byte, timeOut: int, params: seq<real>) {
    /** Past the end a parameter reads as zero. */
    function Param(i: nat): real {
      if i < |params| then params[i] else 0.0
    }
  }

  function PosParams(p: Pos): seq<real> {
    [p.x, p.y, p.z]
  }

  function IdParams(ids: seq<int>): seq<real> {
    seq(|ids|, i requires 0 <= i < |ids| => ids[i] as real)
  }

  /** The parameters pushed for a payload; features are numbered after all units. */
  function PayloadParams(p: Payload, base: int): seq<real> {
    match p
    case NoPayload => []
    case ANumber(n) => [(base + n) as real]
    case ASwitch(on) => [if on then 1.0 else 0.0]
    case APlace(pos) => PosParams(pos)
    case AnArea(center, radius) => PosParams(center) + [radius]
    case APlaceNumber(pos, n) => PosParams(pos) + [n as real]
    case SomeNumbers(ids) => IdParams(ids)
    case ASite(_, pos, facing) =>
      (if pos.Some? then PosParams(pos.value) else []) + (if facing != NO_FACING then [facing as real] else [])
    case Anything(_, params) => params
  }

  /** Only the feature id of a reclaim order is offset. */
  function BaseOf(t: Topic, maxUnits: int): int {
    if t == ReclaimFeature then maxUnits else 0
  }

  function ParamsOf(o: Order, maxUnits: int): seq<real> {
    PayloadParams(o.payload, BaseOf(o.topic, maxUnits))
  }

  /** The id newCommand gives the command it writes, by a table of its own. */
  function WrittenId(o: Order): int
    requires o.Typed()
  {
    match o.topic
    case Build => -o.payload.toBuildUnitDefId
    case Stop => CMD_STOP
    case Wait => CMD_WAIT
    case WaitTime => CMD_TIMEWAIT
    case WaitDeath => CMD_DEATHWAIT
    case WaitSquad => CMD_SQUADWAIT
    case WaitGather => CMD_GATHERWAIT
    case Move => CMD_MOVE
    case Patrol => CMD_PATROL
    case Fight => CMD_FIGHT
    case Attack => CMD_ATTACK
    case AttackArea => CMD_ATTACK
    case Guard => CMD_GUARD
    case GroupAdd => CMD_GROUPADD
    case GroupClear => CMD_GROUPCLEAR
    case Repair => CMD_REPAIR
    case SetFireState => CMD_FIRE_STATE
    case SetMoveState => CMD_MOVE_STATE
    case SetBase => CMD_SETBASE
    case SelfDestroy => CMD_SELFD
    case LoadUnits => CMD_LOAD_UNITS
    case LoadUnitsArea => CMD_LOAD_UNITS
    case LoadOnto => CMD_LOAD_ONTO
    case UnloadUnitsArea => CMD_UNLOAD_UNITS
    case UnloadUnit => CMD_UNLOAD_UNIT
    case SetOnOff => CMD_ONOFF
    case ReclaimUnit => CMD_RECLAIM
    case ReclaimFeature => CMD_RECLAIM
    case ReclaimArea => CMD_RECLAIM
    case Cloak => CMD_CLOAK
    case Stockpile => CMD_STOCKPILE
    case DGun => CMD_MANUALFIRE
    case DGunPos => CMD_MANUALFIRE
    case RestoreArea => CMD_RESTORE
    case SetRepeat => CMD_REPEAT
    case SetTrajectory => CMD_TRAJECTORY
    case Resurrect => CMD_RESURRECT
    case ResurrectArea => CMD_RESURRECT
    case Capture => CMD_CAPTURE
    case CaptureArea => CMD_CAPTURE
    case SetAutoRepairLevel => CMD_AUTOREPAIRLEVEL
    case SetIdleMode => CMD_IDLEMODE
    case Custom => o.payload.cmdId
  }

  /** The two tables name the same id for every order. */
  lemma WrittenIdIsInternal(o: Order)
    requires o.Typed()
    ensures WrittenId(o) == InternalTopic(o)
  {
    match o.topic
    case Build =>
    case Custom =>
    case _ => assert WrittenId(o) == IdOf(o.topic);
  }

  /** What newCommand writes for a typed command. */
  function Encode(c: TypedCommand, maxUnits: int): EngineCommand
    requires c.order.Typed()
  {
    EngineCommand(WrittenId(c.order), Narrowed(c.options), c.timeOut, ParamsOf(c.order, maxUnits))
  }

  /** extractAICommandTopic, from the id, the number of parameters and the first one. */
  function Classify(id: int, numParams: nat, first: real, maxUnits: int): Topic {
    if id == CMD_STOP then Stop
    else if id == CMD_WAIT then Wait
    else if id == CMD_TIMEWAIT then WaitTime
    else if id == CMD_DEATHWAIT then WaitDeath
    else if id == CMD_SQUADWAIT then WaitSquad
    else if id == CMD_GATHERWAIT then WaitGather
    else if id == CMD_MOVE then Move
    else if id == CMD_PATROL then Patrol
    else if id == CMD_FIGHT then Fight
    else if id == CMD_ATTACK then (if numParams < 3 then Attack else AttackArea)
    else if id == CMD_GUARD then Guard
    else if id == CMD_GROUPADD then GroupAdd
    else if id == CMD_GROUPCLEAR then GroupClear
    else if id == CMD_REPAIR then Repair
    else if id == CMD_FIRE_STATE then SetFireState
    else if id == CMD_MOVE_STATE then SetMoveState
    else if id == CMD_SETBASE then SetBase
    else if id == CMD_SELFD then SelfDestroy
    else if id == CMD_LOAD_UNITS then (if numParams < 3 then LoadUnits else LoadUnitsArea)
    else if id == CMD_LOAD_ONTO then LoadOnto
    else if id == CMD_UNLOAD_UNIT then UnloadUnit
    else if id == CMD_UNLOAD_UNITS then UnloadUnitsArea
    else if id == CMD_ONOFF then SetOnOff
    else if id == CMD_RECLAIM then
      (if numParams < 3 || numParams == 5
       then (if first < maxUnits as real then ReclaimUnit else ReclaimFeature)
       else ReclaimArea)
    else if id == CMD_CLOAK then Cloak
    else if id == CMD_STOCKPILE then Stockpile
    else if id == CMD_MANUALFIRE then (if numParams < 3 then DGun else DGunPos)
    else if id == CMD_RESTORE then RestoreArea
    else if id == CMD_REPEAT then SetRepeat
    else if id == CMD_TRAJECTORY then SetTrajectory
    else if id == CMD_RESURRECT then (if numParams < 3 then Resurrect else ResurrectArea)
    else if id == CMD_CAPTURE then (if numParams < 3 || numParams == 5 then Capture else CaptureArea)
    else if id == CMD_AUTOREPAIRLEVEL then SetAutoRepairLevel
    else if id == CMD_IDLEMODE then SetIdleMode
    else if id < 0 then Build
    else Custom
  }

  function ExtractTopic(c: EngineCommand, maxUnits: int): Topic {
    Classify(c.id, |c.params|, c.Param(0), maxUnits)
  }

  /** The ids extractAICommandTopic knows by name. */
  const NAMED_IDS: set<int> := {
    CMD_STOP, CMD_WAIT, CMD_TIMEWAIT, CMD_DEATHWAIT, CMD_SQUADWAIT, CMD_GATHERWAIT, CMD_MOVE, CMD_PATROL,
    CMD_FIGHT, CMD_ATTACK, CMD_GUARD, CMD_GROUPADD, CMD_GROUPCLEAR, CMD_REPAIR, CMD_FIRE_STATE,
    CMD_MOVE_STATE, CMD_SETBASE, CMD_SELFD, CMD_LOAD_UNITS, CMD_LOAD_ONTO, CMD_UNLOAD_UNIT, CMD_UNLOAD_UNITS,
    CMD_ONOFF, CMD_RECLAIM, CMD_CLOAK, CMD_STOCKPILE, CMD_MANUALFIRE, CMD_RESTORE, CMD_REPEAT, CMD_TRAJECTORY,
    CMD_RESURRECT, CMD_CAPTURE, CMD_AUTOREPAIRLEVEL, CMD_IDLEMODE
  }

  lemma UnnamedIds(id: int, numParams: nat, first: real, maxUnits: int)
    requires id !in NAMED_IDS
    ensures Classify(id, numParams, first, maxUnits) == if id < 0 then Build else Custom
  {
  }

  lemma NamedIds(id: int, numParams: nat, first: real, maxUnits: int)
    requires id in NAMED_IDS
    ensures Classify(id, numParams, first, maxUnits) != Build
    ensures Classify(id, numParams, first, maxUnits) != Custom
  {
  }

  /** A topic with an id of its own is only picked for that id. */
  lemma PickedTopicHasId(id: int, numParams: nat, first: real, maxUnits: int)
    ensures var t := Classify(id, numParams, first, maxUnits);
            t != Build && t != Custom ==> IdOf(t) == id
  {
  }

  /** The ids whose topic also depends on the parameters. */
  const BRANCHING_IDS: set<int> :=
    {CMD_ATTACK, CMD_LOAD_UNITS, CMD_MANUALFIRE, CMD_RESURRECT, CMD_CAPTURE, CMD_RECLAIM}

  lemma OtherIdsDoNotBranch(id: int, n1: nat, first1: real, n2: nat, first2: real, maxUnits: int)
    requires id !in BRANCHING_IDS
    ensures Classify(id, n1, first1, maxUnits) == Classify(id, n2, first2, maxUnits)
  {
  }

  /** The topics that share their id with another one. */
  predicate SharesId(t: Topic) {
    match t
    case Attack | AttackArea | LoadUnits | LoadUnitsArea | DGun | DGunPos | Resurrect | ResurrectArea => true
    case Capture | CaptureArea | ReclaimUnit | ReclaimFeature | ReclaimArea => true
    case _ => false
  }

  lemma OwnIdIsRecognised(t: Topic, numParams: nat, first: real, maxUnits: int)
    requires t != Build && t != Custom && !SharesId(t)
    ensures Classify(IdOf(t), numParams, first, maxUnits) == t
  {
  }

  /** Exactly when the engine command of an order is classified back as that order. */
  predicate Recognisable(o: Order, maxUnits: int)
    requires o.Typed()
  {
    match o.topic
    case Build => o.payload.toBuildUnitDefId > 0
    case LoadUnits => |o.payload.toLoadUnitIds| < 3
    case ReclaimUnit => o.payload.n < maxUnits
    case ReclaimFeature => 0 <= o.payload.n
    case Custom => 0 <= o.payload.cmdId && o.payload.cmdId !in NAMED_IDS
    case _ => true
  }

  lemma SharedIdIsInverted(o: Order, maxUnits: int, params: seq<real>)
    requires o.Typed() && SharesId(o.topic) && params == ParamsOf(o, maxUnits)
    ensures Classify(IdOf(o.topic), |params|, if params == [] then 0.0 else params[0], maxUnits) == o.topic
       <==> Recognisable(o, maxUnits)
  {
  }

  /**
   * newCommand writes the id toInternalUnitCommandTopic names, and classification inverts it if and
   * only if the order is recognisable.
   */
  lemma ClassificationInvertsEncoding(c: TypedCommand, maxUnits: int)
    requires c.order.Typed()
    ensures Encode(c, maxUnits).id == InternalTopic(c.order)
    ensures ExtractTopic(Encode(c, maxUnits), maxUnits) == c.order.topic <==> Recognisable(c.order, maxUnits)
  {
    hide WrittenId;
    WrittenIdIsInternal(c.order);
    var e, t := Encode(c, maxUnits), c.order.topic;
    if t == Build || t == Custom {
      if e.id in NAMED_IDS {
        NamedIds(e.id, |e.params|, e.Param(0), maxUnits);
      } else {
        UnnamedIds(e.id, |e.params|, e.Param(0), maxUnits);
      }
    } else if SharesId(t) {
      SharedIdIsInverted(c.order, maxUnits, e.params);
    } else {
      OwnIdIsRecognised(t, |e.params|, e.Param(0), maxUnits);
    }
  }

  // --------------------------------------------------------------------------- raw commands

  /** A command as an AI hands it in. More than eight parameters live in the pool, fewer do not. */
  datatype RawCommand = RawCommand(id: int, options: Byte, timeOut: int, params: seq<real>)

  function ToRaw(c: EngineCommand): RawCommand {
    RawCommand(c.id, c.options, c.timeOut, c.params)
  }

  /**
   * FromRawCommand copies as many bytes as there are parameters, not as many parameters. Below four
   * parameters the first one keeps only its low bytes: with the sign and the high exponent bits zero
   * that is some number from 0 up to, but not including, 1.
   */
  type Residue = r: real | 0.0 <= r < 1.0 witness 0.0

  /** The first parameter as the classification inside executeCommand sees it. */
  function FirstSeen(raw: RawCommand, residue: Residue): real {
    if raw.params == [] then 0.0
    else if |raw.params| < 4 then residue
    else raw.params[0]
  }

  function SeenTopic(raw: RawCommand, maxUnits: int, residue: Residue): Topic {
    Classify(raw.id, |raw.params|, FirstSeen(raw, residue), maxUnits)
  }

  function TrueTopic(raw: RawCommand, maxUnits: int): Topic {
    Classify(raw.id, |raw.params|, if raw.params == [] then 0.0 else raw.params[0], maxUnits)
  }

  /** The parameters a decoder reads without looking at their number. */
  function ParamsRead(s: Shape): nat {
    match s
    case Number | Switch => 1
    case Place | Area => 3
    case PlaceNumber => 4
    case _ => 0
  }

  function PosOf(params: seq<real>): Pos
    requires |params| >= 3
  {
    Pos(params[0], params[1], params[2])
  }

  function RadiusOf(params: seq<real>): real {
    if |params| >= 4 then params[3] else 0.0
  }

  /** The payload executeCommand builds; loading no units at all is refused. */
  function ReadPayload(s: Shape, id: int, params: seq<real>, base: int): Option<Payload>
    requires ParamsRead(s) <= |params|
  {
    match s
    case Bare => Some(NoPayload)
    case Number => Some(ANumber(Truncate(params[0]) - base))
    case Switch => Some(ASwitch(params[0] != 0.0))
    case Place => Some(APlace(PosOf(params)))
    case Area => Some(AnArea(PosOf(params), RadiusOf(params)))
    case PlaceNumber => Some(APlaceNumber(PosOf(params), Truncate(params[3])))
    case Numbers =>
      if params == [] then None
      else Some(SomeNumbers(seq(|params|, i requires 0 <= i < |params| => Truncate(params[i]))))
    case Site =>
      Some(ASite(-id, if |params| >= 3 then Some(PosOf(params)) else None,
                 if |params| >= 4 then Truncate(params[3]) else NO_FACING))
    case Free => Some(Anything(id, params))
  }

  predicate WellFormed(raw: RawCommand, maxUnits: int, residue: Residue) {
    ParamsRead(ShapeOf(SeenTopic(raw, maxUnits, residue))) <= |raw.params|
  }

  /** executeCommand up to the typed command it passes on. */
  function Execute(raw: RawCommand, maxUnits: int, residue: Residue): (c: Option<TypedCommand>)
    requires WellFormed(raw, maxUnits, residue)
    ensures c.Some? ==> c.value.order.Typed()
  {
    var t := SeenTopic(raw, maxUnits, residue);
    match ReadPayload(ShapeOf(t), raw.id, raw.params, BaseOf(t, maxUnits))
    case None => None
    case Some(p) => Some(TypedCommand(raw.options, raw.timeOut, Order(t, p)))
  }

  /** Classify, decode, and write again. */
  function Canonical(raw: RawCommand, maxUnits: int, residue: Residue): Option<RawCommand>
    requires WellFormed(raw, maxUnits, residue)
  {
    match Execute(raw, maxUnits, residue)
    case None => None
    case Some(c) => Some(ToRaw(Encode(c, maxUnits)))
  }

  lemma TruncateInt(n: int)
    ensures Truncate(n as real) == n
  {
  }

  lemma TruncateKeepsBound(x: real, n: int)
    requires 0 < n
    ensures x < n as real ==> Truncate(x) < n
    ensures n as real <= x ==> n <= Truncate(x)
  {
  }

  lemma TruncateIds(ids: seq<int>)
    ensures forall i :: 0 <= i < |ids| ==> Truncate(IdParams(ids)[i]) == ids[i]
  {
  }

  /** The garbled first parameter matters exactly for reclaiming by id at or above the unit range. */
  lemma GarblingMatters(raw: RawCommand, maxUnits: int, residue: Residue)
    requires 0 < maxUnits
    ensures SeenTopic(raw, maxUnits, residue) != TrueTopic(raw, maxUnits)
       <==> raw.id == CMD_RECLAIM && 1 <= |raw.params| <= 2 && maxUnits as real <= raw.params[0]
  {
  }

  lemma PosReadsBack(p: Pos, rest: seq<real>)
    ensures var q := PosParams(p) + rest; |q| == 3 + |rest| && PosOf(q) == p && (rest != [] ==> q[3] == rest[0])
    ensures PosParams(p) + [] == PosParams(p)
  {
  }

  /** The parameters written for a payload that was read can be read, and are written the same again. */
  predicate ReadsBack(s: Shape, id: int, params: seq<real>, base: int)
    requires ParamsRead(s) <= |params| && ReadPayload(s, id, params, base).Some?
  {
    var written := PayloadParams(ReadPayload(s, id, params, base).value, base);
    ParamsRead(s) <= |written| && ReadPayload(s, id, written, base).Some?
    && PayloadParams(ReadPayload(s, id, written, base).value, base) == written
  }

  lemma PositionReadsBack(s: Shape, id: int, params: seq<real>, base: int)
    requires s == Place || s == Area || s == PlaceNumber
    requires ParamsRead(s) <= |params|
    ensures ReadsBack(s, id, params, base)
  {
    match ReadPayload(s, id, params, base).value
    case APlace(pos) => PosReadsBack(pos, []);
    case AnArea(center, radius) => PosReadsBack(center, [radius]);
    case APlaceNumber(pos, n) =>
      TruncateInt(n);
      PosReadsBack(pos, [n as real]);
  }

  lemma NumbersReadBack(id: int, params: seq<real>, base: int)
    requires params != []
    ensures ReadsBack(Numbers, id, params, base)
  {
    var ids := ReadPayload(Numbers, id, params, base).value.toLoadUnitIds;
    TruncateIds(ids);
    assert IdParams(seq(|ids|, i requires 0 <= i < |ids| => Truncate(IdParams(ids)[i]))) == IdParams(ids);
  }

  lemma SiteReadsBack(id: int, params: seq<real>, base: int)
    ensures ReadsBack(Site, id, params, base)
  {
    var site := ReadPayload(Site, id, params, base).value;
    TruncateInt(site.facing);
    if site.buildPos.Some? {
      PosReadsBack(site.buildPos.value, []);
      PosReadsBack(site.buildPos.value, [site.facing as real]);
    }
  }

  lemma PayloadReadsBack(s: Shape, id: int, params: seq<real>, base: int)
    requires ParamsRead(s) <= |params| && ReadPayload(s, id, params, base).Some?
    ensures ReadsBack(s, id, params, base)
  {
    match s
    case Number => TruncateInt(base + ReadPayload(s, id, params, base).value.n);
    case Place | Area | PlaceNumber => PositionReadsBack(s, id, params, base);
    case Numbers => NumbersReadBack(id, params, base);
    case Site => SiteReadsBack(id, params, base);
    case _ =>
  }

  /** A decoded order belongs to the id it was decoded from. */
  lemma DecodedOrderKeepsId(raw: RawCommand, maxUnits: int, residue: Residue)
    requires WellFormed(raw, maxUnits, residue) && Execute(raw, maxUnits, residue).Some?
    ensures WrittenId(Execute(raw, maxUnits, residue).value.order) == raw.id
  {
    hide WrittenId;
    WrittenIdIsInternal(Execute(raw, maxUnits, residue).value.order);
    if raw.id in NAMED_IDS {
      NamedIds(raw.id, |raw.params|, FirstSeen(raw, residue), maxUnits);
      PickedTopicHasId(raw.id, |raw.params|, FirstSeen(raw, residue), maxUnits);
    } else {
      UnnamedIds(raw.id, |raw.params|, FirstSeen(raw, residue), maxUnits);
    }
  }

  /** How the rewritten parameters look to a classification. */
  lemma RewrittenParams(raw: RawCommand, maxUnits: int, residue: Residue)
    requires 0 < maxUnits && WellFormed(raw, maxUnits, residue) && Execute(raw, maxUnits, residue).Some?
    ensures var c, t := Canonical(raw, maxUnits, residue).value, SeenTopic(raw, maxUnits, residue);
            match ShapeOf(t)
            case Bare => c.params == []
            case Number => c.params == [Truncate(raw.params[0]) as real]
            case Switch => |c.params| == 1
            case Place => |c.params| == 3
            case Area => |c.params| == 4
            case PlaceNumber => |c.params| == 4
            case Numbers => |c.params| == |raw.params|
            case Free => c.params == raw.params
            case Site => c.id < 0 ==> raw.id < 0
  {
  }

  lemma RewrittenBranch(raw: RawCommand, maxUnits: int, first: Residue, second: Residue)
    requires 0 < maxUnits && WellFormed(raw, maxUnits, first) && Execute(raw, maxUnits, first).Some?
    requires raw.id in BRANCHING_IDS && Canonical(raw, maxUnits, first).value.id == raw.id
    ensures var c, t := Canonical(raw, maxUnits, first).value, SeenTopic(raw, maxUnits, first);
            SeenTopic(c, maxUnits, second) == (if t == ReclaimFeature then ReclaimUnit else t)
            && TrueTopic(c, maxUnits) == TrueTopic(raw, maxUnits)
  {
    RewrittenParams(raw, maxUnits, first);
    if raw.params != [] {
      TruncateKeepsBound(raw.params[0], maxUnits);
    }
  }

  /** The topic chosen for a rewritten command: the same, but a feature reclaim is taken for a unit reclaim. */
  lemma RewrittenTopic(raw: RawCommand, maxUnits: int, first: Residue, second: Residue)
    requires 0 < maxUnits && WellFormed(raw, maxUnits, first) && Execute(raw, maxUnits, first).Some?
    ensures var c, t := Canonical(raw, maxUnits, first).value, SeenTopic(raw, maxUnits, first);
            SeenTopic(c, maxUnits, second) == (if t == ReclaimFeature then ReclaimUnit else t)
            && TrueTopic(c, maxUnits) == TrueTopic(raw, maxUnits)
  {
    DecodedOrderKeepsId(raw, maxUnits, first);
    var c := Canonical(raw, maxUnits, first).value;
    if raw.id in BRANCHING_IDS {
      RewrittenBranch(raw, maxUnits, first, second);
    } else {
      OtherIdsDoNotBranch(raw.id, |raw.params|, FirstSeen(raw, first), |c.params|, FirstSeen(c, second), maxUnits);
      OtherIdsDoNotBranch(raw.id, |raw.params|, if raw.params == [] then 0.0 else raw.params[0],
                          |c.params|, if c.params == [] then 0.0 else c.params[0], maxUnits);
    }
  }

  /** Canonicalising keeps id, options, timeout and topic of every accepted command. */
  lemma CanonicalKeepsMeaning(raw: RawCommand, maxUnits: int, residue: Residue)
    requires 0 < maxUnits && WellFormed(raw, maxUnits, residue) && Canonical(raw, maxUnits, residue).Some?
    ensures var c := Canonical(raw, maxUnits, residue).value;
            c.id == raw.id && c.options == raw.options && c.timeOut == raw.timeOut
            && TrueTopic(c, maxUnits) == TrueTopic(raw, maxUnits)
  {
    DecodedOrderKeepsId(raw, maxUnits, residue);
    RewrittenTopic(raw, maxUnits, residue, residue);
  }

  /** A number written with or without the offset reads back to the same parameter. */
  lemma OffsetIsInvisible(params: seq<real>, id: int, base: int)
    requires |params| >= 1
    ensures var n := ReadPayload(Number, id, params, base).value;
            PayloadParams(n, base) == [Truncate(params[0]) as real]
  {
  }

  /** Canonicalising again changes nothing, whatever bytes the two classifications happen to see. */
  lemma CanonicalIsIdempotent(raw: RawCommand, maxUnits: int, first: Residue, second: Residue)
    requires 0 < maxUnits && WellFormed(raw, maxUnits, first) && Canonical(raw, maxUnits, first).Some?
    ensures var c := Canonical(raw, maxUnits, first).value;
            WellFormed(c, maxUnits, second) && Canonical(c, maxUnits, second) == Some(c)
  {
    hide Classify;
    var c, t := Canonical(raw, maxUnits, first).value, SeenTopic(raw, maxUnits, first);
    DecodedOrderKeepsId(raw, maxUnits, first);
    RewrittenTopic(raw, maxUnits, first, second);
    PayloadReadsBack(ShapeOf(t), raw.id, raw.params, BaseOf(t, maxUnits));
    if t == ReclaimFeature {
      OffsetIsInvisible(raw.params, raw.id, maxUnits);
      OffsetIsInvisible(c.params, raw.id, 0);
      TruncateInt(Truncate(raw.params[0]));
    }
    DecodedOrderKeepsId(c, maxUnits, second);
  }

  // ------------------------------------------------------- what becomes of raw parameters

  /** A place for the ids that take nothing else, and for manual fire at a position. */
  predicate TakesPlace(id: int, n: nat) {
    id in {CMD_MOVE, CMD_PATROL, CMD_FIGHT, CMD_SETBASE} || (id == CMD_MANUALFIRE && 3 <= n)
  }

  /**
   * An area for the ids that take nothing else and for a shared id with a position: three parameters or
   * more, except that five are not a position for reclaiming and capturing.
   */
  predicate TakesArea(id: int, n: nat) {
    id in {CMD_RESTORE, CMD_UNLOAD_UNITS}
    || (id in {CMD_ATTACK, CMD_LOAD_UNITS, CMD_RESURRECT} && 3 <= n)
    || (id in {CMD_RECLAIM, CMD_CAPTURE} && 3 <= n && n != 5)
  }

  const BARE_IDS: set<int> := {CMD_STOP, CMD_WAIT, CMD_GATHERWAIT, CMD_GROUPCLEAR, CMD_SELFD, CMD_STOCKPILE}

  const SWITCH_IDS: set<int> := {CMD_ONOFF, CMD_CLOAK, CMD_REPEAT}

  function Whole(x: real): real {
    Truncate(x) as real
  }

  /** The fields an id stands for, by the id and the number of parameters alone. */
  function ShapeForId(id: int, n: nat): Shape {
    if id in BARE_IDS then Bare
    else if id in SWITCH_IDS then Switch
    else if TakesPlace(id, n) then Place
    else if TakesArea(id, n) then Area
    else if id == CMD_UNLOAD_UNIT then PlaceNumber
    else if id == CMD_LOAD_UNITS then Numbers
    else if id in NAMED_IDS then Number
    else if id < 0 then Site
    else Free
  }

  lemma SeenShape(id: int, n: nat, first: real, maxUnits: int)
    ensures ShapeOf(Classify(id, n, first, maxUnits)) == ShapeForId(id, n)
  {
  }

  lemma WrittenForShape(s: Shape, id: int, params: seq<real>, base: int)
    requires ParamsRead(s) <= |params|
    ensures ReadPayload(s, id, params, base).None? <==> s == Numbers && params == []
    ensures ReadPayload(s, id, params, base).Some? ==>
              PayloadParams(ReadPayload(s, id, params, base).value, base) == ParamsForShape(s, params)
  {
  }

  function ParamsForShape(s: Shape, params: seq<real>): seq<real>
    requires ParamsRead(s) <= |params|
  {
    var n := |params|;
    match s
    case Bare => []
    case Number => [Whole(params[0])]
    case Switch => [if params[0] == 0.0 then 0.0 else 1.0]
    case Place => params[..3]
    case Area => params[..3] + [if n == 3 then 0.0 else params[3]]
    case PlaceNumber => params[..3] + [Whole(params[3])]
    case Numbers => seq(n, i requires 0 <= i < n => Whole(params[i]))
    case Free => params
    case Site =>
      if n < 3 then []
      else params[..3] + (if n == 3 || Truncate(params[3]) == NO_FACING then [] else [Whole(params[3])])
  }

  /**
   * Which raw commands can be decoded, which of them are passed on, and the parameters they have after
   * they were classified, decoded and written again: for every id, whatever bytes are seen.
   */
  lemma CanonicalParams(raw: RawCommand, maxUnits: int, residue: Residue)
    requires 0 < maxUnits
    ensures WellFormed(raw, maxUnits, residue) <==> ParamsRead(ShapeForId(raw.id, |raw.params|)) <= |raw.params|
    ensures WellFormed(raw, maxUnits, residue) ==>
              (Canonical(raw, maxUnits, residue).None? <==> raw.id == CMD_LOAD_UNITS && raw.params == [])
    ensures WellFormed(raw, maxUnits, residue) && Canonical(raw, maxUnits, residue).Some? ==>
              Canonical(raw, maxUnits, residue).value.params
              == ParamsForShape(ShapeForId(raw.id, |raw.params|), raw.params)
  {
    hide Classify, ShapeOf, ReadPayload, PayloadParams, ParamsForShape, Truncate, WrittenId;
    var t := SeenTopic(raw, maxUnits, residue);
    SeenShape(raw.id, |raw.params|, FirstSeen(raw, residue), maxUnits);
    if WellFormed(raw, maxUnits, residue) {
      WrittenForShape(ShapeOf(t), raw.id, raw.params, BaseOf(t, maxUnits));
    }
  }

  /** The position of an order, if it has one. */
  function PositionIn(p: Payload): Option<Pos> {
    match p
    case APlace(pos) => Some(pos)
    case AnArea(center, _) => Some(center)
    case _ => None
  }

  /**
   * For the ids that mean a place or area as well as a single thing: the order is for a position exactly
   * if there are three parameters or more, and not five for reclaiming and capturing; the position is then
   * made of the first three, decoded and written again.
   */
  lemma SharedIdsKeepPositions(raw: RawCommand, maxUnits: int, residue: Residue)
    requires 0 < maxUnits && raw.id in BRANCHING_IDS
    requires WellFormed(raw, maxUnits, residue) && Execute(raw, maxUnits, residue).Some?
    ensures
      var n := |raw.params|;
      var position := PositionIn(Execute(raw, maxUnits, residue).value.order.payload);
      && (position.Some? <==> 3 <= n && !(n == 5 && raw.id in {CMD_RECLAIM, CMD_CAPTURE}))
      && (position.Some? ==>
            position.value == Pos(raw.params[0], raw.params[1], raw.params[2])
            && raw.params[..3] <= Canonical(raw, maxUnits, residue).value.params)
  {
  }

  // -------------------------------------------------------------------- typed, raw, typed again

  /** Exactly the orders that executing their own engine command gives back. */
  predicate RoundTrips(o: Order)
    requires o.Typed()
  {
    match o.topic
    case Build => o.payload.toBuildUnitDefId > 0 && (o.payload.buildPos.None? ==> o.payload.facing == NO_FACING)
    case LoadUnits => 1 <= |o.payload.toLoadUnitIds| < 3
    case ReclaimFeature => false
    case Custom => 0 <= o.payload.cmdId && o.payload.cmdId !in NAMED_IDS
    case _ => true
  }

  lemma PayloadRoundTrips(o: Order, base: int)
    requires o.Typed() && RoundTrips(o)
    ensures var id, params := WrittenId(o), PayloadParams(o.payload, base);
            ParamsRead(ShapeOf(o.topic)) <= |params|
            && ReadPayload(ShapeOf(o.topic), id, params, base) == Some(o.payload)
  {
    match o.payload
    case ANumber(n) => TruncateInt(base + n);
    case APlace(pos) => PosReadsBack(pos, []);
    case AnArea(center, radius) => PosReadsBack(center, [radius]);
    case APlaceNumber(pos, n) =>
      TruncateInt(n);
      PosReadsBack(pos, [n as real]);
    case SomeNumbers(ids) =>
      TruncateIds(ids);
      assert seq(|ids|, i requires 0 <= i < |ids| => Truncate(IdParams(ids)[i])) == ids;
    case ASite(_, pos, facing) =>
      TruncateInt(facing);
      if pos.Some? {
        PosReadsBack(pos.value, []);
        PosReadsBack(pos.value, [facing as real]);
      }
    case _ =>
  }

  lemma SharedIdIsSeen(o: Order, maxUnits: int, params: seq<real>, first: real)
    requires o.Typed() && SharesId(o.topic) && params == ParamsOf(o, maxUnits)
    requires |params| < 4 ==> first < maxUnits as real
    ensures RoundTrips(o) ==> Classify(IdOf(o.topic), |params|, first, maxUnits) == o.topic
    ensures Classify(IdOf(o.topic), |params|, first, maxUnits) == o.topic
        ==> RoundTrips(o) || (o.topic == LoadUnits && params == [])
  {
  }

  /** The topic executeCommand sees for an order's own engine command. */
  lemma OwnCommandIsSeen(c: TypedCommand, maxUnits: int, residue: Residue)
    requires 0 < maxUnits && c.order.Typed()
    ensures var t := SeenTopic(ToRaw(Encode(c, maxUnits)), maxUnits, residue);
            (RoundTrips(c.order) ==> t == c.order.topic)
            && (t == c.order.topic && !RoundTrips(c.order)
                ==> (t == Build && c.order.payload.toBuildUnitDefId > 0)
                    || (t == LoadUnits && Encode(c, maxUnits).params == []))
  {
    hide WrittenId, Classify;
    WrittenIdIsInternal(c.order);
    var raw, t := ToRaw(Encode(c, maxUnits)), c.order.topic;
    if t == Build || t == Custom {
      if raw.id in NAMED_IDS {
        NamedIds(raw.id, |raw.params|, FirstSeen(raw, residue), maxUnits);
      } else {
        UnnamedIds(raw.id, |raw.params|, FirstSeen(raw, residue), maxUnits);
      }
    } else if SharesId(t) {
      SharedIdIsSeen(c.order, maxUnits, raw.params, FirstSeen(raw, residue));
    } else {
      OwnIdIsRecognised(t, |raw.params|, FirstSeen(raw, residue), maxUnits);
    }
  }

  /**
   * Executing an order's own engine command gives the command back if and only if the order round-trips
   * and the options fit a byte.
   */
  lemma ExecutingInvertsEncoding(c: TypedCommand, maxUnits: int, residue: Residue)
    requires 0 < maxUnits && c.order.Typed()
    ensures var raw := ToRaw(Encode(c, maxUnits));
            WellFormed(raw, maxUnits, residue) && Execute(raw, maxUnits, residue) == Some(c)
            <==> RoundTrips(c.order) && 0 <= c.options < 0x100
  {
    OwnCommandIsSeen(c, maxUnits, residue);
    if RoundTrips(c.order) {
      PayloadRoundTrips(c.order, BaseOf(c.order.topic, maxUnits));
    }
  }
}
