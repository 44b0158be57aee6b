/**
 * The engine command as an object: up to eight parameters inline, longer lists moved to a page of a
 * shared pool. newCommand fills it parameter by parameter.
 */
module CommandWriting {
  import opened UnitCommands
  import opened Wrappers

  const INT_MAX := 0x7FFF_FFFF

  class Command {
    var id: int
    var options: Byte
    var timeOut: int
    const params: array<real>
    var numParams: nat
    /** The page of the pool, once the inline parameters did not suffice. */
    var page: Option<seq<real>>

    ghost predicate Valid()
      reads this
    {
      params.Length == MAX_COMMAND_PARAMS
      && match page
         case None => numParams <= MAX_COMMAND_PARAMS
         case Some(p) => numParams == |p| && MAX_COMMAND_PARAMS < |p|
    }

    /** What the object stands for: one flat parameter list, wherever it is kept. */
    ghost function Value(): EngineCommand
      requires Valid()
      reads this, params
    {
      EngineCommand(id, options, timeOut, if page.None? then params[..numParams] else page.value)
    }

    constructor ()
      ensures Valid() && fresh(params) && Value() == EngineCommand(0, 0, INT_MAX, [])
    {
      id, options, timeOut, numParams, page := 0, 0, INT_MAX, 0, None;
      params := new real[MAX_COMMAND_PARAMS](_ => 0.0);
    }

    /** Assigning a freshly constructed command: a page held so far goes back to the pool. */
    method Assign(cmdId: int, cmdOptions: Byte)
      requires Valid()
      modifies this
      ensures Valid() && Value() == EngineCommand(cmdId, cmdOptions, INT_MAX, [])
    {
      id, options, timeOut, numParams, page := cmdId, cmdOptions, INT_MAX, 0, None;
    }

    method SetTimeOut(t: int)
      requires Valid()
      modifies this`timeOut
      ensures Valid() && Value() == old(Value()).(timeOut := t)
    {
      timeOut := t;
    }

    method PushParam(param: real)
      requires Valid()
      modifies this`numParams, this`page, params
      ensures Valid() && Value() == old(Value()).(params := old(Value()).params + [param])
    {
      if numParams < MAX_COMMAND_PARAMS {
        params[numParams] := param;
        numParams := numParams + 1;
        assert params[..numParams] == old(params[..numParams]) + [param];
        return;
      }
      var pushed := if page.Some? then page.value else [];
      if page.None? {
        var i := 0;
        while i < numParams
          invariant 0 <= i <= numParams
          invariant pushed == params[..i]
        {
          pushed := pushed + [params[i]];
          i := i + 1;
        }
      }
      pushed := pushed + [param];
      page, numParams := Some(pushed), |pushed|;
    }

    method PushPos(pos: Pos)
      requires Valid()
      modifies this`numParams, this`page, params
      ensures Valid() && Value() == old(Value()).(params := old(Value()).params + PosParams(pos))
    {
      ghost var before := Value().params;
      PushParam(pos.x);
      PushParam(pos.y);
      PushParam(pos.z);
      assert before + [pos.x] + [pos.y] + [pos.z] == before + PosParams(pos);
    }

    method PushAll(list: seq<real>)
      requires Valid()
      modifies this`numParams, this`page, params
      ensures Valid() && Value() == old(Value()).(params := old(Value()).params + list)
    {
      var i := 0;
      while i < |list|
        invariant 0 <= i <= |list|
        invariant Valid() && Value() == old(Value()).(params := old(Value()).params + list[..i])
      {
        PushParam(list[i]);
        assert old(Value()).params + list[..i] + [list[i]] == old(Value()).params + list[..i + 1];
        i := i + 1;
      }
      assert list[..|list|] == list;
    }

    /** Past the end, zero. */
    method GetParam(i: nat) returns (param: real)
      requires Valid()
      ensures param == Value().Param(i)
    {
      if i >= numParams {
        return 0.0;
      }
      param := if page.Some? then page.value[i] else params[i];
    }
  }

  /** newCommand: whatever the command held before, it afterwards holds the encoding. */
  method NewCommand(cmd: TypedCommand, maxUnits: int, c: Command)
    requires c.Valid() && cmd.order.Typed()
    modifies c, c.params
    ensures c.Valid() && c.Value() == Encode(cmd, maxUnits)
  {
    c.Assign(WrittenId(cmd.order), Narrowed(cmd.options));
    c.SetTimeOut(cmd.timeOut);
    PushPayload(cmd.order.payload, BaseOf(cmd.order.topic, maxUnits), c);
    assert [] + ParamsOf(cmd.order, maxUnits) == ParamsOf(cmd.order, maxUnits);
  }

  method PushSite(pos: Option<Pos>, facing: int, c: Command)
    requires c.Valid()
    modifies c`numParams, c`page, c.params
    ensures c.Valid()
    ensures c.Value() == old(c.Value()).(params := old(c.Value()).params
              + ((if pos.Some? then PosParams(pos.value) else [])
                 + (if facing != NO_FACING then [facing as real] else [])))
  {
    ghost var before := c.Value().params;
    if pos.Some? {
      c.PushPos(pos.value);
    }
    ghost var place := if pos.Some? then PosParams(pos.value) else [];
    assert c.Value().params == before + place;
    if facing != NO_FACING {
      c.PushParam(facing as real);
    }
    ghost var tail := if facing != NO_FACING then [facing as real] else [];
    assert before + place + tail == before + (place + tail);
  }

  method PushPayload(p: Payload, base: int, c: Command)
    requires c.Valid()
    modifies c`numParams, c`page, c.params
    ensures c.Valid() && c.Value() == old(c.Value()).(params := old(c.Value()).params + PayloadParams(p, base))
  {
    ghost var before := c.Value().params;
    match p
    case NoPayload => assert before + [] == before;
    case ANumber(n) => c.PushParam((base + n) as real);
    case ASwitch(on) => c.PushParam(if on then 1.0 else 0.0);
    case APlace(pos) => c.PushPos(pos);
    case AnArea(center, radius) =>
      c.PushPos(center);
      c.PushParam(radius);
      assert before + PosParams(center) + [radius] == before + (PosParams(center) + [radius]);
    case APlaceNumber(pos, n) =>
      c.PushPos(pos);
      c.PushParam(n as real);
      assert before + PosParams(pos) + [n as real] == before + (PosParams(pos) + [n as real]);
    case SomeNumbers(ids) => c.PushAll(IdParams(ids));
    case ASite(_, pos, facing) => PushSite(pos, facing, c);
    case Anything(_, list) => c.PushAll(list);
  }
}
