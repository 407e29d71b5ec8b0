/** The driver object itself: a serial port whose buffers change as bytes are written
    and read, and a controller whose methods update its fields in place. Every method
    is proved to move the object from one state to the next exactly as the matching
    function of `Session` does, and to keep `Session.Valid`. */
module Lambda103 {
  import opened Base
  import opened Codec
  import opened Channels
  import opened Configuration
  import Session
  import SessionProperties

  /** The serial port, reduced to what the driver observes of it. */
  class Port {
    /** Every byte the host has written, in order. */
    var written: seq<Byte>
    /** Bytes the device has sent that the host has not read yet. */
    var incoming: seq<Byte>
    /** The device's replies still to come, one per write. */
    var replies: seq<seq<Byte>>
    var isOpen: bool

    function Link(): (l: Session.Link)
      reads this
    {
      Session.Link(written, incoming, replies, isOpen)
    }

    /** An open port to a device that will answer its next writes with `replies`. */
    constructor (replies: seq<seq<Byte>>)
      ensures Link() == Session.Link([], [], replies, true)
    {
      written := [];
      incoming := [];
      this.replies := replies;
      isOpen := true;
    }

    /** `write`: refused once the port is closed. */
    method Write(data: seq<Byte>) returns (ok: bool)
      modifies this
      ensures ok == old(isOpen)
      ensures Link() == if ok then Session.Write(old(Link()), data) else old(Link())
    {
      if !isOpen {
        return false;
      }
      written := written + data;
      if replies != [] {
        incoming := incoming + replies[0];
        replies := replies[1..];
      }
      return true;
    }

    /** `read(n)`: at most n buffered bytes. */
    method Read(n: nat) returns (ok: bool, data: seq<Byte>)
      modifies this
      ensures ok == old(isOpen)
      ensures ok ==> var k := Session.Min(n, |old(incoming)|);
        data == old(incoming)[..k] && Link() == old(Link()).(incoming := old(incoming)[k..])
      ensures !ok ==> Link() == old(Link())
    {
      if !isOpen {
        return false, [];
      }
      var k := Session.Min(n, |incoming|);
      data := incoming[..k];
      incoming := incoming[k..];
      return true, data;
    }

    /** `readline`: the whole buffered reply. */
    method ReadLine() returns (ok: bool, data: seq<Byte>)
      modifies this
      ensures ok == old(isOpen)
      ensures ok ==> data == old(incoming) && Link() == old(Link()).(incoming := [])
      ensures !ok ==> Link() == old(Link())
    {
      if !isOpen {
        return false, [];
      }
      data := incoming;
      incoming := [];
      return true, data;
    }

    /** `in_waiting`. */
    function InWaiting(): (n: nat)
      reads this
      ensures n == 0 <==> Link().incoming == []
    {
      |incoming|
    }

    method Close()
      modifies this
      ensures Link() == old(Link()).(open := false)
    {
      isOpen := false;
    }
  }

  /** `Controller`: the detected wheels and shutters, the target position of each
      wheel, and the command whose echo is still expected. */
  class Controller {
    const port: Port
    var wheels: seq<Channel>
    var shutters: seq<Channel>
    var targets: seq<int>
    var pending: Option<seq<Byte>>
    /** Every command sent and every response read through this controller. */
    ghost var trace: seq<Session.Event>

    ghost function Snapshot(): (s: Session.State)
      reads this, port
    {
      Session.State(wheels, shutters, targets, pending, port.Link(), trace)
    }

    ghost predicate Valid()
      reads this, port
    {
      Session.Valid(Snapshot())
    }

    /** The object as `__init__` leaves it once the configuration is known and before
        the homing loops run. */
    constructor Attach(port: Port, cfg: Config)
      requires ChannelList(cfg.wheels) && ChannelList(cfg.shutters)
      ensures this.port == port
      ensures Snapshot() == Session.Fresh(cfg, port.Link())
      ensures Valid()
    {
      this.port := port;
      wheels := cfg.wheels;
      shutters := cfg.shutters;
      targets := seq(|cfg.wheels|, _ => 0);
      pending := None;
      trace := [];
    }

    /** `Controller(port, verbose=verbose)`: query and parse the configuration, then
        home every wheel and prepare every shutter. A failure returns no controller. */
    static method Open(port: Port, verbose: bool) returns (c: Controller?, r: Outcome)
      modifies port
      ensures var (o, s) := Session.Connect(old(port.Link()), verbose);
        && r == o
        && port.Link() == s.link
        && (r.Done? <==> c != null)
        && (c != null ==> fresh(c) && c.port == port && c.Snapshot() == s && c.Valid())
    {
      var l0 := port.Link();
      var ok := port.Write([QueryConfig]);
      if !ok {
        return null, Failed(PortClosed);
      }
      var _, frame := port.ReadLine();
      var parsed := ParseConfig(frame);
      if parsed.Err? {
        return null, Failed(parsed.error);
      }
      var cfg := parsed.value;
      if verbose && cfg.wheels == [] && cfg.shutters == [] {
        return null, Failed(NoHardware);
      }
      c := new Controller.Attach(port, cfg);
      ghost var s0 := c.Snapshot();
      assert Session.Connect(l0, verbose) == Session.Home(s0);
      r := c.Home();
      if r.Failed? {
        c := null;
      }
    }

    /** The two homing loops at the end of `__init__`. */
    method Home() returns (r: Outcome)
      requires Valid()
      modifies this, port
      ensures Valid()
      ensures (r, Snapshot()) == Session.Home(old(Snapshot()))
    {
      r := ParkWheels();
      if r.Failed? {
        return;
      }
      r := PrepareShutters();
    }

    /** `for wheel in self.wheels: self.move(0, wheel=wheel)`. */
    method ParkWheels() returns (r: Outcome)
      requires Valid()
      modifies this, port
      ensures Valid() && wheels == old(wheels) && shutters == old(shutters)
      ensures (r, Snapshot()) == Session.ParkWheels(old(Snapshot()), old(wheels))
    {
      ghost var s0 := Snapshot();
      var ws := wheels;
      var i := 0;
      while i < |ws|
        invariant 0 <= i <= |ws|
        invariant Valid() && wheels == ws && shutters == old(shutters)
        invariant Session.ParkWheels(Snapshot(), ws[i..]) == Session.ParkWheels(s0, ws)
      {
        assert ws[i..][0] == ws[i] && ws[i..][1..] == ws[i + 1..];
        r := Move(0, Index(ws[i]), DefaultSpeed, true);
        if r.Failed? {
          return;
        }
        i := i + 1;
      }
      return Done;
    }

    /** `for shutter in self.shutters:` soft mode, then closed. */
    method PrepareShutters() returns (r: Outcome)
      requires Valid()
      modifies this, port
      ensures Valid() && wheels == old(wheels) && shutters == old(shutters)
      ensures (r, Snapshot()) == Session.PrepareShutters(old(Snapshot()), old(shutters))
    {
      ghost var s0 := Snapshot();
      var ss := shutters;
      var i := 0;
      while i < |ss|
        invariant 0 <= i <= |ss|
        invariant Valid() && wheels == old(wheels) && shutters == ss
        invariant Session.PrepareShutters(Snapshot(), ss[i..]) == Session.PrepareShutters(s0, ss)
      {
        assert ss[i..][0] == ss[i] && ss[i..][1..] == ss[i + 1..];
        r := SetShutterMode(Name("soft"), Index(ss[i]), true);
        if r.Failed? {
          return;
        }
        r := ChangeShutter(Name("closed"), Index(ss[i]), true);
        if r.Failed? {
          return;
        }
        i := i + 1;
      }
      return Done;
    }

    /** `for shutter in self.shutters: self.change_shutter('closed', shutter=shutter)`. */
    method CloseShutters() returns (r: Outcome)
      requires Valid()
      modifies this, port
      ensures Valid() && wheels == old(wheels) && shutters == old(shutters)
      ensures (r, Snapshot()) == Session.CloseShutters(old(Snapshot()), old(shutters))
    {
      ghost var s0 := Snapshot();
      var ss := shutters;
      var i := 0;
      while i < |ss|
        invariant 0 <= i <= |ss|
        invariant Valid() && wheels == old(wheels) && shutters == ss
        invariant Session.CloseShutters(Snapshot(), ss[i..]) == Session.CloseShutters(s0, ss)
      {
        assert ss[i..][0] == ss[i] && ss[i..][1..] == ss[i + 1..];
        r := ChangeShutter(Name("closed"), Index(ss[i]), true);
        if r.Failed? {
          return;
        }
        i := i + 1;
      }
      return Done;
    }

    /** `_finish_moving`: read the echo of the pending command and check it. */
    method FinishMoving() returns (r: Outcome)
      requires Valid()
      modifies this, port
      ensures Valid() && wheels == old(wheels) && shutters == old(shutters)
      ensures (r, Snapshot()) == Session.Finish(old(Snapshot()))
    {
      ghost var s0 := Snapshot();
      SessionProperties.FinishInvariant(s0);
      if pending.None? {
        return Done;
      }
      var p := pending.value;
      var ok, response := port.Read(|p| + 1);
      if !ok {
        return Failed(PortClosed);
      }
      trace := trace + [Session.Received(response)];
      if response != Echo(p) {
        return Failed(UnexpectedResponse);
      }
      pending := None;
      if port.InWaiting() != 0 {
        return Failed(ResidualInput);
      }
      return Done;
    }

    /** `port.write(cmd)` followed by `self._pending_cmd = cmd`. */
    method Send(cmd: seq<Byte>) returns (r: Outcome)
      requires Valid() && pending.None?
      modifies this, port
      ensures Valid() && wheels == old(wheels) && shutters == old(shutters)
      ensures (r, Snapshot()) == Session.Send(old(Snapshot()), cmd)
    {
      SessionProperties.SendInvariant(Snapshot(), cmd);
      var ok := port.Write(cmd);
      if !ok {
        return Failed(PortClosed);
      }
      pending := Some(cmd);
      trace := trace + [Session.Sent(cmd)];
      return Done;
    }

    /** `move(position, wheel, speed, block)`. */
    method Move(position: int, wheel: Arg := Index(0), speed: int := DefaultSpeed, block: bool := true) returns (r: Outcome)
      requires Valid()
      modifies this, port
      ensures Valid() && wheels == old(wheels) && shutters == old(shutters)
      ensures (r, Snapshot()) == Session.Move(old(Snapshot()), position, wheel, speed, block)
    {
      ghost var s0 := Snapshot();
      SessionProperties.MoveInvariant(s0, position, wheel, speed, block);
      var id := NameToChannel(wheel);
      if id.Err? {
        return Failed(id.error);
      }
      var w := id.value;
      if w !in wheels {
        return Failed(NotConnected);
      }
      if pending.Some? {
        r := FinishMoving();
        if r.Failed? {
          return;
        }
      }
      if !(0 <= position < 10) {
        return Failed(PositionOutOfRange);
      }
      if !(0 <= speed < 8) {
        return Failed(SpeedOutOfRange);
      }
      r := Send([MoveByte(w, speed, position)]);
      if r.Failed? {
        return;
      }
      if w >= |targets| {
        return Failed(TargetIndexOutOfRange);
      }
      SessionProperties.TargetUpdateInvariant(Snapshot(), w, position);
      targets := targets[w := position];
      if block {
        r := FinishMoving();
      }
    }

    /** `change_shutter(state, shutter, block)`. */
    method ChangeShutter(state: Arg, shutter: Arg := Index(0), block: bool := true) returns (r: Outcome)
      requires Valid()
      modifies this, port
      ensures Valid() && wheels == old(wheels) && shutters == old(shutters)
      ensures (r, Snapshot()) == Session.ChangeShutter(old(Snapshot()), state, shutter, block)
    {
      ghost var s0 := Snapshot();
      SessionProperties.ChangeShutterInvariant(s0, state, shutter, block);
      var id := NameToChannel(shutter);
      if id.Err? {
        return Failed(id.error);
      }
      var sh := id.value;
      if sh !in shutters {
        return Failed(NotConnected);
      }
      var open := Session.ShutterOpen(state);
      if open.None? {
        return Failed(InvalidState);
      }
      if pending.Some? {
        r := FinishMoving();
        if r.Failed? {
          return;
        }
      }
      r := Issue([ShutterStateByte(sh, open.value)], block);
    }

    /** `set_shutter_mode(mode, shutter, block)`. */
    method SetShutterMode(mode: Arg, shutter: Arg := Index(0), block: bool := true) returns (r: Outcome)
      requires Valid()
      modifies this, port
      ensures Valid() && wheels == old(wheels) && shutters == old(shutters)
      ensures (r, Snapshot()) == Session.SetShutterMode(old(Snapshot()), mode, shutter, block)
    {
      ghost var s0 := Snapshot();
      SessionProperties.SetShutterModeInvariant(s0, mode, shutter, block);
      var id := NameToChannel(shutter);
      if id.Err? {
        return Failed(id.error);
      }
      var sh := id.value;
      if sh !in shutters {
        return Failed(NotConnected);
      }
      var fast := Session.ModeIsFast(mode);
      if fast.None? {
        return Failed(InvalidMode);
      }
      if pending.Some? {
        r := FinishMoving();
        if r.Failed? {
          return;
        }
      }
      r := Issue(ShutterModeCommand(sh, fast.value), block);
    }

    /** Write an admitted command, then wait for its echo if asked to. */
    method Issue(cmd: seq<Byte>, block: bool) returns (r: Outcome)
      requires Valid() && pending.None?
      modifies this, port
      ensures Valid() && wheels == old(wheels) && shutters == old(shutters)
      ensures (r, Snapshot()) == Session.Issue(old(Snapshot()), cmd, block)
    {
      SessionProperties.IssueInvariant(Snapshot(), cmd, block);
      SessionProperties.SendInvariant(Snapshot(), cmd);
      r := Send(cmd);
      if r.Failed? || !block {
        return;
      }
      r := FinishMoving();
    }

    /** `close()`: park every wheel, close every shutter, close the port. */
    method Close() returns (r: Outcome)
      requires Valid()
      modifies this, port
      ensures Valid() && wheels == old(wheels) && shutters == old(shutters)
      ensures (r, Snapshot()) == Session.Close(old(Snapshot()))
    {
      ghost var s0 := Snapshot();
      SessionProperties.CloseInvariant(s0);
      r := ParkWheels();
      if r.Failed? {
        return;
      }
      r := CloseShutters();
      if r.Failed? {
        return;
      }
      port.Close();
    }
  }
}
