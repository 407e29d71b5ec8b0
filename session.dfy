/** The driver's pending-command protocol as a state machine over the whole observable
    state: detected channels, wheel targets, the pending command, the serial link and
    a record of every command sent and every response read. */
module Session {
  import opened Base
  import opened Codec
  import opened Channels
  import opened Configuration

  /** One exchange on the serial line, in the order it happened. */
  datatype Event = Sent(cmd: seq<Byte>) | Received(data: seq<Byte>)

  /** The serial link: the bytes the host has written, the bytes the device has sent
      and the host has not read yet, the replies the device will send (one per write,
      arriving as the write is made), and whether the port is open. */
  datatype Link = Link(written: seq<Byte>, incoming: seq<Byte>, replies: seq<seq<Byte>>, open: bool)

  /** `port.write(data)`: the bytes go out and the device's reply to them arrives.
      A write neither creates nor loses device bytes: what is buffered followed by
      what is still to come is the same before and after, and at most one reply moves. */
  function Write(l: Link, data: seq<Byte>): (l2: Link)
    ensures l2.written == l.written + data && l2.open == l.open
    ensures l2.incoming + Concat(l2.replies) == l.incoming + Concat(l.replies)
    ensures |l.incoming| <= |l2.incoming| && l2.incoming[..|l.incoming|] == l.incoming
    ensures |l2.replies| == if l.replies == [] then 0 else |l.replies| - 1
  {
    if l.replies == [] then l.(written := l.written + data)
    else l.(written := l.written + data, incoming := l.incoming + l.replies[0], replies := l.replies[1..])
  }

  function Min(a: int, b: int): (m: int) { if a <= b then a else b }

  datatype State = State(
    wheels: seq<Channel>,          // detected 25 mm wheels
    shutters: seq<Channel>,        // detected "IQ" shutters
    targets: seq<int>,             // wheel_target_positions
    pending: Option<seq<Byte>>,    // _pending_cmd
    link: Link,
    trace: seq<Event>)

  // ---------------------------------------------------------------------------
  // At most one command in flight

  /** The command in a trace whose echo has not been received yet, if any. */
  function Unconfirmed(t: seq<Event>): (c: Option<seq<Byte>>)
  {
    if t == [] then None
    else
      var before := Unconfirmed(t[..|t| - 1]);
      match t[|t| - 1]
      case Sent(c) => Some(c)
      case Received(d) => if before.Some? && d == Echo(before.value) then None else before
  }

  /** No command is ever sent while an earlier one is still unconfirmed. */
  predicate Serialized(t: seq<Event>)
  {
    forall i :: 0 <= i < |t| && t[i].Sent? ==> Unconfirmed(t[..i]).None?
  }

  /** The bytes a trace sends, in order. */
  function Outbound(t: seq<Event>): (bytes: seq<Byte>)
  {
    if t == [] then [] else (if t[0].Sent? then t[0].cmd else []) + Outbound(t[1..])
  }

  /** The invariant every reachable state keeps, even after a failed call. */
  predicate Valid(s: State)
  {
    && ChannelList(s.wheels) && ChannelList(s.shutters)
    && |s.targets| == |s.wheels|
    && (forall i :: 0 <= i < |s.targets| ==> 0 <= s.targets[i] < 10)
    && Serialized(s.trace)
    && s.pending == Unconfirmed(s.trace)
  }

  /** s2 is reached from s: the configuration is untouched, the trace only grows, and
      exactly the bytes the new events send have been written. */
  predicate Follows(s: State, s2: State)
  {
    && s2.wheels == s.wheels && s2.shutters == s.shutters
    && |s.trace| <= |s2.trace| && s2.trace[..|s.trace|] == s.trace
    && s2.link.written == s.link.written + Outbound(s2.trace[|s.trace|..])
  }

  /** The events that flushing the pending command produces when it succeeds. */
  function Flush(s: State): (events: seq<Event>)
  {
    if s.pending.Some? then [Received(Echo(s.pending.value))] else []
  }

  // ---------------------------------------------------------------------------
  // The two primitive steps

  /** `_finish_moving`. */
  function Finish(s: State): (r: (Outcome, State))
    ensures s.pending.None? ==> r == (Done, s)
    ensures s.pending.Some? && !s.link.open ==> r == (Failed(PortClosed), s)
    ensures s.pending.Some? && s.link.open ==>
      var p := s.pending.value;
      var k := Min(|p| + 1, |s.link.incoming|);
      && r.1.link == s.link.(incoming := s.link.incoming[k..])
      && r.1.trace == s.trace + [Received(s.link.incoming[..k])]
      && (r.0.Done? <==> s.link.incoming == Echo(p))
      && (r.1.pending.None? <==> s.link.incoming[..k] == Echo(p))
      && (r.1.pending.Some? ==> r.1.pending == s.pending)
    ensures r.0.Done? ==> r.1.trace == s.trace + Flush(s) && r.1.pending.None?
    ensures r.1.wheels == s.wheels && r.1.shutters == s.shutters && r.1.targets == s.targets
    ensures r.1.link.written == s.link.written
  {
    match s.pending
    case None => (Done, s)
    case Some(p) =>
      if !s.link.open then (Failed(PortClosed), s)
      else
        var k := Min(|p| + 1, |s.link.incoming|);
        var response := s.link.incoming[..k];
        var s1 := s.(link := s.link.(incoming := s.link.incoming[k..]),
                     trace := s.trace + [Received(response)]);
        if response != Echo(p) then (Failed(UnexpectedResponse), s1)
        else if s1.link.incoming != [] then (Failed(ResidualInput), s1.(pending := None))
        else (Done, s1.(pending := None))
  }

  /** `port.write(cmd)` followed by `self._pending_cmd = cmd`. */
  function Send(s: State, cmd: seq<Byte>): (r: (Outcome, State))
  {
    if !s.link.open then (Failed(PortClosed), s)
    else (Done, s.(link := Write(s.link, cmd), pending := Some(cmd), trace := s.trace + [Sent(cmd)]))
  }

  // ---------------------------------------------------------------------------
  // The public operations

  /** `move(position, wheel, speed, block)`. */
  function Move(s: State, position: int, wheel: Arg, speed: int, block: bool): (r: (Outcome, State))
  {
    match NameToChannel(wheel)
    case Err(e) => (Failed(e), s)
    case Ok(w) =>
      if w !in s.wheels then (Failed(NotConnected), s)
      else
        var (f, s1) := Finish(s);
        if f.Failed? then (f, s1)
        else if !(0 <= position < 10) then (Failed(PositionOutOfRange), s1)
        else if !(0 <= speed < 8) then (Failed(SpeedOutOfRange), s1)
        else
          var (o, s2) := Send(s1, [MoveByte(w, speed, position)]);
          if o.Failed? then (o, s2)
          else if w >= |s2.targets| then (Failed(TargetIndexOutOfRange), s2)
          else
            var s3 := s2.(targets := s2.targets[w := position]);
            if block then Finish(s3) else (Done, s3)
  }

  /** The shutter states the driver recognises: "open" or 1, "closed" or 0. */
  function ShutterOpen(state: Arg): (open: Option<bool>)
  {
    if state == Name("open") || state == Index(1) then Some(true)
    else if state == Name("closed") || state == Index(0) then Some(false)
    else None
  }

  /** The shutter modes the driver recognises: "fast" and "soft". */
  function ModeIsFast(mode: Arg): (fast: Option<bool>)
  {
    if mode == Name("fast") then Some(true)
    else if mode == Name("soft") then Some(false)
    else None
  }

  /** Writes a command that the preceding checks have admitted, then waits for its
      echo if asked to. */
  function Issue(s: State, cmd: seq<Byte>, block: bool): (r: (Outcome, State))
  {
    var (o, s1) := Send(s, cmd);
    if o.Failed? || !block then (o, s1) else Finish(s1)
  }

  /** `change_shutter(state, shutter, block)`: the state is checked before the flush. */
  function ChangeShutter(s: State, state: Arg, shutter: Arg, block: bool): (r: (Outcome, State))
  {
    match NameToChannel(shutter)
    case Err(e) => (Failed(e), s)
    case Ok(sh) =>
      if sh !in s.shutters then (Failed(NotConnected), s)
      else if ShutterOpen(state).None? then (Failed(InvalidState), s)
      else
        var (f, s1) := Finish(s);
        if f.Failed? then (f, s1)
        else Issue(s1, [ShutterStateByte(sh, ShutterOpen(state).value)], block)
  }

  /** `set_shutter_mode(mode, shutter, block)`. */
  function SetShutterMode(s: State, mode: Arg, shutter: Arg, block: bool): (r: (Outcome, State))
  {
    match NameToChannel(shutter)
    case Err(e) => (Failed(e), s)
    case Ok(sh) =>
      if sh !in s.shutters then (Failed(NotConnected), s)
      else if ModeIsFast(mode).None? then (Failed(InvalidMode), s)
      else
        var (f, s1) := Finish(s);
        if f.Failed? then (f, s1)
        else Issue(s1, ShutterModeCommand(sh, ModeIsFast(mode).value), block)
  }

  // ---------------------------------------------------------------------------
  // Start-up and shut-down sequences

  /** `for wheel in ws: self.move(0, wheel=wheel)`, stopping at the first failure. */
  function ParkWheels(s: State, ws: seq<Channel>): (r: (Outcome, State))
    decreases |ws|
  {
    if ws == [] then (Done, s)
    else
      var (o, s1) := Move(s, 0, Index(ws[0]), DefaultSpeed, true);
      if o.Failed? then (o, s1) else ParkWheels(s1, ws[1..])
  }

  /** The start-up loop over the shutters: soft mode, then closed, for each one. */
  function PrepareShutters(s: State, ss: seq<Channel>): (r: (Outcome, State))
    decreases |ss|
  {
    if ss == [] then (Done, s)
    else
      var (o1, s1) := SetShutterMode(s, Name("soft"), Index(ss[0]), true);
      if o1.Failed? then (o1, s1)
      else
        var (o2, s2) := ChangeShutter(s1, Name("closed"), Index(ss[0]), true);
        if o2.Failed? then (o2, s2) else PrepareShutters(s2, ss[1..])
  }

  /** The shut-down loop over the shutters: closed, for each one. */
  function CloseShutters(s: State, ss: seq<Channel>): (r: (Outcome, State))
    decreases |ss|
  {
    if ss == [] then (Done, s)
    else
      var (o, s1) := ChangeShutter(s, Name("closed"), Index(ss[0]), true);
      if o.Failed? then (o, s1) else CloseShutters(s1, ss[1..])
  }

  /** The state before the configuration is known. */
  function Unconfigured(l: Link): (s: State)
  {
    State([], [], [], None, l, [])
  }

  /** `__init__` from the configuration query on: query, parse, then home every wheel
      and prepare every shutter. */
  function Connect(l: Link, verbose: bool): (r: (Outcome, State))
  {
    if !l.open then (Failed(PortClosed), Unconfigured(l))
    else
      var queried := Write(l, [QueryConfig]);
      var frame := queried.incoming;
      var l1 := queried.(incoming := []);
      match ParseConfig(frame)
      case Err(e) => (Failed(e), Unconfigured(l1))
      case Ok(cfg) =>
        if verbose && cfg.wheels == [] && cfg.shutters == [] then (Failed(NoHardware), Unconfigured(l1))
        else Home(Fresh(cfg, l1))
  }

  /** The session right after the configuration is parsed: no command pending and
      `wheel_target_positions == [0] * len(wheels)`. */
  function Fresh(cfg: Config, l: Link): (s: State)
  {
    State(cfg.wheels, cfg.shutters, seq(|cfg.wheels|, _ => 0), None, l, [])
  }

  /** The homing loops at the end of `__init__`. */
  function Home(s: State): (r: (Outcome, State))
  {
    var (o, s1) := ParkWheels(s, s.wheels);
    if o.Failed? then (o, s1) else PrepareShutters(s1, s.shutters)
  }

  /** `close()`: park every wheel, close every shutter, then close the port. */
  function Close(s: State): (r: (Outcome, State))
  {
    var (o1, s1) := ParkWheels(s, s.wheels);
    if o1.Failed? then (o1, s1)
    else
      var (o2, s2) := CloseShutters(s1, s.shutters);
      if o2.Failed? then (o2, s2) else (Done, s2.(link := s2.link.(open := false)))
  }

  // ---------------------------------------------------------------------------
  // Command sequences the loops are expected to produce

  function Concat(cmds: seq<seq<Byte>>): (bytes: seq<Byte>)
  {
    if cmds == [] then [] else cmds[0] + Concat(cmds[1..])
  }

  /** Each command followed by its echo. */
  function Exchanges(cmds: seq<seq<Byte>>): (events: seq<Event>)
  {
    if cmds == [] then [] else [Sent(cmds[0]), Received(Echo(cmds[0]))] + Exchanges(cmds[1..])
  }

  function WheelParkCommands(ws: seq<Channel>): (cmds: seq<seq<Byte>>)
  {
    if ws == [] then [] else [[MoveByte(ws[0], DefaultSpeed, 0)]] + WheelParkCommands(ws[1..])
  }

  function ShutterPrepareCommands(ss: seq<Channel>): (cmds: seq<seq<Byte>>)
  {
    if ss == [] then []
    else [ShutterModeCommand(ss[0], false), [ShutterStateByte(ss[0], false)]] + ShutterPrepareCommands(ss[1..])
  }

  function ShutterCloseCommands(ss: seq<Channel>): (cmds: seq<seq<Byte>>)
  {
    if ss == [] then [] else [[ShutterStateByte(ss[0], false)]] + ShutterCloseCommands(ss[1..])
  }

  /** From s to s2 the commands cmds were sent and echoed one at a time, after the
      command pending in s (if any) was confirmed. */
  predicate Completed(s: State, s2: State, cmds: seq<seq<Byte>>)
  {
    if cmds == [] then s2.trace == s.trace && s2.pending == s.pending
    else s2.trace == s.trace + Flush(s) + Exchanges(cmds) && s2.pending.None?
  }
}
