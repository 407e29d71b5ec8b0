/** What the session protocol guarantees: the invariant every call keeps, the order of
    flushes and writes, the checks that come before any write, and the effect of the
    start-up and shut-down sequences. */
module SessionProperties {
  import opened Base
  import opened Codec
  import opened Channels
  import opened Configuration
  import opened Session

  // ---------------------------------------------------------------------------
  // Traces

  lemma UnconfirmedStep(t: seq<Event>, e: Event)
    ensures Unconfirmed(t + [e]) == match e
      case Sent(c) => Some(c)
      case Received(d) => if Unconfirmed(t).Some? && d == Echo(Unconfirmed(t).value) then None else Unconfirmed(t)
  {
    assert (t + [e])[..|t + [e]| - 1] == t;
  }

  /** Appending an event keeps the trace serialized, provided a command is only sent
      when nothing is unconfirmed. */
  lemma StepKeepsSerialized(t: seq<Event>, e: Event)
    requires Serialized(t)
    requires e.Sent? ==> Unconfirmed(t).None?
    ensures Serialized(t + [e])
  {
    var t2 := t + [e];
    forall i | 0 <= i < |t2| && t2[i].Sent?
      ensures Unconfirmed(t2[..i]).None?
    {
      if i < |t| {
        assert t2[..i] == t[..i];
      } else {
        assert t2[..i] == t;
      }
    }
  }

  lemma {:induction false} OutboundAppend(a: seq<Event>, b: seq<Event>)
    ensures Outbound(a + b) == Outbound(a) + Outbound(b)
  {
    if a == [] {
      assert a + b == b;
    } else {
      assert (a + b)[1..] == a[1..] + b;
      OutboundAppend(a[1..], b);
    }
  }

  lemma {:induction false} ExchangesAppend(a: seq<seq<Byte>>, b: seq<seq<Byte>>)
    ensures Exchanges(a + b) == Exchanges(a) + Exchanges(b)
  {
    if a == [] {
      assert a + b == b;
    } else {
      assert (a + b)[1..] == a[1..] + b;
      ExchangesAppend(a[1..], b);
    }
  }

  /** The bytes a sequence of exchanges writes are the commands, back to back. */
  lemma {:induction false} ExchangesSend(cmds: seq<seq<Byte>>)
    ensures Outbound(Exchanges(cmds)) == Concat(cmds)
  {
    if cmds != [] {
      var head := [Sent(cmds[0]), Received(Echo(cmds[0]))];
      OutboundAppend(head, Exchanges(cmds[1..]));
      assert Outbound(head) == cmds[0] by {
        assert head[1..] == [Received(Echo(cmds[0]))];
        assert head[1..][1..] == [];
      }
      ExchangesSend(cmds[1..]);
    }
  }

  lemma FollowsReflexive(s: State, s2: State)
    requires s2.wheels == s.wheels && s2.shutters == s.shutters
    requires s2.trace == s.trace && s2.link.written == s.link.written
    ensures Follows(s, s2)
  {
    assert s2.trace[|s.trace|..] == [];
  }

  lemma FollowsStep(s: State, s2: State, e: Event)
    requires s2.wheels == s.wheels && s2.shutters == s.shutters
    requires s2.trace == s.trace + [e]
    requires s2.link.written == s.link.written + (if e.Sent? then e.cmd else [])
    ensures Follows(s, s2)
  {
    assert s2.trace[..|s.trace|] == s.trace;
    assert s2.trace[|s.trace|..] == [e];
    assert [e][1..] == [];
  }

  /** Two trace extensions compose into one, whose new events are those of both. */
  lemma ExtensionCompose(ta: seq<Event>, tb: seq<Event>, tc: seq<Event>)
    requires |ta| <= |tb| && tb[..|ta|] == ta
    requires |tb| <= |tc| && tc[..|tb|] == tb
    ensures |ta| <= |tc| && tc[..|ta|] == ta
    ensures tc[|ta|..] == tb[|ta|..] + tc[|tb|..]
  {
    assert tc == tb + tc[|tb|..];
    assert tb == ta + tb[|ta|..];
    assert tc[..|ta|] == tb[..|ta|];
  }

  lemma FollowsTransitive(a: State, b: State, c: State)
    requires Follows(a, b) && Follows(b, c)
    ensures Follows(a, c)
  {
    ExtensionCompose(a.trace, b.trace, c.trace);
    OutboundAppend(b.trace[|a.trace|..], c.trace[|b.trace|..]);
  }

  // ---------------------------------------------------------------------------
  // The primitive steps keep the invariant

  lemma FinishInvariant(s: State)
    requires Valid(s)
    ensures Valid(Finish(s).1) && Follows(s, Finish(s).1)
  {
    var r := Finish(s);
    if s.pending.Some? && s.link.open {
      var k := Min(|s.pending.value| + 1, |s.link.incoming|);
      var e := Received(s.link.incoming[..k]);
      UnconfirmedStep(s.trace, e);
      StepKeepsSerialized(s.trace, e);
      FollowsStep(s, r.1, e);
    } else {
      FollowsReflexive(s, r.1);
    }
  }

  lemma SendInvariant(s: State, cmd: seq<Byte>)
    requires Valid(s) && s.pending.None?
    ensures Valid(Send(s, cmd).1) && Follows(s, Send(s, cmd).1)
    ensures !s.link.open ==> Send(s, cmd) == (Failed(PortClosed), s)
    ensures s.link.open ==>
      && Send(s, cmd).0 == Done
      && Send(s, cmd).1.link.written == s.link.written + cmd
      && Send(s, cmd).1.trace == s.trace + [Sent(cmd)]
      && Send(s, cmd).1.pending == Some(cmd)
  {
    var r := Send(s, cmd);
    if s.link.open {
      UnconfirmedStep(s.trace, Sent(cmd));
      StepKeepsSerialized(s.trace, Sent(cmd));
      FollowsStep(s, r.1, Sent(cmd));
    } else {
      FollowsReflexive(s, r.1);
    }
  }

  lemma IssueInvariant(s: State, cmd: seq<Byte>, block: bool)
    requires Valid(s) && s.pending.None?
    ensures Valid(Issue(s, cmd, block).1) && Follows(s, Issue(s, cmd, block).1)
    ensures Issue(s, cmd, block).1.targets == s.targets
  {
    SendInvariant(s, cmd);
    var (o, s1) := Send(s, cmd);
    if o.Done? && block {
      FinishInvariant(s1);
      FollowsTransitive(s, s1, Finish(s1).1);
    }
  }

  // ---------------------------------------------------------------------------
  // move

  /** The checks `move` makes before it writes anything. */
  predicate MoveArgumentsOk(s: State, position: int, wheel: Arg, speed: int)
  {
    && NameToChannel(wheel).Ok? && NameToChannel(wheel).value in s.wheels
    && 0 <= position < 10 && 0 <= speed < 8
  }

  lemma MoveInvariant(s: State, position: int, wheel: Arg, speed: int, block: bool)
    requires Valid(s)
    ensures var r := Move(s, position, wheel, speed, block);
      Valid(r.1) && Follows(s, r.1)
  {
    var r := Move(s, position, wheel, speed, block);
    var c := NameToChannel(wheel);
    if c.Err? || c.value !in s.wheels {
      assert r.1 == s;
      FollowsReflexive(s, s);
      return;
    }
    var w := c.value;
    var (f, s1) := Finish(s);
    FinishInvariant(s);
    if f.Failed? || !(0 <= position < 10) || !(0 <= speed < 8) {
      assert r.1 == s1;
      return;
    }
    var cmd := [MoveByte(w, speed, position)];
    var (o, s2) := Send(s1, cmd);
    SendInvariant(s1, cmd);
    FollowsTransitive(s, s1, s2);
    if o.Failed? || w >= |s2.targets| {
      assert r.1 == s2;
      return;
    }
    var s3 := s2.(targets := s2.targets[w := position]);
    TargetUpdateInvariant(s2, w, position);
    FollowsTransitive(s, s2, s3);
    if block {
      assert r.1 == Finish(s3).1;
      FinishInvariant(s3);
      FollowsTransitive(s, s3, Finish(s3).1);
    } else {
      assert r.1 == s3;
    }
  }

  lemma TargetUpdateInvariant(s: State, w: nat, position: int)
    requires Valid(s) && w < |s.targets| && 0 <= position < 10
    ensures var s2 := s.(targets := s.targets[w := position]);
      Valid(s2) && Follows(s, s2)
  {
    FollowsReflexive(s, s.(targets := s.targets[w := position]));
  }

  /** A wheel that is not a valid identifier or not detected is refused with nothing
      read or written; a position or speed out of range is refused after the flush
      but before any write. */
  lemma MoveRejectsBeforeWriting(s: State, position: int, wheel: Arg, speed: int, block: bool)
    ensures var r := Move(s, position, wheel, speed, block);
      && (NameToChannel(wheel).Err? ==> r == (Failed(InvalidId), s))
      && (NameToChannel(wheel).Ok? && NameToChannel(wheel).value !in s.wheels ==> r == (Failed(NotConnected), s))
      && (!MoveArgumentsOk(s, position, wheel, speed) ==> r.0.Failed? && r.1.link.written == s.link.written)
      && (NameToChannel(wheel).Ok? && NameToChannel(wheel).value in s.wheels && Finish(s).0.Done? ==>
            && (!(0 <= position < 10) ==> r == (Failed(PositionOutOfRange), Finish(s).1))
            && (0 <= position < 10 && !(0 <= speed < 8) ==> r == (Failed(SpeedOutOfRange), Finish(s).1)))
  {
  }

  /** The range checks come after the flush: with a command pending, a bad position
      still consumes the pending echo, whereas `change_shutter` refuses a bad state
      without reading anything. */
  lemma MoveFlushesBeforeRangeCheck(s: State, wheel: Arg, speed: int, block: bool)
    requires Valid(s) && s.pending.Some? && s.link.open && s.link.incoming == Echo(s.pending.value)
    requires NameToChannel(wheel).Ok? && NameToChannel(wheel).value in s.wheels
    ensures var r := Move(s, 10, wheel, speed, block);
      && r.0 == Failed(PositionOutOfRange)
      && r.1.pending.None? && r.1.link.incoming == []
      && r.1.trace == s.trace + Flush(s)
  {
  }

  /** Whenever `move` writes, it writes exactly its command byte, and only after the
      pending command, if any, has been confirmed by its echo. */
  lemma MoveWritesAfterFlush(s: State, position: int, wheel: Arg, speed: int, block: bool)
    ensures var r := Move(s, position, wheel, speed, block);
      r.1.link.written != s.link.written ==>
        && MoveArgumentsOk(s, position, wheel, speed)
        && var cmd := [MoveByte(NameToChannel(wheel).value, speed, position)];
        && r.1.link.written == s.link.written + cmd
        && |s.trace| + |Flush(s)| < |r.1.trace|
        && r.1.trace[..|s.trace| + |Flush(s)| + 1] == s.trace + Flush(s) + [Sent(cmd)]
  {
    var r := Move(s, position, wheel, speed, block);
    if r.1.link.written != s.link.written {
      var w := NameToChannel(wheel).value;
      var cmd := [MoveByte(w, speed, position)];
      var (f, s1) := Finish(s);
      var (o, s2) := Send(s1, cmd);
      var prefix := s.trace + Flush(s) + [Sent(cmd)];
      assert s2.trace == prefix;
      assert r.1.trace[..|prefix|] == prefix;
    }
  }

  /** A successful `move` has flushed the pending command, written its byte, recorded
      the target, and is left waiting for the echo exactly when it did not block. */
  lemma MoveCompletes(s: State, position: int, wheel: Arg, speed: int, block: bool)
    ensures var r := Move(s, position, wheel, speed, block);
      r.0.Done? ==>
        && MoveArgumentsOk(s, position, wheel, speed)
        && var w := NameToChannel(wheel).value;
        && var cmd := [MoveByte(w, speed, position)];
        && r.1.trace == s.trace + Flush(s) + [Sent(cmd)] + (if block then [Received(Echo(cmd))] else [])
        && r.1.pending == (if block then None else Some(cmd))
        && r.1.link.written == s.link.written + cmd
        && w < |s.targets| && r.1.targets == s.targets[w := position]
  {
  }

  /** Against a device that echoes, with nothing pending and nothing buffered, a valid
      `move` succeeds and consumes exactly its echo when it blocks. */
  lemma MoveAgainstEchoingDevice(s: State, position: int, w: Channel, speed: int, block: bool, rest: seq<seq<Byte>>)
    requires s.link.open && s.pending.None? && s.link.incoming == []
    requires w in s.wheels && w < |s.targets| && 0 <= position < 10 && 0 <= speed < 8
    requires s.link.replies == [Echo([MoveByte(w, speed, position)])] + rest
    ensures var r := Move(s, position, Index(w), speed, block);
      var cmd := [MoveByte(w, speed, position)];
      && r.0 == Done
      && r.1.link.written == s.link.written + cmd
      && r.1.link.replies == rest
      && r.1.link.incoming == (if block then [] else Echo(cmd))
      && r.1.targets == s.targets[w := position]
  {
    var cmd := [MoveByte(w, speed, position)];
    var s2 := Send(s, cmd).1;
    assert s2.link.incoming == Echo(cmd);
    assert s2.link.incoming[..|cmd| + 1] == Echo(cmd);
  }

  /** With wheel A and shutter A detected, `move(3, 'A', speed=6)` writes 0x63 and
      consumes 0x63 0x0D. */
  lemma MoveExample(s: State)
    requires s.wheels == [0] && s.targets == [0] && s.pending.None?
    requires s.link.open && s.link.incoming == [] && s.link.replies == [[0x63, 0x0D]]
    ensures var r := Move(s, 3, Name("A"), 6, true);
      && r.0 == Done && r.1.link.written == s.link.written + [0x63]
      && r.1.link.incoming == [] && r.1.targets == [3] && r.1.pending.None?
  {
    assert MoveByte(0, 6, 3) == 0x63;
    assert Echo([0x63]) == [0x63, 0x0D];
    assert s.link.replies == [Echo([MoveByte(0, 6, 3)])] + [];
    MoveAgainstEchoingDevice(s, 3, 0, 6, true, []);
  }

  /** `wheel_target_positions` has one slot per detected wheel but is indexed by
      channel: with wheel B alone, every valid move writes its byte and then fails. */
  lemma OnlyWheelBCannotMove(s: State, position: int, speed: int, block: bool)
    requires Valid(s) && s.wheels == [1] && s.link.open && s.pending.None?
    requires 0 <= position < 10 && 0 <= speed < 8
    ensures var r := Move(s, position, Index(1), speed, block);
      && r.0 == Failed(TargetIndexOutOfRange)
      && r.1.link.written == s.link.written + [MoveByte(1, speed, position)]
      && r.1.pending == Some([MoveByte(1, speed, position)])
  {
  }

  // ---------------------------------------------------------------------------
  // change_shutter and set_shutter_mode

  lemma ChangeShutterInvariant(s: State, state: Arg, shutter: Arg, block: bool)
    requires Valid(s)
    ensures var r := ChangeShutter(s, state, shutter, block);
      Valid(r.1) && Follows(s, r.1) && r.1.targets == s.targets
  {
    var r := ChangeShutter(s, state, shutter, block);
    var c := NameToChannel(shutter);
    if c.Err? || c.value !in s.shutters || ShutterOpen(state).None? {
      assert r.1 == s;
      FollowsReflexive(s, s);
      return;
    }
    var (f, s1) := Finish(s);
    FinishInvariant(s);
    if f.Failed? {
      assert r.1 == s1;
      return;
    }
    var cmd := [ShutterStateByte(c.value, ShutterOpen(state).value)];
    assert r.1 == Issue(s1, cmd, block).1;
    IssueInvariant(s1, cmd, block);
    FollowsTransitive(s, s1, r.1);
  }

  /** A shutter that is not valid or not detected, or a state other than "open", 1,
      "closed" or 0, is refused with nothing read or written. */
  lemma ChangeShutterRejectsBeforeWriting(s: State, state: Arg, shutter: Arg, block: bool)
    ensures var r := ChangeShutter(s, state, shutter, block);
      && (NameToChannel(shutter).Err? ==> r == (Failed(InvalidId), s))
      && (NameToChannel(shutter).Ok? && NameToChannel(shutter).value !in s.shutters ==> r == (Failed(NotConnected), s))
      && ((NameToChannel(shutter).Ok? && NameToChannel(shutter).value in s.shutters &&
           state !in {Name("open"), Index(1), Name("closed"), Index(0)}) ==> r == (Failed(InvalidState), s))
  {
  }

  /** A successful `change_shutter` has flushed the pending command and written the
      state byte for the requested state. */
  lemma ChangeShutterCompletes(s: State, state: Arg, shutter: Arg, block: bool)
    ensures var r := ChangeShutter(s, state, shutter, block);
      r.0.Done? ==>
        && NameToChannel(shutter).Ok? && NameToChannel(shutter).value in s.shutters
        && state in {Name("open"), Index(1), Name("closed"), Index(0)}
        && var open := state in {Name("open"), Index(1)};
        && var cmd := [ShutterStateByte(NameToChannel(shutter).value, open)];
        && r.1.trace == s.trace + Flush(s) + [Sent(cmd)] + (if block then [Received(Echo(cmd))] else [])
        && r.1.pending == (if block then None else Some(cmd))
        && r.1.link.written == s.link.written + cmd
  {
  }

  lemma SetShutterModeInvariant(s: State, mode: Arg, shutter: Arg, block: bool)
    requires Valid(s)
    ensures var r := SetShutterMode(s, mode, shutter, block);
      Valid(r.1) && Follows(s, r.1) && r.1.targets == s.targets
  {
    var r := SetShutterMode(s, mode, shutter, block);
    var c := NameToChannel(shutter);
    if c.Err? || c.value !in s.shutters || ModeIsFast(mode).None? {
      assert r.1 == s;
      FollowsReflexive(s, s);
      return;
    }
    var (f, s1) := Finish(s);
    FinishInvariant(s);
    if f.Failed? {
      assert r.1 == s1;
      return;
    }
    var cmd := ShutterModeCommand(c.value, ModeIsFast(mode).value);
    assert r.1 == Issue(s1, cmd, block).1;
    IssueInvariant(s1, cmd, block);
    FollowsTransitive(s, s1, r.1);
  }

  /** Any mode other than "fast" or "soft", or a shutter not detected, is refused with
      nothing read or written. */
  lemma SetShutterModeRejectsBeforeWriting(s: State, mode: Arg, shutter: Arg, block: bool)
    ensures var r := SetShutterMode(s, mode, shutter, block);
      && (NameToChannel(shutter).Err? ==> r == (Failed(InvalidId), s))
      && (NameToChannel(shutter).Ok? && NameToChannel(shutter).value !in s.shutters ==> r == (Failed(NotConnected), s))
      && ((NameToChannel(shutter).Ok? && NameToChannel(shutter).value in s.shutters &&
           mode !in {Name("fast"), Name("soft")}) ==> r == (Failed(InvalidMode), s))
  {
  }

  /** A successful `set_shutter_mode` has flushed the pending command and written
      exactly [220 or 221, shutter + 1]. */
  lemma SetShutterModeCompletes(s: State, mode: Arg, shutter: Arg, block: bool)
    ensures var r := SetShutterMode(s, mode, shutter, block);
      r.0.Done? ==>
        && NameToChannel(shutter).Ok? && NameToChannel(shutter).value in s.shutters
        && mode in {Name("fast"), Name("soft")}
        && var cmd := [if mode == Name("fast") then 220 else 221, NameToChannel(shutter).value + 1];
        && r.1.trace == s.trace + Flush(s) + [Sent(cmd)] + (if block then [Received(Echo(cmd))] else [])
        && r.1.pending == (if block then None else Some(cmd))
        && r.1.link.written == s.link.written + cmd
  {
  }

  /** `set_shutter_mode('fast', 'A')` writes [220, 1] and expects [220, 1, 0x0D]. */
  lemma SetShutterModeExample(s: State)
    requires s.shutters == [0] && s.pending.None? && s.link.open
    requires s.link.incoming == [] && s.link.replies == [[220, 1, 0x0D]]
    ensures var r := SetShutterMode(s, Name("fast"), Name("A"), true);
      r.0 == Done && r.1.link.written == s.link.written + [220, 1] && r.1.link.incoming == []
  {
    var s1 := Send(s, [220, 1]).1;
    assert s1.link.incoming == [220, 1, 0x0D];
    assert s1.link.incoming[..3] == Echo([220, 1]);
  }

  // ---------------------------------------------------------------------------
  // Sequences of blocking calls

  lemma SingleCompleted(s: State, s2: State, cmd: seq<Byte>)
    requires s2.trace == s.trace + Flush(s) + [Sent(cmd), Received(Echo(cmd))] && s2.pending.None?
    ensures Completed(s, s2, [cmd])
  {
    assert [cmd][1..] == [];
  }

  lemma CompletedTransitive(s0: State, s1: State, s2: State, a: seq<seq<Byte>>, b: seq<seq<Byte>>)
    requires Completed(s0, s1, a) && Completed(s1, s2, b)
    ensures Completed(s0, s2, a + b)
  {
    if a == [] {
      assert a + b == b;
    } else if b == [] {
      assert a + b == a;
    } else {
      ExchangesAppend(a, b);
    }
  }

  lemma {:induction false} ParkWheelsInvariant(s: State, ws: seq<Channel>)
    requires Valid(s)
    ensures Valid(ParkWheels(s, ws).1) && Follows(s, ParkWheels(s, ws).1)
    decreases |ws|
  {
    if ws == [] {
      FollowsReflexive(s, s);
    } else {
      var (o, s1) := Move(s, 0, Index(ws[0]), DefaultSpeed, true);
      MoveInvariant(s, 0, Index(ws[0]), DefaultSpeed, true);
      if o.Done? {
        ParkWheelsInvariant(s1, ws[1..]);
        FollowsTransitive(s, s1, ParkWheels(s1, ws[1..]).1);
      }
    }
  }

  /** When the parking loop succeeds, each wheel's move byte was sent and echoed in
      turn, and every parked wheel's target is 0. */
  lemma {:induction false} ParkWheelsCompletes(s: State, ws: seq<Channel>)
    ensures var r := ParkWheels(s, ws);
      r.0.Done? ==>
        && Completed(s, r.1, WheelParkCommands(ws))
        && |r.1.targets| == |s.targets|
        && (forall w :: w in ws ==> w < |s.targets|)
        && (forall j :: 0 <= j < |s.targets| ==> r.1.targets[j] == if j in ws then 0 else s.targets[j])
    decreases |ws|
  {
    var r := ParkWheels(s, ws);
    if ws != [] && r.0.Done? {
      var (o, s1) := Move(s, 0, Index(ws[0]), DefaultSpeed, true);
      MoveCompletes(s, 0, Index(ws[0]), DefaultSpeed, true);
      var cmd := [MoveByte(ws[0], DefaultSpeed, 0)];
      SingleCompleted(s, s1, cmd);
      ParkWheelsCompletes(s1, ws[1..]);
      CompletedTransitive(s, s1, r.1, [cmd], WheelParkCommands(ws[1..]));
      forall j | 0 <= j < |s.targets|
        ensures r.1.targets[j] == if j in ws then 0 else s.targets[j]
      {
        assert j in ws <==> j == ws[0] || j in ws[1..];
      }
      forall w | w in ws
        ensures w < |s.targets|
      {
        assert w == ws[0] || w in ws[1..];
      }
    }
  }

  lemma {:induction false} PrepareShuttersInvariant(s: State, ss: seq<Channel>)
    requires Valid(s)
    ensures var r := PrepareShutters(s, ss);
      Valid(r.1) && Follows(s, r.1) && r.1.targets == s.targets
    decreases |ss|
  {
    if ss == [] {
      FollowsReflexive(s, s);
    } else {
      var (o1, s1) := SetShutterMode(s, Name("soft"), Index(ss[0]), true);
      SetShutterModeInvariant(s, Name("soft"), Index(ss[0]), true);
      if o1.Done? {
        var (o2, s2) := ChangeShutter(s1, Name("closed"), Index(ss[0]), true);
        ChangeShutterInvariant(s1, Name("closed"), Index(ss[0]), true);
        FollowsTransitive(s, s1, s2);
        if o2.Done? {
          PrepareShuttersInvariant(s2, ss[1..]);
          FollowsTransitive(s, s2, PrepareShutters(s2, ss[1..]).1);
        }
      }
    }
  }

  /** When the start-up shutter loop succeeds, each shutter was put in soft mode and
      then closed, one echoed command at a time. */
  lemma {:induction false} PrepareShuttersCompletes(s: State, ss: seq<Channel>)
    ensures var r := PrepareShutters(s, ss);
      r.0.Done? ==> Completed(s, r.1, ShutterPrepareCommands(ss))
    decreases |ss|
  {
    var r := PrepareShutters(s, ss);
    if ss != [] && r.0.Done? {
      var p := SetShutterMode(s, Name("soft"), Index(ss[0]), true);
      var q := ChangeShutter(p.1, Name("closed"), Index(ss[0]), true);
      assert p.0.Done? && q.0.Done? && r == PrepareShutters(q.1, ss[1..]);
      var cmds := [ShutterModeCommand(ss[0], false), [ShutterStateByte(ss[0], false)]];
      PrepareOneCompletes(s, ss[0]);
      PrepareShuttersCompletes(q.1, ss[1..]);
      assert ShutterPrepareCommands(ss) == cmds + ShutterPrepareCommands(ss[1..]);
      CompletedTransitive(s, q.1, r.1, cmds, ShutterPrepareCommands(ss[1..]));
    }
  }

  /** One pass of the start-up shutter loop: soft mode, then closed, each confirmed. */
  lemma PrepareOneCompletes(s: State, sh: Channel)
    ensures var p := SetShutterMode(s, Name("soft"), Index(sh), true);
      var q := ChangeShutter(p.1, Name("closed"), Index(sh), true);
      p.0.Done? && q.0.Done? ==>
        Completed(s, q.1, [ShutterModeCommand(sh, false), [ShutterStateByte(sh, false)]])
  {
    var p := SetShutterMode(s, Name("soft"), Index(sh), true);
    var q := ChangeShutter(p.1, Name("closed"), Index(sh), true);
    if p.0.Done? && q.0.Done? {
      SetShutterModeCompletes(s, Name("soft"), Index(sh), true);
      var mode := ShutterModeCommand(sh, false);
      SingleCompleted(s, p.1, mode);
      ChangeShutterCompletes(p.1, Name("closed"), Index(sh), true);
      var closed := [ShutterStateByte(sh, false)];
      SingleCompleted(p.1, q.1, closed);
      CompletedTransitive(s, p.1, q.1, [mode], [closed]);
      assert [mode] + [closed] == [mode, closed];
    }
  }


  lemma {:induction false} CloseShuttersInvariant(s: State, ss: seq<Channel>)
    requires Valid(s)
    ensures var r := CloseShutters(s, ss);
      Valid(r.1) && Follows(s, r.1) && r.1.targets == s.targets
    decreases |ss|
  {
    if ss == [] {
      FollowsReflexive(s, s);
    } else {
      var (o, s1) := ChangeShutter(s, Name("closed"), Index(ss[0]), true);
      ChangeShutterInvariant(s, Name("closed"), Index(ss[0]), true);
      if o.Done? {
        CloseShuttersInvariant(s1, ss[1..]);
        FollowsTransitive(s, s1, CloseShutters(s1, ss[1..]).1);
      }
    }
  }

  lemma {:induction false} CloseShuttersCompletes(s: State, ss: seq<Channel>)
    ensures var r := CloseShutters(s, ss);
      r.0.Done? ==> Completed(s, r.1, ShutterCloseCommands(ss))
    decreases |ss|
  {
    var r := CloseShutters(s, ss);
    if ss != [] && r.0.Done? {
      var (o, s1) := ChangeShutter(s, Name("closed"), Index(ss[0]), true);
      ChangeShutterCompletes(s, Name("closed"), Index(ss[0]), true);
      var closed := [ShutterStateByte(ss[0], false)];
      SingleCompleted(s, s1, closed);
      CloseShuttersCompletes(s1, ss[1..]);
      CompletedTransitive(s, s1, r.1, [closed], ShutterCloseCommands(ss[1..]));
    }
  }

  // ---------------------------------------------------------------------------
  // __init__ and close

  /** The commands the start-up sequence sends. */
  function HomingCommands(ws: seq<Channel>, ss: seq<Channel>): (cmds: seq<seq<Byte>>)
  {
    WheelParkCommands(ws) + ShutterPrepareCommands(ss)
  }

  /** The frame `readline` returns: what the device sent in reply to the query. */
  function ConfigFrame(l: Link): (frame: seq<Byte>)
    requires l.open
  {
    Write(l, [QueryConfig]).incoming
  }

  /** Once every detected wheel has been parked, every target slot is 0. */
  lemma AllTargetsParked(s: State, s2: State)
    requires Valid(s) && |s2.targets| == |s.targets|
    requires forall w :: w in s.wheels ==> w < |s.targets|
    requires forall j :: 0 <= j < |s.targets| ==> s2.targets[j] == if j in s.wheels then 0 else s.targets[j]
    ensures forall i :: 0 <= i < |s2.targets| ==> s2.targets[i] == 0
  {
    assert s.wheels == [1] ==> 1 in s.wheels;
  }

  lemma HomeInvariant(s: State)
    requires Valid(s)
    ensures Valid(Home(s).1) && Follows(s, Home(s).1)
  {
    ParkWheelsInvariant(s, s.wheels);
    var p := ParkWheels(s, s.wheels);
    if p.0.Done? {
      PrepareShuttersInvariant(p.1, s.shutters);
      FollowsTransitive(s, p.1, PrepareShutters(p.1, s.shutters).1);
    }
  }

  /** A successful homing sequence has parked every wheel and prepared every shutter,
      one echoed command at a time, and left every target at 0. */
  lemma HomeCompletes(s: State)
    requires Valid(s)
    ensures var r := Home(s);
      r.0.Done? ==>
        && Completed(s, r.1, HomingCommands(s.wheels, s.shutters))
        && |r.1.targets| == |s.targets|
        && (forall i :: 0 <= i < |r.1.targets| ==> r.1.targets[i] == 0)
  {
    var r := Home(s);
    var p := ParkWheels(s, s.wheels);
    if p.0.Done? {
      var q := PrepareShutters(p.1, s.shutters);
      assert r == q;
      if q.0.Done? {
        ParkWheelsCompletes(s, s.wheels);
        AllTargetsParked(s, p.1);
        ParkWheelsInvariant(s, s.wheels);
        PrepareShuttersCompletes(p.1, s.shutters);
        PrepareShuttersInvariant(p.1, s.shutters);
        CompletedTransitive(s, p.1, q.1, WheelParkCommands(s.wheels), ShutterPrepareCommands(s.shutters));
      }
    }
  }

  lemma ConnectInvariant(l: Link, verbose: bool)
    ensures Valid(Connect(l, verbose).1)
  {
    if l.open {
      var queried := Write(l, [QueryConfig]);
      var cfg := ParseConfig(queried.incoming);
      if cfg.Ok? && !(verbose && cfg.value.wheels == [] && cfg.value.shutters == []) {
        HomeInvariant(Fresh(cfg.value, queried.(incoming := [])));
      }
    }
  }

  /** A frame the parser refuses ends start-up with that error, after the query byte
      and before any command. */
  lemma ConnectRejectsBadFrame(l: Link, verbose: bool)
    requires l.open && ParseConfig(ConfigFrame(l)).Err?
    ensures var r := Connect(l, verbose);
      && r.0 == Failed(ParseConfig(ConfigFrame(l)).error)
      && r.1.link.written == l.written + [QueryConfig]
      && r.1.trace == []
  {
  }

  /** A successful start-up has sent the query, then exactly the homing commands of
      the parsed configuration, each confirmed by its echo; nothing is pending and every
      wheel's target is 0. */
  lemma ConnectHomes(l: Link, verbose: bool)
    ensures var r := Connect(l, verbose);
      r.0.Done? ==>
        && l.open && ParseConfig(ConfigFrame(l)).Ok?
        && var cfg := ParseConfig(ConfigFrame(l)).value;
        && r.1.wheels == cfg.wheels && r.1.shutters == cfg.shutters
        && !(verbose && cfg.wheels == [] && cfg.shutters == [])
        && r.1.trace == Exchanges(HomingCommands(cfg.wheels, cfg.shutters)) && r.1.pending.None?
        && r.1.link.written == l.written + [QueryConfig] + Concat(HomingCommands(cfg.wheels, cfg.shutters))
        && |r.1.targets| == |cfg.wheels| && (forall i :: 0 <= i < |r.1.targets| ==> r.1.targets[i] == 0)
  {
    var r := Connect(l, verbose);
    if r.0.Done? {
      var queried := Write(l, [QueryConfig]);
      var cfg := ParseConfig(queried.incoming).value;
      var s := Fresh(cfg, queried.(incoming := []));
      assert r == Home(s);
      HomeInvariant(s);
      HomeCompletes(s);
      var cmds := HomingCommands(cfg.wheels, cfg.shutters);
      assert r.1.trace == Exchanges(cmds) by {
        if cmds == [] {
          assert r.1.trace == [];
        }
      }
      assert r.1.trace[|s.trace|..] == r.1.trace;
      ExchangesSend(cmds);
    }
  }

  /** The "no hardware" error is raised only in verbose mode: with nothing detected,
      start-up fails in verbose mode and otherwise succeeds after the query alone. */
  lemma NoHardwareOnlyWhenVerbose(l: Link)
    requires l.open && ParseConfig(ConfigFrame(l)) == Ok(Config([], []))
    ensures Connect(l, true).0 == Failed(NoHardware)
    ensures var r := Connect(l, false);
      && r.0 == Done && r.1.link.written == l.written + [QueryConfig]
      && r.1.trace == [] && r.1.wheels == [] && r.1.shutters == []
  {
    var queried := Write(l, [QueryConfig]);
    var s := Fresh(Config([], []), queried.(incoming := []));
    assert Connect(l, false) == Home(s);
  }

  /** With wheel B detected and wheel A not, start-up always fails: homing wheel B
      indexes `wheel_target_positions` past its single slot. */
  lemma HomingFailsWithOnlyWheelB(l: Link, verbose: bool)
    requires l.open && ParseConfig(ConfigFrame(l)).Ok? && ParseConfig(ConfigFrame(l)).value.wheels == [1]
    ensures Connect(l, verbose).0 == Failed(TargetIndexOutOfRange)
  {
    var queried := Write(l, [QueryConfig]);
    var cfg := ParseConfig(queried.incoming).value;
    var s := Fresh(cfg, queried.(incoming := []));
    assert Move(s, 0, Index(1), DefaultSpeed, true).0 == Failed(TargetIndexOutOfRange);
    assert [1][1..] == [];
  }

  /** The commands `close` sends. */
  function ParkCommands(ws: seq<Channel>, ss: seq<Channel>): (cmds: seq<seq<Byte>>)
  {
    WheelParkCommands(ws) + ShutterCloseCommands(ss)
  }

  lemma CloseInvariant(s: State)
    requires Valid(s)
    ensures Valid(Close(s).1) && Follows(s, Close(s).1)
  {
    var r := Close(s);
    ParkWheelsInvariant(s, s.wheels);
    var p := ParkWheels(s, s.wheels);
    if p.0.Failed? {
      assert r == p;
      return;
    }
    CloseShuttersInvariant(p.1, s.shutters);
    var q := CloseShutters(p.1, s.shutters);
    FollowsTransitive(s, p.1, q.1);
    if q.0.Failed? {
      assert r == q;
    } else {
      assert r.1 == q.1.(link := q.1.link.(open := false));
    }
  }

  /** A successful `close` has confirmed the pending command, parked every wheel at
      position 0, closed every shutter, one echoed command at a time, and closed the port. */
  lemma CloseParks(s: State)
    requires Valid(s)
    ensures var r := Close(s);
      r.0.Done? ==>
        && Completed(s, r.1, ParkCommands(s.wheels, s.shutters))
        && !r.1.link.open
        && (forall i :: 0 <= i < |r.1.targets| ==> r.1.targets[i] == 0)
  {
    var r := Close(s);
    var p := ParkWheels(s, s.wheels);
    if p.0.Done? {
      var q := CloseShutters(p.1, s.shutters);
      if q.0.Done? {
        assert r.1 == q.1.(link := q.1.link.(open := false));
        ParkWheelsCompletes(s, s.wheels);
        AllTargetsParked(s, p.1);
        ParkWheelsInvariant(s, s.wheels);
        CloseShuttersCompletes(p.1, s.shutters);
        CloseShuttersInvariant(p.1, s.shutters);
        CompletedTransitive(s, p.1, q.1, WheelParkCommands(s.wheels), ShutterCloseCommands(s.shutters));
      }
    }
  }
}
