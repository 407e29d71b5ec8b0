/** The wire encoding of the three commands the driver issues, and their echo. */
module Codec {
  import opened Base

  /** The query for the controller type and configuration. */
  const QueryConfig: Byte := 0xFD
  /** The carriage return that ends every echo. */
  const CR: Byte := 13
  /** The first byte of the shutter-mode commands. */
  const FastOpcode: Byte := 220
  const SoftOpcode: Byte := 221
  /** The speed the driver uses when it parks a wheel. */
  const DefaultSpeed := 6

  /** What the device answers once it has carried out `cmd`. */
  function Echo(cmd: seq<Byte>): (e: seq<Byte>)
    ensures |e| == |cmd| + 1 && e[..|cmd|] == cmd && e[|cmd|] == CR
  {
    cmd + [CR]
  }

  /** The move byte: the wheel in bit 7, the speed in bits 4-6, the position in
      bits 0-3, i.e. `(wheel << 7) + (speed << 4) + position`. */
  function MoveByte(wheel: Channel, speed: int, position: int): (b: Byte)
    requires 0 <= speed < 8 && 0 <= position < 10
    ensures b < 128 <==> wheel == 0
    ensures b % 16 == position
  {
    wheel * 128 + speed * 16 + position
  }

  datatype MoveFields = MoveFields(wheel: Channel, speed: int, position: int)

  /** Reads the three fields back from a move byte. */
  function DecodeMove(b: Byte): (f: MoveFields)
    ensures 0 <= f.speed < 8 && 0 <= f.position < 16
  {
    MoveFields(b / 128, (b / 16) % 8, b % 16)
  }

  lemma MoveRoundTrip(wheel: Channel, speed: int, position: int)
    requires 0 <= speed < 8 && 0 <= position < 10
    ensures DecodeMove(MoveByte(wheel, speed, position)) == MoveFields(wheel, speed, position)
  {
  }

  /** Distinct moves are distinct bytes. */
  lemma MoveInjective(w1: Channel, s1: int, p1: int, w2: Channel, s2: int, p2: int)
    requires 0 <= s1 < 8 && 0 <= p1 < 10 && 0 <= s2 < 8 && 0 <= p2 < 10
    ensures MoveByte(w1, s1, p1) == MoveByte(w2, s2, p2) <==> w1 == w2 && s1 == s2 && p1 == p2
  {
    MoveRoundTrip(w1, s1, p1);
    MoveRoundTrip(w2, s2, p2);
  }

  /** The shutter-state byte `128 + 32 + (shutter << 4) + 8`, plus 2 to open and 4 to close. */
  function ShutterStateByte(shutter: Channel, open: bool): (b: Byte)
    ensures b in {170, 172, 186, 188}
    ensures b % 16 == (if open then 10 else 12)
  {
    128 + 32 + shutter * 16 + 8 + (if open then 2 else 4)
  }

  /** Reads the shutter and the state back from a shutter-state byte. */
  function DecodeShutterState(b: Byte): (fields: (Channel, bool))
  {
    ((b / 16) % 2, b % 16 == 10)
  }

  lemma ShutterStateRoundTrip(shutter: Channel, open: bool)
    ensures DecodeShutterState(ShutterStateByte(shutter, open)) == (shutter, open)
  {
  }

  /** The four (shutter, state) combinations give four distinct bytes: 170, 172, 186, 188. */
  lemma ShutterStatesDistinct(a: Channel, x: bool, b: Channel, y: bool)
    ensures ShutterStateByte(a, x) in {170, 172, 186, 188}
    ensures ShutterStateByte(a, x) == ShutterStateByte(b, y) <==> a == b && x == y
  {
    ShutterStateRoundTrip(a, x);
    ShutterStateRoundTrip(b, y);
  }

  /** The two-byte shutter-mode command: 220 (fast) or 221 (soft), then the shutter number plus one. */
  function ShutterModeCommand(shutter: Channel, fast: bool): (cmd: seq<Byte>)
    ensures |cmd| == 2 && cmd[0] in {220, 221} && cmd[1] in {1, 2}
    ensures cmd[0] == 220 <==> fast
  {
    [if fast then FastOpcode else SoftOpcode, shutter + 1]
  }

  lemma ShutterModeExact(shutter: Channel, fast: bool)
    ensures ShutterModeCommand(shutter, true) == [220, shutter + 1]
    ensures ShutterModeCommand(shutter, false) == [221, shutter + 1]
    ensures ShutterModeCommand(shutter, fast)[1] in {1, 2}
  {
  }

  /** The first byte of a command tells its kind: no move byte is a shutter-state byte
      or a mode opcode, and no shutter-state byte is a mode opcode. */
  lemma CommandKindsDisjoint(w: Channel, speed: int, position: int, sh: Channel, open: bool, fast: bool)
    requires 0 <= speed < 8 && 0 <= position < 10
    ensures MoveByte(w, speed, position) != ShutterStateByte(sh, open)
    ensures MoveByte(w, speed, position) != ShutterModeCommand(sh, fast)[0]
    ensures ShutterStateByte(sh, open) != ShutterModeCommand(sh, fast)[0]
  {
    MoveRoundTrip(w, speed, position);
  }
}
