/** Types shared by every part of the Lambda 10-3 controller model. */
module Base {

  /** One element of a Python `bytes` value. */
  type Byte = b: int | 0 <= b < 256

  /** A wheel or shutter channel index: 0 is channel A, 1 is channel B. */
  type Channel = c: int | 0 <= c < 2

  datatype Option<T> = None | Some(value: T)

  /** A Python argument that the driver accepts either as a string or as an integer
      (channel identifiers, shutter states and shutter modes). */
  datatype Arg = Name(s: string) | Index(i: int)

  /** Every way a call into the controller can fail: its `raise`s and `assert`s, the
      index and decoding errors Python raises implicitly, and a closed serial port. */
  datatype Error =
    | ShutterCUnsupported     // a 36-byte configuration frame
    | BadFrameLength          // any other length than 31
    | NotAscii                // a byte after the header is not ASCII (UnicodeDecodeError)
    | WheelCUnsupported       // the wheel-C field is not "WC-NC"
    | WheelTagMismatch        // the wheel-A/B fields do not start with "WA-"/"WB-"
    | ShutterTagMismatch      // the shutter-A/B fields do not start with "SA-"/"SB-"
    | UnsupportedWheel        // a wheel sub-type other than "25" or "NC"
    | UnrecognizedShutter     // a shutter sub-type other than "IQ" or "VS"
    | NoHardware              // nothing connected (raised only in verbose mode)
    | InvalidId               // an unknown channel name or index
    | NotConnected            // the channel is not among the detected ones
    | PositionOutOfRange
    | SpeedOutOfRange
    | InvalidState
    | InvalidMode
    | UnexpectedResponse      // the echo differs from the pending command + CR
    | ResidualInput           // bytes still buffered after the echo
    | TargetIndexOutOfRange   // wheel_target_positions indexed past its end
    | PortClosed              // the serial port refuses I/O once closed

  datatype Result<T> = Ok(value: T) | Err(error: Error)

  /** The outcome of an operation that returns nothing: success or the exception it raised. */
  datatype Outcome = Done | Failed(error: Error)
}
