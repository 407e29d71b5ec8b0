/** The configuration frame the controller returns to the 0xFD query, and how the
    driver decides from it which wheels and shutters it may drive. */
module Configuration {
  import opened Base

  /** The detected channels, in ascending order: `self.wheels` and `self.shutters`. */
  datatype Config = Config(wheels: seq<Channel>, shutters: seq<Channel>)

  /** An ascending list of distinct channels. */
  predicate ChannelList(cs: seq<Channel>)
  {
    cs in {[], [0], [1], [0, 1]}
  }

  /** Every byte is a 7-bit ASCII code, so the text decodes. */
  predicate Ascii(b: seq<Byte>)
  {
    forall i :: 0 <= i < |b| ==> b[i] < 128
  }

  /** The frame after its 5-byte header, read as text one character per byte. */
  function Text(b: seq<Byte>): (t: string)
    ensures |t| == |b|
    ensures forall i :: 0 <= i < |b| ==> t[i] == b[i] as char
  {
    seq(|b|, i requires 0 <= i < |b| => b[i] as char)
  }

  /** Field k of a 31-byte frame: 0 wheel A, 1 wheel B, 2 wheel C, 3 shutter A, 4 shutter B. */
  function Field(frame: seq<Byte>, k: nat): (f: string)
    requires |frame| == 31 && k < 5
    ensures |f| == 5
  {
    Text(frame[5..])[5 * k .. 5 * k + 5]
  }

  predicate WheelSubtype(s: string) { s == "25" || s == "NC" }

  /** Only "IQ" and "VS" pass; "NC" is refused as well. */
  predicate ShutterSubtype(s: string) { s == "IQ" || s == "VS" }

  /** Validates a frame in the order the checks are made, then lists the
      25 mm wheels and the "IQ" shutters found. */
  function ParseConfig(frame: seq<Byte>): (r: Result<Config>)
    ensures r.Ok? ==> ChannelList(r.value.wheels) && ChannelList(r.value.shutters)
  {
    if |frame| == 36 then Err(ShutterCUnsupported)
    else if |frame| != 31 then Err(BadFrameLength)
    else if !Ascii(frame[5..]) then Err(NotAscii)
    else
      var cs := Text(frame[5..]);
      var wa, wb, wc, sa, sb := cs[0..5], cs[5..10], cs[10..15], cs[15..20], cs[20..25];
      if wc != "WC-NC" then Err(WheelCUnsupported)
      else if !(wa[..3] == "WA-" && wb[..3] == "WB-") then Err(WheelTagMismatch)
      else if !(sa[..3] == "SA-" && sb[..3] == "SB-") then Err(ShutterTagMismatch)
      else if !(WheelSubtype(wa[3..]) && WheelSubtype(wb[3..])) then Err(UnsupportedWheel)
      else if !(ShutterSubtype(sa[3..]) && ShutterSubtype(sb[3..])) then Err(UnrecognizedShutter)
      else
        Ok(Config(Listed(wa == "WA-25", wb == "WB-25"), Listed(sa == "SA-IQ", sb == "SB-IQ")))
  }

  /** `[]`, extended by `[0]` when channel A qualifies and then by `[1]` when channel B does. */
  function Listed(a: bool, b: bool): (cs: seq<Channel>)
    ensures ChannelList(cs) && (0 in cs <==> a) && (1 in cs <==> b)
  {
    var cs := (if a then [0] else []) + (if b then [1] else []);
    assert cs == if a && b then [0, 1] else if a then [0] else if b then [1] else [];
    cs
  }

  /** The frames the driver accepts, field by field. The fields fix bytes 5-29, so
      of the decoded bytes only the last, byte 30, is constrained by the decoding alone. */
  predicate Accepted(frame: seq<Byte>)
  {
    && |frame| == 31
    && frame[30] < 128
    && Field(frame, 0) in {"WA-25", "WA-NC"}
    && Field(frame, 1) in {"WB-25", "WB-NC"}
    && Field(frame, 2) == "WC-NC"
    && Field(frame, 3) in {"SA-IQ", "SA-VS"}
    && Field(frame, 4) in {"SB-IQ", "SB-VS"}
  }

  /** A 5-character field is a 3-character tag followed by a 2-character sub-type. */
  lemma SplitField(f: string, tag: string, sub: string)
    requires |f| == 5 && |tag| == 3 && |sub| == 2
    ensures (f[..3] == tag && f[3..] == sub) <==> f == tag + sub
  {
    if f == tag + sub {
      assert f[..3] == tag;
      assert f[3..] == sub;
    }
    if f[..3] == tag && f[3..] == sub {
      assert f == f[..3] + f[3..];
    }
  }

  lemma FieldsOfFrame(frame: seq<Byte>)
    requires |frame| == 31
    ensures var cs := Text(frame[5..]);
      && cs[0..5] == Field(frame, 0) && cs[5..10] == Field(frame, 1) && cs[10..15] == Field(frame, 2)
      && cs[15..20] == Field(frame, 3) && cs[20..25] == Field(frame, 4)
  {
  }

  /** A frame is accepted exactly when it is 31 bytes long and every field holds its
      tag and an allowed sub-type. */
  lemma {:induction false} ParseAcceptsExactly(frame: seq<Byte>)
    ensures ParseConfig(frame).Ok? <==> Accepted(frame)
  {
    if |frame| == 31 {
      FieldsOfFrame(frame);
      if Accepted(frame) {
        DecodedFieldsAscii(frame);
      }
      assert "WA-" + "25" == "WA-25" && "WA-" + "NC" == "WA-NC";
      assert "WB-" + "25" == "WB-25" && "WB-" + "NC" == "WB-NC";
      assert "SA-" + "IQ" == "SA-IQ" && "SA-" + "VS" == "SA-VS";
      assert "SB-" + "IQ" == "SB-IQ" && "SB-" + "VS" == "SB-VS";
      WheelField(Field(frame, 0), "WA-");
      WheelField(Field(frame, 1), "WB-");
      ShutterField(Field(frame, 3), "SA-");
      ShutterField(Field(frame, 4), "SB-");
    }
  }

  /** In an accepted frame every byte the fields cover is ASCII, so together with
      byte 30 the whole decoded part is. */
  lemma DecodedFieldsAscii(frame: seq<Byte>)
    requires Accepted(frame)
    ensures Ascii(frame[5..])
  {
    FieldAscii(frame, 0);
    FieldAscii(frame, 1);
    FieldAscii(frame, 2);
    FieldAscii(frame, 3);
    FieldAscii(frame, 4);
    forall i | 5 <= i < 30
      ensures frame[i] < 128
    {
      var k := (i - 5) / 5;
      assert 5 + 5 * k <= i < 10 + 5 * k;
    }
  }

  /** A field holding an ASCII text comes from ASCII bytes. */
  lemma FieldAscii(frame: seq<Byte>, k: nat)
    requires |frame| == 31 && k < 5
    requires var f := Field(frame, k);
      f[0] as int < 128 && f[1] as int < 128 && f[2] as int < 128 && f[3] as int < 128 && f[4] as int < 128
    ensures forall i :: 5 + 5 * k <= i < 10 + 5 * k ==> frame[i] < 128
  {
    forall i | 5 + 5 * k <= i < 10 + 5 * k
      ensures frame[i] < 128
    {
      assert Field(frame, k)[i - 5 - 5 * k] == frame[i] as char;
    }
  }

  lemma WheelField(f: string, tag: string)
    requires |f| == 5 && |tag| == 3
    ensures (f[..3] == tag && WheelSubtype(f[3..])) <==> f in {tag + "25", tag + "NC"}
  {
    SplitField(f, tag, "25");
    SplitField(f, tag, "NC");
  }

  lemma ShutterField(f: string, tag: string)
    requires |f| == 5 && |tag| == 3
    ensures (f[..3] == tag && ShutterSubtype(f[3..])) <==> f in {tag + "IQ", tag + "VS"}
  {
    SplitField(f, tag, "IQ");
    SplitField(f, tag, "VS");
  }

  /** Only 31-byte frames are accepted, and a 36-byte frame (shutter C fitted) is
      refused for that reason before anything else is looked at; a 31-byte frame
      whose text does not decode is refused before its fields are looked at. */
  lemma FrameLengthRules(frame: seq<Byte>)
    ensures ParseConfig(frame).Ok? ==> |frame| == 31
    ensures |frame| == 36 ==> ParseConfig(frame) == Err(ShutterCUnsupported)
    ensures |frame| != 31 && |frame| != 36 ==> ParseConfig(frame) == Err(BadFrameLength)
    ensures |frame| == 31 && !Ascii(frame[5..]) ==> ParseConfig(frame) == Err(NotAscii)
  {
  }

  /** A wheel-C field other than "WC-NC" is refused whatever the other fields hold,
      unless the frame already failed to decode. */
  lemma WheelCRejected(frame: seq<Byte>)
    requires |frame| == 31 && Field(frame, 2) != "WC-NC"
    ensures ParseConfig(frame) == if Ascii(frame[5..]) then Err(WheelCUnsupported) else Err(NotAscii)
  {
    FieldsOfFrame(frame);
  }

  /** Wheel c is listed exactly when its field reads "25"; shutter c exactly when its
      field reads "IQ", so an accepted "VS" shutter is never listed. */
  lemma {:induction false} ParsedChannels(frame: seq<Byte>)
    requires ParseConfig(frame).Ok?
    ensures |frame| == 31
    ensures var cfg := ParseConfig(frame).value;
      && (0 in cfg.wheels <==> Field(frame, 0) == "WA-25")
      && (1 in cfg.wheels <==> Field(frame, 1) == "WB-25")
      && (0 in cfg.shutters <==> Field(frame, 3) == "SA-IQ")
      && (1 in cfg.shutters <==> Field(frame, 4) == "SB-IQ")
      && (Field(frame, 3) == "SA-VS" ==> 0 !in cfg.shutters)
      && (Field(frame, 4) == "SB-VS" ==> 1 !in cfg.shutters)
  {
    FieldsOfFrame(frame);
  }
}
