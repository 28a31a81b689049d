/** Payload construction that both controller versions share: their lookup
    tables and the builders whose code is the same in both files. Each builder
    gives the payload `send` is called with, or the exception raised while
    building it. */
module Commands {
  import opened Visca

  /** `table[key]` on a Python dict. */
  function Lookup<K, V>(table: map<K, V>, key: K): (r: Result<V>)
    ensures r.Ok? <==> key in table
    ensures r.Ok? ==> r.value == table[key]
    ensures r.Raised? ==> r.fault == KeyError
  {
    if key in table then Ok(table[key]) else Raised(KeyError)
  }

  /** A payload holds no terminator byte, so its frame cannot end early. */
  predicate Unterminated(payload: seq<byte>) {
    Terminator !in payload
  }

  /** A built payload, if any, holds no terminator byte. */
  predicate SafeStep(step: Result<seq<byte>>) {
    step.Ok? ==> Unterminated(step.value)
  }

  /** `prefix + __toVisca2b(value)`: a fixed prefix followed by one encoded value. */
  function Prefixed(prefix: seq<byte>, value: int): (r: Result<seq<byte>>)
    ensures r.Ok? <==> 0 <= value < 0x1_0000
    ensures r.Raised? ==> r.fault == OverflowError
    ensures r.Ok? ==> |r.value| == |prefix| + 4 && r.value[..|prefix|] == prefix &&
                      IsNibbles(r.value[|prefix|..]) && Visca2bValue(r.value[|prefix|..]) == value
  {
    var enc :- ToVisca2b(value);
    assert (prefix + enc)[|prefix|..] == enc;
    Ok(prefix + enc)
  }

  const Clear: seq<byte> := [0x01, 0x00, 0x01]
  const ResetMotors: seq<byte> := [0x01, 0x06, 0x05]

  /** `b'\x30' + address.to_bytes(1, 'big')`. */
  function AddressSet(address: int): (r: Result<seq<byte>>)
    ensures r.Ok? <==> 0 <= address < 256
    ensures r.Raised? ==> r.fault == OverflowError
    ensures r.Ok? ==> r.value == [0x30, address]
  {
    var b :- ToByte(address);
    Ok([0x30] + b)
  }

  const PowerModes: map<string, seq<byte>> :=
    map["on" := [0x01, 0x04, 0x00, 0x02], "off" := [0x01, 0x04, 0x00, 0x03]]

  const VideoFormats: map<string, byte> :=
    map["1080p25" := 0x00, "1080p30" := 0x01, "1080p50" := 0x02, "1080p60" := 0x03,
        "720p25" := 0x04, "720p30" := 0x05, "720p50" := 0x06, "720p60" := 0x07]

  const WhiteBalanceModes: map<string, seq<byte>> :=
    map["on" := [0x01, 0x04, 0x35, 0x00], "off" := [0x01, 0x04, 0x35, 0x06]]
  const ExposureModes: map<string, seq<byte>> :=
    map["on" := [0x01, 0x04, 0x39, 0x00], "off" := [0x01, 0x04, 0x39, 0x03]]
  const BacklightModes: map<string, seq<byte>> :=
    map["on" := [0x01, 0x04, 0x33, 0x02], "off" := [0x01, 0x04, 0x33, 0x03]]
  const MirrorModes: map<string, seq<byte>> :=
    map["on" := [0x01, 0x04, 0x61, 0x02], "off" := [0x01, 0x04, 0x61, 0x03]]
  const FlipModes: map<string, seq<byte>> :=
    map["on" := [0x01, 0x04, 0x66, 0x02], "off" := [0x01, 0x04, 0x66, 0x03]]
  const GammaModes: map<string, seq<byte>> :=
    map["on" := [0x01, 0x04, 0x51, 0x02], "off" := [0x01, 0x04, 0x51, 0x03]]
  const MotionDetectModes: map<string, seq<byte>> :=
    map["on" := [0x01, 0x50, 0x30, 0x01], "off" := [0x01, 0x50, 0x30, 0x00]]
  const CallLedModes: map<string, seq<byte>> :=
    map["on" := [0x01, 0x33, 0x01, 0x01], "off" := [0x01, 0x33, 0x01, 0x00],
        "blink" := [0x01, 0x33, 0x01, 0x02]]
  const PowerLedModes: map<string, seq<byte>> :=
    map["on" := [0x01, 0x33, 0x02, 0x01], "off" := [0x01, 0x33, 0x02, 0x00]]
  const FocusModes: map<string, seq<byte>> :=
    map["on" := [0x01, 0x04, 0x38, 0x02], "off" := [0x01, 0x04, 0x38, 0x03]]

  /** The serial-speed payloads, keyed by baud rate. */
  const BaudRates: map<int, seq<byte>> :=
    map[9600 := [0x01, 0x34, 0x00], 115200 := [0x01, 0x34, 0x01]]

  /** The eight compass directions of `steer`, as (pan, tilt) direction bytes:
      1 = left/up, 2 = right/down, 3 = no motion on that axis. */
  const Compass: map<string, seq<byte>> :=
    map["up" := [0x03, 0x01], "down" := [0x03, 0x02], "left" := [0x01, 0x03],
        "right" := [0x02, 0x03], "upleft" := [0x01, 0x01], "upright" := [0x02, 0x01],
        "downleft" := [0x01, 0x02], "downright" := [0x02, 0x02]]

  /** Each compass direction has its own code, and none of them is the
      "both axes stopped" pair 0x03 0x03: a steer payload names its direction. */
  lemma CompassCodesDistinct()
    ensures forall d :: d in Compass ==> Compass[d] != [0x03, 0x03]
    ensures forall d, e :: d in Compass && e in Compass && d != e ==> Compass[d] != Compass[e]
  {
  }

  /** The `wb_auto` body: with "off", first the white-balance table index
      (`0x01 0x04 0x75` + value), then the mode payload. */
  function WbAutoSteps(cmd: string, value: int): (steps: seq<Result<seq<byte>>>)
    ensures |steps| == if cmd == "off" then 2 else 1
    ensures steps[|steps| - 1] == Lookup(WhiteBalanceModes, cmd)
    ensures cmd == "off" ==> steps[0] == Prefixed([0x01, 0x04, 0x75], value)
  {
    if cmd == "off" then [Prefixed([0x01, 0x04, 0x75], value), Lookup(WhiteBalanceModes, cmd)]
    else [Lookup(WhiteBalanceModes, cmd)]
  }

  /** The `ae_auto` body: with "off", first the iris position (`0x4B`), then
      the gain (`0x4C`), then the mode payload. */
  function AeAutoSteps(cmd: string, iris: int, gain: int): (steps: seq<Result<seq<byte>>>)
    ensures |steps| == if cmd == "off" then 3 else 1
    ensures steps[|steps| - 1] == Lookup(ExposureModes, cmd)
    ensures cmd == "off" ==> steps[0] == Prefixed([0x01, 0x04, 0x4B], iris) &&
                             steps[1] == Prefixed([0x01, 0x04, 0x4C], gain)
  {
    if cmd == "off" then
      [Prefixed([0x01, 0x04, 0x4B], iris), Prefixed([0x01, 0x04, 0x4C], gain),
       Lookup(ExposureModes, cmd)]
    else [Lookup(ExposureModes, cmd)]
  }

  /** The `gamma_auto` body: with "off", first the gamma table (`0x52`), then
      the mode payload. */
  function GammaAutoSteps(cmd: string, value: int): (steps: seq<Result<seq<byte>>>)
    ensures |steps| == if cmd == "off" then 2 else 1
    ensures steps[|steps| - 1] == Lookup(GammaModes, cmd)
    ensures cmd == "off" ==> steps[0] == Prefixed([0x01, 0x04, 0x52], value)
  {
    if cmd == "off" then [Prefixed([0x01, 0x04, 0x52], value), Lookup(GammaModes, cmd)]
    else [Lookup(GammaModes, cmd)]
  }

  /** Python's `int(n / 10)`: the quotient truncated toward zero (the float
      division is exact over every value whose quotient fits in a byte). */
  function TruncDiv10(n: int): int {
    if n >= 0 then n / 10 else -((-n) / 10)
  }

  /** `bestView`: `0x01 0x50 0x60`, then `int(time/10)` and `time % 10`, each
      through `to_bytes(1, "big")`. Python's `%` is a floor modulo, which for
      the divisor 10 agrees with Dafny's. */
  function BestView(time: int): (r: Result<seq<byte>>)
    ensures r.Ok? <==> -10 < time < 2560
    ensures r.Raised? ==> r.fault == OverflowError
    ensures r.Ok? ==> r.value == [0x01, 0x50, 0x60, TruncDiv10(time), time % 10]
  {
    var tens :- ToByte(TruncDiv10(time));
    // `time % 10` is always in 0..9, so its `to_bytes` cannot fail
    Ok([0x01, 0x50, 0x60] + tens + [time % 10])
  }

  /** For a timer of 0 to 99 seconds the payload carries its two decimal
      digits, which give the timer back. */
  lemma BestViewDigits(time: int)
    requires 0 <= time < 100
    ensures BestView(time) == Ok([0x01, 0x50, 0x60, time / 10, time % 10])
    ensures var p := BestView(time).value;
            p[3] <= 9 && p[4] <= 9 && 10 * (p[3] as int) + p[4] == time && Unterminated(p)
  {
  }

  /** Nothing bounds the timer by 99: from 2550 to 2559 seconds the tens byte
      is 0xFF, a terminator inside the payload, so the camera sees the command
      end after `0x01 0x50 0x60`. */
  lemma BestViewEmbedsTerminator(time: int)
    requires 2550 <= time < 2560
    ensures BestView(time).Ok? && !Unterminated(BestView(time).value)
  {
    assert BestView(time).value[3] == Terminator;
  }

  /** A small negative timer is not rejected: `int(time/10)` truncates to 0 and
      `time % 10` wraps, so -3 asks for 7 seconds. */
  lemma BestViewNegative(time: int)
    requires -10 < time < 0
    ensures BestView(time) == Ok([0x01, 0x50, 0x60, 0, time + 10])
  {
    assert TruncDiv10(time) == 0;
    assert time % 10 == time + 10;
  }

  /** `zoomFocus(fn, cmd)`: `0x01 0x04`, the axis byte (0x07 zoom, 0x08 focus,
      none for any other `fn`), then the move byte: 0 to stop, 0x20 + speed in
      or far, 0x30 + speed out or near, where the speed is the focus speed for
      "focus" and the zoom speed otherwise. Any other `cmd` leaves the move byte
      unassigned (UnboundLocalError). */
  function ZoomFocus(fn: string, cmd: string, zoomSpeed: int, focusSpeed: int): (r: Result<seq<byte>>)
    ensures cmd !in {"stop", "in", "far", "out", "near"} ==> r == Raised(UnboundLocalError)
    ensures r.Ok? ==> |r.value| == (if fn in {"zoom", "focus"} then 4 else 3) &&
                      r.value[..2] == [0x01, 0x04] &&
                      r.value[2..|r.value| - 1] == (if fn == "zoom" then [0x07] else if fn == "focus" then [0x08] else [])
    ensures cmd == "stop" ==> r.Ok? && r.value[|r.value| - 1] == 0
    ensures var speed := if fn == "focus" then focusSpeed else zoomSpeed;
            cmd in {"in", "far"} ==>
              (r.Ok? <==> 0 <= 32 + speed < 256) && (r.Raised? ==> r.fault == OverflowError) &&
              (r.Ok? ==> r.value[|r.value| - 1] == 32 + speed)
    ensures var speed := if fn == "focus" then focusSpeed else zoomSpeed;
            cmd in {"out", "near"} ==>
              (r.Ok? <==> 0 <= 48 + speed < 256) && (r.Raised? ==> r.fault == OverflowError) &&
              (r.Ok? ==> r.value[|r.value| - 1] == 48 + speed)
  {
    var axis: seq<byte> := if fn == "zoom" then [0x07] else if fn == "focus" then [0x08] else [];
    var speed := if fn == "focus" then focusSpeed else zoomSpeed;
    if cmd == "stop" then Ok([0x01, 0x04] + axis + [0])
    else if cmd == "in" || cmd == "far" then
      var m :- ToByte(32 + speed);
      Ok([0x01, 0x04] + axis + m)
    else if cmd == "out" || cmd == "near" then
      var m :- ToByte(48 + speed);
      Ok([0x01, 0x04] + axis + m)
    else Raised(UnboundLocalError)
  }

  /** With the speeds the controller can hold (10 or 11), a zoom or focus move
      always builds; its move byte decodes back to the direction (high nibble
      0 stop, 2 in/far, 3 out/near) and to the speed of the named axis (low
      nibble). */
  lemma ZoomFocusDecodes(fn: string, cmd: string, zoomSpeed: int, focusSpeed: int)
    requires fn in {"zoom", "focus"} && cmd in {"stop", "in", "far", "out", "near"}
    requires zoomSpeed in {10, 11} && focusSpeed in {10, 11}
    ensures var r := ZoomFocus(fn, cmd, zoomSpeed, focusSpeed);
            var speed := if fn == "zoom" then zoomSpeed else focusSpeed;
            r.Ok? && Unterminated(r.value) &&
            r.value[2] == (if fn == "zoom" then 0x07 else 0x08) &&
            (r.value[3] == 0 <==> cmd == "stop") &&
            (r.value[3] / 16 == 2 <==> cmd in {"in", "far"}) &&
            (r.value[3] / 16 == 3 <==> cmd in {"out", "near"}) &&
            (cmd != "stop" ==> r.value[3] % 16 == speed)
  {
  }

  /** `zoomFocus_direct(zoom, focus)`, where -1 means "not used": focus alone
      gives `0x48` + its value; a zoom gives `0x47` + its value, followed by the
      focus value when one is given; neither gives the bare `0x01 0x04`. Any
      other negative value, or one above 0xFFFF, fails in the codec. */
  function ZoomFocusDirect(zoom: int, focus: int): (r: Result<seq<byte>>)
    ensures r.Ok? <==> (zoom == -1 || 0 <= zoom < 0x1_0000) && (focus == -1 || 0 <= focus < 0x1_0000)
    ensures r.Raised? ==> r.fault == OverflowError
    ensures r.Ok? ==> Unterminated(r.value)
  {
    if zoom == -1 && focus != -1 then
      var f :- ToVisca2b(focus);
      Ok([0x01, 0x04, 0x48] + f)
    else if zoom != -1 then
      var z :- ToVisca2b(zoom);
      if focus != -1 then
        var f :- ToVisca2b(focus);
        Ok([0x01, 0x04, 0x47] + z + f)
      else
        Ok([0x01, 0x04, 0x47] + z)
    else
      Ok([0x01, 0x04])
  }

  /** The (zoom, focus) arguments a direct zoom/focus payload stands for, -1
      for an axis it does not set. */
  function ZoomFocusDirectArgs(p: seq<byte>): Option<(int, int)> {
    if p == [0x01, 0x04] then Some((-1, -1))
    else if |p| == 7 && p[..3] == [0x01, 0x04, 0x48] && IsNibbles(p[3..]) then
      Some((-1, Visca2bValue(p[3..])))
    else if |p| == 7 && p[..3] == [0x01, 0x04, 0x47] && IsNibbles(p[3..]) then
      Some((Visca2bValue(p[3..]), -1))
    else if |p| == 11 && p[..3] == [0x01, 0x04, 0x47] && IsNibbles(p[3..7]) && IsNibbles(p[7..]) then
      Some((Visca2bValue(p[3..7]), Visca2bValue(p[7..])))
    else None
  }

  /** Every direct zoom/focus payload decodes back to its arguments. */
  lemma ZoomFocusDirectRoundTrip(zoom: int, focus: int)
    requires zoom == -1 || 0 <= zoom < 0x1_0000
    requires focus == -1 || 0 <= focus < 0x1_0000
    ensures ZoomFocusDirect(zoom, focus).Ok?
    ensures ZoomFocusDirectArgs(ZoomFocusDirect(zoom, focus).value) == Some((zoom, focus))
  {
    var p := ZoomFocusDirect(zoom, focus).value;
    if zoom == -1 && focus != -1 {
      var f := ToVisca2b(focus).value;
      assert p[..3] == [0x01, 0x04, 0x48] && p[3..] == f;
    } else if zoom != -1 {
      var z := ToVisca2b(zoom).value;
      if focus != -1 {
        var f := ToVisca2b(focus).value;
        assert p[..3] == [0x01, 0x04, 0x47] && p[3..7] == z && p[7..] == f;
      } else {
        assert p[..3] == [0x01, 0x04, 0x47] && p[3..] == z;
      }
    }
  }

  /** `pt_direct`: `0x01 0x06 0x02`, a pan and a tilt speed byte, then the
      encoded pan and tilt positions. The two versions pass different speed
      fields. */
  function PanTiltDirect(panSpeed: seq<byte>, tiltSpeed: seq<byte>, pan: int, tilt: int): (r: Result<seq<byte>>)
    ensures r.Ok? <==> 0 <= pan < 0x1_0000 && 0 <= tilt < 0x1_0000
    ensures r.Raised? ==> r.fault == OverflowError
    ensures r.Ok? ==> (Unterminated(r.value) <==> Unterminated(panSpeed + tiltSpeed))
  {
    var p :- ToVisca2b(pan);
    var t :- ToVisca2b(tilt);
    var r := [0x01, 0x06, 0x02] + panSpeed + tiltSpeed + p + t;
    assert forall i :: 0 <= i < |panSpeed + tiltSpeed| ==> (panSpeed + tiltSpeed)[i] == r[3 + i];
    Ok(r)
  }

  /** With one-byte speeds, the pan/tilt payload gives back both speeds and
      both positions. */
  lemma PanTiltDirectRoundTrip(panSpeed: byte, tiltSpeed: byte, pan: int, tilt: int)
    requires 0 <= pan < 0x1_0000 && 0 <= tilt < 0x1_0000
    ensures var r := PanTiltDirect([panSpeed], [tiltSpeed], pan, tilt);
            r.Ok? && |r.value| == 13 && r.value[..3] == [0x01, 0x06, 0x02] &&
            r.value[3] == panSpeed && r.value[4] == tiltSpeed &&
            IsNibbles(r.value[5..9]) && Visca2bValue(r.value[5..9]) == pan &&
            IsNibbles(r.value[9..]) && Visca2bValue(r.value[9..]) == tilt
  {
    var p, t := ToVisca2b(pan).value, ToVisca2b(tilt).value;
    var r := PanTiltDirect([panSpeed], [tiltSpeed], pan, tilt).value;
    assert r == [0x01, 0x06, 0x02, panSpeed, tiltSpeed] + p + t;
    assert r[5..9] == p && r[9..] == t;
  }

  /** `ptzf`: `0x01 0x06 0x20`, then pan, tilt, zoom and focus, each encoded. */
  function PanTiltZoomFocus(pan: int, tilt: int, zoom: int, focus: int): (r: Result<seq<byte>>)
    ensures r.Ok? <==> 0 <= pan < 0x1_0000 && 0 <= tilt < 0x1_0000 &&
                       0 <= zoom < 0x1_0000 && 0 <= focus < 0x1_0000
    ensures r.Raised? ==> r.fault == OverflowError
    ensures r.Ok? ==> |r.value| == 19 && Unterminated(r.value)
  {
    var p :- ToVisca2b(pan);
    var t :- ToVisca2b(tilt);
    var z :- ToVisca2b(zoom);
    var f :- ToVisca2b(focus);
    Ok([0x01, 0x06, 0x20] + p + t + z + f)
  }

  /** The four positions a ptzf payload stands for. */
  function PanTiltZoomFocusArgs(p: seq<byte>): Option<(int, int, int, int)> {
    if |p| == 19 && p[..3] == [0x01, 0x06, 0x20] && IsNibbles(p[3..]) then
      Some((Visca2bValue(p[3..7]), Visca2bValue(p[7..11]), Visca2bValue(p[11..15]), Visca2bValue(p[15..])))
    else None
  }

  /** Every ptzf payload decodes back to its four positions. */
  lemma PanTiltZoomFocusRoundTrip(pan: int, tilt: int, zoom: int, focus: int)
    requires 0 <= pan < 0x1_0000 && 0 <= tilt < 0x1_0000
    requires 0 <= zoom < 0x1_0000 && 0 <= focus < 0x1_0000
    ensures PanTiltZoomFocus(pan, tilt, zoom, focus).Ok?
    ensures PanTiltZoomFocusArgs(PanTiltZoomFocus(pan, tilt, zoom, focus).value) ==
            Some((pan, tilt, zoom, focus))
  {
    var p, t := ToVisca2b(pan).value, ToVisca2b(tilt).value;
    var z, f := ToVisca2b(zoom).value, ToVisca2b(focus).value;
    var r := PanTiltZoomFocus(pan, tilt, zoom, focus).value;
    assert r == [0x01, 0x06, 0x20] + p + t + z + f;
    assert r[3..7] == p && r[7..11] == t && r[11..15] == z && r[15..] == f;
    assert forall i :: 3 <= i < 19 ==> r[i] <= 0x0F;
  }
}
