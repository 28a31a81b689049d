/** `controller.py`: the older `Controller`. It shares the payload builders of
    `Commands` and differs in its defaults, its response reading (no error-code
    table), its steer table (no "stop"), its reboot byte, its `pt_direct` speed
    fields, its broken toggles and `vid_format`, and its one method per inquiry. */
module Legacy {
  import opened Visca
  import opened Transport
  import Commands

  /** The default of all four pan/tilt speed fields. */
  const DefaultSpeed: seq<byte> := [0x01]

  /** The status `send` computes from a stripped response: 0 when it starts
      with 0x50, 1 otherwise; `resp[0]` raises IndexError on an empty one. */
  function Interpret(resp: seq<byte>): (r: Result<int>)
    ensures r == Ok(0) <==> |resp| > 0 && resp[0] == 0x50
    ensures r == Ok(1) <==> |resp| > 0 && resp[0] != 0x50
    ensures r == Raised(IndexError) <==> resp == []
  {
    if |resp| == 0 then Raised(IndexError)
    else if resp[0] != 0x50 then Ok(1)
    else Ok(0)
  }

  /** `steer`: `0x01 0x06 0x01`, both speed fields, then the direction bytes;
      the table has no "stop", so stopping raises KeyError. */
  function SteerPayload(dir: string, panSpeed: seq<byte>, tiltSpeed: seq<byte>): (r: Result<seq<byte>>)
    ensures r.Ok? <==> dir in Commands.Compass
    ensures r.Raised? ==> r.fault == KeyError
    ensures r.Ok? ==> r.value == [0x01, 0x06, 0x01] + panSpeed + tiltSpeed + Commands.Compass[dir]
  {
    var code :- Commands.Lookup(Commands.Compass, dir);
    Ok([0x01, 0x06, 0x01] + panSpeed + tiltSpeed + code)
  }

  /** `b'\x01\42'`: the second escape is octal, so the byte is 0x22, not 0x42. */
  const RebootPayload: seq<byte> := [0x01, 0x22]

  /** The toggles of this version: the method assigns the flag name in one
      branch, so Python treats it as a local variable and reading it under
      "toggle" raises UnboundLocalError; any other mode is looked up as given. */
  function Toggle(modes: map<string, seq<byte>>, cmd: string): (r: Result<seq<byte>>)
    ensures cmd == "toggle" ==> r == Raised(UnboundLocalError)
    ensures cmd != "toggle" ==> r == Commands.Lookup(modes, cmd)
  {
    if cmd == "toggle" then Raised(UnboundLocalError) else Commands.Lookup(modes, cmd)
  }

  /** The twenty-three inquiry methods `Q_camID` .. `Q_upsideDown`. */
  datatype Inquiry =
    | CamId | ZoomPos | FocusPos | FocusMode | PtPos | Pwr | WbMode | WbTable
    | AeMode | Backlight | Mirror | Flip | GammaMode | GammaTable | CallLed
    | PwrLed | VidSwitch | AlsRGain | AlsBGain | AlsGGain | AlsWGain | BestView
    | UpsideDown

  /** The payload each inquiry method sends. */
  function InquiryPayload(q: Inquiry): (p: seq<byte>)
    ensures |p| >= 3 && p[0] == 0x09 && Commands.Unterminated(p)
  {
    match q
    case CamId => [0x09, 0x04, 0x22]
    case ZoomPos => [0x09, 0x04, 0x47]
    case FocusPos => [0x09, 0x04, 0x48]
    case FocusMode => [0x09, 0x04, 0x38]
    case PtPos => [0x09, 0x06, 0x12]
    case Pwr => [0x09, 0x04, 0x00]
    case WbMode => [0x09, 0x04, 0x35]
    case WbTable => [0x09, 0x04, 0x75]
    case AeMode => [0x09, 0x04, 0x39]
    case Backlight => [0x09, 0x04, 0x33]
    case Mirror => [0x09, 0x04, 0x61]
    case Flip => [0x09, 0x04, 0x66]
    case GammaMode => [0x09, 0x04, 0x51]
    case GammaTable => [0x09, 0x04, 0x52]
    case CallLed => [0x09, 0x01, 0x33, 0x01]
    case PwrLed => [0x09, 0x01, 0x33, 0x02]
    case VidSwitch => [0x09, 0x06, 0x24]
    case AlsRGain => [0x09, 0x50, 0x50]
    case AlsBGain => [0x09, 0x50, 0x51]
    case AlsGGain => [0x09, 0x50, 0x52]
    case AlsWGain => [0x09, 0x50, 0x53]
    case BestView => [0x09, 0x50, 0x60]
    case UpsideDown => [0x09, 0x50, 0x70]
  }

  /** Each inquiry method asks something different. */
  lemma InquiryPayloadsDistinct(a: Inquiry, b: Inquiry)
    requires a != b
    ensures InquiryPayload(a) != InquiryPayload(b)
  {
    var pa, pb := InquiryPayload(a), InquiryPayload(b);
    if |pa| == 4 {
      assert pa[3] == (if a == CallLed then 0x01 else 0x02);
    } else {
      assert pa[1] == pb[1] && pa[2] == pb[2] ==> |pb| == 3 ==> a == b;
    }
  }

  /** `ae_auto("off")` on an open port: the iris, gain and manual-mode
      payloads are sent in that order, each in its own frame, even when the
      first two sends report failure (1); only the last status is returned. */
  lemma AeAutoOffSendsThree(link: Link, address: seq<byte>, iris: int, gain: int)
    requires link.Open? && 0 <= iris < 0x1_0000 && 0 <= gain < 0x1_0000
    ensures var irisMsg := [0x01, 0x04, 0x4B] + ToVisca2b(iris).value;
            var gainMsg := [0x01, 0x04, 0x4C] + ToVisca2b(gain).value;
            var x0 := Transmit(link, address, irisMsg, Interpret);
            var x1 := Transmit(x0.link, address, gainMsg, Interpret);
            var x2 := Transmit(x1.link, address, [0x01, 0x04, 0x39, 0x03], Interpret);
            x0.status.Ok? && x1.status.Ok? ==>
              SendAll(link, address, Commands.AeAutoSteps("off", iris, gain), Interpret) == (x2.status, x2.link) &&
              x2.link.written == link.written + Frame(address, irisMsg) + Frame(address, gainMsg)
                                              + Frame(address, [0x01, 0x04, 0x39, 0x03])
  {
    var steps := Commands.AeAutoSteps("off", iris, gain);
    var irisMsg, gainMsg, mode := steps[0].value, steps[1].value, steps[2].value;
    assert mode == [0x01, 0x04, 0x39, 0x03];
    var x0 := Transmit(link, address, irisMsg, Interpret);
    var x1 := Transmit(x0.link, address, gainMsg, Interpret);
    if x0.status.Ok? && x1.status.Ok? {
      assert steps[1..][0] == steps[1] && steps[1..][1..] == [steps[2]];
      assert SendAll(link, address, steps, Interpret) == SendAll(x0.link, address, steps[1..], Interpret);
      assert SendAll(x0.link, address, steps[1..], Interpret) == SendAll(x1.link, address, [steps[2]], Interpret);
    }
  }

  class Controller {
    var address: seq<byte>
    var panSpeed: seq<byte>
    var tiltSpeed: seq<byte>
    var panSpeedMax: seq<byte>
    var tiltSpeedMax: seq<byte>
    var zoomSpeed: int
    var focusSpeed: int
    /** The open serial port, or null for `None`. */
    var ser: Port?

    constructor ()
      ensures address == [0x81] && ser == null
      ensures panSpeed == tiltSpeed == panSpeedMax == tiltSpeedMax == DefaultSpeed
      ensures zoomSpeed == 10 && focusSpeed == 11
    {
      address := [0x81];
      panSpeed, tiltSpeed, panSpeedMax, tiltSpeedMax := DefaultSpeed, DefaultSpeed, DefaultSpeed, DefaultSpeed;
      zoomSpeed, focusSpeed := 10, 11;
      ser := null;
    }

    /** The port as a value. */
    function LinkState(): Link
      reads this, ser
    {
      if ser == null then Closed else Open(ser.written, ser.pending)
    }

    /** `send`: 1 without a port; otherwise writes the frame, reads byte by
        byte until a 0xFF arrives, dumps the raw bytes for an inquiry, and
        reads the status from the stripped response. */
    method Send(command: seq<byte>) returns (r: Result<int>, echo: seq<byte>)
      modifies ser
      ensures Exchange(r, LinkState(), echo) == Transmit(old(LinkState()), address, command, Interpret)
    {
      if ser == null {
        return Ok(1), [];
      }
      if command == [] {
        return Raised(IndexError), [];
      }
      var inq := IsInquiry(command);
      ser.Write(address + command + [Terminator]);
      ghost var input := ser.pending;
      var resp: seq<byte> := [];
      var rcvd: seq<byte> := [];  // `None` before the first read
      while rcvd != [Terminator]
        invariant input == resp + ser.pending
        invariant ser.written == old(ser.written) + Frame(address, command)
        invariant rcvd == [] ==> resp == []
        invariant rcvd != [] ==> resp != [] && rcvd == [resp[|resp| - 1]]
        invariant forall i :: 0 <= i < |resp| - 1 ==> resp[i] != Terminator
        decreases |ser.pending|
      {
        rcvd := ser.Read();
        if rcvd == [] {
          // the source goes on reading empty timeouts for ever
          assert Terminator !in input;
          r, echo := Raised(Stalled), [];
          return;
        }
        resp := resp + rcvd;
      }
      SplitUnique(input, resp, ser.pending);
      echo := if inq then resp else [];
      r := Interpret(Strip(resp));
    }

    /** Sends one payload, or raises the exception its construction raised. */
    method SendBuilt(msg: Result<seq<byte>>) returns (r: Result<int>)
      modifies ser
      ensures (r, LinkState()) == SendAll(old(LinkState()), address, [msg], Interpret)
    {
      var cmd :- msg;
      var echo;
      r, echo := Send(cmd);
    }

    method Clear() returns (r: Result<int>)
      modifies ser
      ensures (r, LinkState()) == SendAll(old(LinkState()), address, [Ok(Commands.Clear)], Interpret)
    {
      r := SendBuilt(Ok(Commands.Clear));
    }

    method AddressSet(newAddress: int) returns (r: Result<int>)
      modifies ser
      ensures (r, LinkState()) == SendAll(old(LinkState()), address, [Commands.AddressSet(newAddress)], Interpret)
    {
      r := SendBuilt(Commands.AddressSet(newAddress));
    }

    method Power(cmd: string) returns (r: Result<int>)
      modifies ser
      ensures (r, LinkState()) ==
              SendAll(old(LinkState()), address, [Commands.Lookup(Commands.PowerModes, cmd)], Interpret)
    {
      r := SendBuilt(Commands.Lookup(Commands.PowerModes, cmd));
    }

    /** `vid_format` looks up `cmd`, a name bound nowhere in the method, so
        it raises NameError before anything is sent, whatever the argument. */
    method VidFormat(format: string) returns (r: Result<int>)
      ensures r == Raised(NameError)
    {
      r := Raised(NameError);
    }

    method WbAuto(cmd: string, value: int) returns (r: Result<int>)
      modifies ser
      ensures (r, LinkState()) == SendAll(old(LinkState()), address, Commands.WbAutoSteps(cmd, value), Interpret)
    {
      if cmd == "off" {
        var setup :- Commands.Prefixed([0x01, 0x04, 0x75], value);
        var status, echo := Send(setup);
        if status.Raised? {
          return status;
        }
      }
      r := SendBuilt(Commands.Lookup(Commands.WhiteBalanceModes, cmd));
    }

    method AeAuto(cmd: string, iris: int, gain: int) returns (r: Result<int>)
      modifies ser
      ensures (r, LinkState()) == SendAll(old(LinkState()), address, Commands.AeAutoSteps(cmd, iris, gain), Interpret)
    {
      if cmd == "off" {
        var irisMsg :- Commands.Prefixed([0x01, 0x04, 0x4B], iris);
        var status, echo := Send(irisMsg);
        if status.Raised? {
          return status;
        }
        var gainMsg :- Commands.Prefixed([0x01, 0x04, 0x4C], gain);
        status, echo := Send(gainMsg);
        if status.Raised? {
          return status;
        }
      }
      r := SendBuilt(Commands.Lookup(Commands.ExposureModes, cmd));
    }

    method Backlight(cmd: string) returns (r: Result<int>)
      modifies ser
      ensures (r, LinkState()) ==
              SendAll(old(LinkState()), address, [Toggle(Commands.BacklightModes, cmd)], Interpret)
    {
      r := SendBuilt(Toggle(Commands.BacklightModes, cmd));
    }

    method Mirror(cmd: string) returns (r: Result<int>)
      modifies ser
      ensures (r, LinkState()) ==
              SendAll(old(LinkState()), address, [Toggle(Commands.MirrorModes, cmd)], Interpret)
    {
      r := SendBuilt(Toggle(Commands.MirrorModes, cmd));
    }

    method Flip(cmd: string) returns (r: Result<int>)
      modifies ser
      ensures (r, LinkState()) ==
              SendAll(old(LinkState()), address, [Toggle(Commands.FlipModes, cmd)], Interpret)
    {
      r := SendBuilt(Toggle(Commands.FlipModes, cmd));
    }

    method GammaAuto(cmd: string, value: int) returns (r: Result<int>)
      modifies ser
      ensures (r, LinkState()) == SendAll(old(LinkState()), address, Commands.GammaAutoSteps(cmd, value), Interpret)
    {
      if cmd == "off" {
        var setup :- Commands.Prefixed([0x01, 0x04, 0x52], value);
        var status, echo := Send(setup);
        if status.Raised? {
          return status;
        }
      }
      r := SendBuilt(Commands.Lookup(Commands.GammaModes, cmd));
    }

    method MmDetect(cmd: string) returns (r: Result<int>)
      modifies ser
      ensures (r, LinkState()) ==
              SendAll(old(LinkState()), address, [Commands.Lookup(Commands.MotionDetectModes, cmd)], Interpret)
    {
      r := SendBuilt(Commands.Lookup(Commands.MotionDetectModes, cmd));
    }

    method CallLed(cmd: string) returns (r: Result<int>)
      modifies ser
      ensures (r, LinkState()) ==
              SendAll(old(LinkState()), address, [Commands.Lookup(Commands.CallLedModes, cmd)], Interpret)
    {
      r := SendBuilt(Commands.Lookup(Commands.CallLedModes, cmd));
    }

    method PwrLed(cmd: string) returns (r: Result<int>)
      modifies ser
      ensures (r, LinkState()) ==
              SendAll(old(LinkState()), address, [Commands.Lookup(Commands.PowerLedModes, cmd)], Interpret)
    {
      r := SendBuilt(Commands.Lookup(Commands.PowerLedModes, cmd));
    }

    /** `bestView(cmd, time)`: `cmd` is never used. */
    method BestView(cmd: string, time: int) returns (r: Result<int>)
      modifies ser
      ensures (r, LinkState()) == SendAll(old(LinkState()), address, [Commands.BestView(time)], Interpret)
    {
      r := SendBuilt(Commands.BestView(time));
    }

    method SetZoomSpeed(cmd: string)
      modifies this`zoomSpeed
      ensures zoomSpeed == if cmd == "high" then 11 else 10
    {
      zoomSpeed := if cmd == "high" then 11 else 10;
    }

    method SetFocusSpeed(cmd: string)
      modifies this`focusSpeed
      ensures focusSpeed == if cmd == "high" then 11 else 10
    {
      focusSpeed := if cmd == "high" then 11 else 10;
    }

    method ZoomFocus(fn: string, cmd: string) returns (r: Result<int>)
      modifies ser
      ensures (r, LinkState()) ==
              SendAll(old(LinkState()), address, [Commands.ZoomFocus(fn, cmd, zoomSpeed, focusSpeed)], Interpret)
    {
      r := SendBuilt(Commands.ZoomFocus(fn, cmd, zoomSpeed, focusSpeed));
    }

    method ZoomFocusDirect(zoom: int, focus: int) returns (r: Result<int>)
      modifies ser
      ensures (r, LinkState()) == SendAll(old(LinkState()), address, [Commands.ZoomFocusDirect(zoom, focus)], Interpret)
    {
      r := SendBuilt(Commands.ZoomFocusDirect(zoom, focus));
    }

    method FocusAuto(cmd: string) returns (r: Result<int>)
      modifies ser
      ensures (r, LinkState()) ==
              SendAll(old(LinkState()), address, [Commands.Lookup(Commands.FocusModes, cmd)], Interpret)
    {
      r := SendBuilt(Commands.Lookup(Commands.FocusModes, cmd));
    }

    method Steer(dir: string) returns (r: Result<int>)
      modifies ser
      ensures (r, LinkState()) == SendAll(old(LinkState()), address, [SteerPayload(dir, panSpeed, tiltSpeed)], Interpret)
    {
      r := SendBuilt(SteerPayload(dir, panSpeed, tiltSpeed));
    }

    method Reset() returns (r: Result<int>)
      modifies ser
      ensures (r, LinkState()) == SendAll(old(LinkState()), address, [Ok(Commands.ResetMotors)], Interpret)
    {
      r := SendBuilt(Ok(Commands.ResetMotors));
    }

    method Reboot() returns (r: Result<int>)
      modifies ser
      ensures (r, LinkState()) == SendAll(old(LinkState()), address, [Ok(RebootPayload)], Interpret)
    {
      r := SendBuilt(Ok(RebootPayload));
    }

    /** `pt_direct` uses `panSpeedMax`/`tiltSpeedMax` and returns None. */
    method PtDirect(pan: int, tilt: int) returns (r: Result<()>)
      modifies ser
      ensures var (status, link) :=
                SendAll(old(LinkState()), address, [Commands.PanTiltDirect(panSpeedMax, tiltSpeedMax, pan, tilt)], Interpret);
              LinkState() == link && (r.Ok? <==> status.Ok?) && (r.Raised? ==> r.fault == status.fault)
    {
      var status := SendBuilt(Commands.PanTiltDirect(panSpeedMax, tiltSpeedMax, pan, tilt));
      r := if status.Ok? then Ok(()) else Raised(status.fault);
    }

    method Ptzf(pan: int, tilt: int, zoom: int, focus: int) returns (r: Result<int>)
      modifies ser
      ensures (r, LinkState()) ==
              SendAll(old(LinkState()), address, [Commands.PanTiltZoomFocus(pan, tilt, zoom, focus)], Interpret)
    {
      r := SendBuilt(Commands.PanTiltZoomFocus(pan, tilt, zoom, focus));
    }

    method SerialSpeed(baud: int) returns (r: Result<int>)
      modifies ser
      ensures (r, LinkState()) ==
              SendAll(old(LinkState()), address, [Commands.Lookup(Commands.BaudRates, baud)], Interpret)
    {
      r := SendBuilt(Commands.Lookup(Commands.BaudRates, baud));
    }

    /** Any one of the `Q_*` methods: send its inquiry, the raw reply is dumped. */
    method Query(q: Inquiry) returns (r: Result<int>, echo: seq<byte>)
      modifies ser
      ensures Exchange(r, LinkState(), echo) == Transmit(old(LinkState()), address, InquiryPayload(q), Interpret)
    {
      r, echo := Send(InquiryPayload(q));
    }
  }
}
