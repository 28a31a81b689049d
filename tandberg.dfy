/** `tandberg/tandberg.py`: the newer `Controller`, with the error-code table,
    the steer "stop" entry, the `qCmd` inquiry table and the toggle flags. */
module Tandberg {
  import opened Visca
  import opened Transport
  import Commands

  /** The default of all four pan/tilt speed fields. */
  const DefaultSpeed: seq<byte> := [0x0F]

  /** The messages `receive` prints for the error codes after a 0x60 byte. */
  const ErrorMessages: map<byte, string> :=
    map[1 := "Message length error (>14bytes)", 2 := "Syntax error", 3 := "Command buffer full",
        4 := "Command cancelled", 5 := "No socket", 65 := "Command not executable"]

  /** How `receive` reads a stripped response: completion (0x50), an error
      (0x60) with its code and message, or any other socket byte. */
  datatype Reply = Completion | ProtocolError(code: byte, message: string) | IncorrectSocket

  /** The classification in `receive`, including the exceptions its indexing
      raises: `resp[0]` on an empty response, `resp[1]` after a lone 0x60, and
      `error_stat[resp[1]]` for a code outside the table. */
  function Classify(resp: seq<byte>): (r: Result<Reply>)
    ensures r == Ok(Completion) <==> |resp| > 0 && resp[0] == 0x50
    ensures r == Ok(IncorrectSocket) <==> |resp| > 0 && resp[0] != 0x50 && resp[0] != 0x60
    ensures r.Ok? && r.value.ProtocolError? <==> |resp| >= 2 && resp[0] == 0x60 && resp[1] in ErrorMessages
    ensures r.Ok? && r.value.ProtocolError? ==> r.value == ProtocolError(resp[1], ErrorMessages[resp[1]])
    ensures r == Raised(IndexError) <==> resp == [] || resp == [0x60]
    ensures r == Raised(KeyError) <==> |resp| >= 2 && resp[0] == 0x60 && resp[1] !in ErrorMessages
  {
    if |resp| == 0 then Raised(IndexError)
    else if resp[0] != 0x50 then
      if resp[0] != 0x60 then Ok(IncorrectSocket)
      else if |resp| < 2 then Raised(IndexError)
      else if resp[1] !in ErrorMessages then Raised(KeyError)
      else Ok(ProtocolError(resp[1], ErrorMessages[resp[1]]))
    else Ok(Completion)
  }

  /** The status `receive` returns for a reply: 0 for completion, 1 otherwise. */
  function StatusOf(reply: Reply): int {
    if reply.Completion? then 0 else 1
  }

  /** `receive` as a status: what `send` hands back for a stripped response. */
  function Interpret(resp: seq<byte>): Result<int> {
    match Classify(resp)
    case Ok(reply) => Ok(StatusOf(reply))
    case Raised(f) => Raised(f)
  }

  /** `receive` returns 0 exactly for a completion, 1 for an error it can name
      or a foreign socket byte, and raises for everything else. */
  lemma InterpretStatus(resp: seq<byte>)
    ensures Interpret(resp) == Ok(0) <==> |resp| > 0 && resp[0] == 0x50
    ensures Interpret(resp) == Ok(1) <==>
      |resp| > 0 && resp[0] != 0x50 && (resp[0] != 0x60 || (|resp| >= 2 && resp[1] in ErrorMessages))
    ensures Interpret(resp).Ok? || Interpret(resp) == Raised(IndexError) || Interpret(resp) == Raised(KeyError)
  {
  }

  /** The steer table: the compass directions plus "stop" as 0x03 0x03. */
  const SteerTable: map<string, seq<byte>> := Commands.Compass["stop" := [0x03, 0x03]]

  /** `steer`: `0x01 0x06 0x01`, the two speed fields (0x03 0x03 for "stop"),
      then the direction bytes from the table; KeyError for an unknown
      direction, raised after the speeds are appended. */
  function SteerPayload(dir: string, panSpeed: seq<byte>, tiltSpeed: seq<byte>): (r: Result<seq<byte>>)
    ensures r.Ok? <==> dir in Commands.Compass || dir == "stop"
    ensures r.Raised? ==> r.fault == KeyError
    ensures dir == "stop" ==> r == Ok([0x01, 0x06, 0x01, 0x03, 0x03, 0x03, 0x03])
    ensures dir in Commands.Compass ==>
      r == Ok([0x01, 0x06, 0x01] + panSpeed + tiltSpeed + Commands.Compass[dir])
  {
    var speeds := if dir != "stop" then panSpeed + tiltSpeed else [0x03, 0x03];
    assert "stop" !in Commands.Compass;
    var code :- Commands.Lookup(SteerTable, dir);
    assert [0x01, 0x06, 0x01] + (panSpeed + tiltSpeed) == [0x01, 0x06, 0x01] + panSpeed + tiltSpeed;
    assert [0x01, 0x06, 0x01] + [0x03, 0x03] + [0x03, 0x03] == [0x01, 0x06, 0x01, 0x03, 0x03, 0x03, 0x03];
    Ok([0x01, 0x06, 0x01] + speeds + code)
  }

  /** With the default speeds, "up" gives the payload the camera expects. */
  lemma SteerUpDefault()
    ensures SteerPayload("up", DefaultSpeed, DefaultSpeed) == Ok([0x01, 0x06, 0x01, 0x0F, 0x0F, 0x03, 0x01])
  {
    assert [0x01, 0x06, 0x01] + DefaultSpeed + DefaultSpeed + [0x03, 0x01] == [0x01, 0x06, 0x01, 0x0F, 0x0F, 0x03, 0x01];
  }

  const RebootPayload: seq<byte> := [0x01, 0x42]

  /** `vid_format`: `0x01 0x35 0x00`, the format code, `0x00`. */
  function VidFormatPayload(format: string): (r: Result<seq<byte>>)
    ensures r.Ok? <==> format in Commands.VideoFormats
    ensures r.Raised? ==> r.fault == KeyError
    ensures r.Ok? ==> r.value == [0x01, 0x35, 0x00, Commands.VideoFormats[format], 0x00] && r.value[3] <= 7
  {
    var code :- Commands.Lookup(Commands.VideoFormats, format);
    Ok([0x01, 0x35, 0x00] + [code] + [0x00])
  }

  /** The `qDict` literal of `qCmd`, entry by entry, in source order. */
  const QueryEntries: seq<(string, seq<byte>)> := [
    ("q_camid", [0x09, 0x04, 0x22]), ("q_zoompos", [0x09, 0x04, 0x47]),
    ("q_fPos", [0x09, 0x04, 0x48]), ("q_fMode", [0x09, 0x04, 0x38]),
    ("q_pt", [0x09, 0x06, 0x12]), ("q_pwr", [0x09, 0x04, 0x00]),
    ("q_wbMode", [0x09, 0x04, 0x35]), ("q_wbTable", [0x09, 0x04, 0x75]),
    ("q_aeMode", [0x09, 0x04, 0x39]), ("q_blacklight", [0x09, 0x04, 0x33]),
    ("q_mirror", [0x09, 0x04, 0x61]), ("q_flip", [0x09, 0x04, 0x66]),
    ("q_gMode", [0x09, 0x04, 0x51]), ("q_gTable", [0x09, 0x04, 0x52]),
    ("q_callLed", [0x09, 0x01, 0x33, 0x01]), ("q_pwrLed", [0x09, 0x01, 0x33, 0x02]),
    ("q_vidSW", [0x09, 0x06, 0x24]), ("q_alsRGain", [0x09, 0x50, 0x50]),
    ("q_alsBGain", [0x09, 0x50, 0x51]), ("q_alsGGain", [0x09, 0x50, 0x52]),
    ("q_alsGGain", [0x09, 0x50, 0x53]), ("q_bestView", [0x09, 0x50, 0x60]),
    ("q_invert", [0x09, 0x50, 0x70])]

  /** The dict `qCmd` looks queries up in. */
  const QueryTable: map<string, seq<byte>> := Dict(QueryEntries)

  /** Every entry of the literal is an inquiry payload (first byte 0x09). */
  lemma QueryEntriesAreInquiries(i: nat)
    requires i < |QueryEntries|
    ensures |QueryEntries[i].1| >= 3 && QueryEntries[i].1[0] == 0x09
  {
    assert i <= 22;
    if i < 12 {
      assert i in {0, 1, 2, 3, 4, 5, 6, 7, 8, 9, 10, 11};
    } else {
      assert i in {12, 13, 14, 15, 16, 17, 18, 19, 20, 21, 22};
    }
  }

  /** Every query `qCmd` can send is an inquiry, so `send` dumps its response. */
  lemma QueriesAreInquiries(q: string)
    requires q in QueryTable
    ensures QueryTable[q] != [] && IsInquiry(QueryTable[q])
  {
    DictValueSource(QueryEntries, q);
    var i :| 0 <= i < |QueryEntries| && QueryEntries[i] == (q, QueryTable[q]) &&
      forall j :: i < j < |QueryEntries| ==> QueryEntries[j].0 != q;
    QueryEntriesAreInquiries(i);
  }

  /** The key "q_alsGGain" appears twice in the literal; the later entry wins,
      so `0x09 0x50 0x52` cannot be sent through `qCmd` at all. */
  lemma QueryGGainShadowed()
    ensures "q_alsGGain" in QueryTable && QueryTable["q_alsGGain"] == [0x09, 0x50, 0x53]
    ensures forall q :: q in QueryTable ==> QueryTable[q] != [0x09, 0x50, 0x52]
  {
    assert QueryEntries[20] == ("q_alsGGain", [0x09, 0x50, 0x53]);
    DictKeepsLast(QueryEntries, 20);
    forall q | q in QueryTable ensures QueryTable[q] != [0x09, 0x50, 0x52] {
      DictValueSource(QueryEntries, q);
      var i :| 0 <= i < |QueryEntries| && QueryEntries[i] == (q, QueryTable[q]) &&
        forall j :: i < j < |QueryEntries| ==> QueryEntries[j].0 != q;
      assert i != 19;
      OnlyEntry19HoldsGGain(i);
    }
  }

  /** Only the first "q_alsGGain" entry holds `0x09 0x50 0x52`. */
  lemma OnlyEntry19HoldsGGain(i: nat)
    requires i < |QueryEntries|
    ensures QueryEntries[i].1 == [0x09, 0x50, 0x52] ==> i == 19
  {
    assert i <= 22;
    if i < 12 {
      assert i in {0, 1, 2, 3, 4, 5, 6, 7, 8, 9, 10, 11};
    } else {
      assert i in {12, 13, 14, 15, 16, 17, 18, 19, 20, 21, 22};
    }
  }

  /** A toggle call: the flag afterwards and the payload it sends. "toggle"
      flips the flag and sends "on" when it was False, "off" when it was True;
      any other mode leaves the flag alone and is looked up as given. */
  function Toggle(modes: map<string, seq<byte>>, flag: bool, cmd: string): (r: (bool, Result<seq<byte>>))
    requires "on" in modes && "off" in modes
    ensures cmd == "toggle" ==> r == (!flag, Ok(if flag then modes["off"] else modes["on"]))
    ensures cmd != "toggle" ==> r == (flag, Commands.Lookup(modes, cmd))
  {
    var (flag', mode) := if cmd == "toggle" then (!flag, if !flag then "on" else "off") else (flag, cmd);
    (flag', Commands.Lookup(modes, mode))
  }

  /** Toggling twice sends "on" then "off" (or the reverse) and brings the flag
      back to where it started. */
  lemma ToggleTwice(modes: map<string, seq<byte>>, flag: bool)
    requires "on" in modes && "off" in modes
    ensures var (f1, p1) := Toggle(modes, flag, "toggle");
            var (f2, p2) := Toggle(modes, f1, "toggle");
            f2 == flag && f1 != flag &&
            p1 == Ok(if flag then modes["off"] else modes["on"]) &&
            p2 == Ok(if flag then modes["on"] else modes["off"])
  {
  }

  /** The exchange `send([0x01, 0x06, 0x05])` (reset) makes with the default
      address, when the camera answers with a completion frame. */
  lemma ResetExchange(written: seq<byte>, rest: seq<byte>)
    ensures var x := Transmit(Open(written, [0x90, 0x50, 0xFF] + rest), [0x81], Commands.ResetMotors, Interpret);
            x == Exchange(Ok(0), Open(written + [0x81, 0x01, 0x06, 0x05, 0xFF], rest), [])
  {
    var pending := [0x90, 0x50, 0xFF] + rest;
    assert pending[..2] == [0x90, 0x50];
    TransmitReadsOneResponse(Open(written, pending), [0x81], Commands.ResetMotors, Interpret, 2);
    assert pending[..3] == [0x90, 0x50, 0xFF];
  }

  class Controller {
    var address: seq<byte>
    var panSpeed: seq<byte>
    var tiltSpeed: seq<byte>
    var panSpeedMax: seq<byte>
    var tiltSpeedMax: seq<byte>
    var zoomSpeed: int
    var focusSpeed: int
    /** The open serial port, or null for `None`. */
    var ser: Port?
    var flipState: bool
    var mirrorState: bool
    var backlightState: bool

    constructor ()
      ensures address == [0x81] && ser == null
      ensures panSpeed == tiltSpeed == panSpeedMax == tiltSpeedMax == DefaultSpeed
      ensures zoomSpeed == 10 && focusSpeed == 11
      ensures !flipState && !mirrorState && !backlightState
    {
      address := [0x81];
      panSpeed, tiltSpeed, panSpeedMax, tiltSpeedMax := DefaultSpeed, DefaultSpeed, DefaultSpeed, DefaultSpeed;
      zoomSpeed, focusSpeed := 10, 11;
      ser := null;
      flipState, mirrorState, backlightState := false, false, false;
    }

    /** The port as a value. */
    function LinkState(): Link
      reads this, ser
    {
      if ser == null then Closed else Open(ser.written, ser.pending)
    }

    /** `receive`: reads byte by byte until a 0xFF arrives, strips the first
        and the last byte and classifies the rest; for an inquiry the raw
        response is dumped. */
    method Receive(queryStat: bool) returns (r: Result<Reply>, echo: seq<byte>)
      requires ser != null
      modifies ser
      ensures ser.written == old(ser.written)
      ensures match SplitAtTerminator(old(ser.pending))
              case None => r == Raised(Stalled) && echo == [] && ser.pending == []
              case Some((raw, rest)) =>
                r == Classify(Strip(raw)) && ser.pending == rest && echo == (if queryStat then raw else [])
    {
      var resp: seq<byte> := [];
      var rcvd: seq<byte> := [];  // `None` before the first read
      while rcvd != [Terminator]
        invariant old(ser.pending) == resp + ser.pending
        invariant ser.written == old(ser.written)
        invariant rcvd == [] ==> resp == []
        invariant rcvd != [] ==> resp != [] && rcvd == [resp[|resp| - 1]]
        invariant forall i :: 0 <= i < |resp| - 1 ==> resp[i] != Terminator
        decreases |ser.pending|
      {
        rcvd := ser.Read();
        if rcvd == [] {
          // the source goes on reading empty timeouts for ever
          assert Terminator !in old(ser.pending);
          r, echo := Raised(Stalled), [];
          return;
        }
        resp := resp + rcvd;
      }
      SplitUnique(old(ser.pending), resp, ser.pending);
      echo := if queryStat then resp else [];
      r := Classify(Strip(resp));
    }

    /** `send`: 1 without a port; otherwise `cmd[0]` decides whether this is
        an inquiry, the frame is written and the response received. */
    method Send(cmd: seq<byte>) returns (r: Result<int>, echo: seq<byte>)
      modifies ser
      ensures Exchange(r, LinkState(), echo) == Transmit(old(LinkState()), address, cmd, Interpret)
    {
      if ser == null {
        return Ok(1), [];
      }
      if cmd == [] {
        return Raised(IndexError), [];
      }
      var inq := IsInquiry(cmd);
      ser.Write(address + cmd + [Terminator]);
      var reply;
      reply, echo := Receive(inq);
      r := match reply
           case Ok(rep) => Ok(StatusOf(rep))
           case Raised(f) => Raised(f);
    }

    /** Sends one payload, or raises the exception its construction raised. */
    method SendBuilt(msg: Result<seq<byte>>) returns (r: Result<int>)
      modifies ser
      ensures (r, LinkState()) == SendAll(old(LinkState()), address, [msg], Interpret)
    {
      var cmd :- msg;
      var echo;
      r, echo := Send(cmd);
    }

    method Clear() returns (r: Result<int>)
      modifies ser
      ensures (r, LinkState()) == SendAll(old(LinkState()), address, [Ok(Commands.Clear)], Interpret)
    {
      r := SendBuilt(Ok(Commands.Clear));
    }

    method AddressSet(newAddress: int) returns (r: Result<int>)
      modifies ser
      ensures (r, LinkState()) == SendAll(old(LinkState()), address, [Commands.AddressSet(newAddress)], Interpret)
    {
      r := SendBuilt(Commands.AddressSet(newAddress));
    }

    method Power(cmd: string) returns (r: Result<int>)
      modifies ser
      ensures (r, LinkState()) ==
              SendAll(old(LinkState()), address, [Commands.Lookup(Commands.PowerModes, cmd)], Interpret)
    {
      r := SendBuilt(Commands.Lookup(Commands.PowerModes, cmd));
    }

    method VidFormat(format: string) returns (r: Result<int>)
      modifies ser
      ensures (r, LinkState()) == SendAll(old(LinkState()), address, [VidFormatPayload(format)], Interpret)
    {
      r := SendBuilt(VidFormatPayload(format));
    }

    /** `wb_auto`: the table-index send (for "off") runs first; its status is
        discarded and only an exception stops the mode send. */
    method WbAuto(cmd: string, value: int) returns (r: Result<int>)
      modifies ser
      ensures (r, LinkState()) == SendAll(old(LinkState()), address, Commands.WbAutoSteps(cmd, value), Interpret)
    {
      if cmd == "off" {
        var setup :- Commands.Prefixed([0x01, 0x04, 0x75], value);
        var status, echo := Send(setup);
        if status.Raised? {
          return status;
        }
      }
      r := SendBuilt(Commands.Lookup(Commands.WhiteBalanceModes, cmd));
    }

    /** `ae_auto`: for "off", the iris send, then the gain send (its value is
        encoded only after the iris send), then the mode send. */
    method AeAuto(cmd: string, iris: int, gain: int) returns (r: Result<int>)
      modifies ser
      ensures (r, LinkState()) == SendAll(old(LinkState()), address, Commands.AeAutoSteps(cmd, iris, gain), Interpret)
    {
      if cmd == "off" {
        var irisMsg :- Commands.Prefixed([0x01, 0x04, 0x4B], iris);
        var status, echo := Send(irisMsg);
        if status.Raised? {
          return status;
        }
        var gainMsg :- Commands.Prefixed([0x01, 0x04, 0x4C], gain);
        status, echo := Send(gainMsg);
        if status.Raised? {
          return status;
        }
      }
      r := SendBuilt(Commands.Lookup(Commands.ExposureModes, cmd));
    }

    /** `backlight`: "toggle" flips the flag before sending, whatever the send returns. */
    method Backlight(cmd: string) returns (r: Result<int>)
      modifies this`backlightState, ser
      ensures backlightState == Toggle(Commands.BacklightModes, old(backlightState), cmd).0
      ensures (r, LinkState()) ==
              SendAll(old(LinkState()), address, [Toggle(Commands.BacklightModes, old(backlightState), cmd).1], Interpret)
    {
      var mode := cmd;
      if mode == "toggle" {
        if backlightState == false {
          backlightState := true;
          mode := "on";
        } else {
          backlightState := false;
          mode := "off";
        }
      }
      r := SendBuilt(Commands.Lookup(Commands.BacklightModes, mode));
    }

    /** `mirror`: "toggle" flips the flag before sending, whatever the send returns. */
    method Mirror(cmd: string) returns (r: Result<int>)
      modifies this`mirrorState, ser
      ensures mirrorState == Toggle(Commands.MirrorModes, old(mirrorState), cmd).0
      ensures (r, LinkState()) ==
              SendAll(old(LinkState()), address, [Toggle(Commands.MirrorModes, old(mirrorState), cmd).1], Interpret)
    {
      var mode := cmd;
      if mode == "toggle" {
        if mirrorState == false {
          mirrorState := true;
          mode := "on";
        } else {
          mirrorState := false;
          mode := "off";
        }
      }
      r := SendBuilt(Commands.Lookup(Commands.MirrorModes, mode));
    }

    /** `flip`: "toggle" flips the flag before sending, whatever the send returns. */
    method Flip(cmd: string) returns (r: Result<int>)
      modifies this`flipState, ser
      ensures flipState == Toggle(Commands.FlipModes, old(flipState), cmd).0
      ensures (r, LinkState()) ==
              SendAll(old(LinkState()), address, [Toggle(Commands.FlipModes, old(flipState), cmd).1], Interpret)
    {
      var mode := cmd;
      if mode == "toggle" {
        if flipState == false {
          flipState := true;
          mode := "on";
        } else {
          flipState := false;
          mode := "off";
        }
      }
      r := SendBuilt(Commands.Lookup(Commands.FlipModes, mode));
    }

    /** `gamma_auto`: the gamma-table send (for "off") runs first; only an
        exception stops the mode send. */
    method GammaAuto(cmd: string, value: int) returns (r: Result<int>)
      modifies ser
      ensures (r, LinkState()) == SendAll(old(LinkState()), address, Commands.GammaAutoSteps(cmd, value), Interpret)
    {
      if cmd == "off" {
        var setup :- Commands.Prefixed([0x01, 0x04, 0x52], value);
        var status, echo := Send(setup);
        if status.Raised? {
          return status;
        }
      }
      r := SendBuilt(Commands.Lookup(Commands.GammaModes, cmd));
    }

    method MmDetect(cmd: string) returns (r: Result<int>)
      modifies ser
      ensures (r, LinkState()) ==
              SendAll(old(LinkState()), address, [Commands.Lookup(Commands.MotionDetectModes, cmd)], Interpret)
    {
      r := SendBuilt(Commands.Lookup(Commands.MotionDetectModes, cmd));
    }

    method CallLed(cmd: string) returns (r: Result<int>)
      modifies ser
      ensures (r, LinkState()) ==
              SendAll(old(LinkState()), address, [Commands.Lookup(Commands.CallLedModes, cmd)], Interpret)
    {
      r := SendBuilt(Commands.Lookup(Commands.CallLedModes, cmd));
    }

    method PwrLed(cmd: string) returns (r: Result<int>)
      modifies ser
      ensures (r, LinkState()) ==
              SendAll(old(LinkState()), address, [Commands.Lookup(Commands.PowerLedModes, cmd)], Interpret)
    {
      r := SendBuilt(Commands.Lookup(Commands.PowerLedModes, cmd));
    }

    method BestView(time: int) returns (r: Result<int>)
      modifies ser
      ensures (r, LinkState()) == SendAll(old(LinkState()), address, [Commands.BestView(time)], Interpret)
    {
      r := SendBuilt(Commands.BestView(time));
    }

    /** `setZoomSpeed`: "high" selects 11, anything else 10. */
    method SetZoomSpeed(cmd: string)
      modifies this`zoomSpeed
      ensures zoomSpeed == if cmd == "high" then 11 else 10
    {
      zoomSpeed := if cmd == "high" then 11 else 10;
    }

    /** `setFocusSpeed`: "high" selects 11, anything else 10. */
    method SetFocusSpeed(cmd: string)
      modifies this`focusSpeed
      ensures focusSpeed == if cmd == "high" then 11 else 10
    {
      focusSpeed := if cmd == "high" then 11 else 10;
    }

    method ZoomFocus(fn: string, cmd: string) returns (r: Result<int>)
      modifies ser
      ensures (r, LinkState()) ==
              SendAll(old(LinkState()), address, [Commands.ZoomFocus(fn, cmd, zoomSpeed, focusSpeed)], Interpret)
    {
      r := SendBuilt(Commands.ZoomFocus(fn, cmd, zoomSpeed, focusSpeed));
    }

    method ZoomFocusDirect(zoom: int, focus: int) returns (r: Result<int>)
      modifies ser
      ensures (r, LinkState()) == SendAll(old(LinkState()), address, [Commands.ZoomFocusDirect(zoom, focus)], Interpret)
    {
      r := SendBuilt(Commands.ZoomFocusDirect(zoom, focus));
    }

    method FocusAuto(cmd: string) returns (r: Result<int>)
      modifies ser
      ensures (r, LinkState()) ==
              SendAll(old(LinkState()), address, [Commands.Lookup(Commands.FocusModes, cmd)], Interpret)
    {
      r := SendBuilt(Commands.Lookup(Commands.FocusModes, cmd));
    }

    method Steer(dir: string) returns (r: Result<int>)
      modifies ser
      ensures (r, LinkState()) == SendAll(old(LinkState()), address, [SteerPayload(dir, panSpeed, tiltSpeed)], Interpret)
    {
      r := SendBuilt(SteerPayload(dir, panSpeed, tiltSpeed));
    }

    method Reset() returns (r: Result<int>)
      modifies ser
      ensures (r, LinkState()) == SendAll(old(LinkState()), address, [Ok(Commands.ResetMotors)], Interpret)
    {
      r := SendBuilt(Ok(Commands.ResetMotors));
    }

    method Reboot() returns (r: Result<int>)
      modifies ser
      ensures (r, LinkState()) == SendAll(old(LinkState()), address, [Ok(RebootPayload)], Interpret)
    {
      r := SendBuilt(Ok(RebootPayload));
    }

    /** `pt_direct` uses `panSpeed`/`tiltSpeed` and has no return statement:
        it returns None whatever the status, unless something raises. */
    method PtDirect(pan: int, tilt: int) returns (r: Result<()>)
      modifies ser
      ensures var (status, link) :=
                SendAll(old(LinkState()), address, [Commands.PanTiltDirect(panSpeed, tiltSpeed, pan, tilt)], Interpret);
              LinkState() == link && (r.Ok? <==> status.Ok?) && (r.Raised? ==> r.fault == status.fault)
    {
      var status := SendBuilt(Commands.PanTiltDirect(panSpeed, tiltSpeed, pan, tilt));
      r := if status.Ok? then Ok(()) else Raised(status.fault);
    }

    method Ptzf(pan: int, tilt: int, zoom: int, focus: int) returns (r: Result<int>)
      modifies ser
      ensures (r, LinkState()) ==
              SendAll(old(LinkState()), address, [Commands.PanTiltZoomFocus(pan, tilt, zoom, focus)], Interpret)
    {
      r := SendBuilt(Commands.PanTiltZoomFocus(pan, tilt, zoom, focus));
    }

    /** `serialSpeed`: the lookup is keyed by the baud rate as a number; the
        20-second pause after success is not modelled. */
    method SerialSpeed(baud: int) returns (r: Result<int>)
      modifies ser
      ensures (r, LinkState()) ==
              SendAll(old(LinkState()), address, [Commands.Lookup(Commands.BaudRates, baud)], Interpret)
    {
      r := SendBuilt(Commands.Lookup(Commands.BaudRates, baud));
    }

    /** `qCmd`: an unknown query raises KeyError before anything is written;
        a known one is sent like any inquiry, and its reply is dumped. */
    method QCmd(query: string) returns (r: Result<int>, echo: seq<byte>)
      modifies ser
      ensures query !in QueryTable ==> r == Raised(KeyError) && echo == [] && LinkState() == old(LinkState())
      ensures query in QueryTable ==>
        Exchange(r, LinkState(), echo) == Transmit(old(LinkState()), address, QueryTable[query], Interpret)
    {
      if query !in QueryTable {
        return Raised(KeyError), [];
      }
      r, echo := Send(QueryTable[query]);
    }
  }
}
