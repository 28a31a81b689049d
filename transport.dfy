/** The serial link as the controller sees it: an abstract port that records
    what is written and hands out a finite sequence of received bytes, the
    framing of a command, and what one request/response exchange does. */
module Transport {
  import opened Visca

  /** The pyserial port: `write` appends to `written`; `read()` returns the
      next received byte, or no byte at all once `pending` is used up (where
      the real port would wait for its timeout and then return `b''`). */
  class Port {
    var written: seq<byte>
    var pending: seq<byte>

    constructor (input: seq<byte>)
      ensures written == [] && pending == input
    {
      written, pending := [], input;
    }

    method Write(msg: seq<byte>)
      modifies this
      ensures written == old(written) + msg && pending == old(pending)
    {
      written := written + msg;
    }

    method Read() returns (b: seq<byte>)
      modifies this
      ensures written == old(written)
      ensures old(pending) == [] ==> b == [] && pending == []
      ensures old(pending) != [] ==> b == [old(pending)[0]] && pending == old(pending)[1..]
    {
      if pending == [] {
        b := [];
      } else {
        b, pending := [pending[0]], pending[1..];
      }
    }
  }

  /** The port as a value: no open port (`ser` is None), or an open one. */
  datatype Link = Closed | Open(written: seq<byte>, pending: seq<byte>)

  /** `address + cmd + b'\xff'`: the bytes `send` writes for one command. */
  function Frame(address: seq<byte>, cmd: seq<byte>): seq<byte> {
    address + cmd + [Terminator]
  }

  /** `raw` ends with the terminator and holds no earlier one. */
  predicate EndsAtFirstTerminator(raw: seq<byte>) {
    |raw| > 0 && raw[|raw| - 1] == Terminator && Terminator !in raw[..|raw| - 1]
  }

  /** What the read loop consumes: the bytes up to and including the first
      0xFF, and what is left after them; None when no 0xFF ever arrives. */
  function SplitAtTerminator(input: seq<byte>): (r: Option<(seq<byte>, seq<byte>)>)
    ensures r.None? <==> Terminator !in input
    ensures r.Some? ==> EndsAtFirstTerminator(r.value.0) && r.value.0 + r.value.1 == input
  {
    if input == [] then None
    else if input[0] == Terminator then Some(([Terminator], input[1..]))
    else
      match SplitAtTerminator(input[1..])
      case None => None
      case Some((raw, rest)) =>
        assert ([input[0]] + raw)[..|raw|] == [input[0]] + raw[..|raw| - 1];
        assert input == [input[0]] + input[1..];
        Some(([input[0]] + raw, rest))
  }

  /** The split is the only one: any prefix that ends at the first terminator
      is the one the read loop returns. */
  lemma {:induction false} SplitUnique(input: seq<byte>, raw: seq<byte>, rest: seq<byte>)
    requires EndsAtFirstTerminator(raw) && raw + rest == input
    ensures SplitAtTerminator(input) == Some((raw, rest))
  {
    assert input[0] == raw[0];
    if |raw| == 1 {
      assert input[1..] == rest;
    } else {
      assert raw[0] in raw[..|raw| - 1];
      var tail := raw[1..];
      assert tail[..|tail| - 1] == raw[1..|raw| - 1];
      assert tail + rest == input[1..];
      SplitUnique(input[1..], tail, rest);
      assert [input[0]] + tail == raw;
    }
  }

  /** `resp[1:-1]`: the response without its address byte and terminator;
      empty when fewer than three bytes arrived. */
  function Strip(raw: seq<byte>): (resp: seq<byte>)
    ensures |raw| >= 2 ==> raw == [raw[0]] + resp + [raw[|raw| - 1]]
    ensures |raw| <= 2 ==> resp == []
  {
    if |raw| <= 2 then [] else raw[1..|raw| - 1]
  }

  /** Framing round trip: a frame with a one-byte address and no 0xFF inside
      is read back whole, stops exactly at its own terminator, and stripping
      it gives back the command. */
  lemma FrameRoundTrip(address: seq<byte>, cmd: seq<byte>, rest: seq<byte>)
    requires |address| == 1 && Terminator !in address + cmd
    ensures SplitAtTerminator(Frame(address, cmd) + rest) == Some((Frame(address, cmd), rest))
    ensures Strip(Frame(address, cmd)) == cmd
  {
    var f := Frame(address, cmd);
    assert f[..|f| - 1] == address + cmd;
    SplitUnique(f + rest, f, rest);
    if |f| > 2 {
      assert f[1..|f| - 1] == cmd;
    }
  }

  /** `cmd[0] == 9`: the command is an inquiry, so its response is dumped. */
  predicate IsInquiry(cmd: seq<byte>)
    requires cmd != []
  {
    cmd[0] == 0x09
  }

  /** One exchange: the status `send` returns (or the exception it raises), the
      port afterwards, and the raw response dumped for an inquiry (empty when
      nothing is dumped). */
  datatype Exchange = Exchange(status: Result<int>, link: Link, echo: seq<byte>)

  /** The reading half of an exchange on an open port: the status, what is
      left of the input, and the raw response dumped for an inquiry. */
  function Respond(pending: seq<byte>, cmd: seq<byte>,
                   interpret: seq<byte> -> Result<int>): (r: (Result<int>, seq<byte>, seq<byte>))
    requires cmd != []
    ensures Terminator !in pending ==> r.0 == Raised(Stalled) && r.1 == [] && r.2 == []
    ensures r.2 != [] <==> IsInquiry(cmd) && Terminator in pending
  {
    match SplitAtTerminator(pending)
    case None => (Raised(Stalled), [], [])
    case Some((raw, rest)) => (interpret(Strip(raw)), rest, if IsInquiry(cmd) then raw else [])
  }

  /** What `send(cmd)` does, with `interpret` the version's reading of the
      stripped response: no port gives 1 and touches nothing; an empty command
      fails at `cmd[0]` before anything is written; otherwise the frame is
      written and the response read up to the first 0xFF. */
  function Transmit(link: Link, address: seq<byte>, cmd: seq<byte>,
                    interpret: seq<byte> -> Result<int>): (x: Exchange)
    ensures link.Closed? ==> x == Exchange(Ok(1), Closed, [])
    ensures link.Open? && cmd == [] ==> x == Exchange(Raised(IndexError), link, [])
    ensures link.Open? && cmd != [] ==>
      x.link.Open? && x.link.written == link.written + Frame(address, cmd)
    ensures link.Open? && cmd != [] && Terminator !in link.pending ==>
      x.status == Raised(Stalled) && x.link.pending == []
    ensures x.echo != [] <==> link.Open? && cmd != [] && IsInquiry(cmd) && Terminator in link.pending
  {
    match link
    case Closed => Exchange(Ok(1), Closed, [])
    case Open(written, pending) =>
      if cmd == [] then Exchange(Raised(IndexError), link, [])
      else
        var (status, rest, echo) := Respond(pending, cmd, interpret);
        Exchange(status, Open(written + Frame(address, cmd), rest), echo)
  }

  /** When a terminator arrives, the exchange consumes the input exactly up to
      the first one and returns the version's reading of what lies between
      the first byte and that terminator. */
  lemma TransmitReadsOneResponse(link: Link, address: seq<byte>, cmd: seq<byte>,
                                 interpret: seq<byte> -> Result<int>, k: nat)
    requires link.Open? && cmd != []
    requires k < |link.pending| && link.pending[k] == Terminator
    requires Terminator !in link.pending[..k]
    ensures var x := Transmit(link, address, cmd, interpret);
            x.link.pending == link.pending[k + 1..] &&
            x.status == interpret(Strip(link.pending[..k + 1]))
  {
    var raw := link.pending[..k + 1];
    assert raw[..|raw| - 1] == link.pending[..k];
    assert raw + link.pending[k + 1..] == link.pending;
    SplitUnique(link.pending, raw, link.pending[k + 1..]);
  }

  /** A method body that sends several payloads one after another, as
      straight-line code: each step is the payload built for one `send`, or the
      exception raised while building it. A failure status does not stop the
      sequence; an exception does. The status is that of the last send. */
  function SendAll(link: Link, address: seq<byte>, steps: seq<Result<seq<byte>>>,
                   interpret: seq<byte> -> Result<int>): (Result<int>, Link)
    requires steps != []
    decreases |steps|
  {
    match steps[0]
    case Raised(f) => (Raised(f), link)
    case Ok(cmd) =>
      var x := Transmit(link, address, cmd, interpret);
      if x.status.Raised? || |steps| == 1 then (x.status, x.link)
      else SendAll(x.link, address, steps[1..], interpret)
  }

  /** The payloads of steps that were all built without an exception. */
  predicate AllBuilt(steps: seq<Result<seq<byte>>>) {
    forall i :: 0 <= i < |steps| ==> steps[i].Ok? && steps[i].value != []
  }

  /** The frames of the built payloads, back to back. */
  function Frames(address: seq<byte>, steps: seq<Result<seq<byte>>>): seq<byte> {
    if steps == [] then []
    else (if steps[0].Ok? then Frame(address, steps[0].value) else []) + Frames(address, steps[1..])
  }

  /** With no open port, every send of the sequence returns 1 and nothing is
      written anywhere: the sequence as a whole returns 1. */
  lemma {:induction false} SendAllClosed(address: seq<byte>, steps: seq<Result<seq<byte>>>,
                                         interpret: seq<byte> -> Result<int>)
    requires steps != [] && AllBuilt(steps)
    ensures SendAll(Closed, address, steps, interpret) == (Ok(1), Closed)
  {
    if |steps| > 1 {
      SendAllClosed(address, steps[1..], interpret);
    }
  }

  /** When no send raises, every payload is written, in order, each in its
      own frame, whatever the statuses the earlier sends returned. */
  lemma {:induction false} SendAllWritesEveryFrame(link: Link, address: seq<byte>,
                                                   steps: seq<Result<seq<byte>>>,
                                                   interpret: seq<byte> -> Result<int>)
    requires link.Open? && steps != [] && AllBuilt(steps)
    requires SendAll(link, address, steps, interpret).0.Ok?
    ensures SendAll(link, address, steps, interpret).1.Open?
    ensures SendAll(link, address, steps, interpret).1.written == link.written + Frames(address, steps)
    decreases |steps|
  {
    var x := Transmit(link, address, steps[0].value, interpret);
    assert steps[0].Ok? && steps[0].value != [];
    assert x.link.Open? && x.link.written == link.written + Frame(address, steps[0].value);
    if |steps| == 1 {
      assert Frames(address, steps) == Frame(address, steps[0].value);
    } else {
      var tail := steps[1..];
      AllBuiltTail(steps);
      assert SendAll(link, address, steps, interpret) == SendAll(x.link, address, tail, interpret);
      SendAllWritesEveryFrame(x.link, address, tail, interpret);
      var a, b, c := link.written, Frame(address, steps[0].value), Frames(address, tail);
      assert Frames(address, steps) == b + c;
      AppendAssociates(a, b, c);
    }
  }

  lemma AppendAssociates(a: seq<byte>, b: seq<byte>, c: seq<byte>)
    ensures (a + b) + c == a + (b + c)
  {
  }

  lemma AllBuiltTail(steps: seq<Result<seq<byte>>>)
    requires steps != [] && AllBuilt(steps)
    ensures AllBuilt(steps[1..])
  {
    forall i | 0 <= i < |steps| - 1 ensures steps[1..][i].Ok? && steps[1..][i].value != [] {
      assert steps[1..][i] == steps[i + 1];
    }
  }

  /** Appending a send to a sequence that raised nothing: the earlier status
      is discarded and the call returns the status of the new last send. */
  lemma {:induction false} SendAllReturnsLast(link: Link, address: seq<byte>,
                                              steps: seq<Result<seq<byte>>>, last: seq<byte>,
                                              interpret: seq<byte> -> Result<int>)
    requires steps != []
    requires SendAll(link, address, steps, interpret).0.Ok?
    ensures var before := SendAll(link, address, steps, interpret).1;
            var x := Transmit(before, address, last, interpret);
            SendAll(link, address, steps + [Ok(last)], interpret) == (x.status, x.link)
    decreases |steps|
  {
    assert (steps + [Ok(last)])[0] == steps[0];
    if |steps| > 1 {
      var x := Transmit(link, address, steps[0].value, interpret);
      assert (steps + [Ok(last)])[1..] == steps[1..] + [Ok(last)];
      SendAllReturnsLast(x.link, address, steps[1..], last, interpret);
    } else {
      assert (steps + [Ok(last)])[1..] == [Ok(last)];
    }
  }
}
