/** One cycle of the bounded link: finite FIFOs, token-bucket pacing and latency-delayed credit returns. */
module BoundedLink {
  import opened Rates
  import TokenBucket

  datatype Option<+T> = None | Some(value: T)

  datatype Config = Config(latency: nat, dataDepth: int, ctrlDepth: int, rate: Rate) {
    predicate Valid() {
      dataDepth >= 1 && ctrlDepth >= 1 && rate.Valid()
    }
  }

  /**
   * One sub-channel: packets with the cycle they mature, due cycles of the credits still on the
   * return path, the credit pulse driven this cycle, and the packets refused for want of room.
   */
  datatype Channel<P> = Channel(fifo: seq<(int, P)>, due: seq<int>, pulse: bool, blocked: nat)

  datatype State<P> = State(tokens: int, data: Channel<P>, ctrl: Channel<P>)

  function Empty<P>(): Channel<P> {
    Channel([], [], false, 0)
  }

  predicate Mature<P>(ch: Channel<P>, cyc: int) {
    ch.fifo != [] && ch.fifo[0].0 <= cyc
  }

  /** What a link reads in a cycle. `arbiter` is the link-group grant a request would get. */
  datatype Inputs<P> = Inputs(data: Option<P>, ctrl: Option<P>, outAvail: bool, outCtrlAvail: bool, arbiter: bool)

  datatype Outputs<P> = Outputs(data: Option<P>, ctrl: Option<P>, inAvail: bool, inCtrlAvail: bool)

  /** Credit return first: pulse the oldest credit if it is due. */
  function Pulse<P>(ch: Channel<P>, cyc: int): Channel<P> {
    ch.(pulse := CreditDue(ch.due, cyc), due := if CreditDue(ch.due, cyc) then ch.due[1..] else ch.due)
  }

  predicate CreditDue(due: seq<int>, cyc: int) {
    due != [] && due[0] <= cyc
  }

  /** Then delivery: a mature, granted head leaves and its slot's credit starts home. */
  function Deliver<P>(ch: Channel<P>, cyc: int, latency: int, grant: bool): Channel<P> {
    if Mature(ch, cyc) && grant
    then ch.(fifo := ch.fifo[1..], due := ch.due + [cyc + latency])
    else ch
  }

  /** Acceptance comes last, so the slot just freed can be refilled in the same cycle. */
  function Accept<P>(ch: Channel<P>, cyc: int, latency: int, depth: int, arrival: Option<P>): Channel<P> {
    match arrival
    case None => ch
    case Some(p) =>
      if |ch.fifo| < depth then ch.(fifo := ch.fifo + [(cyc + latency, p)])
      else ch.(blocked := ch.blocked + 1)
  }

  function ChannelStep<P>(ch: Channel<P>, cyc: int, latency: int, depth: int, grant: bool,
          arrival: Option<P>): Channel<P>
  {
    Accept(Deliver(Pulse(ch, cyc), cyc, latency, grant), cyc, latency, depth, arrival)
  }

  function Delivered<P>(ch: Channel<P>, cyc: int, grant: bool): Option<P> {
    if Mature(ch, cyc) && grant then Some(ch.fifo[0].1) else None
  }

  /** The data head is held for a ready downstream, a full token and the link group's grant. */
  predicate DataGrant<P>(tokens: int, rate: Rate, inp: Inputs<P>) {
    inp.outAvail && tokens + rate.num >= rate.den && inp.arbiter
  }

  predicate Wants<P>(s: State<P>, cyc: int, inp: Inputs<P>) {
    Mature(s.data, cyc) && inp.outAvail && inp.arbiter
  }

  function Next<P>(s: State<P>, cfg: Config, cyc: int, inp: Inputs<P>): State<P> {
    State(
      TokenBucket.Tick(s.tokens, cfg.rate, Wants(s, cyc, inp)).0,
      ChannelStep(s.data, cyc, cfg.latency, cfg.dataDepth, DataGrant(s.tokens, cfg.rate, inp), inp.data),
      ChannelStep(s.ctrl, cyc, cfg.latency, cfg.ctrlDepth, inp.outCtrlAvail, inp.ctrl))
  }

  function Outs<P>(s: State<P>, cfg: Config, cyc: int, inp: Inputs<P>): Outputs<P> {
    var s' := Next(s, cfg, cyc, inp);
    Outputs(Delivered(s.data, cyc, DataGrant(s.tokens, cfg.rate, inp)),
            Delivered(s.ctrl, cyc, inp.outCtrlAvail),
            |s'.data.fifo| < cfg.dataDepth, |s'.ctrl.fifo| < cfg.ctrlDepth)
  }

  /** The link unit in its stand-alone bounded mode. */
  class LinkUnit<P> {
    const latency: nat
    const dataDepth: int
    const ctrlDepth: int
    const rate: Rate
    var tokens: int
    var fifo: seq<(int, P)>
    var cfifo: seq<(int, P)>
    var dataCreditDue: seq<int>
    var ctrlCreditDue: seq<int>
    var dataCreditActive: bool
    var ctrlCreditActive: bool
    var upstreamBlocked: nat
    var ctrlUpstreamBlocked: nat

    function Cfg(): Config {
      Config(latency, dataDepth, ctrlDepth, rate)
    }

    ghost function Abs(): State<P>
      reads this
    {
      State(tokens, Data(), Ctrl())
    }

    constructor (cfg: Config)
      requires cfg.Valid()
      ensures Cfg() == cfg && Abs() == State(0, Empty(), Empty())
    {
      latency, dataDepth, ctrlDepth, rate := cfg.latency, cfg.dataDepth, cfg.ctrlDepth, cfg.rate;
      tokens, fifo, cfifo, dataCreditDue, ctrlCreditDue := 0, [], [], [], [];
      dataCreditActive, ctrlCreditActive, upstreamBlocked, ctrlUpstreamBlocked := false, false, 0, 0;
    }

    ghost function Data(): Channel<P>
      reads this
    {
      Channel(fifo, dataCreditDue, dataCreditActive, upstreamBlocked)
    }

    ghost function Ctrl(): Channel<P>
      reads this
    {
      Channel(cfifo, ctrlCreditDue, ctrlCreditActive, ctrlUpstreamBlocked)
    }

    method ReturnCredits(cyc: int)
      modifies this`dataCreditActive, this`dataCreditDue, this`ctrlCreditActive, this`ctrlCreditDue
      ensures Data() == Pulse(old(Data()), cyc) && Ctrl() == Pulse(old(Ctrl()), cyc)
    {
      dataCreditActive := false;
      if dataCreditDue != [] && dataCreditDue[0] <= cyc {
        dataCreditActive := true;
        dataCreditDue := dataCreditDue[1..];
      }
      ctrlCreditActive := false;
      if ctrlCreditDue != [] && ctrlCreditDue[0] <= cyc {
        ctrlCreditActive := true;
        ctrlCreditDue := ctrlCreditDue[1..];
      }
    }

    method DeliverData(cyc: int, outAvail: bool, arbiter: bool) returns (out: Option<P>)
      modifies this`fifo, this`dataCreditDue, this`tokens
      ensures Data() == Deliver(old(Data()), cyc, latency, outAvail && old(tokens) >= rate.den && arbiter)
      ensures out == Delivered(old(Data()), cyc, outAvail && old(tokens) >= rate.den && arbiter)
      ensures tokens == if out.Some? then old(tokens) - rate.den else old(tokens)
    {
      out := None;
      var dataMature := fifo != [] && fifo[0].0 <= cyc;
      var groupRequest := dataMature && outAvail && tokens >= rate.den;
      if groupRequest && arbiter {
        out := Some(fifo[0].1);
        fifo := fifo[1..];
        dataCreditDue := dataCreditDue + [cyc + latency];
        tokens := tokens - rate.den;
      }
    }

    method DeliverCtrl(cyc: int, outAvail: bool) returns (out: Option<P>)
      modifies this`cfifo, this`ctrlCreditDue
      ensures Ctrl() == Deliver(old(Ctrl()), cyc, latency, outAvail)
      ensures out == Delivered(old(Ctrl()), cyc, outAvail)
    {
      out := None;
      if cfifo != [] && cfifo[0].0 <= cyc && outAvail {
        out := Some(cfifo[0].1);
        cfifo := cfifo[1..];
        ctrlCreditDue := ctrlCreditDue + [cyc + latency];
      }
    }

    method AcceptArrivals(cyc: int, data: Option<P>, ctrl: Option<P>)
      modifies this`fifo, this`cfifo, this`upstreamBlocked, this`ctrlUpstreamBlocked
      ensures Data() == Accept(old(Data()), cyc, latency, dataDepth, data)
      ensures Ctrl() == Accept(old(Ctrl()), cyc, latency, ctrlDepth, ctrl)
    {
      if data.Some? {
        if |fifo| < dataDepth {
          fifo := fifo + [(cyc + latency, data.value)];
        } else {
          upstreamBlocked := upstreamBlocked + 1;
        }
      }
      if ctrl.Some? {
        if |cfifo| < ctrlDepth {
          cfifo := cfifo + [(cyc + latency, ctrl.value)];
        } else {
          ctrlUpstreamBlocked := ctrlUpstreamBlocked + 1;
        }
      }
    }

    /** Refill, credit return and data delivery, the bucket capped at one packet only after it. */
    method ServeData(cyc: int, outAvail: bool, arbiter: bool) returns (out: Option<P>)
      modifies this`tokens, this`fifo, this`dataCreditDue, this`dataCreditActive, this`ctrlCreditDue,
          this`ctrlCreditActive
      ensures var grant := outAvail && old(tokens) + rate.num >= rate.den && arbiter;
              && Data() == Deliver(Pulse(old(Data()), cyc), cyc, latency, grant)
              && out == Delivered(old(Data()), cyc, grant)
      ensures Ctrl() == Pulse(old(Ctrl()), cyc)
      ensures tokens == TokenBucket.Tick(old(tokens), rate, Mature(old(Data()), cyc) && outAvail && arbiter).0
    {
      tokens := tokens + rate.num;
      ReturnCredits(cyc);
      out := DeliverData(cyc, outAvail, arbiter);
      if tokens > rate.den {
        tokens := rate.den;
      }
    }

    method ForwardBounded(cyc: int, inp: Inputs<P>) returns (out: Outputs<P>)
      modifies this
      ensures Abs() == Next(old(Abs()), Cfg(), cyc, inp)
      ensures out == Outs(old(Abs()), Cfg(), cyc, inp)
    {
      var dataOut := ServeData(cyc, inp.outAvail, inp.arbiter);
      var ctrlOut := DeliverCtrl(cyc, inp.outCtrlAvail);
      AcceptArrivals(cyc, inp.data, inp.ctrl);
      out := Outputs(dataOut, ctrlOut, |fifo| < dataDepth, |cfifo| < ctrlDepth);
    }
  }
}
