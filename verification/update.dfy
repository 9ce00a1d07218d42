/**
 The application state, its messages and the `update` reducer of the
 animation (src/lib.rs, lines 6-43 and 105-108).

 The Seed runtime hands `update` a mutable model and an `Orders` sink; here
 the reducer is a pure function that returns the new model together with the
 commands it asked the runtime to perform and the lines it wrote to the log.
 */
module Animation {
  import opened Usize

  /** The whole application state: one word-sized counter. */
  datatype Model = Model(count: Usize)

  /** Messages the reducer handles. `Error` carries a description to be logged. */
  datatype Msg = Tick | Error(text: string)

  /**
   Commands the reducer can hand to the runtime. The only one is the
   500 ms timer of `wait_tick`, which later delivers a message back.
   */
  datatype Cmd = WaitTick

  /** Everything one call of `update` produces. */
  datatype Step = Step(model: Model, cmds: seq<Cmd>, log: seq<string>)

  /** `Model::default()`: the counter starts at zero. */
  function Init(): (m: Model)
    ensures m.count == 0
  {
    Model(0)
  }

  /**
   The message a performed command resolves to. `wait_tick` sleeps and then
   always yields `Ok(Msg::Tick)`; it has no path that produces `Error`.
   */
  function Resolve(c: Cmd): (msg: Msg)
    ensures !msg.Error?
  {
    match c
    case WaitTick => Tick
  }

  /**
   `update`: a tick advances the counter, resetting it to zero instead of
   overflowing at `MAX`; an error only passes its text to `log!`. Both branches then
   schedule one new `wait_tick`.
   */
  function Update(msg: Msg, m: Model): (r: Step)
    // exactly one timer is armed, whatever the message
    ensures r.cmds == [WaitTick]
    // a tick is a successor in wrapping arithmetic modulo MAX + 1
    ensures msg.Tick? ==> r.model.count == (m.count + 1) % MODULUS
    ensures msg.Tick? && m.count < MAX ==> r.model.count == m.count + 1
    ensures msg.Tick? && m.count == MAX ==> r.model.count == 0
    ensures msg.Tick? ==> r.log == []
    // an error leaves the state alone; its log is the text passed to `log!`
    ensures msg.Error? ==> r.model == m && r.log == [msg.text]
  {
    match msg
    case Tick =>
      var next := if m.count < MAX then m.count + 1 else 0;
      Step(Model(next), [WaitTick], [])
    case Error(err) =>
      Step(m, [WaitTick], [err])
  }

  /** `after_mount`: the commands issued when the application is mounted. */
  function AfterMount(): (cmds: seq<Cmd>)
    ensures |cmds| == 1
    ensures forall i :: 0 <= i < |cmds| ==> Resolve(cmds[i]) == Tick
  {
    [WaitTick]
  }

  /** Number of `Tick` messages in a sequence of messages. */
  function Ticks(msgs: seq<Msg>): (n: nat)
    ensures n <= |msgs|
  {
    if msgs == [] then 0
    else (if msgs[0].Tick? then 1 else 0) + Ticks(msgs[1..])
  }

  /** The model after `update` has processed `msgs` in order, starting from `m`. */
  function Run(m: Model, msgs: seq<Msg>): Model
    decreases |msgs|
  {
    if msgs == [] then m else Run(Update(msgs[0], m).model, msgs[1..])
  }

  /**
   After any sequence of messages the counter equals the starting value plus
   the number of ticks, reduced modulo MAX + 1: errors never move it and
   ticks never overflow it.
   */
  lemma {:induction false} RunCount(m: Model, msgs: seq<Msg>)
    ensures Run(m, msgs).count == (m.count + Ticks(msgs)) % MODULUS
    decreases |msgs|
  {
    if msgs == [] {
    } else {
      var next := Update(msgs[0], m).model;
      RunCount(next, msgs[1..]);
      if msgs[0].Tick? {
        ModAddOne(m.count, Ticks(msgs[1..]));
      }
    }
  }

  /** From the initial model the counter is the number of ticks so far modulo MAX + 1. */
  lemma CountFromInit(msgs: seq<Msg>)
    ensures Run(Init(), msgs).count == Ticks(msgs) % MODULUS
    ensures Ticks(msgs) <= MAX ==> Run(Init(), msgs).count == Ticks(msgs)
  {
    RunCount(Init(), msgs);
  }

  /** Error messages never change the state, wherever they occur. */
  lemma {:induction false} ErrorsAreInert(m: Model, msgs: seq<Msg>)
    requires forall i :: 0 <= i < |msgs| ==> msgs[i].Error?
    ensures Run(m, msgs) == m
    decreases |msgs|
  {
    if msgs != [] {
      assert msgs[0].Error?;
      ErrorsAreInert(m, msgs[1..]);
    }
  }

  /** Processing `a` and then `b` is processing their concatenation. */
  lemma {:induction false} RunAppend(m: Model, a: seq<Msg>, b: seq<Msg>)
    ensures Run(m, a + b) == Run(Run(m, a), b)
    decreases |a|
  {
    if a == [] {
      assert a + b == b;
    } else {
      assert (a + b)[0] == a[0];
      assert (a + b)[1..] == a[1..] + b;
      RunAppend(Update(a[0], m).model, a[1..], b);
    }
  }

  /** After MAX + 1 ticks the counter is back where it started: the cycle length. */
  lemma FullCycle(m: Model, msgs: seq<Msg>)
    requires Ticks(msgs) == MODULUS
    ensures Run(m, msgs) == m
  {
    RunCount(m, msgs);
  }
}
