/**
 The update loop around the reducer: mounting arms the first timer
 (`after_mount`, src/lib.rs lines 105-108), and every delivered message
 consumes the timer that produced it and is handed to `update`, which arms
 the next one (src/lib.rs line 42).

 The pending-timer count is bookkeeping of this model: the Seed runtime keeps
 the in-flight futures itself. The contracts show that exactly one timer is
 ever in flight, which is what keeps the animation going.
 */
module EventLoop {
  import opened Usize
  import opened Animation

  /**
   The state of the running application: the model, the timers armed but
   not yet fired, how many timers were armed and how many messages were
   delivered since mount, and the log written so far.
   */
  datatype Runtime = Runtime(
    model: Model,
    pending: nat,
    issued: nat,
    delivered: nat,
    log: seq<string>)

  /** Every armed timer has either fired or is still pending. */
  predicate Balanced(s: Runtime) {
    s.issued == s.delivered + s.pending
  }

  /** Mounting: the default model, with the commands of `after_mount` in flight. */
  function Mount(): (s: Runtime)
    ensures s.model.count == 0
    ensures s.pending == 1 && s.issued == 1 && s.delivered == 0
    ensures s.log == []
  {
    var cmds := AfterMount();
    Runtime(Init(), |cmds|, |cmds|, 0, [])
  }

  /**
   One message arrives: it consumes one pending timer, `update` runs, and
   the commands it returns are added to the timers in flight.
   */
  function Deliver(s: Runtime, msg: Msg): (r: Runtime)
    requires s.pending > 0
    ensures r.pending == s.pending
    ensures r.issued == s.issued + 1 && r.delivered == s.delivered + 1
    ensures Balanced(s) ==> Balanced(r)
    ensures r.model == Update(msg, s.model).model
    ensures msg.Tick? ==> r.log == s.log
    ensures msg.Error? ==> r.log == s.log + [msg.text]
  {
    var step := Update(msg, s.model);
    Runtime(step.model, s.pending - 1 + |step.cmds|, s.issued + |step.cmds|,
            s.delivered + 1, s.log + step.log)
  }

  /** The texts of the `Error` messages in `msgs`, in order. */
  function ErrorTexts(msgs: seq<Msg>): (texts: seq<string>)
    ensures |texts| == |msgs| - Ticks(msgs)
  {
    if msgs == [] then []
    else match msgs[0]
      case Tick => ErrorTexts(msgs[1..])
      case Error(t) => [t] + ErrorTexts(msgs[1..])
  }

  /** Delivering `msgs` one after the other. */
  function Drive(s: Runtime, msgs: seq<Msg>): (r: Runtime)
    requires s.pending > 0
    ensures r.pending == s.pending
    ensures r.issued == s.issued + |msgs| && r.delivered == s.delivered + |msgs|
    ensures Balanced(s) ==> Balanced(r)
    ensures r.model == Run(s.model, msgs)
    ensures r.log == s.log + ErrorTexts(msgs)
    decreases |msgs|
  {
    if msgs == [] then s else Drive(Deliver(s, msgs[0]), msgs[1..])
  }

  /**
   After mount and any sequence of delivered messages: exactly one timer is
   in flight, one timer was armed per message plus the one from mount, the
   counter is the number of ticks modulo MAX + 1, and the log holds exactly
   the error texts.
   */
  lemma MountedTrace(msgs: seq<Msg>)
    ensures var s := Drive(Mount(), msgs);
      && s.pending == 1
      && s.issued == |msgs| + 1
      && Balanced(s)
      && s.model.count == Ticks(msgs) % MODULUS
      && s.log == ErrorTexts(msgs)
  {
    CountFromInit(msgs);
  }

  /** The messages produced when the `n` timers armed since mount simply fire. */
  function Undisturbed(n: nat): (msgs: seq<Msg>)
    ensures |msgs| == n
    ensures forall i :: 0 <= i < n ==> msgs[i] == Resolve(WaitTick)
  {
    seq(n, _ => Resolve(WaitTick))
  }

  /** Without failures every message is a tick. */
  lemma {:induction false} UndisturbedTicks(n: nat)
    ensures Ticks(Undisturbed(n)) == n
    ensures ErrorTexts(Undisturbed(n)) == []
  {
    if n > 0 {
      assert Undisturbed(n)[1..] == Undisturbed(n - 1);
      UndisturbedTicks(n - 1);
    }
  }

  /**
   Left alone, the animation shows the number of timer firings since mount,
   modulo MAX + 1, and never logs anything.
   */
  lemma UndisturbedCount(n: nat)
    ensures Drive(Mount(), Undisturbed(n)).model.count == n % MODULUS
    ensures Drive(Mount(), Undisturbed(n)).log == []
    ensures Drive(Mount(), Undisturbed(n)).pending == 1
  {
    UndisturbedTicks(n);
    MountedTrace(Undisturbed(n));
  }
}
