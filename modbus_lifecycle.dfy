/** The reconnect loop of the two Modbus pollers: `Lifecycle::run` around
    `run_polling_loop`, in gateway/src/modbus/mod.rs (the older `ModbusPoller`) and
    gateway/src/adapters/modbus/mod.rs (the adapter). Time, sockets and the broadcast shutdown
    channel are replaced by a trace of outcomes: at each step the trace says whether the
    shutdown receiver fired (or had a signal pending) and whether the attempted operation
    succeeded. Which branch of a `select!` completes first is whatever the trace says; nothing
    here assumes that the shutdown branch wins a race. */
module ModbusLifecycle {

  /** The two implementations: the older one reads `config.enabled`, the adapter does not. */
  datatype Poller = ModbusPoller(enabled: bool) | AdapterPoller

  /** The four `break`/`return` paths that end `run`. */
  datatype StopReason =
    | Disabled               // `enabled == false`: return before connecting
    | ShutdownBeforeReconnect // `try_recv()` found a signal at the top of the loop
    | ClosedGracefully        // `run_polling_loop` returned `Ok`
    | ShutdownDuringBackoff   // the shutdown branch of the 5 s reconnect wait

  /** Where the poller is. `CheckShutdown` is the top of `run`'s loop, `Connecting` the address
      parse and `connect_slave`, `Polling` a call of `poll_once`, `Idle` the wait between polls,
      `Backoff` the 5 s wait after `run_polling_loop` failed, `RetryDelay` the adapter's 1 s
      pause after a failed poll. */
  datatype Phase =
    | CheckShutdown
    | Connecting
    | Polling
    | Idle
    | Backoff
    | RetryDelay
    | Stopped(reason: StopReason)

  /** What happened at one step. `shutdown`: the shutdown receiver was ready (a signal was
      pending for `try_recv`, or `recv` completed before the sleep). `ok`: the connect or the
      poll succeeded. Each phase reads the field that concerns it. */
  datatype Outcome = Outcome(shutdown: bool, ok: bool)

  /** Where `run` starts: the older poller returns at once when disabled. */
  function Initial(p: Poller): (r: Phase)
    ensures r.Stopped? <==> p == ModbusPoller(false)
    ensures r.Stopped? ==> r == Stopped(Disabled)
    ensures !r.Stopped? ==> r == CheckShutdown
  {
    if p.ModbusPoller? && !p.enabled then Stopped(Disabled) else CheckShutdown
  }

  /** One step of the loops. Each `ensures` names the only ways into a phase. */
  function Step(p: Poller, ph: Phase, o: Outcome): (r: Phase)
    requires !ph.Stopped?
    // a connection is attempted only after a shutdown check that found nothing
    ensures r == Connecting <==> ph == CheckShutdown && !o.shutdown
    ensures r == Stopped(ShutdownBeforeReconnect) <==> ph == CheckShutdown && o.shutdown
    // `run` stops gracefully only through the shutdown branch of the wait between polls
    ensures r == Stopped(ClosedGracefully) <==> ph == Idle && o.shutdown
    // the 5 s reconnect wait follows a failed connect, or, in the older poller only, a
    // failed poll
    ensures r == Backoff <==> (ph == Connecting && !o.ok) || (p.ModbusPoller? && ph == Polling && !o.ok)
    // the adapter keeps its connection after a failed poll and polls again
    ensures r == RetryDelay <==> p.AdapterPoller? && ph == Polling && !o.ok
    ensures r == Stopped(ShutdownDuringBackoff) <==> ph == Backoff && o.shutdown
    ensures r == CheckShutdown <==> ph == Backoff && !o.shutdown
    ensures r == Idle <==> ph == Polling && o.ok
    ensures r == Polling <==> (ph == Connecting && o.ok) || (ph == Idle && !o.shutdown) || ph == RetryDelay
    ensures r != Stopped(Disabled)
  {
    match ph
    case CheckShutdown => if o.shutdown then Stopped(ShutdownBeforeReconnect) else Connecting
    case Connecting => if o.ok then Polling else Backoff
    case Polling =>
      if o.ok then Idle
      else if p.ModbusPoller? then Backoff
      else RetryDelay
    case Idle => if o.shutdown then Stopped(ClosedGracefully) else Polling
    case Backoff => if o.shutdown then Stopped(ShutdownDuringBackoff) else CheckShutdown
    case RetryDelay => Polling
  }

  /** The phases visited from `ph` while the trace lasts, ending at the first stop. */
  function Visits(p: Poller, ph: Phase, outcomes: seq<Outcome>): seq<Phase>
    decreases |outcomes|
  {
    if ph.Stopped? || outcomes == [] then [ph]
    else [ph] + Visits(p, Step(p, ph, outcomes[0]), outcomes[1..])
  }

  /** `Lifecycle::run`, driven by a finite outcome trace: the phases it goes through. */
  method Run(p: Poller, outcomes: seq<Outcome>) returns (visited: seq<Phase>)
    ensures visited == Visits(p, Initial(p), outcomes)
  {
    var ph := Initial(p);
    visited := [];
    var i := 0;
    while !ph.Stopped? && i < |outcomes|
      invariant 0 <= i <= |outcomes|
      invariant visited + Visits(p, ph, outcomes[i..]) == Visits(p, Initial(p), outcomes)
      decreases |outcomes| - i
    {
      assert outcomes[i..][1..] == outcomes[i + 1..];
      visited := visited + [ph];
      ph := Step(p, ph, outcomes[i]);
      i := i + 1;
    }
    visited := visited + [ph];
  }

  /** A run is a chain of steps: each visited phase follows from the one before under the
      outcome at that position, only the last phase can be a stop, and the run ends at a stop
      unless the trace ran out. */
  lemma {:induction false} VisitsAreSteps(p: Poller, ph: Phase, outcomes: seq<Outcome>)
    ensures var v := Visits(p, ph, outcomes);
      1 <= |v| <= |outcomes| + 1 && v[0] == ph &&
      (v[|v| - 1].Stopped? || |v| == |outcomes| + 1) &&
      forall k :: 0 <= k < |v| - 1 ==> !v[k].Stopped? && v[k + 1] == Step(p, v[k], outcomes[k])
    decreases |outcomes|
  {
    if !ph.Stopped? && outcomes != [] {
      var next := Step(p, ph, outcomes[0]);
      VisitsAreSteps(p, next, outcomes[1..]);
      var v := Visits(p, ph, outcomes);
      var w := Visits(p, next, outcomes[1..]);
      assert v == [ph] + w;
      forall k | 1 <= k < |v| - 1
        ensures !v[k].Stopped? && v[k + 1] == Step(p, v[k], outcomes[k])
      {
        assert v[k] == w[k - 1] && v[k + 1] == w[k] && outcomes[k] == outcomes[1..][k - 1];
      }
    }
  }

  /** A disabled older poller never connects: its run is just the stop. */
  lemma DisabledNeverConnects(outcomes: seq<Outcome>)
    ensures Visits(ModbusPoller(false), Initial(ModbusPoller(false)), outcomes) == [Stopped(Disabled)]
  {
  }

  /** Every connection attempt of a run comes right after a shutdown check that found no
      pending signal, so a shutdown that is already pending prevents the reconnect. */
  lemma ConnectOnlyAfterClearCheck(p: Poller, outcomes: seq<Outcome>, k: nat)
    requires 0 < k <= |outcomes| && k < |Visits(p, Initial(p), outcomes)|
    requires Visits(p, Initial(p), outcomes)[k] == Connecting
    ensures Visits(p, Initial(p), outcomes)[k - 1] == CheckShutdown && !outcomes[k - 1].shutdown
  {
    VisitsAreSteps(p, Initial(p), outcomes);
  }

  /** A run that stops gracefully was waiting between two polls on a live connection when the
      shutdown arrived. */
  lemma GracefulStopOnlyWhileIdle(p: Poller, outcomes: seq<Outcome>, k: nat)
    requires 0 < k <= |outcomes| && k < |Visits(p, Initial(p), outcomes)|
    requires Visits(p, Initial(p), outcomes)[k] == Stopped(ClosedGracefully)
    ensures Visits(p, Initial(p), outcomes)[k - 1] == Idle && outcomes[k - 1].shutdown
  {
    VisitsAreSteps(p, Initial(p), outcomes);
  }

  /** In the older poller a failed poll drops the connection: the next phase is the reconnect
      wait. */
  lemma LegacyPollFailureReconnects(enabled: bool, outcomes: seq<Outcome>, k: nat)
    requires k < |outcomes| && k + 1 < |Visits(ModbusPoller(enabled), Initial(ModbusPoller(enabled)), outcomes)|
    requires Visits(ModbusPoller(enabled), Initial(ModbusPoller(enabled)), outcomes)[k] == Polling
    requires !outcomes[k].ok
    ensures Visits(ModbusPoller(enabled), Initial(ModbusPoller(enabled)), outcomes)[k + 1] == Backoff
  {
    VisitsAreSteps(ModbusPoller(enabled), Initial(ModbusPoller(enabled)), outcomes);
  }

  /** The phases of `run_polling_loop` after the connection is up. */
  predicate OnConnection(ph: Phase) {
    ph == Polling || ph == Idle || ph == RetryDelay
  }

  /** Once the adapter is connected it never reconnects: whatever the polls return, it stays
      on the same connection until the shutdown ends it gracefully. */
  lemma {:induction false} AdapterKeepsConnection(ph: Phase, outcomes: seq<Outcome>)
    requires OnConnection(ph)
    ensures forall q :: q in Visits(AdapterPoller, ph, outcomes) ==>
      OnConnection(q) || q == Stopped(ClosedGracefully)
    decreases |outcomes|
  {
    if outcomes != [] {
      var next := Step(AdapterPoller, ph, outcomes[0]);
      if !next.Stopped? {
        AdapterKeepsConnection(next, outcomes[1..]);
      }
    }
  }
}
