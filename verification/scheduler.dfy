/**
 * The program's action (main.go, lines 50-87): validate the configuration,
 * then run one cycle immediately and one on every tick of the interval timer.
 * The timer is not modelled; `ticks` holds the services' answers for each
 * cycle in turn, the first being the immediate one.
 */
module Scheduler {
  import opened Wrappers
  import opened Configuration
  import opened Reconciler

  /** The cycles of successive ticks; no state passes from one cycle to the next. */
  function RunCycles(domain: string, name: string, ticks: seq<Services>): (cycles: seq<Cycle>)
    ensures |cycles| == |ticks|
    ensures forall k :: 0 <= k < |ticks| ==> cycles[k] == Reconcile(domain, name, ticks[k])
    decreases |ticks|
  {
    if |ticks| == 0 then []
    else RunCycles(domain, name, ticks[..|ticks| - 1]) + [Reconcile(domain, name, ticks[|ticks| - 1])]
  }

  /**
   * A configuration that fails a startup check ends the program with that
   * error before any cycle, hence before any network call; otherwise every
   * tick runs a cycle, whatever the earlier cycles returned.
   */
  function Run(c: Config, ticks: seq<Services>): (r: Result<seq<Cycle>, ConfigError>)
    ensures r.Err? <==> !Valid(c)
    ensures r.Err? ==> Violates(c, r.error) && forall e: ConfigError :: Rank(e) < Rank(r.error) ==> !Violates(c, e)
    ensures r.Ok? ==> |r.value| == |ticks|
    ensures r.Ok? ==> forall k :: 0 <= k < |ticks| ==> r.value[k] == Reconcile(c.domain, c.name, ticks[k])
  {
    match Validate(c)
    case Some(e) => Err(e)
    case None => Ok(RunCycles(c.domain, c.name, ticks))
  }

  /**
   * A tick's cycle depends on that tick's answers alone: histories that agree
   * at tick `k` give the same cycle there, however the earlier ticks went.
   */
  lemma TicksAreIndependent(c: Config, ticks: seq<Services>, ticks': seq<Services>, k: int)
    requires Valid(c)
    requires 0 <= k < |ticks| && k < |ticks'| && ticks[k] == ticks'[k]
    ensures Run(c, ticks).value[k] == Run(c, ticks').value[k]
  {
  }
}
