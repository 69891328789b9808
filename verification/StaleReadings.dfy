/** A scheduler that commits late: the backlog of a past time grows. */
module StaleReadings {
  import opened Schema
  import opened ProbeRepository
  import opened Protocol
  import opened Invariants
  import opened Progress
  import opened LeaseBound

  /** Twenty seconds have passed since the scheduler read the clock. */
  const LATE := GENESIS.(now := 20_000)

  /** The clock is past ten seconds, and still the scheduler's commit adds to what was due by then: the row is queued
      for second 0, and the task is due again at second 10. */
  lemma BacklogCanGrow(cfg: Config)
    ensures Init(LATE) && LATE.now > 10_000 && Enabled(cfg, LATE, PLAN)
    ensures Backlog(Apply(cfg, LATE, PLAN).db, 10_000) > Backlog(LATE.db, 10_000)
  {
    PlanIsDue();
    GenesisIsInitial(cfg);
    InitInv(LATE);
    assert Lags(SITE, PLAN.sel[0], PLAN.at, 10_000);
    GrowsIff(cfg, LATE, PLAN, 10_000);
  }
}
