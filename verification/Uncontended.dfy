/** The ledger's lock and unlock are what a client alone on the row gets from the retry loop. */
module Uncontended {
  import opened Domain
  import opened Rows
  import opened Ledger
  import OptimisticRow

  /** The row and the call after one client has made all its attempts undisturbed. */
  function AfterAlone(r: Row, op: OptimisticRow.Op, amount: real): OptimisticRow.World {
    OptimisticRow.Run(Begun(r, op, amount), OptimisticRow.Alone(1, 3))
  }

  function Begun(r: Row, op: OptimisticRow.Op, amount: real): OptimisticRow.World {
    OptimisticRow.Next(OptimisticRow.World(r, map[], []), OptimisticRow.Begin(1, op, amount))
  }

  lemma LockIsUncontended(b: Balances, k: Account, amount: real)
    requires k in b && 0.0 < amount
    ensures var w := AfterAlone(b[k], OptimisticRow.LockOp, amount);
      1 in w.calls &&
      LockFunds(b, k, amount) ==
        if w.calls[1].phase == OptimisticRow.Succeeded then Ok(b[k := w.row]) else Err(InsufficientBalance)
  {
    hide OptimisticRow.Run, OptimisticRow.Alone;
    OptimisticRow.LoneCallEnds(Begun(b[k], OptimisticRow.LockOp, amount), 1);
  }

  lemma UnlockIsUncontended(b: Balances, k: Account, amount: real)
    requires k in b && 0.0 < amount
    ensures var w := AfterAlone(b[k], OptimisticRow.UnlockOp, amount);
      1 in w.calls &&
      UnlockFunds(b, k, amount) ==
        if w.calls[1].phase == OptimisticRow.Succeeded then Ok(b[k := w.row]) else Err(VersionConflict)
  {
    hide OptimisticRow.Run, OptimisticRow.Alone;
    OptimisticRow.LoneCallEnds(Begun(b[k], OptimisticRow.UnlockOp, amount), 1);
  }
}
