/** From pacemaker to PgBouncer: the supervisors of pkg/cmd/supervise.go write the key that the proxies of
    pkg/cmd/proxy.go follow. They share nothing but the key's history. */
module Propagation {
  import Filters
  import U = Supervise
  import P = Proxy

  /** Take any schedule of the supervisors after which all that are left have finished with one master, and any
      schedule of a proxy of the same key that ends quiet, with nothing useful left to do. PgBouncer then runs with
      the master's address if and only if no supervisor left a stale address behind for good. */
  lemma MasterReachesPgBouncer(ups: seq<U.Step>, address: string -> string, u: U.State, master: string,
                               downs: seq<P.Step>, d: P.State, quiet: seq<P.Step>, end: P.State)
    requires U.IsRun(U.INITIAL, ups, address, u) && master != "" && U.AllFinished(u, master)
    requires P.IsRun(P.INITIAL, downs, d) && Filters.Values(d.history) == u.history
    requires P.IsQuietRun(d, quiet, end) && forall step :: !P.Useful(end, step)
    ensures end.running.Some?
    ensures end.running.value.value == address(master)
      <==> !U.LeavesStale(U.INITIAL, ups, address, address(master))
  {
    U.Agreement(ups, address, u, master);
    U.FinishedWrote(ups, address, u, master);
    P.QuietLeadsToConvergence(downs, d, quiet, end);
    P.InvRun(P.INITIAL, downs, d);
    P.QuietRun(d, quiet, end);
    assert P.Converged(end) && end.history == d.history;
    var last := |d.history| - 1;
    assert Filters.Values(d.history)[last] == d.history[last].value;
  }
}
