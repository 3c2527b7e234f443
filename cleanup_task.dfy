/**
 * `ServerCleanupTask`: the periodic job that first refreshes every server's status and then
 * removes the servers not seen for three days. The refresh step is named by the task but has no
 * definition on the service, so both how it ends and the stores it leaves behind are parameters
 * here: if it throws, the task logs the error and skips the cleanup.
 */
module Tasks {
  import opened Models
  import opened Store
  import opened Registry

  /** The fixed staleness bound the task passes to the cleanup, in hours. */
  const CleanupHours := 72

  datatype RefreshOutcome = Completed | Threw

  /** The service calls a run makes, in order. */
  datatype Phase = RefreshStatuses | Cleanup(hours: int)

  class ServerCleanupTask {
    const service: ServerManagementService
    var running: bool
    /** Every service call the task has made so far. */
    ghost var calls: seq<Phase>

    /** A task starts out running. */
    constructor (service: ServerManagementService)
      ensures this.service == service && running && calls == []
    {
      this.service := service;
      running := true;
      calls := [];
    }

    /**
     * One scheduled run: nothing when stopped. Otherwise the status refresh runs first and
     * leaves the stores as `afterRefresh`; if it threw, the error is logged and the cleanup
     * skipped; if it completed, the servers stale for `CleanupHours` hours at that point are
     * removed (a failed query leaves the refreshed stores as they are).
     */
    method Run(refresh: RefreshOutcome, afterRefresh: Stores, now: int)
      requires service.Valid()
      requires KeyedByName(afterRefresh.managed) && KeyedByName(afterRefresh.rows)
      modifies this, service, service.proxy, service.db
      ensures running == old(running)
      ensures !running ==> calls == old(calls) && service.Snapshot() == old(service.Snapshot())
      ensures running ==> calls == old(calls) + [RefreshStatuses] + (if refresh.Completed? then [Cleanup(CleanupHours)] else [])
      ensures running ==> service.Valid()
      ensures running && (refresh.Threw? || !afterRefresh.reachable) ==> service.Snapshot() == afterRefresh
      ensures running && refresh.Completed? && afterRefresh.reachable ==>
                var gone := StaleRows(afterRefresh.rows, StaleCutoff(now, CleanupHours)).Keys;
                service.Snapshot() == afterRefresh.(managed := afterRefresh.managed - gone,
                                                    routes := afterRefresh.routes - gone,
                                                    rows := afterRefresh.rows - gone)
    {
      if !running {
        return;
      }
      calls := calls + [RefreshStatuses];
      service.UpdateAllServerStatuses(afterRefresh);
      match refresh
      case Threw =>
        return;
      case Completed =>
        calls := calls + [Cleanup(CleanupHours)];
        service.CleanupOfflineServers(CleanupHours, now);
    }

    /** `stop`: later runs do nothing, and nothing starts the task again. */
    method Stop()
      modifies this
      ensures !running && calls == old(calls)
    {
      running := false;
    }

    function IsRunning(): (r: bool)
      reads this
      ensures r == running
    {
      running
    }
  }
}
