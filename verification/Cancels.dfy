/** Cancels (src/stashd/services/cancel.py), which do not depend on what the daemon answers. */
module Cancels {
  import opened Options
  import opened Transfers
  import opened Tables
  import opened Events
  import FS = Filesets

  function Cancel(cfg: Cluster, db: Database, id: nat, now: int): (Database, Verdict) {
    if id !in db.transfers then (db, Raised(NotFound))
    else
      var t := db.transfers[id];
      if !CanCancel(t.state) then (db, Raised(NotCancellable))
      else
        var cancelled := t.(state := Cancelled, finishedAt := Some(now), errorCode := Some("cancelled"));
        (db.(transfers := db.transfers[id := cancelled],
             filesets :=
               if t.filesetId in db.filesets && Live(db.filesets[t.filesetId])
               then db.filesets[t.filesetId := db.filesets[t.filesetId].(state := FS.Failed, lastTransfer := Some(id))]
               else db.filesets,
             accounts := Refunded(cfg, db.accounts, cancelled, now)), Done)
  }

  /** The move to FAILED that cancelling asks of a live fileset is always one it can make. */
  lemma CancelNeverBlocked(t: State, f: FS.FilesetState)
    requires CanCancel(t) && FS.HoldsAllocation(f)
    ensures Legal(t, Cancelled)
    ensures f == FS.Failed || FS.Legal(f, FS.Failed)
  {
  }
}
