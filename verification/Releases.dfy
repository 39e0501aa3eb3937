/** Releases (src/stashd/services/transfers_release.py), in two commits: one before the daemon is asked to delete and
    one after it has answered. */
module Releases {
  import opened Options
  import opened Transfers
  import opened Scheduling
  import opened Tables
  import FS = Filesets

  /** What the delete brings: a confirmation, a refusal, or nothing because the request was cut short. */
  datatype DeleteAnswer = Deleted | DeleteRefused(code: string, detail: Option<string>) | NoAnswer

  /** The transfer row of a release, which never waits in the queue. */
  function Started(f: Fileset, filesetId: nat, now: int): Transfer {
    NewTransfer(Release, f.owner, filesetId, None, Route(f.storage, f.storage), 0, false, now)
      .(state := Running, startedAt := Some(now))
  }

  function PerformRelease(db: Database, filesetId: nat, now: int, answer: DeleteAnswer): (Database, Verdict)
    requires filesetId in db.filesets
  {
    var f := db.filesets[filesetId];
    if !FS.Legal(f.state, FS.Releasing) then (db, Raised(InvalidTransition))
    else
      var id, t := db.nextTransfer, Started(f, filesetId, now);
      match answer
      case NoAnswer =>
        (db.(transfers := db.transfers[id := t],
             filesets := db.filesets[filesetId := f.(state := FS.Releasing)],
             nextTransfer := id + 1), Raised(Interrupted))
      case DeleteRefused(code, detail) =>
        (db.(transfers := db.transfers[id :=
                                       t.(state := Failed, finishedAt := Some(now), errorCode := Some(code),
                                          errorDetail := detail)],
             filesets := db.filesets[filesetId := f.(state := FS.Failed)],
             nextTransfer := id + 1), Raised(DaemonRefused))
      case Deleted =>
        (db.(transfers := db.transfers[id := t.(state := Succeeded, finishedAt := Some(now))],
             filesets := db.filesets[filesetId :=
                                     f.(state := FS.Released, releasedAt := Some(now), lastTransfer := Some(id))],
             nextTransfer := id + 1), Done)
  }

  /** release_fileset, by name; an output fileset only goes when the caller says so. */
  ghost function ReleaseFileset(db: Database, owner: string, storage: string, name: string, discard: bool, now: int,
                                answer: DeleteAnswer): (Database, Verdict) {
    match LiveFileset(db.filesets, owner, storage, name)
    case None => (db, Raised(NotFound))
    case Some(id) =>
      if db.filesets[id].kind == FS.Output && !discard then (db, Raised(FlushTargetRequired))
      else PerformRelease(db, id, now, answer)
  }
}
