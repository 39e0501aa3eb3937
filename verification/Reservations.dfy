/** Calls that reserve, resize and measure (src/stashd/services/filesets.py, src/stashd/services/usage.py). */
module Reservations {
  import opened Options
  import opened Allocation
  import opened Tables
  import FS = Filesets
  import References

  datatype CreateAnswer = Created(path: string) | CreateRefused | CreateUnanswered

  /** The table once the daemon has answered, or not, about the directory of a fileset just reserved. */
  function Answered(filesets: map<nat, Fileset>, id: nat, answer: CreateAnswer): map<nat, Fileset>
    requires id in filesets
  {
    match answer
    case Created(path) => filesets[id := filesets[id].(path := path, state := FS.Ready)]
    case CreateRefused => filesets - {id}
    case CreateUnanswered => filesets
  }

  function VerdictOf(answer: CreateAnswer): Verdict {
    match answer
    case Created(_) => Done
    case CreateRefused => Raised(DaemonRefused)
    case CreateUnanswered => Raised(Interrupted)
  }

  /** What stands in the way of a new output fileset, by the first rule it breaks. */
  ghost function CreateObjection(cfg: Cluster, db: Database, owner: string, storage: string, name: string,
                                 size: int): Option<Error> {
    if storage !in cfg.storages then Some(NotFound)
    else if !cfg.storages[storage].cache then Some(NotACacheStorage)
    else if References.ValidateFilesetName(name).Err? then Some(InvalidName)
    else if LiveFileset(db.filesets, owner, storage, name).Some? then Some(FilesetExists)
    else
      match Admit(size, AdmissionState(cfg, db, owner, storage))
      case Some(refusal) => Some(Refused(refusal))
      case None => None
  }

  /** create_output_fileset: the row is committed before the daemon is asked, and settled by its answer. */
  ghost function CreateOutput(cfg: Cluster, db: Database, owner: string, storage: string, name: string, size: int,
                              now: int, answer: CreateAnswer): (Database, Verdict) {
    var objection := CreateObjection(cfg, db, owner, storage, name, size);
    if objection.Some? then (db, Raised(objection.value))
    else
      var id := db.nextFileset;
      var reserved := db.filesets[id := NewFileset(name, owner, storage, FS.Output, size, None, now)];
      (db.(filesets := Answered(reserved, id, answer), nextFileset := id + 1), VerdictOf(answer))
  }

  /** resize_fileset: what it adds is admitted like anything else, and the row changes only if the quota is set. */
  ghost function Resize(cfg: Cluster, db: Database, id: nat, size: int, force: bool,
                        quotaSet: bool): (Database, Verdict) {
    if id !in db.filesets then (db, Raised(NotFound))
    else
      var f := db.filesets[id];
      if !Live(f) then (db, Raised(Refused(Conflict)))
      else
        match CheckResize(f.allocatedBytes, f.usedBytes, size, force)
        case Err(refusal) => (db, Raised(Refused(refusal)))
        case Ok(delta) =>
          if delta > 0 && f.storage !in cfg.storages then (db, Raised(NotFound))
          else if delta > 0 && Admit(delta, AdmissionState(cfg, db, f.owner, f.storage)).Some? then
            (db, Raised(Refused(Admit(delta, AdmissionState(cfg, db, f.owner, f.storage)).value)))
          else if !quotaSet then (db, Raised(DaemonRefused))
          else (db.(filesets := db.filesets[id := f.(allocatedBytes := size)]), Done)
  }

  /** One row of a usage reconciliation. */
  function Measure(db: Database, id: nat, used: nat, fileCount: int, now: int): (Database, Verdict) {
    if id !in db.filesets || db.filesets[id].state in {FS.Released, FS.Creating} then (db, Ignored)
    else
      var f := db.filesets[id];
      (db.(filesets := db.filesets[id :=
                                   f.(usedBytes := used, fileCount := Some(fileCount), usedAt := Some(now),
                                      overAllocation := used > f.allocatedBytes)]), Done)
  }

  /** set_drained (src/stashd/services/drain.py). */
  function SetDrained(cfg: Cluster, db: Database, storage: string, drained: bool): (Database, Verdict) {
    if storage !in cfg.storages then (db, Raised(NotFound))
    else (db.(drained := if drained then db.drained + {storage} else db.drained - {storage}), Done)
  }
}
