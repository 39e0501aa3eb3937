/** The life of a fileset (src/stashd/domain/filesets.py). */
module Filesets {

  datatype FilesetKind = Cached | Output

  datatype FilesetState = Creating | Ready | Populating | Flushing | Releasing | Released | Failed

  function Targets(current: FilesetState): set<FilesetState> {
    match current
    case Creating => {Ready, Failed}
    case Ready => {Populating, Flushing, Releasing, Failed}
    case Populating => {Ready, Failed}
    case Flushing => {Ready, Failed}
    case Releasing => {Released, Failed}
    case Failed => {Populating, Flushing, Releasing}
    case Released => {}
  }

  /** next_fileset_state raises InvalidTransition exactly when this is false. */
  predicate Legal(current: FilesetState, target: FilesetState) {
    target in Targets(current)
  }

  /** What the table comes to: work is begun on a fileset that is at rest and brings it back to rest; whatever is not
      over may fail; and only a release that was begun ends in RELEASED, which nothing leaves. */
  lemma Lifecycle(s: FilesetState, t: FilesetState)
    ensures t in {Populating, Flushing, Releasing} ==> (Legal(s, t) <==> s in {Ready, Failed})
    ensures Legal(s, Ready) <==> s in {Creating, Populating, Flushing}
    ensures Legal(s, Released) <==> s == Releasing
    ensures Legal(s, Failed) <==> s !in {Failed, Released}
    ensures !Legal(s, Creating) && !Legal(Released, t)
  {
  }

  predicate HoldsAllocation(state: FilesetState) {
    state != Released
  }
}
