/** The rows of the database (src/stashd/models) and the part of the cluster config the services read.

    Times are integers (microseconds). A table is a map from primary key to row; ids come from a sequence
    and are never reused.
  */
module Tables {
  import opened Options
  import opened Sums
  import opened Transfers
  import opened FairShare
  import opened Scheduling
  import opened Allocation
  import FS = Filesets

  datatype Transfer = Transfer(
    kind: Kind, user: string, filesetId: nat, peerRef: Option<string>, state: State, route: Route,
    bytesTotal: nat, bytesDone: int, filesDone: Option<int>,
    daemon: Option<string>, bwlimit: Option<int>,
    attempt: nat, lastSequence: int, taskId: Option<string>, retryAfter: Option<int>, releaseAfter: bool,
    errorCode: Option<string>, errorDetail: Option<string>,
    submittedAt: int, startedAt: Option<int>, finishedAt: Option<int>)

  function NewTransfer(kind: Kind, user: string, filesetId: nat, peerRef: Option<string>, route: Route, bytesTotal: nat,
                       releaseAfter: bool, now: int): Transfer {
    Transfer(kind, user, filesetId, peerRef, Submitted, route, bytesTotal, 0, None, None, None,
             1, 0, None, None, releaseAfter, None, None, now, None, None)
  }

  datatype Fileset = Fileset(
    name: string, owner: string, storage: string, kind: FS.FilesetKind, state: FS.FilesetState, path: string,
    allocatedBytes: int, usedBytes: nat, usedAt: Option<int>, fileCount: Option<int>, overAllocation: bool,
    source: Option<(string, string)>,
    createdAt: int, warmStartedAt: Option<int>, warmFinishedAt: Option<int>,
    lastFlushedAt: Option<int>, lastFlushTarget: Option<string>, releasedAt: Option<int>, lastTransfer: Option<nat>)

  function NewFileset(name: string, owner: string, storage: string, kind: FS.FilesetKind, allocatedBytes: int,
                      source: Option<(string, string)>, now: int): Fileset {
    Fileset(name, owner, storage, kind, FS.Creating, "", allocatedBytes, 0, None, None, false, source,
            now, None, None, None, None, None, None)
  }

  datatype BucketKey = BucketKey(day: int, user: string, storage: string, route: Route, kind: Kind)

  datatype Bucket = Bucket(transfers: int, succeeded: int, bytes: int, waitSeconds: int, runSeconds: int)

  datatype Database = Database(
    transfers: map<nat, Transfer>, filesets: map<nat, Fileset>, accounts: map<string, Account>,
    stats: map<BucketKey, Bucket>, drained: set<string>, nextTransfer: nat, nextFileset: nat)

  const EMPTY := Database(map[], map[], map[], map[], {}, 1, 1)

  // ---- The cluster config ----

  datatype Storage = Storage(location: string, cache: bool, source: bool, capacity: nat, fillLimit: real,
                             defaultLimit: nat)

  datatype Cluster = Cluster(
    storages: map<string, Storage>,
    concurrency: ConcurrencyLimits, bandwidth: BandwidthLimits,
    maxFilesets: nat, queuedPerUser: nat, totalLimit: nat, userLimits: map<(string, Option<string>), nat>,
    retryCount: nat, retryOn: set<FailureClass>, backoff: int,
    headroom: real, decay: Decay, pointsPerGib: real, unreachableAfter: int, retention: int)
  {
    /** What config validation guarantees of the values the proofs depend on. */
    ghost predicate Valid() {
      && headroom >= 1.0
      && pointsPerGib > 0.0
      && decay.Valid()
      && bandwidth.minPerTransfer <= bandwidth.maxPerTransfer
      && forall s :: s in storages ==> storages[s].fillLimit > 0.0
    }
  }

  datatype Error =
    | NotFound | InvalidName | InvalidTransition | ConstraintViolated | NotACacheStorage | FilesetExists | TooManyQueued
    | NotCancellable | FlushTargetRequired | Refused(reason: Refusal) | DaemonRefused | Interrupted

  /** How a service call ends: it committed, it had nothing to do, or it raised. */
  datatype Verdict = Done | Ignored | Raised(error: Error)

  // ---- Fair share, as stored (src/stashd/services/fairshare.py) ----

  function Charged(accounts: map<string, Account>, user: string, points: real, now: int,
                   decay: Decay): map<string, Account> {
    var row := if user in accounts then accounts[user] else Account(0.0, now);
    accounts[user := WithPoints(row, points, now, decay)]
  }

  /** What a user owes, read at an instant. */
  function Owes(accounts: map<string, Account>, user: string, at: int, decay: Decay): real {
    if user in accounts then Decayed(accounts[user], at, decay).points else 0.0
  }

  function AccountsFor(accounts: map<string, Account>, users: set<string>, now: int,
                       decay: Decay): map<string, Account> {
    map u | u in users && u in accounts :: Decayed(accounts[u], now, decay)
  }

  // ---- What is reserved (src/stashd/services/allocations.py) ----

  predicate Live(f: Fileset) { FS.HoldsAllocation(f.state) }

  /** Everything an admission rule adds up. */
  datatype Slice =
    | OfUserOn(user: string, storage: string)
    | OfUserOnCaches(user: string)
    | AllOn(storage: string)
    | CountOf(user: string)

  predicate IsCache(cfg: Cluster, storage: string) {
    storage in cfg.storages && cfg.storages[storage].cache
  }

  function Weight(cfg: Cluster, f: Fileset, slice: Slice): int {
    if !Live(f) then 0
    else
      match slice
      case OfUserOn(u, s) => if f.owner == u && f.storage == s then f.allocatedBytes else 0
      case OfUserOnCaches(u) => if f.owner == u && IsCache(cfg, f.storage) then f.allocatedBytes else 0
      case AllOn(s) => if f.storage == s then f.allocatedBytes else 0
      case CountOf(u) => if f.owner == u then 1 else 0
  }

  function Weights(cfg: Cluster, filesets: map<nat, Fileset>, slice: Slice): map<nat, int> {
    map i | i in filesets :: Weight(cfg, filesets[i], slice)
  }

  ghost function Held(cfg: Cluster, filesets: map<nat, Fileset>, slice: Slice): int {
    Sum(Weights(cfg, filesets, slice))
  }

  function StorageLimit(cfg: Cluster, user: string, storage: string): nat {
    if (user, Some(storage)) in cfg.userLimits then cfg.userLimits[(user, Some(storage))]
    else if storage in cfg.storages then cfg.storages[storage].defaultLimit
    else 0
  }

  function TotalLimit(cfg: Cluster, user: string): nat {
    if (user, None) in cfg.userLimits then cfg.userLimits[(user, None)] else cfg.totalLimit
  }

  /** What the sum over a slice may never exceed. */
  function CeilingOf(cfg: Cluster, slice: Slice): int {
    match slice
    case OfUserOn(u, s) => StorageLimit(cfg, u, s)
    case OfUserOnCaches(u) => TotalLimit(cfg, u)
    case AllOn(s) => if s in cfg.storages then Usable(cfg.storages[s].capacity, cfg.storages[s].fillLimit) else 0
    case CountOf(u) => cfg.maxFilesets
  }

  ghost function AdmissionState(cfg: Cluster, db: Database, user: string, storage: string): AllocationState
    requires storage in cfg.storages
  {
    AllocationState(
      Held(cfg, db.filesets, OfUserOn(user, storage)), StorageLimit(cfg, user, storage),
      Held(cfg, db.filesets, OfUserOnCaches(user)), TotalLimit(cfg, user),
      Held(cfg, db.filesets, AllOn(storage)), cfg.storages[storage].capacity, cfg.storages[storage].fillLimit,
      Held(cfg, db.filesets, CountOf(user)), cfg.maxFilesets,
      exists i ::
        i in db.filesets && db.filesets[i].owner == user && db.filesets[i].overAllocation && Live(db.filesets[i]),
      storage in db.drained)
  }

  // ---- Live names ----

  predicate Named(f: Fileset, owner: string, storage: string, name: string) {
    Live(f) && f.owner == owner && f.storage == storage && f.name == name
  }

  /** The ids live_fileset selects. */
  function LiveIds(filesets: map<nat, Fileset>, owner: string, storage: string, name: string): set<nat> {
    set i | i in filesets && Named(filesets[i], owner, storage, name)
  }

  ghost predicate UniqueNames(filesets: map<nat, Fileset>) {
    forall i, j :: i in filesets && j in filesets && Live(filesets[i]) && i != j
      ==> !Named(filesets[j], filesets[i].owner, filesets[i].storage, filesets[i].name)
  }

  /** one_or_none: with unique names there is at most one to return. */
  ghost function LiveFileset(filesets: map<nat, Fileset>, owner: string, storage: string,
                             name: string): (found: Option<nat>)
    ensures found.Some? ==> found.value in filesets && Named(filesets[found.value], owner, storage, name)
    ensures found.None? <==> LiveIds(filesets, owner, storage, name) == {}
  {
    var ids := LiveIds(filesets, owner, storage, name);
    if ids == {} then None
    else
      var i :| i in ids;
      Some(i)
  }

  lemma TheLiveFileset(filesets: map<nat, Fileset>, owner: string, storage: string, name: string, i: nat)
    requires UniqueNames(filesets) && i in LiveIds(filesets, owner, storage, name)
    ensures LiveFileset(filesets, owner, storage, name) == Some(i)
  {
  }

  // ---- How one row changes what is held ----

  lemma HeldAfterSet(cfg: Cluster, filesets: map<nat, Fileset>, i: nat, f: Fileset, slice: Slice)
    ensures Held(cfg, filesets[i := f], slice)
         == Held(cfg, filesets, slice) - (if i in filesets then Weight(cfg, filesets[i], slice) else 0)
           + Weight(cfg, f, slice)
  {
    SumSet(Weights(cfg, filesets, slice), i, Weight(cfg, f, slice));
    assert Weights(cfg, filesets[i := f], slice) == Weights(cfg, filesets, slice)[i := Weight(cfg, f, slice)];
  }

  lemma HeldAtMost(cfg: Cluster, before: map<nat, Fileset>, after: map<nat, Fileset>, slice: Slice)
    requires before.Keys == after.Keys
    requires forall i :: i in before ==> Weight(cfg, after[i], slice) <= Weight(cfg, before[i], slice)
    ensures Held(cfg, after, slice) <= Held(cfg, before, slice)
  {
    SumAtMost(Weights(cfg, after, slice), Weights(cfg, before, slice));
  }

  // ---- A user's usage, grouped by storage ----

  function CacheShare(cfg: Cluster, usage: map<string, int>): map<string, int> {
    map s | s in usage :: if IsCache(cfg, s) then usage[s] else 0
  }

  /** The usage holds every fileset but those still to come: storage by storage, and over the caches. */
  ghost predicate UsageGathered(cfg: Cluster, filesets: map<nat, Fileset>, user: string, usage: map<string, int>,
                                rest: set<nat>) {
    && (forall s :: Sums.At(usage, s) == Sum(Weights(cfg, filesets, OfUserOn(user, s)) - rest))
    && Sum(CacheShare(cfg, usage)) == Sum(Weights(cfg, filesets, OfUserOnCaches(user)) - rest)
  }

  lemma NoUsageGathered(cfg: Cluster, filesets: map<nat, Fileset>, user: string)
    ensures UsageGathered(cfg, filesets, user, map[], filesets.Keys)
  {
    forall slice: Slice ensures Sum(Weights(cfg, filesets, slice) - filesets.Keys) == 0 {
      assert Weights(cfg, filesets, slice) - filesets.Keys == map[];
    }
    assert CacheShare(cfg, map[]) == map[];
  }

  lemma OneTaken(cfg: Cluster, filesets: map<nat, Fileset>, slice: Slice, rest: set<nat>, i: nat)
    requires i in filesets && i in rest
    ensures Sum(Weights(cfg, filesets, slice) - (rest - {i}))
      == Sum(Weights(cfg, filesets, slice) - rest) + Weight(cfg, filesets[i], slice)
  {
    SumTaking(Weights(cfg, filesets, slice), rest, i);
  }

  function WithFileset(usage: map<string, int>, user: string, f: Fileset): map<string, int> {
    if f.owner == user && Live(f) then usage[f.storage := Sums.At(usage, f.storage) + f.allocatedBytes] else usage
  }

  lemma StorageGains(cfg: Cluster, usage: map<string, int>, user: string, f: Fileset, s: string)
    ensures Sums.At(WithFileset(usage, user, f), s) == Sums.At(usage, s) + Weight(cfg, f, OfUserOn(user, s))
  {
  }

  lemma CachesGain(cfg: Cluster, usage: map<string, int>, user: string, f: Fileset)
    ensures Sum(CacheShare(cfg, WithFileset(usage, user, f)))
      == Sum(CacheShare(cfg, usage)) + Weight(cfg, f, OfUserOnCaches(user))
  {
    if f.owner == user && Live(f) {
      CacheShareSet(cfg, usage, f.storage, Sums.At(usage, f.storage) + f.allocatedBytes);
    }
  }

  lemma OneUsageGathered(cfg: Cluster, filesets: map<nat, Fileset>, user: string, usage: map<string, int>,
                         rest: set<nat>, i: nat)
    requires UsageGathered(cfg, filesets, user, usage, rest) && i in filesets && i in rest
    ensures UsageGathered(cfg, filesets, user, WithFileset(usage, user, filesets[i]), rest - {i})
  {
    var more := WithFileset(usage, user, filesets[i]);
    forall s ensures Sums.At(more, s) == Sum(Weights(cfg, filesets, OfUserOn(user, s)) - (rest - {i})) {
      OneTaken(cfg, filesets, OfUserOn(user, s), rest, i);
      StorageGains(cfg, usage, user, filesets[i], s);
    }
    OneTaken(cfg, filesets, OfUserOnCaches(user), rest, i);
    CachesGain(cfg, usage, user, filesets[i]);
  }

  lemma CacheShareSet(cfg: Cluster, usage: map<string, int>, s: string, sum: int)
    ensures Sum(CacheShare(cfg, usage[s := sum]))
      == Sum(CacheShare(cfg, usage)) + (if IsCache(cfg, s) then sum - Sums.At(usage, s) else 0)
  {
    var v := if IsCache(cfg, s) then sum else 0;
    SumSet(CacheShare(cfg, usage), s, v);
    assert CacheShare(cfg, usage[s := sum]) == CacheShare(cfg, usage)[s := v];
  }

  lemma AllUsageGathered(cfg: Cluster, filesets: map<nat, Fileset>, user: string, usage: map<string, int>)
    requires UsageGathered(cfg, filesets, user, usage, {})
    ensures forall s :: Sums.At(usage, s) == Held(cfg, filesets, OfUserOn(user, s))
    ensures Sum(CacheShare(cfg, usage)) == Held(cfg, filesets, OfUserOnCaches(user))
  {
    forall slice: Slice ensures Weights(cfg, filesets, slice) - {} == Weights(cfg, filesets, slice) {}
  }
}
