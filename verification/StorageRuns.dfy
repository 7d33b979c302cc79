/**
  Uploads, watermark workers and cleanup runs over one bucket, interleaved at every
  write: several cleanups may overlap, and each works from the job rows it read.
*/
module StorageRuns {
  import opened Common
  import opened Storage

  /** A worker between its steps; `key`: the copy it has written. */
  datatype Worker = Worker(id: Id, job: WatermarkJob, key: Option<string>)

  /** A cleanup run: the expired rows it read and has not dealt with, and those whose object it deleted. */
  datatype Sweep = Sweep(pending: map<Id, WatermarkJob>, cleared: set<Id>)

  /** What the `sweep`-th cleanup did: `read` is the row as it read it, `row` the row it then removed. */
  datatype Record =
    | Erased(sweep: nat, id: Id, read: WatermarkJob, key: string, at: int)
    | Removed(sweep: nat, id: Id, read: WatermarkJob, row: WatermarkJob)

  /** `drawn` are all job ids ever drawn. */
  datatype State = State(objects: Objects, originals: Objects, jobs: map<Id, WatermarkJob>, drawn: set<Id>,
                         workers: seq<Worker>, sweeps: seq<Sweep>, log: seq<Record>, now: nat)

  datatype Step =
    | Upload(tenant: Id, item: Id, file: string, body: seq<bv8>)
    | CreateJob(id: Id, tenant: Id, item: Id, researcher: Id, ttl: nat)
    | Begin(id: Id)
    | PutCopy(w: nat, ext: string, body: seq<bv8>)
    | RecordCopy(w: nat)
    | RecordFailure(w: nat)
    | ReadExpired
    | EraseObject(s: nat, id: Id, fails: bool)
    | RemoveRow(s: nat, id: Id, fails: bool)
    | Wait(ms: nat)

  const Init := State(map[], map[], map[], {}, [], [], [], 0)

  function Recorded(bucket: string, job: WatermarkJob, key: string): WatermarkJob {
    job.(status := Done, storagePath := Some(StoragePath(bucket, key)))
  }

  function Next(bucket: string, s: State, step: Step): State {
    match step
    case Upload(tenant, item, file, body) =>
      var key := DocumentKey(tenant, item, file);
      s.(objects := s.objects[key := body], originals := s.originals[key := body])
    case CreateJob(id, tenant, item, researcher, ttl) =>
      if id in s.drawn then s
      else s.(jobs := s.jobs[id := WatermarkJob(tenant, item, researcher, Pending, None, s.now + ttl)],
              drawn := s.drawn + {id})
    case Begin(id) =>
      if id !in s.jobs then s
      else s.(jobs := s.jobs[id := s.jobs[id].(status := Processing)],
              workers := s.workers + [Worker(id, s.jobs[id], None)])
    case PutCopy(w, ext, body) =>
      if w >= |s.workers| then s
      else
        var k := s.workers[w];
        var key := WatermarkCacheKey(k.job.tenant, k.job.item, k.job.researcher, s.now, ext);
        s.(objects := s.objects[key := body], workers := s.workers[w := k.(key := Some(key))])
    case RecordCopy(w) =>
      if w >= |s.workers| || s.workers[w].key.None? || s.workers[w].id !in s.jobs then s
      else
        var k := s.workers[w];
        s.(jobs := s.jobs[k.id := Recorded(bucket, s.jobs[k.id], k.key.value)])
    case RecordFailure(w) =>
      if w >= |s.workers| || s.workers[w].id !in s.jobs then s
      else s.(jobs := s.jobs[s.workers[w].id := s.jobs[s.workers[w].id].(status := Failed)])
    case ReadExpired =>
      s.(sweeps := s.sweeps + [Sweep(map id | id in s.jobs && s.jobs[id].expiresAt <= s.now :: s.jobs[id], {})])
    case EraseObject(k, id, fails) =>
      if k >= |s.sweeps| || id !in s.sweeps[k].pending || !HasObject(s.sweeps[k].pending[id]) then s
      else
        var sweep := s.sweeps[k];
        var key := RecordedKey(bucket, sweep.pending[id]);
        if fails || key.Err? then s.(sweeps := s.sweeps[k := sweep.(pending := sweep.pending - {id})])
        else s.(objects := s.objects - {key.value},
                sweeps := s.sweeps[k := sweep.(cleared := sweep.cleared + {id})],
                log := s.log + [Erased(k, id, sweep.pending[id], key.value, s.now)])
    case RemoveRow(k, id, fails) =>
      if k >= |s.sweeps| || id !in s.sweeps[k].pending then s
      else
        var sweep := s.sweeps[k];
        if HasObject(sweep.pending[id]) && id !in sweep.cleared then s
        else
          var t := s.(sweeps := s.sweeps[k := sweep.(pending := sweep.pending - {id})]);
          if fails || id !in s.jobs then t
          else t.(jobs := s.jobs - {id}, log := s.log + [Removed(k, id, sweep.pending[id], s.jobs[id])])
    case Wait(ms) => s.(now := s.now + ms)
  }

  function Run(bucket: string, s: State, steps: seq<Step>): State
    decreases |steps|
  {
    if steps == [] then s else Run(bucket, Next(bucket, s, steps[0]), steps[1..])
  }

  /** Ids are the database's uuids, which hold no slash; file names and extensions may hold anything. */
  predicate UuidNamed(step: Step) {
    match step
    case Upload(tenant, _, _, _) => SlashFree(tenant)
    case CreateJob(_, tenant, _, _, _) => SlashFree(tenant)
    case _ => true
  }

  // -------------------------------------------------------------- the invariant

  ghost predicate IsCopy(key: string) {
    exists tenant, item, researcher, now: nat, ext ::
      SlashFree(tenant) && key == WatermarkCacheKey(tenant, item, researcher, now, ext)
  }

  ghost predicate IsOriginal(key: string) {
    exists tenant, item, file :: SlashFree(tenant) && key == DocumentKey(tenant, item, file)
  }

  lemma CopyIsNoOriginal(key: string)
    requires IsCopy(key)
    ensures !IsOriginal(key)
  {
    var tenant, item, researcher, now: nat, ext :|
      SlashFree(tenant) && key == WatermarkCacheKey(tenant, item, researcher, now, ext);
    if IsOriginal(key) {
      var t, i, file :| SlashFree(t) && key == DocumentKey(t, i, file);
      CacheKeyIsNoDocumentKey(tenant, item, researcher, now, ext, t, i, file);
    }
  }

  /** A job's path, when recorded, is that of a copy. */
  ghost predicate PathOfCopy(bucket: string, job: WatermarkJob) {
    SlashFree(job.tenant) &&
    (job.storagePath.Some? ==> RecordedKey(bucket, job).Ok? && IsCopy(RecordedKey(bucket, job).value) && HasObject(job))
  }

  /** The copy a finished job points to is there, unless a cleanup erased that key. */
  ghost predicate CopyKept(bucket: string, s: State, job: WatermarkJob) {
    job.status == Done ==>
      (job.storagePath.Some? && (RecordedKey(bucket, job).Ok? ==> WrittenOrErased(s, RecordedKey(bucket, job).value)))
  }

  ghost predicate WrittenOrErased(s: State, key: string) {
    key in s.objects || exists i :: 0 <= i < |s.log| && s.log[i].Erased? && s.log[i].key == key
  }

  /** Cleanup `k` erased the object that this row of job `id` records. */
  ghost predicate ErasedBy(bucket: string, log: seq<Record>, k: nat, id: Id, row: WatermarkJob)
    requires row.storagePath.Some?
  {
    exists i :: 0 <= i < |log| && log[i].Erased? && log[i].sweep == k && log[i].id == id
                && Ok(log[i].key) == RecordedKey(bucket, row)
  }

  ghost predicate RecordSound(bucket: string, before: seq<Record>, r: Record) {
    match r
    case Erased(_, _, read, key, at) => read.expiresAt <= at && HasObject(read) && RecordedKey(bucket, read) == Ok(key)
    case Removed(k, id, read, row) =>
      && PathOfCopy(bucket, row)
      && (HasObject(row) ==> (ErasedBy(bucket, before, k, id, row) <==> row.storagePath == read.storagePath))
  }

  /** A cleanup keeps working from what it read. */
  ghost predicate SnapshotsKept(s: State) {
    forall i | 0 <= i < |s.log| && s.log[i].Erased? ::
      var r := s.log[i];
      r.sweep < |s.sweeps| && (r.id in s.sweeps[r.sweep].pending ==> s.sweeps[r.sweep].pending[r.id] == r.read)
  }

  ghost predicate OriginalsKept(s: State) {
    forall key | key in s.originals :: IsOriginal(key) && key in s.objects && s.objects[key] == s.originals[key]
  }

  ghost predicate JobsSound(bucket: string, s: State) {
    forall id | id in s.jobs :: PathOfCopy(bucket, s.jobs[id]) && CopyKept(bucket, s, s.jobs[id])
  }

  ghost predicate WorkersSound(s: State) {
    forall w | 0 <= w < |s.workers| ::
      SlashFree(s.workers[w].job.tenant) &&
      (s.workers[w].key.Some? ==> IsCopy(s.workers[w].key.value) && WrittenOrErased(s, s.workers[w].key.value))
  }

  ghost predicate PendingSound(bucket: string, s: State, k: nat, sweep: Sweep, id: Id)
    requires id in sweep.pending
  {
    var job := sweep.pending[id];
    && job.expiresAt <= s.now && PathOfCopy(bucket, job)
    && (id in sweep.cleared ==> HasObject(job) && ErasedBy(bucket, s.log, k, id, job))
  }

  ghost predicate SweepSound(bucket: string, s: State, k: nat, sweep: Sweep) {
    forall id | id in sweep.pending :: PendingSound(bucket, s, k, sweep, id)
  }

  ghost predicate LogSound(bucket: string, log: seq<Record>) {
    forall i | 0 <= i < |log| :: RecordSound(bucket, log[..i], log[i])
  }

  ghost predicate Inv(bucket: string, s: State) {
    && OriginalsKept(s) && JobsSound(bucket, s) && WorkersSound(s) && LogSound(bucket, s.log) && SnapshotsKept(s)
    && forall k | 0 <= k < |s.sweeps| :: SweepSound(bucket, s, k, s.sweeps[k])
  }

  // --------------------------------------------------- what each step preserves

  /** The log only grows, and what leaves the bucket is on it. */
  ghost predicate Extends(s: State, t: State) {
    && s.log <= t.log && s.now <= t.now
    && forall key | key in s.objects :: WrittenOrErased(t, key)
  }

  lemma KnownStays(bucket: string, s: State, t: State)
    requires Extends(s, t)
    ensures forall key | WrittenOrErased(s, key) :: WrittenOrErased(t, key)
    ensures forall job | CopyKept(bucket, s, job) :: CopyKept(bucket, t, job)
  {
    forall key | WrittenOrErased(s, key) ensures WrittenOrErased(t, key) {
      if key !in s.objects {
        var i :| 0 <= i < |s.log| && s.log[i].Erased? && s.log[i].key == key;
        assert t.log[i] == s.log[i];
      }
    }
  }

  lemma SweepStays(bucket: string, s: State, t: State, k: nat, sweep: Sweep)
    requires Extends(s, t) && SweepSound(bucket, s, k, sweep)
    ensures SweepSound(bucket, t, k, sweep)
  {
    forall id | id in sweep.pending ensures PendingSound(bucket, t, k, sweep, id) {
      assert PendingSound(bucket, s, k, sweep, id);
      var job := sweep.pending[id];
      if id in sweep.cleared {
        var i :| 0 <= i < |s.log| && s.log[i].Erased? && s.log[i].sweep == k && s.log[i].id == id
                 && Ok(s.log[i].key) == RecordedKey(bucket, job);
        assert t.log[i] == s.log[i];
      }
    }
  }

  lemma LogGrows(bucket: string, log: seq<Record>, r: Record)
    requires LogSound(bucket, log) && RecordSound(bucket, log, r)
    ensures LogSound(bucket, log + [r])
  {
    forall i | 0 <= i <= |log| ensures RecordSound(bucket, (log + [r])[..i], (log + [r])[i]) {
      assert (log + [r])[..i] == log[..i];
      assert log[..|log|] == log;
    }
  }

  lemma SweepsStay(bucket: string, s: State, t: State)
    requires Extends(s, t) && t.sweeps == s.sweeps
    requires forall k | 0 <= k < |s.sweeps| :: SweepSound(bucket, s, k, s.sweeps[k])
    ensures forall k | 0 <= k < |t.sweeps| :: SweepSound(bucket, t, k, t.sweeps[k])
  {
    forall k | 0 <= k < |t.sweeps| ensures SweepSound(bucket, t, k, t.sweeps[k]) {
      SweepStays(bucket, s, t, k, s.sweeps[k]);
    }
  }

  lemma JobsStay(bucket: string, s: State, t: State)
    requires Extends(s, t) && t.jobs == s.jobs && JobsSound(bucket, s)
    ensures JobsSound(bucket, t)
  {
    KnownStays(bucket, s, t);
  }

  lemma UploadKeeps(bucket: string, s: State, step: Step)
    requires Inv(bucket, s) && UuidNamed(step) && step.Upload?
    ensures Inv(bucket, Next(bucket, s, step))
  {
    var t := Next(bucket, s, step);
    SweepsStay(bucket, s, t);
    JobsStay(bucket, s, t);
    KnownStays(bucket, s, t);
  }

  lemma PutCopyKeeps(bucket: string, s: State, w: nat, ext: string, body: seq<bv8>)
    requires Inv(bucket, s)
    ensures Inv(bucket, Next(bucket, s, PutCopy(w, ext, body)))
  {
    if w < |s.workers| {
      var t := Next(bucket, s, PutCopy(w, ext, body));
      SweepsStay(bucket, s, t);
      JobsStay(bucket, s, t);
      KnownStays(bucket, s, t);
      var key := t.workers[w].key.value;
      assert IsCopy(key);
      CopyIsNoOriginal(key);
    }
  }

  lemma QuietKeeps(bucket: string, s: State, step: Step)
    requires Inv(bucket, s) && UuidNamed(step)
    requires step.CreateJob? || step.Begin? || step.Wait?
    ensures Inv(bucket, Next(bucket, s, step))
  {
    var t := Next(bucket, s, step);
    SweepsStay(bucket, s, t);
    KnownStays(bucket, s, t);
  }

  lemma RecordingKeeps(bucket: string, s: State, step: Step)
    requires Inv(bucket, s) && (step.RecordCopy? || step.RecordFailure?)
    ensures Inv(bucket, Next(bucket, s, step))
  {
    var t := Next(bucket, s, step);
    SweepsStay(bucket, s, t);
    KnownStays(bucket, s, t);
    if step.RecordCopy? && t != s {
      var k := s.workers[step.w];
      StripInverts(bucket, StoragePath(bucket, k.key.value), k.key.value);
      assert PathOfCopy(bucket, t.jobs[k.id]);
    }
  }

  lemma ReadExpiredKeeps(bucket: string, s: State)
    requires Inv(bucket, s)
    ensures Inv(bucket, Next(bucket, s, ReadExpired))
  {
    var t := Next(bucket, s, ReadExpired);
    KnownStays(bucket, s, t);
    forall k | 0 <= k < |t.sweeps| ensures SweepSound(bucket, t, k, t.sweeps[k]) {
      if k < |s.sweeps| {
        SweepStays(bucket, s, t, k, t.sweeps[k]);
      }
    }
  }

  predicate OwnRecord(s: State, k: nat, id: Id, r: Record)
    requires k < |s.sweeps| && id in s.sweeps[k].pending
  {
    r.Erased? ==> r.sweep == k && r.id == id && r.read == s.sweeps[k].pending[id]
  }

  /** What a step of one sweep leaves to show. */
  lemma SweptKeeps(bucket: string, s: State, t: State, k: nat, id: Id)
    requires Inv(bucket, s) && Extends(s, t) && k < |s.sweeps| && id in s.sweeps[k].pending
    requires t.workers == s.workers && t.originals == s.originals && t.jobs.Keys <= s.jobs.Keys
    requires forall x | x in t.jobs :: t.jobs[x] == s.jobs[x]
    requires OriginalsKept(t) && LogSound(bucket, t.log)
    requires |t.sweeps| == |s.sweeps| && t.sweeps == s.sweeps[k := t.sweeps[k]]
    requires SweepProgress(bucket, t, k, s.sweeps[k], t.sweeps[k], id)
    requires t.log == s.log || exists r :: t.log == s.log + [r] && OwnRecord(s, k, id, r)
    ensures Inv(bucket, t)
  {
    KnownStays(bucket, s, t);
    forall j | 0 <= j < |t.sweeps| ensures SweepSound(bucket, t, j, t.sweeps[j]) {
      SweepStays(bucket, s, t, j, s.sweeps[j]);
      if j == k {
        SweepMoved(bucket, t, k, s.sweeps[k], t.sweeps[k], id);
      }
    }
  }

  /** A sweep that dropped an item, or cleared one whose erasure is on the log. */
  ghost predicate SweepProgress(bucket: string, t: State, k: nat, sweep: Sweep, sweep': Sweep, id: Id)
    requires id in sweep.pending
  {
    || sweep' == sweep.(pending := sweep.pending - {id})
    || (sweep' == sweep.(cleared := sweep.cleared + {id}) && HasObject(sweep.pending[id])
        && ErasedBy(bucket, t.log, k, id, sweep.pending[id]))
  }

  lemma SweepMoved(bucket: string, t: State, k: nat, sweep: Sweep, sweep': Sweep, id: Id)
    requires SweepSound(bucket, t, k, sweep) && id in sweep.pending && SweepProgress(bucket, t, k, sweep, sweep', id)
    ensures SweepSound(bucket, t, k, sweep')
  {
    forall x | x in sweep'.pending ensures PendingSound(bucket, t, k, sweep', x) {
      assert PendingSound(bucket, t, k, sweep, x);
    }
  }

  lemma EraseKeeps(bucket: string, s: State, k: nat, id: Id, fails: bool)
    requires Inv(bucket, s)
    ensures Inv(bucket, Next(bucket, s, EraseObject(k, id, fails)))
  {
    var t := Next(bucket, s, EraseObject(k, id, fails));
    if t != s {
      var sweep := s.sweeps[k];
      assert PendingSound(bucket, s, k, sweep, id);
      var job := sweep.pending[id];
      var key := RecordedKey(bucket, job).value;
      CopyIsNoOriginal(key);
      if !fails {
        var r := Erased(k, id, job, key, s.now);
        assert t.log == s.log + [r] && t.log[|s.log|] == r && OwnRecord(s, k, id, r);
        LogGrows(bucket, s.log, r);
      }
      assert Extends(s, t);
      SweptKeeps(bucket, s, t, k, id);
    }
  }

  /** The removed row's own object was erased by this sweep exactly when its path is the one the sweep read. */
  lemma RemovalSound(bucket: string, s: State, k: nat, id: Id)
    requires Inv(bucket, s) && k < |s.sweeps| && id in s.sweeps[k].pending && id in s.jobs
    requires HasObject(s.sweeps[k].pending[id]) ==> id in s.sweeps[k].cleared
    ensures RecordSound(bucket, s.log, Removed(k, id, s.sweeps[k].pending[id], s.jobs[id]))
  {
    var read, row := s.sweeps[k].pending[id], s.jobs[id];
    assert PendingSound(bucket, s, k, s.sweeps[k], id);
    assert PathOfCopy(bucket, row);
    if HasObject(row) && ErasedBy(bucket, s.log, k, id, row) {
      var i :| 0 <= i < |s.log| && s.log[i].Erased? && s.log[i].sweep == k && s.log[i].id == id
               && Ok(s.log[i].key) == RecordedKey(bucket, row);
      assert s.log[i].read == read;
      assert RecordSound(bucket, s.log[..i], s.log[i]);
      StripInverts(bucket, read.storagePath.value, s.log[i].key);
      StripInverts(bucket, row.storagePath.value, s.log[i].key);
    }
  }

  lemma RemoveKeeps(bucket: string, s: State, k: nat, id: Id, fails: bool)
    requires Inv(bucket, s)
    ensures Inv(bucket, Next(bucket, s, RemoveRow(k, id, fails)))
  {
    var t := Next(bucket, s, RemoveRow(k, id, fails));
    if t != s {
      var sweep := s.sweeps[k];
      if !fails && id in s.jobs {
        RemovalSound(bucket, s, k, id);
        var r := Removed(k, id, sweep.pending[id], s.jobs[id]);
        LogGrows(bucket, s.log, r);
        assert t.log == s.log + [r] && OwnRecord(s, k, id, r);
      }
      assert Extends(s, t);
      SweptKeeps(bucket, s, t, k, id);
    }
  }

  lemma {:induction false} RunKeeps(bucket: string, s: State, steps: seq<Step>)
    requires Inv(bucket, s) && forall i | 0 <= i < |steps| :: UuidNamed(steps[i])
    ensures Inv(bucket, Run(bucket, s, steps))
    decreases |steps|
  {
    if steps != [] {
      match steps[0] {
        case Upload(_, _, _, _) => UploadKeeps(bucket, s, steps[0]);
        case PutCopy(w, ext, body) => PutCopyKeeps(bucket, s, w, ext, body);
        case RecordCopy(_) => RecordingKeeps(bucket, s, steps[0]);
        case RecordFailure(_) => RecordingKeeps(bucket, s, steps[0]);
        case ReadExpired => ReadExpiredKeeps(bucket, s);
        case EraseObject(k, id, fails) => EraseKeeps(bucket, s, k, id, fails);
        case RemoveRow(k, id, fails) => RemoveKeeps(bucket, s, k, id, fails);
        case _ => QuietKeeps(bucket, s, steps[0]);
      }
      RunKeeps(bucket, Next(bucket, s, steps[0]), steps[1..]);
    }
  }

  // ------------------------------------------------------------- what holds

  /** Whatever workers and cleanups did, every uploaded original is in the bucket, as last uploaded. */
  lemma OriginalsSurvive(bucket: string, steps: seq<Step>, key: string)
    requires forall i | 0 <= i < |steps| :: UuidNamed(steps[i])
    requires key in Run(bucket, Init, steps).originals
    ensures var s := Run(bucket, Init, steps);
            key in s.objects && s.objects[key] == s.originals[key]
  {
    RunKeeps(bucket, Init, steps);
  }

  /**
    Nothing is erased but the object an expired job recorded when the cleanup read
    it. The row removed may be newer than the one read: the cleanup has erased the
    object this row records exactly when the path is still the one it read.
  */
  lemma CleanupInOrder(bucket: string, steps: seq<Step>, i: nat)
    requires forall i | 0 <= i < |steps| :: UuidNamed(steps[i])
    requires i < |Run(bucket, Init, steps).log|
    ensures var log := Run(bucket, Init, steps).log;
            match log[i]
            case Erased(_, _, read, key, at) =>
              read.expiresAt <= at && HasObject(read) && RecordedKey(bucket, read) == Ok(key)
            case Removed(k, id, read, row) =>
              HasObject(row) ==>
                ((exists j :: 0 <= j < i && log[j].Erased? && log[j].sweep == k && log[j].id == id
                              && Ok(log[j].key) == RecordedKey(bucket, row))
                 <==> row.storagePath == read.storagePath)
  {
    RunKeeps(bucket, Init, steps);
    var log := Run(bucket, Init, steps).log;
    assert RecordSound(bucket, log[..i], log[i]);
    if log[i].Removed? && HasObject(log[i].row) {
      var k, id, row := log[i].sweep, log[i].id, log[i].row;
      if ErasedBy(bucket, log[..i], k, id, row) {
        var j :| 0 <= j < i && log[..i][j].Erased? && log[..i][j].sweep == k && log[..i][j].id == id
                 && Ok(log[..i][j].key) == RecordedKey(bucket, row);
        assert log[j] == log[..i][j];
      } else {
        assert forall j | 0 <= j < i :: log[j] == log[..i][j];
      }
    }
  }

  /**
    So it was erased at all exactly when the path is unchanged or another cleanup, or
    for another job, erased that key.
  */
  lemma RemovedObjectGoneIff(bucket: string, steps: seq<Step>, i: nat)
    requires forall i | 0 <= i < |steps| :: UuidNamed(steps[i])
    requires i < |Run(bucket, Init, steps).log|
    requires var r := Run(bucket, Init, steps).log[i]; r.Removed? && HasObject(r.row)
    ensures var log := Run(bucket, Init, steps).log;
            var r := log[i];
            (exists j :: 0 <= j < i && log[j].Erased? && Ok(log[j].key) == RecordedKey(bucket, r.row))
            <==>
            || r.row.storagePath == r.read.storagePath
            || exists j :: 0 <= j < i && log[j].Erased? && Ok(log[j].key) == RecordedKey(bucket, r.row)
                           && (log[j].sweep != r.sweep || log[j].id != r.id)
  {
    CleanupInOrder(bucket, steps, i);
  }

  // ------------------------------------------------- when rows go after objects

  /** A worker records a copy on a job that has expired. */
  predicate LateCopy(s: State, step: Step) {
    step.RecordCopy? && step.w < |s.workers| && s.workers[step.w].id in s.jobs
    && s.jobs[s.workers[step.w].id].expiresAt <= s.now
  }

  predicate NoLateCopy(bucket: string, s: State, steps: seq<Step>)
    decreases |steps|
  {
    steps == [] || (!LateCopy(s, steps[0]) && NoLateCopy(bucket, Next(bucket, s, steps[0]), steps[1..]))
  }

  lemma {:induction false} NeverLate(bucket: string, s: State, steps: seq<Step>)
    requires forall n | 0 <= n < |steps| :: !LateCopy(Run(bucket, s, steps[..n]), steps[n])
    ensures NoLateCopy(bucket, s, steps)
    decreases |steps|
  {
    if steps != [] {
      var next, rest := Next(bucket, s, steps[0]), steps[1..];
      assert steps[..0] == [];
      assert !LateCopy(Run(bucket, s, steps[..0]), steps[0]);
      forall n | 0 <= n < |rest| ensures !LateCopy(Run(bucket, next, rest[..n]), rest[n]) {
        assert steps[..n + 1] == [steps[0]] + rest[..n] && steps[n + 1] == rest[n];
        assert !LateCopy(Run(bucket, s, steps[..n + 1]), steps[n + 1]);
      }
      NeverLate(bucket, next, rest);
    }
  }

  /** Rows already read as expired have stayed as they were read. */
  ghost predicate ReadsCurrent(s: State) {
    && s.jobs.Keys <= s.drawn
    && (forall k, id | 0 <= k < |s.sweeps| && id in s.sweeps[k].pending ::
          ReadCurrent(s, s.sweeps[k].pending[id], id))
    && (forall i | 0 <= i < |s.log| && s.log[i].Removed? :: s.log[i].row.storagePath == s.log[i].read.storagePath)
  }

  ghost predicate ReadCurrent(s: State, read: WatermarkJob, id: Id) {
    && id in s.drawn && read.expiresAt <= s.now
    && (id in s.jobs ==> s.jobs[id].expiresAt == read.expiresAt && s.jobs[id].storagePath == read.storagePath)
  }

  lemma RecordingStaysCurrent(bucket: string, s: State, w: nat)
    requires ReadsCurrent(s) && !LateCopy(s, RecordCopy(w))
    ensures ReadsCurrent(Next(bucket, s, RecordCopy(w)))
  {
    var t := Next(bucket, s, RecordCopy(w));
    forall k, id | 0 <= k < |t.sweeps| && id in t.sweeps[k].pending
        ensures ReadCurrent(t, t.sweeps[k].pending[id], id) {
      assert ReadCurrent(s, s.sweeps[k].pending[id], id);
    }
  }

  lemma OthersStayCurrent(bucket: string, s: State, step: Step)
    requires ReadsCurrent(s)
    requires !step.RecordCopy? && !step.EraseObject? && !step.RemoveRow? && !step.ReadExpired?
    ensures ReadsCurrent(Next(bucket, s, step))
  {
    var t := Next(bucket, s, step);
    forall k, id | 0 <= k < |t.sweeps| && id in t.sweeps[k].pending
        ensures ReadCurrent(t, t.sweeps[k].pending[id], id) {
      assert ReadCurrent(s, s.sweeps[k].pending[id], id);
    }
  }

  lemma ReadingStaysCurrent(bucket: string, s: State)
    requires ReadsCurrent(s)
    ensures ReadsCurrent(Next(bucket, s, ReadExpired))
  {
    var t := Next(bucket, s, ReadExpired);
    forall k, id | 0 <= k < |t.sweeps| && id in t.sweeps[k].pending
        ensures ReadCurrent(t, t.sweeps[k].pending[id], id) {
      if k < |s.sweeps| {
        assert ReadCurrent(s, s.sweeps[k].pending[id], id);
      }
    }
  }

  lemma ErasingStaysCurrent(bucket: string, s: State, k: nat, id: Id, fails: bool)
    requires ReadsCurrent(s)
    ensures ReadsCurrent(Next(bucket, s, EraseObject(k, id, fails)))
  {
    var t := Next(bucket, s, EraseObject(k, id, fails));
    forall j, x | 0 <= j < |t.sweeps| && x in t.sweeps[j].pending ensures ReadCurrent(t, t.sweeps[j].pending[x], x) {
      assert ReadCurrent(s, s.sweeps[j].pending[x], x);
    }
  }

  lemma RemovingStaysCurrent(bucket: string, s: State, k: nat, id: Id, fails: bool)
    requires ReadsCurrent(s)
    ensures ReadsCurrent(Next(bucket, s, RemoveRow(k, id, fails)))
  {
    var t := Next(bucket, s, RemoveRow(k, id, fails));
    if t != s {
      assert ReadCurrent(s, s.sweeps[k].pending[id], id);
      forall j, x | 0 <= j < |t.sweeps| && x in t.sweeps[j].pending ensures ReadCurrent(t, t.sweeps[j].pending[x], x) {
        assert ReadCurrent(s, s.sweeps[j].pending[x], x);
      }
    }
  }

  lemma {:induction false} RunStaysCurrent(bucket: string, s: State, steps: seq<Step>)
    requires ReadsCurrent(s) && NoLateCopy(bucket, s, steps)
    ensures ReadsCurrent(Run(bucket, s, steps))
    decreases |steps|
  {
    if steps != [] {
      match steps[0] {
        case RecordCopy(w) => RecordingStaysCurrent(bucket, s, w);
        case ReadExpired => ReadingStaysCurrent(bucket, s);
        case EraseObject(k, id, fails) => ErasingStaysCurrent(bucket, s, k, id, fails);
        case RemoveRow(k, id, fails) => RemovingStaysCurrent(bucket, s, k, id, fails);
        case _ => OthersStayCurrent(bucket, s, steps[0]);
      }
      RunStaysCurrent(bucket, Next(bucket, s, steps[0]), steps[1..]);
    }
  }

  /** If no copy is recorded on a job that has expired, every row goes only after the object it records. */
  lemma RowsGoAfterObjects(bucket: string, steps: seq<Step>, i: nat)
    requires forall i | 0 <= i < |steps| :: UuidNamed(steps[i])
    requires forall n | 0 <= n < |steps| :: !LateCopy(Run(bucket, Init, steps[..n]), steps[n])
    requires i < |Run(bucket, Init, steps).log|
    requires var r := Run(bucket, Init, steps).log[i]; r.Removed? && HasObject(r.row)
    ensures var log := Run(bucket, Init, steps).log;
            exists j :: 0 <= j < i && log[j].Erased? && log[j].id == log[i].id
                        && log[i].row.storagePath == Some(StoragePath(bucket, log[j].key))
  {
    NeverLate(bucket, Init, steps);
    RunStaysCurrent(bucket, Init, steps);
    CleanupInOrder(bucket, steps, i);
    var log := Run(bucket, Init, steps).log;
    var j :| 0 <= j < i && log[j].Erased? && log[j].id == log[i].id &&
        Ok(log[j].key) == RecordedKey(bucket, log[i].row);
    StripInverts(bucket, log[i].row.storagePath.value, log[j].key);
  }

  lemma RunThree(bucket: string, s: State, a: Step, b: Step, c: Step)
    ensures Run(bucket, s, [a, b, c]) == Next(bucket, Next(bucket, Next(bucket, s, a), b), c)
  {
    assert [a, b, c][1..] == [b, c] && [b, c][1..] == [c] && [c][1..] == [];
    var s1 := Next(bucket, s, a);
    var s2 := Next(bucket, s1, b);
    assert Run(bucket, s2, [c]) == Run(bucket, Next(bucket, s2, c), []);
    assert Run(bucket, s1, [b, c]) == Run(bucket, s2, [c]);
  }

  lemma RecordsCopy(bucket: string, s: State, w: nat)
    requires w < |s.workers| && s.workers[w].key.Some? && s.workers[w].id in s.jobs
    ensures var id := s.workers[w].id;
            Next(bucket, s, RecordCopy(w)) ==
            s.(jobs := s.jobs[id := Recorded(bucket, s.jobs[id], s.workers[w].key.value)])
  {
  }

  lemma RemovesUnrecorded(bucket: string, s: State, k: nat, id: Id)
    requires k < |s.sweeps| && id in s.sweeps[k].pending && !HasObject(s.sweeps[k].pending[id]) && id in s.jobs
    ensures var t := Next(bucket, s, RemoveRow(k, id, false));
            && t.jobs == s.jobs - {id} && t.objects == s.objects
            && t.log == s.log + [Removed(k, id, s.sweeps[k].pending[id], s.jobs[id])]
  {
  }

  /**
    Without that condition it fails, from any state: a worker that records its copy
    on an expired job after a cleanup has read the row leaves the copy behind.
  */
  lemma LateCopyStrands(bucket: string, s: State, w: nat)
    requires w < |s.workers| && s.workers[w].key.Some? && s.workers[w].key.value in s.objects
    requires LateCopy(s, RecordCopy(w)) && !HasObject(s.jobs[s.workers[w].id])
    ensures var id, key := s.workers[w].id, s.workers[w].key.value;
            var t := Run(bucket, s, [ReadExpired, RecordCopy(w), RemoveRow(|s.sweeps|, id, false)]);
            && id !in t.jobs && key in t.objects
            && t.log == s.log + [Removed(|s.sweeps|, id, s.jobs[id], Recorded(bucket, s.jobs[id], key))]
  {
    var id := s.workers[w].id;
    RunThree(bucket, s, ReadExpired, RecordCopy(w), RemoveRow(|s.sweeps|, id, false));
    var s1 := Next(bucket, s, ReadExpired);
    RecordsCopy(bucket, s1, w);
    RemovesUnrecorded(bucket, Next(bucket, s1, RecordCopy(w)), |s.sweeps|, id);
  }

  lemma {:induction false} RunConcat(bucket: string, s: State, a: seq<Step>, b: seq<Step>)
    ensures Run(bucket, s, a + b) == Run(bucket, Run(bucket, s, a), b)
    decreases |a|
  {
    if a == [] {
      assert a + b == b;
    } else {
      assert a + b == [a[0]] + (a[1..] + b);
      RunConcat(bucket, Next(bucket, s, a[0]), a[1..], b);
    }
  }

  /** A job that expires while its copy is made: its row goes, its object stays, and no cleanup erased anything. */
  lemma StrandedCopy(bucket: string, body: seq<bv8>)
    ensures var steps := [CreateJob("j", "t", "i", "r", 0), Begin("j"), PutCopy(0, ".mp4", body)]
                         + [ReadExpired, RecordCopy(0), RemoveRow(0, "j", false)];
            var s := Run(bucket, Init, steps);
            && (forall i | 0 <= i < |steps| :: UuidNamed(steps[i]))
            && |s.log| == 1 && s.log[0].Removed? && HasObject(s.log[0].row) && "j" !in s.jobs
            && RecordedKey(bucket, s.log[0].row).Ok? && RecordedKey(bucket, s.log[0].row).value in s.objects
  {
    var early := [CreateJob("j", "t", "i", "r", 0), Begin("j"), PutCopy(0, ".mp4", body)];
    RunThree(bucket, Init, early[0], early[1], early[2]);
    var s1 := Next(bucket, Init, early[0]);
    var s2 := Next(bucket, s1, early[1]);
    var s3 := Next(bucket, s2, early[2]);
    assert s2.workers == [Worker("j", s1.jobs["j"], None)];
    var key := s3.workers[0].key.value;
    LateCopyStrands(bucket, s3, 0);
    RunConcat(bucket, Init, early, [ReadExpired, RecordCopy(0), RemoveRow(0, "j", false)]);
    StripInverts(bucket, StoragePath(bucket, key), key);
  }

  /** The copy a finished job offers its researcher is in the bucket, unless a cleanup erased that very key. */
  lemma FinishedCopyThere(bucket: string, steps: seq<Step>, id: Id)
    requires forall i | 0 <= i < |steps| :: UuidNamed(steps[i])
    requires id in Run(bucket, Init, steps).jobs && Run(bucket, Init, steps).jobs[id].status == Done
    ensures var s := Run(bucket, Init, steps);
            && s.jobs[id].storagePath.Some?
            && exists key :: s.jobs[id].storagePath.value == StoragePath(bucket, key)
                && (key in s.objects || exists j :: 0 <= j < |s.log| && s.log[j].Erased? && s.log[j].key == key)
  {
    RunKeeps(bucket, Init, steps);
    var s := Run(bucket, Init, steps);
    var job := s.jobs[id];
    assert PathOfCopy(bucket, job) && CopyKept(bucket, s, job);
    var key := RecordedKey(bucket, job).value;
    StripInverts(bucket, job.storagePath.value, key);
    assert WrittenOrErased(s, key);
  }

  /** A job that is worked off undisturbed ends DONE, with its copy in the bucket beside everything else. */
  lemma CopyServed(bucket: string, s: State, id: Id, tenant: Id, item: Id, researcher: Id, ttl: nat, ext: string,
                   body: seq<bv8>)
    requires id !in s.drawn && id !in s.jobs
    ensures var w := |s.workers|;
            var created := Next(bucket, s, CreateJob(id, tenant, item, researcher, ttl));
            var t := Next(bucket, Next(bucket, Next(bucket, created, Begin(id)), PutCopy(w, ext, body)), RecordCopy(w));
            var key := WatermarkCacheKey(tenant, item, researcher, s.now, ext);
            && t.objects == s.objects[key := body]
            && t.jobs == s.jobs[id := WatermarkJob(tenant, item, researcher, Done, Some(StoragePath(bucket, key)),
                                                   s.now + ttl)]
  {
    var created := Next(bucket, s, CreateJob(id, tenant, item, researcher, ttl));
    var begun := Next(bucket, created, Begin(id));
    assert begun.workers[|s.workers|] == Worker(id, created.jobs[id], None);
    var put := Next(bucket, begun, PutCopy(|s.workers|, ext, body));
    RecordsCopy(bucket, put, |s.workers|);
  }

  /** And once it has expired, an undisturbed cleanup takes its object and its row, and nothing else. */
  lemma CopyCleaned(bucket: string, s: State, id: Id, key: string)
    requires id in s.jobs && s.jobs[id].expiresAt <= s.now && s.jobs[id].storagePath == Some(StoragePath(bucket, key))
    ensures var k := |s.sweeps|;
            var erased := Next(bucket, Next(bucket, s, ReadExpired), EraseObject(k, id, false));
            var t := Next(bucket, erased, RemoveRow(k, id, false));
            && erased.objects == s.objects - {key} && id in erased.jobs
            && t.objects == s.objects - {key} && t.jobs == s.jobs - {id}
  {
    var read := Next(bucket, s, ReadExpired);
    assert id in read.sweeps[|s.sweeps|].pending && read.sweeps[|s.sweeps|].pending[id] == s.jobs[id];
    StripInverts(bucket, StoragePath(bucket, key), key);
    assert HasObject(s.jobs[id]);
    var erased := Next(bucket, read, EraseObject(|s.sweeps|, id, false));
    assert id in erased.sweeps[|s.sweeps|].cleared && id in erased.sweeps[|s.sweeps|].pending;
  }

  /**
    What the other steps do: a job begins, a worker fails, an erasure is refused, a
    row's removal fails, time passes.
  */
  lemma OtherStepsDo(bucket: string, s: State, id: Id, w: nat, k: nat, ms: nat)
    ensures id in s.jobs ==>
              && Next(bucket, s, Begin(id)).jobs == s.jobs[id := s.jobs[id].(status := Processing)]
              && Next(bucket, s, Begin(id)).workers == s.workers + [Worker(id, s.jobs[id], None)]
    ensures w < |s.workers| && s.workers[w].id in s.jobs ==>
              Next(bucket, s, RecordFailure(w)).jobs ==
              s.jobs[s.workers[w].id := s.jobs[s.workers[w].id].(status := Failed)]
    ensures k < |s.sweeps| && id in s.sweeps[k].pending && HasObject(s.sweeps[k].pending[id]) ==>
              var t := Next(bucket, s, EraseObject(k, id, true));
              t.objects == s.objects && t.jobs == s.jobs && id !in t.sweeps[k].pending
    ensures k < |s.sweeps| && id in s.sweeps[k].pending && !HasObject(s.sweeps[k].pending[id]) ==>
              var t := Next(bucket, s, RemoveRow(k, id, true));
              t.jobs == s.jobs && t.log == s.log && id !in t.sweeps[k].pending
    ensures Next(bucket, s, Wait(ms)) == s.(now := s.now + ms)
  {
  }

  /** A job not yet expired is read by no cleanup, and an uploaded document is there at once. */
  lemma UnexpiredNotRead(bucket: string, s: State, id: Id, tenant: Id, item: Id, file: string, body: seq<bv8>)
    ensures id in s.jobs && s.jobs[id].expiresAt > s.now ==>
              id !in Next(bucket, s, ReadExpired).sweeps[|s.sweeps|].pending
    ensures var t := Next(bucket, s, Upload(tenant, item, file, body));
            t.objects == s.objects[DocumentKey(tenant, item, file) := body]
            && t.originals == s.originals[DocumentKey(tenant, item, file) := body]
  {
  }

  /** The cleanup loop as called: no original is among what it deletes, and no row goes whose object it left. */
  lemma CleanupSparesOriginals(bucket: string, jobs: map<Id, WatermarkJob>, ids: set<Id>, f: Failures)
    requires forall id | id in jobs :: PathOfCopy(bucket, jobs[id])
    ensures forall key | key in DeletedKeys(bucket, jobs, ids, f) :: !IsOriginal(key)
    ensures forall id | id in DeletedRows(bucket, jobs, ids, f) && HasObject(jobs[id]) ::
              exists key :: key in DeletedKeys(bucket, jobs, ids, f) &&
                  jobs[id].storagePath.value == StoragePath(bucket, key)
    ensures f == Failures({}, {}) ==> DeletedRows(bucket, jobs, ids, f) == ids * jobs.Keys
  {
    forall key | key in DeletedKeys(bucket, jobs, ids, f) ensures !IsOriginal(key) {
      var id :| id in ids && id in jobs && ObjectDeleted(bucket, id, jobs[id], f) &&
          key == RecordedKey(bucket, jobs[id]).value;
      assert PathOfCopy(bucket, jobs[id]);
      CopyIsNoOriginal(key);
    }
    forall id | id in DeletedRows(bucket, jobs, ids, f) && HasObject(jobs[id])
      ensures exists key :: key in DeletedKeys(bucket, jobs, ids, f) &&
                jobs[id].storagePath.value == StoragePath(bucket, key)
    {
      var key := RecordedKey(bucket, jobs[id]).value;
      StripInverts(bucket, jobs[id].storagePath.value, key);
      assert key in DeletedKeys(bucket, jobs, ids, f);
    }
    forall id | id in jobs ensures PathOfCopy(bucket, jobs[id]) {
    }
  }
}
