/** Object keys, storage paths, and the watermark cache with its cleanup run. */
module Storage {
  import opened Common

  function DocumentKey(tenant: Id, item: Id, file: string): string {
    "tenants/" + tenant + "/documents/" + item + "/" + file
  }

  function Decimal(n: nat): string {
    if n < 10 then ["0123456789"[n]] else Decimal(n / 10) + ["0123456789"[n % 10]]
  }

  function WatermarkCacheKey(tenant: Id, item: Id, researcher: Id, now: nat, ext: string): string {
    "tenants/" + tenant + "/watermark-cache/" + item + "/" + researcher + "-" + Decimal(now) + ext
  }

  function Marker(bucket: string): string {
    "s3://" + bucket + "/"
  }

  function StoragePath(bucket: string, key: string): string {
    Marker(bucket) + key
  }

  datatype StorageError = UnexpectedPath(path: string) | DeleteFailed

  function KeyFromStoragePath(bucket: string, path: string): Result<string, StorageError> {
    var marker := Marker(bucket);
    if marker <= path then Ok(path[|marker|..]) else Err(UnexpectedPath(path))
  }

  // ------------------------------------------------------------------ the keys

  /** The layout of the bucket, on an example of each. */
  lemma KeysLookLike()
    ensures DocumentKey("t", "i", "f.pdf") == "tenants/t/documents/i/f.pdf"
    ensures StoragePath("b", "tenants/t") == "s3://b/tenants/t"
  {
  }

  lemma CacheKeysLookLike(now: nat)
    ensures WatermarkCacheKey("t", "i", "r", now, ".mp4") == "tenants/t/watermark-cache/i/r-" + Decimal(now) + ".mp4"
  {
  }

  function DigitOf(c: char): nat {
    if '0' <= c <= '9' then c as int - '0' as int else 0
  }

  lemma DigitIs(d: nat)
    requires d < 10
    ensures DigitOf("0123456789"[d]) == d
  {
  }

  /** The number a string of decimal digits stands for. */
  function NumberOf(digits: string): nat {
    if digits == "" then 0 else 10 * NumberOf(digits[..|digits| - 1]) + DigitOf(digits[|digits| - 1])
  }

  lemma {:induction false} DecimalReadsBack(n: nat)
    ensures NumberOf(Decimal(n)) == n
  {
    DigitIs(n % 10);
    if n >= 10 {
      DecimalReadsBack(n / 10);
      var front := Decimal(n / 10);
      assert Decimal(n)[..|front|] == front;
    } else {
      assert Decimal(n)[..0] == "";
    }
  }

  /** So two copies of one item for one researcher share a key only if made in the same millisecond. */
  lemma CacheKeyInTime(tenant: Id, item: Id, researcher: Id, ext: string, now: nat, later: nat)
    ensures WatermarkCacheKey(tenant, item, researcher, now, ext) ==
              WatermarkCacheKey(tenant, item, researcher, later, ext)
            <==> now == later
  {
    DecimalReadsBack(now);
    DecimalReadsBack(later);
    var head := "tenants/" + tenant + "/watermark-cache/" + item + "/" + researcher + "-";
    var a, b := WatermarkCacheKey(tenant, item, researcher, now, ext),
        WatermarkCacheKey(tenant, item, researcher, later, ext);
    assert a == head + Decimal(now) + ext && b == head + Decimal(later) + ext;
    if a == b {
      assert |Decimal(now)| == |Decimal(later)|;
      assert a[|head|..|head| + |Decimal(now)|] == Decimal(now) &&
          b[|head|..|head| + |Decimal(later)|] == Decimal(later);
    }
  }

  predicate SlashFree(s: string) {
    '/' !in s
  }

  /** Stripping is the inverse of building a path, and accepts nothing else. */
  lemma StripInverts(bucket: string, path: string, key: string)
    ensures KeyFromStoragePath(bucket, path) == Ok(key) <==> path == StoragePath(bucket, key)
    ensures KeyFromStoragePath(bucket, path).Err? <==> !exists k :: path == StoragePath(bucket, k)
  {
    var marker := Marker(bucket);
    if marker <= path {
      assert path == marker + path[|marker|..] == StoragePath(bucket, path[|marker|..]);
    }
    assert StoragePath(bucket, key)[|marker|..] == key;
    forall k | path == StoragePath(bucket, k) ensures marker <= path {
    }
  }

  /** Two slash-free segments followed by a slash can be told apart. */
  lemma FirstSegment(a: string, x: string, b: string, y: string)
    requires SlashFree(a) && SlashFree(b) && a + "/" + x == b + "/" + y
    ensures a == b && x == y
  {
    var s := a + "/" + x;
    assert s[|a|] == '/' && s[|b|] == '/';
    assert forall i | 0 <= i < |a| :: s[i] == a[i] && a[i] != '/';
    assert forall i | 0 <= i < |b| :: s[i] == b[i] && b[i] != '/';
    assert |a| == |b|;
    assert s[..|a|] == a && s[..|b|] == b && s[|a| + 1..] == x && s[|b| + 1..] == y;
  }

  lemma KeySegments(tenant: Id, rest: string, tenant': Id, rest': string)
    requires SlashFree(tenant) && SlashFree(tenant')
    requires "tenants/" + (tenant + "/" + rest) == "tenants/" + (tenant' + "/" + rest')
    ensures tenant == tenant' && rest == rest'
  {
    var s := "tenants/" + (tenant + "/" + rest);
    assert s[8..] == tenant + "/" + rest && s[8..] == tenant' + "/" + rest';
    FirstSegment(tenant, rest, tenant', rest');
  }

  lemma DocumentKeyShape(tenant: Id, item: Id, file: string)
    ensures DocumentKey(tenant, item, file) == "tenants/" + (tenant + "/" + ("documents/" + (item + "/" + file)))
  {
    assert "/documents/" == "/" + "documents/";
  }

  lemma CacheKeyShape(tenant: Id, item: Id, researcher: Id, now: nat, ext: string)
    ensures WatermarkCacheKey(tenant, item, researcher, now, ext) ==
            "tenants/" + (tenant + "/" + ("watermark-cache/" + (item + "/" + (researcher + "-" + Decimal(now) + ext))))
  {
    assert "/watermark-cache/" == "/" + "watermark-cache/";
    var t := researcher + "-" + Decimal(now) + ext;
    assert item + "/" + researcher + "-" + Decimal(now) + ext == item + "/" + t;
  }

  /** Two documents share a key only if they are the same file of the same item; file names may hold anything. */
  lemma DocumentKeyInjective(tenant: Id, item: Id, file: string, tenant': Id, item': Id, file': string)
    requires SlashFree(tenant) && SlashFree(tenant') && SlashFree(item) && SlashFree(item')
    ensures DocumentKey(tenant, item, file) == DocumentKey(tenant', item', file') <==>
            tenant == tenant' && item == item' && file == file'
  {
    if DocumentKey(tenant, item, file) == DocumentKey(tenant', item', file') {
      DocumentKeyShape(tenant, item, file);
      DocumentKeyShape(tenant', item', file');
      var r, r' := item + "/" + file, item' + "/" + file';
      KeySegments(tenant, "documents/" + r, tenant', "documents/" + r');
      assert ("documents/" + r)[10..] == r && ("documents/" + r')[10..] == r';
      FirstSegment(item, file, item', file');
    }
  }

  /** Slash-freedom cannot be dropped: these two keys coincide. */
  lemma SlashesCollide()
    ensures DocumentKey("a/documents/b", "c", "f") == DocumentKey("a", "b", "documents/c/f")
  {
  }

  /** No watermark copy can overwrite or be mistaken for an original, of any tenant. */
  lemma CacheKeyIsNoDocumentKey(tenant: Id, item: Id, researcher: Id, now: nat, ext: string, tenant': Id, item': Id,
      file: string)
    requires SlashFree(tenant) && SlashFree(tenant')
    ensures WatermarkCacheKey(tenant, item, researcher, now, ext) != DocumentKey(tenant', item', file)
  {
    CacheKeyShape(tenant, item, researcher, now, ext);
    DocumentKeyShape(tenant', item', file);
    var r, r' := item + "/" + (researcher + "-" + Decimal(now) + ext), item' + "/" + file;
    assert ("watermark-cache/" + r)[0] == 'w' && ("documents/" + r')[0] == 'd';
    if WatermarkCacheKey(tenant, item, researcher, now, ext) == DocumentKey(tenant', item', file) {
      KeySegments(tenant, "watermark-cache/" + r, tenant', "documents/" + r');
      assert false;
    }
  }

  // ---------------------------------------------------------- the cleanup loop

  datatype JobStatus = Pending | Processing | Done | Failed

  datatype WatermarkJob = WatermarkJob(tenant: Id, item: Id, researcher: Id, status: JobStatus,
                                       storagePath: Option<string>, expiresAt: int)

  type Objects = map<string, seq<bv8>>

  /** Which of the run's deletions fail: of the object recorded by a job, of the job's row. */
  datatype Failures = Failures(objects: set<Id>, rows: set<Id>)

  function RecordedKey(bucket: string, job: WatermarkJob): Result<string, StorageError>
    requires job.storagePath.Some?
  {
    KeyFromStoragePath(bucket, job.storagePath.value)
  }

  /** A truthy path: the empty string is as good as none. */
  predicate HasObject(job: WatermarkJob) {
    job.storagePath.Some? && job.storagePath.value != ""
  }

  predicate ObjectDeleted(bucket: string, id: Id, job: WatermarkJob, f: Failures) {
    HasObject(job) && RecordedKey(bucket, job).Ok? && id !in f.objects
  }

  predicate RowDeleted(bucket: string, id: Id, job: WatermarkJob, f: Failures) {
    (HasObject(job) ==> ObjectDeleted(bucket, id, job, f)) && id !in f.rows
  }

  function Ids(listed: seq<Id>): set<Id> {
    set id | id in listed
  }

  /** The keys a cleanup of `ids` deletes, each judged by its own job. */
  function DeletedKeys(bucket: string, jobs: map<Id, WatermarkJob>, ids: set<Id>, f: Failures): set<string> {
    set id | id in ids && id in jobs && ObjectDeleted(bucket, id, jobs[id], f) :: RecordedKey(bucket, jobs[id]).value
  }

  function DeletedRows(bucket: string, jobs: map<Id, WatermarkJob>, ids: set<Id>, f: Failures): set<Id> {
    set id | id in ids && id in jobs && RowDeleted(bucket, id, jobs[id], f)
  }

  /** A bucket and the job table, as the storage and cleanup services change them. */
  class WatermarkStore {
    const bucket: string
    var objects: Objects
    var jobs: map<Id, WatermarkJob>

    constructor (bucket: string)
      ensures this.bucket == bucket && objects == map[] && jobs == map[]
    {
      this.bucket, objects, jobs := bucket, map[], map[];
    }

    method Put(key: string, body: seq<bv8>) returns (path: string)
      modifies this`objects
      ensures objects == old(objects)[key := body]
      ensures KeyFromStoragePath(bucket, path) == Ok(key)
    {
      objects := objects[key := body];
      path := StoragePath(bucket, key);
      StripInverts(bucket, path, key);
    }

    method Upload(tenant: Id, item: Id, file: string, body: seq<bv8>) returns (path: string)
      modifies this`objects
      ensures objects == old(objects)[DocumentKey(tenant, item, file) := body]
      ensures KeyFromStoragePath(bucket, path) == Ok(DocumentKey(tenant, item, file))
    {
      path := Put(DocumentKey(tenant, item, file), body);
    }

    /** Deleting an object that is not there succeeds; `fails` is the object store refusing. */
    method DeleteRaw(path: string, fails: bool) returns (r: Result<string, StorageError>)
      modifies this`objects
      ensures r == match KeyFromStoragePath(bucket, path)
                   case Err(e) => Err(e)
                   case Ok(key) => if fails then Err(DeleteFailed) else Ok(key)
      ensures objects == if r.Ok? then old(objects) - {r.value} else old(objects)
    {
      var key := KeyFromStoragePath(bucket, path);
      if key.Err? {
        return Err(key.error);
      }
      if fails {
        return Err(DeleteFailed);
      }
      objects := objects - {key.value};
      return Ok(key.value);
    }

    /**
      The cleanup run over the expired jobs, in whatever order they were read. A
      failure stops the work on its own job only.
    */
    method Run(expired: seq<Id>, f: Failures, now: int)
      requires forall id :: id in expired <==> id in jobs && jobs[id].expiresAt <= now
      requires forall i, j | 0 <= i < j < |expired| :: expired[i] != expired[j]
      modifies this`objects, this`jobs
      ensures forall id | id in old(jobs) && old(jobs)[id].expiresAt > now :: id in jobs && jobs[id] == old(jobs)[id]
      ensures var ids := Ids(expired);
              && objects == old(objects) - DeletedKeys(bucket, old(jobs), ids, f)
              && jobs == old(jobs) - DeletedRows(bucket, old(jobs), ids, f)
    {
      ghost var before := jobs;
      for i := 0 to |expired|
        invariant objects == old(objects) - DeletedKeys(bucket, before, Ids(expired[..i]), f)
        invariant jobs == before - DeletedRows(bucket, before, Ids(expired[..i]), f)
      {
        var id := expired[i];
        assert id in expired;
        assert id !in Ids(expired[..i]);
        OneMore(bucket, before, expired, i, f);
        var job := jobs[id];
        var cleared := true;
        if job.storagePath.Some? && job.storagePath.value != "" {
          var deleted := DeleteRaw(job.storagePath.value, id in f.objects);
          cleared := deleted.Ok?;
        }
        if cleared && id !in f.rows {
          jobs := jobs - {id};
        }
      }
      assert expired[..|expired|] == expired;
    }
  }

  /**
    What a cleanup deletes, job by job: the objects recorded by its jobs under a path
    of this bucket whose deletion is not refused; and the rows of those, and of the
    jobs that record none, unless the row's own deletion fails.
  */
  lemma CleanupMeans(bucket: string, jobs: map<Id, WatermarkJob>, ids: set<Id>, f: Failures)
    ensures forall key :: key in DeletedKeys(bucket, jobs, ids, f) <==>
              exists id :: id in ids && id in jobs && id !in f.objects
                           && jobs[id].storagePath == Some(StoragePath(bucket, key))
    ensures forall id :: id in DeletedRows(bucket, jobs, ids, f) <==>
              && id in ids && id in jobs && id !in f.rows
              && (|| jobs[id].storagePath == None || jobs[id].storagePath == Some("")
                  || (id !in f.objects && exists key :: jobs[id].storagePath == Some(StoragePath(bucket, key))))
  {
    forall key ensures key in DeletedKeys(bucket, jobs, ids, f) <==>
      exists id :: id in ids && id in jobs && id !in f.objects && jobs[id].storagePath == Some(StoragePath(bucket, key))
    {
      forall id | id in ids && id in jobs && jobs[id].storagePath.Some? ensures
        KeyFromStoragePath(bucket, jobs[id].storagePath.value) == Ok(key) <==>
        jobs[id].storagePath.value == StoragePath(bucket, key)
      {
        StripInverts(bucket, jobs[id].storagePath.value, key);
      }
      assert StoragePath(bucket, key) != "";
    }
    forall id | id in ids && id in jobs && jobs[id].storagePath.Some?
      ensures KeyFromStoragePath(bucket, jobs[id].storagePath.value).Ok? <==>
              exists key :: jobs[id].storagePath == Some(StoragePath(bucket, key))
    {
      StripInverts(bucket, jobs[id].storagePath.value, "");
      if KeyFromStoragePath(bucket, jobs[id].storagePath.value).Ok? {
        var key := KeyFromStoragePath(bucket, jobs[id].storagePath.value).value;
        StripInverts(bucket, jobs[id].storagePath.value, key);
        assert jobs[id].storagePath == Some(StoragePath(bucket, key));
      }
    }
  }

  lemma OneMore(bucket: string, jobs: map<Id, WatermarkJob>, expired: seq<Id>, i: nat, f: Failures)
    requires i < |expired| && expired[i] in jobs
    ensures var ids, id := Ids(expired[..i]), expired[i];
            && DeletedKeys(bucket, jobs, Ids(expired[..i + 1]), f) ==
               DeletedKeys(bucket, jobs, ids, f) +
                   (if ObjectDeleted(bucket, id, jobs[id], f) then {RecordedKey(bucket, jobs[id]).value} else {})
            && DeletedRows(bucket, jobs, Ids(expired[..i + 1]), f) ==
               DeletedRows(bucket, jobs, ids, f) + (if RowDeleted(bucket, id, jobs[id], f) then {id} else {})
  {
    assert expired[..i + 1] == expired[..i] + [expired[i]];
    assert Ids(expired[..i + 1]) == Ids(expired[..i]) + {expired[i]};
  }
}
