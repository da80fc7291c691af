/** The file-based job queue: one queue directory and one processing directory per pool.

    A directory is the list of its entries in the order `os.ReadDir` returns them (by file
    name), and a pool whose directory has not been created is absent from the map. A job file
    holds the job itself, so reading a claimed file back yields the job that was enqueued; a
    `.json` file that does not decode as a job is an `OtherFile`. */
module FsQueue {
  import opened Text

  /** A job; its payload is a string-keyed JSON object. */
  datatype Job = Job(id: string, taskId: string, poolId: string, payload: map<string, string>)

  /** What an entry is; a directory records only whether it has entries of its own, which
      decides whether `os.Remove` can delete it. */
  datatype Kind = Directory(empty: bool) | JobFile(job: Job) | OtherFile

  datatype Entry = Entry(name: string, kind: Kind)

  datatype QueueError =
    | WriteFailed        // "failed to write job file"
    | ClaimFailed        // "failed to claim job (move)"
    | UnmarshalFailed    // "failed to unmarshal job"
    | RemoveFailed       // "failed to remove completed job file"

  const JsonExt := ".json"

  // ---------------------------------------------------------------------------------------
  // Paths

  function NonEmpty(parts: seq<string>): (r: seq<string>)
    ensures forall p :: p in r <==> p in parts && p != ""
  {
    if parts == [] then []
    else (if parts[0] == "" then [] else [parts[0]]) + NonEmpty(parts[1..])
  }

  /** `filepath.Join` of path components that need no cleaning: the non-empty ones, joined by
      a slash. */
  function JoinPath(parts: seq<string>): string {
    Join(NonEmpty(parts), "/")
  }

  /** `<ws>/ipc/queue/<pool>`. */
  function QueueDir(workspaceDir: string, poolId: string): (r: string)
    ensures workspaceDir != "" && poolId != "" ==> r == workspaceDir + "/ipc/queue/" + poolId
  {
    var path := JoinPath([workspaceDir, "ipc", "queue", poolId]);
    if workspaceDir != "" && poolId != "" then JoinFour(workspaceDir, "ipc", "queue", poolId); path
    else path
  }

  /** `<ws>/ipc/processing/<pool>`. */
  function ProcessingDir(workspaceDir: string, poolId: string): (r: string)
    ensures workspaceDir != "" && poolId != "" ==> r == workspaceDir + "/ipc/processing/" + poolId
  {
    var path := JoinPath([workspaceDir, "ipc", "processing", poolId]);
    if workspaceDir != "" && poolId != "" then JoinFour(workspaceDir, "ipc", "processing", poolId); path
    else path
  }

  lemma {:induction false} NonEmptyKeeps(parts: seq<string>)
    requires forall p :: p in parts ==> p != ""
    ensures NonEmpty(parts) == parts
  {
    if parts != [] {
      assert forall p :: p in parts[1..] ==> p in parts;
      NonEmptyKeeps(parts[1..]);
      assert parts[0] in parts;
      assert parts == [parts[0]] + parts[1..];
    }
  }

  lemma JoinFour(a: string, b: string, c: string, d: string)
    requires a != "" && b != "" && c != "" && d != ""
    ensures JoinPath([a, b, c, d]) == a + "/" + b + "/" + c + "/" + d
  {
    NonEmptyKeeps([a, b, c, d]);
    assert [a, b, c, d][1..] == [b, c, d];
    assert [b, c, d][1..] == [c, d];
    assert [c, d][1..] == [d];
    assert Join([c, d], "/") == c + "/" + d;
    assert Join([b, c, d], "/") == b + "/" + (c + "/" + d);
    assert Join([a, b, c, d], "/") == a + "/" + (b + "/" + (c + "/" + d));
  }

  /** The queue and processing directories are `<ws>/ipc/queue/<pool>` and
      `<ws>/ipc/processing/<pool>`, so they never coincide. */
  lemma DirShapes(workspaceDir: string, poolId: string, otherPool: string)
    requires workspaceDir != "" && poolId != "" && otherPool != ""
    ensures QueueDir(workspaceDir, poolId) == workspaceDir + "/ipc/queue/" + poolId
    ensures ProcessingDir(workspaceDir, poolId) == workspaceDir + "/ipc/processing/" + poolId
    ensures QueueDir(workspaceDir, poolId) != ProcessingDir(workspaceDir, otherPool)
  {
    JoinFour(workspaceDir, "ipc", "queue", poolId);
    JoinFour(workspaceDir, "ipc", "processing", poolId);
    JoinFour(workspaceDir, "ipc", "processing", otherPool);
    var q := QueueDir(workspaceDir, poolId);
    var p := ProcessingDir(workspaceDir, otherPool);
    assert q[|workspaceDir| + 5] == 'q';
    assert p[|workspaceDir| + 5] == 'p';
  }

  // ---------------------------------------------------------------------------------------
  // Name order

  /** Byte-wise string order, as `os.ReadDir` sorts entries. */
  predicate Below(a: string, b: string)
    decreases |a|
  {
    if a == [] then b != []
    else if b == [] then false
    else a[0] < b[0] || (a[0] == b[0] && Below(a[1..], b[1..]))
  }

  lemma {:induction false} BelowIrreflexive(a: string)
    ensures !Below(a, a)
    decreases |a|
  {
    if a != [] {
      BelowIrreflexive(a[1..]);
    }
  }

  lemma {:induction false} BelowTransitive(a: string, b: string, c: string)
    requires Below(a, b) && Below(b, c)
    ensures Below(a, c)
    decreases |a|
  {
    if a != [] && a[0] == b[0] && b[0] == c[0] {
      BelowTransitive(a[1..], b[1..], c[1..]);
    }
  }

  lemma {:induction false} BelowTotal(a: string, b: string)
    ensures a == b || Below(a, b) || Below(b, a)
    decreases |a|
  {
    if a != [] && b != [] && a[0] == b[0] {
      BelowTotal(a[1..], b[1..]);
      if a[1..] == b[1..] {
        assert a == [a[0]] + a[1..] && b == [b[0]] + b[1..];
      }
    }
  }

  /** Entries strictly increase by name (so names are unique). */
  predicate Sorted(d: seq<Entry>) {
    forall i, j :: 0 <= i < j < |d| ==> Below(d[i].name, d[j].name)
  }

  // ---------------------------------------------------------------------------------------
  // Directory operations

  function Lookup(d: seq<Entry>, name: string): (r: Option<Entry>)
    ensures r.Some? ==> r.value in d && r.value.name == name
    ensures r.None? ==> forall e :: e in d ==> e.name != name
  {
    if d == [] then None
    else if d[0].name == name then Some(d[0])
    else Lookup(d[1..], name)
  }

  /** Writing (or renaming onto) a file name: the entry with that name, if any, is replaced,
      every other entry stays, and the name order is kept. */
  function Put(d: seq<Entry>, e: Entry): (r: seq<Entry>)
    requires Sorted(d)
    ensures Sorted(r)
    ensures forall x :: x in r <==> x == e || (x in d && x.name != e.name)
    decreases |d|
  {
    if d == [] then [e]
    else if d[0].name == e.name then
      assert forall x :: x in d[1..] ==> x.name != e.name by {
        forall j | 1 <= j < |d| ensures d[j].name != e.name {
          BelowIrreflexive(e.name);
        }
      }
      [e] + d[1..]
    else if Below(e.name, d[0].name) then
      assert forall x :: x in d ==> x.name != e.name && Below(e.name, x.name) by {
        forall j | 0 <= j < |d| ensures d[j].name != e.name && Below(e.name, d[j].name) {
          if j > 0 {
            BelowTransitive(e.name, d[0].name, d[j].name);
          }
          BelowIrreflexive(e.name);
        }
      }
      [e] + d
    else
      BelowTotal(e.name, d[0].name);
      var rest := Put(d[1..], e);
      assert forall x :: x in rest ==> Below(d[0].name, x.name);
      [d[0]] + rest
  }

  /** Removing a file name: every entry with another name stays, in order. */
  function Remove(d: seq<Entry>, name: string): (r: seq<Entry>)
    requires Sorted(d)
    ensures Sorted(r)
    ensures forall x :: x in r <==> x in d && x.name != name
    ensures Lookup(d, name).Some? ==> |r| == |d| - 1
    ensures Lookup(d, name).None? ==> r == d
  {
    if d == [] then []
    else if d[0].name == name then
      assert forall x :: x in d[1..] ==> x.name != name by {
        forall j | 1 <= j < |d| ensures d[j].name != name {
          BelowIrreflexive(name);
        }
      }
      d[1..]
    else [d[0]] + Remove(d[1..], name)
  }

  /** A job entry: a regular file with the `.json` extension. */
  predicate IsJobEntry(e: Entry) {
    !e.kind.Directory? && HasSuffix(e.name, JsonExt)
  }

  /** The position of the first job entry, i.e. the one `Dequeue` claims. */
  function FirstJobEntry(d: seq<Entry>): (r: Option<nat>)
    ensures r.Some? ==> r.value < |d| && IsJobEntry(d[r.value]) &&
                        forall j :: 0 <= j < r.value ==> !IsJobEntry(d[j])
    ensures r.None? ==> forall j :: 0 <= j < |d| ==> !IsJobEntry(d[j])
  {
    if d == [] then None
    else if IsJobEntry(d[0]) then Some(0)
    else match FirstJobEntry(d[1..])
      case None => None
      case Some(k) => Some(k + 1)
  }

  /** The ids `ListJobs` reports: the job entries' names without the extension, in order. */
  function JobIds(d: seq<Entry>): (r: seq<string>)
    ensures |r| <= |d|
  {
    if d == [] then []
    else
      var n := |d| - 1;
      JobIds(d[..n]) + (if IsJobEntry(d[n]) then [d[n].name[..|d[n].name| - |JsonExt|]] else [])
  }

  predicate AllSorted(dirs: map<string, seq<Entry>>) {
    forall p :: p in dirs ==> Sorted(dirs[p])
  }

  /** The entries of a pool's directory; none when it has not been created. */
  function DirOf(dirs: map<string, seq<Entry>>, poolId: string): seq<Entry> {
    if poolId in dirs then dirs[poolId] else []
  }

  /** A directory sits where the file would be written. */
  predicate Blocked(d: seq<Entry>, name: string) {
    Lookup(d, name).Some? && Lookup(d, name).value.kind.Directory?
  }

  /** The queue directories after `Enqueue(job)`, and its error: the pool's directory is
      created if needed, then `<id>.json` is written there unless a directory has that name.
      Other pools are untouched. */
  function EnqueueInto(dirs: map<string, seq<Entry>>, job: Job): (r: (map<string, seq<Entry>>, Option<QueueError>))
    requires AllSorted(dirs)
    ensures AllSorted(r.0) && job.poolId in r.0
    ensures forall p :: p != job.poolId ==> (p in r.0 <==> p in dirs) && (p in dirs ==> r.0[p] == dirs[p])
    ensures r.1.None? <==> !Blocked(DirOf(dirs, job.poolId), job.id + JsonExt)
    ensures r.1.Some? ==> r.1 == Some(WriteFailed) && r.0[job.poolId] == DirOf(dirs, job.poolId)
    ensures r.1.None? ==> Lookup(r.0[job.poolId], job.id + JsonExt) == Some(Entry(job.id + JsonExt, JobFile(job)))
  {
    var d := DirOf(dirs, job.poolId);
    var name := job.id + JsonExt;
    if Blocked(d, name) then (dirs[job.poolId := d], Some(WriteFailed))
    else (dirs[job.poolId := Put(d, Entry(name, JobFile(job)))], None)
  }

  // ---------------------------------------------------------------------------------------
  // The queue

  class FilesystemQueue {
    const workspaceDir: string
    /** pool id -> entries of `<ws>/ipc/queue/<pool>`. */
    var queue: map<string, seq<Entry>>
    /** pool id -> entries of `<ws>/ipc/processing/<pool>`. */
    var processing: map<string, seq<Entry>>

    ghost predicate Valid()
      reads this
    {
      AllSorted(queue) && AllSorted(processing)
    }

    /** `NewFilesystemQueue`: no directory exists yet. */
    constructor(workspaceDir: string)
      ensures this.workspaceDir == workspaceDir && queue == map[] && processing == map[]
      ensures Valid()
    {
      this.workspaceDir := workspaceDir;
      queue, processing := map[], map[];
    }

    /** `Enqueue`. */
    method Enqueue(job: Job) returns (err: Option<QueueError>)
      requires Valid()
      modifies this
      ensures Valid()
      ensures (queue, err) == EnqueueInto(old(queue), job) && processing == old(processing)
    {
      var d := if job.poolId in queue then queue[job.poolId] else [];
      var name := job.id + JsonExt;
      var existing := Lookup(d, name);
      if existing.Some? && existing.value.kind.Directory? {
        queue := queue[job.poolId := d];
        return Some(WriteFailed);
      }
      queue := queue[job.poolId := Put(d, Entry(name, JobFile(job)))];
      return None;
    }

    /** `Dequeue`: claim the first job entry of the pool's queue by moving it into the pool's
        processing directory, then decode it. A missing or job-less queue yields no job and no
        error; a file that does not decode stays claimed and yields an error. */
    method Dequeue(poolId: string) returns (job: Option<Job>, err: Option<QueueError>)
      requires Valid()
      modifies this
      ensures Valid()
      ensures poolId !in old(queue) || FirstJobEntry(old(queue)[poolId]).None? ==>
                job == None && err == None && queue == old(queue) && processing == old(processing)
      ensures poolId in old(queue) && FirstJobEntry(old(queue)[poolId]).Some? ==>
                var d := old(queue)[poolId];
                var e := d[FirstJobEntry(d).value];
                var proc := if poolId in old(processing) then old(processing)[poolId] else [];
                if Lookup(proc, e.name).Some? && Lookup(proc, e.name).value.kind.Directory? then
                  job == None && err == Some(ClaimFailed) &&
                  queue == old(queue) && processing == old(processing)[poolId := proc]
                else
                  queue == old(queue)[poolId := Remove(d, e.name)] &&
                  processing == old(processing)[poolId := Put(proc, e)] &&
                  (if e.kind.JobFile? then job == Some(e.kind.job) && err == None
                   else job == None && err == Some(UnmarshalFailed))
    {
      if poolId !in queue {
        return None, None;
      }
      var entries := queue[poolId];
      var found := FindJobEntry(entries);
      if found.None? {
        return None, None;
      }
      var e := entries[found.value];
      var proc := if poolId in processing then processing[poolId] else [];
      var clash := Lookup(proc, e.name);
      if clash.Some? && clash.value.kind.Directory? {
        processing := processing[poolId := proc];
        return None, Some(ClaimFailed);
      }
      var claimed := Put(proc, e);
      queue := queue[poolId := Remove(entries, e.name)];
      processing := processing[poolId := claimed];
      if e.kind.JobFile? {
        return Some(e.kind.job), None;
      }
      return None, Some(UnmarshalFailed);
    }

    /** `Complete`: remove `<jobId>.json` from the pool's processing directory; a job that is
        already gone is not an error. `os.Remove` also deletes an empty directory of that
        name, and fails on a non-empty one. */
    method Complete(jobId: string, poolId: string) returns (err: Option<QueueError>)
      requires Valid()
      modifies this
      ensures Valid()
      ensures queue == old(queue)
      ensures var name := jobId + JsonExt;
              var proc := if poolId in old(processing) then old(processing)[poolId] else [];
              if Lookup(proc, name).None? then err == None && processing == old(processing)
              else if Lookup(proc, name).value.kind.Directory? && !Lookup(proc, name).value.kind.empty then
                err == Some(RemoveFailed) && processing == old(processing)
              else err == None && processing == old(processing)[poolId := Remove(proc, name)]
    {
      var name := jobId + JsonExt;
      if poolId !in processing {
        return None;
      }
      var proc := processing[poolId];
      var found := Lookup(proc, name);
      if found.None? {
        return None;
      }
      if found.value.kind.Directory? && !found.value.kind.empty {
        return Some(RemoveFailed);
      }
      processing := processing[poolId := Remove(proc, name)];
      return None;
    }

    /** `ListJobs`: the ids of the pool's pending jobs in name order; none for a missing
        queue directory. */
    method ListJobs(poolId: string) returns (ids: seq<string>)
      ensures ids == JobIds(if poolId in queue then queue[poolId] else [])
    {
      if poolId !in queue {
        return [];
      }
      var entries := queue[poolId];
      ids := [];
      var i := 0;
      while i < |entries|
        invariant 0 <= i <= |entries|
        invariant ids == JobIds(entries[..i])
      {
        assert entries[..i + 1][..i] == entries[..i];
        var e := entries[i];
        if !e.kind.Directory? && HasSuffix(e.name, JsonExt) {
          ids := ids + [e.name[..|e.name| - 5]];
        }
        i := i + 1;
      }
      assert entries[..|entries|] == entries;
    }
  }

  /** The entry loop of `Dequeue`: the first regular `.json` file. */
  method FindJobEntry(entries: seq<Entry>) returns (r: Option<nat>)
    ensures r == FirstJobEntry(entries)
  {
    var i := 0;
    while i < |entries|
      invariant 0 <= i <= |entries|
      invariant forall j :: 0 <= j < i ==> !IsJobEntry(entries[j])
    {
      var e := entries[i];
      if !e.kind.Directory? && HasSuffix(e.name, JsonExt) {
        return Some(i);
      }
      i := i + 1;
    }
    return None;
  }

  // ---------------------------------------------------------------------------------------
  // Properties

  /** The job `Dequeue` claims is the first job file in name order: its name is below every
      other job entry's. */
  lemma FirstJobIsLeast(d: seq<Entry>)
    requires Sorted(d) && FirstJobEntry(d).Some?
    ensures var i := FirstJobEntry(d).value;
            forall j :: 0 <= j < |d| && j != i && IsJobEntry(d[j]) ==> Below(d[i].name, d[j].name)
  {
  }

  /** `ListJobs` reports exactly the ids whose `<id>.json` is a job entry. */
  lemma {:induction false} JobIdsIff(d: seq<Entry>, id: string)
    ensures id in JobIds(d) <==> exists e :: e in d && IsJobEntry(e) && e.name == id + JsonExt
  {
    if d != [] {
      var n := |d| - 1;
      JobIdsIff(d[..n], id);
      assert d == d[..n] + [d[n]];
      var e := d[n];
      if IsJobEntry(e) {
        var stem := e.name[..|e.name| - |JsonExt|];
        assert e.name == stem + JsonExt;
        if e.name == id + JsonExt {
          assert stem == (id + JsonExt)[..|id|] == id;
        }
        if stem == id {
          assert e.name == id + JsonExt;
        }
      }
      forall x | x in d[..n] ensures x in d {}
      forall x | x in d ensures x in d[..n] || x == e {}
    }
  }

  /** An enqueued job is listed under its own id, and re-enqueueing the same id leaves one
      file holding the newer job. */
  lemma EnqueueListed(d: seq<Entry>, job: Job)
    requires Sorted(d)
    ensures var r := Put(d, Entry(job.id + JsonExt, JobFile(job)));
            job.id in JobIds(r) &&
            Lookup(r, job.id + JsonExt) == Some(Entry(job.id + JsonExt, JobFile(job))) &&
            forall e :: e in r && e.name == job.id + JsonExt ==> e.kind == JobFile(job)
  {
    var e := Entry(job.id + JsonExt, JobFile(job));
    var r := Put(d, e);
    assert HasSuffix(e.name, JsonExt) by {
      assert e.name[|e.name| - |JsonExt|..] == JsonExt;
    }
    JobIdsIff(r, job.id);
  }

  /** Claiming the first job moves it: the queue loses exactly that entry, and the processing
      directory holds it under its name. */
  lemma ClaimMoves(d: seq<Entry>, proc: seq<Entry>)
    requires Sorted(d) && Sorted(proc) && FirstJobEntry(d).Some?
    ensures var e := d[FirstJobEntry(d).value];
            |Remove(d, e.name)| == |d| - 1 &&
            e !in Remove(d, e.name) &&
            Lookup(Put(proc, e), e.name) == Some(e)
  {
    var e := d[FirstJobEntry(d).value];
    assert Lookup(d, e.name).Some?;
  }

  /** Enqueue then claim: in a pool with no other pending job, the next `Dequeue` claims the
      job just enqueued. */
  lemma EnqueueThenClaim(d: seq<Entry>, job: Job)
    requires Sorted(d) && forall x :: x in d ==> !IsJobEntry(x)
    ensures var e := Entry(job.id + JsonExt, JobFile(job));
            var r := Put(d, e);
            FirstJobEntry(r).Some? && r[FirstJobEntry(r).value] == e
  {
    var e := Entry(job.id + JsonExt, JobFile(job));
    var r := Put(d, e);
    assert HasSuffix(e.name, JsonExt) by {
      assert e.name[|e.name| - |JsonExt|..] == JsonExt;
    }
    assert e in r;
    var i :| 0 <= i < |r| && r[i] == e;
    var k := FirstJobEntry(r);
    assert r[k.value] in r;
  }

  /** Completing removes the name for good, so completing again changes nothing. */
  lemma CompleteIdempotent(d: seq<Entry>, name: string)
    requires Sorted(d)
    ensures Lookup(Remove(d, name), name).None?
    ensures Remove(Remove(d, name), name) == Remove(d, name)
  {
  }
}
