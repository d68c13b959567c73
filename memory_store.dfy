/**
 * The in-memory job store (services/config-server/internal/pkg/jobmanager/memory_store.go).
 * A job is a value, so the copies `copyJob` makes on the way in and out are implicit: no caller
 * can reach a stored job.  Go's randomised map iteration is an arbitrary choice of the next key.
 */
module JobMemoryStore {
  import opened Wrappers
  import opened JobTypes
  import opened Seqs

  datatype StoreError = ErrJobAlreadyExists | ErrJobNotFound

  /** `statusMatches`: whether the status occurs in the list. */
  function StatusMatches(status: JobStatus, list: seq<JobStatus>): (b: bool)
    ensures b <==> status in list
  {
    if list == [] then false
    else if status == list[0] then true
    else StatusMatches(status, list[1..])
  }

  /** The type and status filters of `List`. */
  predicate Matches(j: Job, opts: ListOptions) {
    (opts.jobType == "" || j.jobType == opts.jobType)
    && (|opts.statuses| == 0 || StatusMatches(j.status, opts.statuses))
  }

  /** The order `List` sorts by: oldest first, or newest first by default. */
  predicate Precedes(a: Job, b: Job, oldestFirst: bool) {
    if oldestFirst then a.createdAt <= b.createdAt else a.createdAt >= b.createdAt
  }

  predicate SortedBy(s: seq<Job>, oldestFirst: bool) {
    forall i, k :: 0 <= i < k < |s| ==> Precedes(s[i], s[k], oldestFirst)
  }

  /** Inserts `j` before the first job it precedes. */
  function Insert(j: Job, s: seq<Job>, oldestFirst: bool): (r: seq<Job>)
    ensures multiset(r) == multiset(s) + multiset{j}
    ensures |r| == |s| + 1
  {
    if s == [] then [j]
    else if Precedes(j, s[0], oldestFirst) then [j] + s
    else
      assert s == [s[0]] + s[1..];
      [s[0]] + Insert(j, s[1..], oldestFirst)
  }

  lemma {:induction false} InsertSorted(j: Job, s: seq<Job>, oldestFirst: bool)
    requires SortedBy(s, oldestFirst)
    ensures SortedBy(Insert(j, s, oldestFirst), oldestFirst)
  {
    if s != [] && !Precedes(j, s[0], oldestFirst) {
      var rest := Insert(j, s[1..], oldestFirst);
      SortedTail(s, oldestFirst);
      InsertSorted(j, s[1..], oldestFirst);
      InsertAfterHead(j, s, oldestFirst);
      SortedCons(s[0], rest, oldestFirst);
    }
  }

  lemma SortedTail(s: seq<Job>, oldestFirst: bool)
    requires s != [] && SortedBy(s, oldestFirst)
    ensures SortedBy(s[1..], oldestFirst)
  {
    forall i, k | 0 <= i < k < |s| - 1 ensures Precedes(s[1..][i], s[1..][k], oldestFirst) {
      assert s[1..][i] == s[i + 1] && s[1..][k] == s[k + 1];
    }
  }

  /** When `j` goes after the head of a sorted list, the head precedes everything after it. */
  lemma InsertAfterHead(j: Job, s: seq<Job>, oldestFirst: bool)
    requires s != [] && SortedBy(s, oldestFirst) && !Precedes(j, s[0], oldestFirst)
    ensures forall x :: x in Insert(j, s[1..], oldestFirst) ==> Precedes(s[0], x, oldestFirst)
  {
    var rest := Insert(j, s[1..], oldestFirst);
    forall x | x in rest ensures Precedes(s[0], x, oldestFirst) {
      assert x in multiset(rest);
      if x != j {
        assert x in multiset(s[1..]);
        var k :| 0 <= k < |s[1..]| && s[1..][k] == x;
        assert s[k + 1] == x;
      }
    }
  }

  /** A head that precedes every job of a sorted tail makes a sorted list. */
  lemma SortedCons(h: Job, t: seq<Job>, oldestFirst: bool)
    requires SortedBy(t, oldestFirst) && forall x :: x in t ==> Precedes(h, x, oldestFirst)
    ensures SortedBy([h] + t, oldestFirst)
  {
    var r := [h] + t;
    forall a, b | 0 <= a < b < |r| ensures Precedes(r[a], r[b], oldestFirst) {
      if a == 0 { assert r[b] == t[b - 1]; assert r[b] in t; }
      else { assert r[a] == t[a - 1] && r[b] == t[b - 1]; }
    }
  }

  /** The `sort.Slice` by creation time: an ordered permutation of `s`. */
  function SortJobs(s: seq<Job>, oldestFirst: bool): (r: seq<Job>)
    ensures SortedBy(r, oldestFirst)
    ensures multiset(r) == multiset(s) && |r| == |s|
  {
    if s == [] then []
    else
      assert s == s[..|s| - 1] + [s[|s| - 1]];
      var sorted := SortJobs(s[..|s| - 1], oldestFirst);
      InsertSorted(s[|s| - 1], sorted, oldestFirst);
      Insert(s[|s| - 1], sorted, oldestFirst)
  }

  /** How many jobs `List` keeps of `n` matches after the offset and the limit. */
  function PageLength(n: nat, offset: int, limit: int): (m: nat)
    ensures m <= n
    ensures offset > 0 && offset >= n ==> m == 0
    ensures limit > 0 ==> m <= limit
    ensures offset <= 0 && limit <= 0 ==> m == n
  {
    var afterOffset := if offset > 0 then (if offset >= n then 0 else n - offset) else n;
    if limit > 0 && limit < afterOffset then limit else afterOffset
  }

  lemma SameElements(s: seq<Job>, t: seq<Job>)
    requires multiset(s) == multiset(t)
    ensures forall x :: x in t ==> x in s
  {
    forall x | x in t ensures x in s {
      assert x in multiset(t);
    }
  }

  /** A window of an ordered sequence without repeats is ordered and without repeats. */
  lemma SliceKeeps(s: seq<Job>, a: nat, b: nat, oldestFirst: bool)
    requires a <= b <= |s| && Distinct(s) && SortedBy(s, oldestFirst)
    ensures Distinct(s[a..b]) && SortedBy(s[a..b], oldestFirst)
    ensures forall x :: x in s[a..b] ==> x in s
  {
    assert forall i :: 0 <= i < b - a ==> s[a..b][i] == s[a + i];
  }

  /** The page `List` keeps of `s`: the jobs after `offset`, then at most `limit` of them. */
  function Window(s: seq<Job>, offset: int, limit: int): seq<Job> {
    var rest := if offset > 0 then (if offset >= |s| then [] else s[offset..]) else s;
    if limit > 0 && limit < |rest| then rest[..limit] else rest
  }

  /** The page of an ordered list without repeats is ordered, without repeats, drawn from it and of the page length. */
  lemma WindowKeeps(s: seq<Job>, offset: int, limit: int, oldestFirst: bool)
    requires Distinct(s) && SortedBy(s, oldestFirst)
    ensures var w := Window(s, offset, limit);
      && Distinct(w) && SortedBy(w, oldestFirst) && (forall x :: x in w ==> x in s)
      && |w| == PageLength(|s|, offset, limit)
  {
    var a := if offset > 0 then (if offset >= |s| then |s| else offset) else 0;
    SliceKeeps(s, a, |s|, oldestFirst);
    var rest := s[a..];
    if limit > 0 && limit < |rest| {
      SliceKeeps(rest, 0, limit, oldestFirst);
    }
  }

  /** `MemoryStore`: the job map keyed by job ID. */
  class MemoryStore {
    var jobs: map<string, Job>

    /** Every job is stored under its own ID. */
    ghost predicate Valid()
      reads this
    {
      forall id :: id in jobs ==> jobs[id].id == id
    }

    /** Every job of `s` is the stored job under its ID and passes the filters of `opts`. */
    ghost predicate Listed(s: seq<Job>, opts: ListOptions)
      reads this
    {
      forall j :: j in s ==> j.id in jobs && jobs[j.id] == j && Matches(j, opts)
    }

    /** The IDs of the stored jobs that pass the filters of `opts`. */
    ghost function MatchingIds(opts: ListOptions): set<string>
      reads this
    {
      set id | id in jobs && Matches(jobs[id], opts)
    }

    /** `NewMemoryStore`. */
    constructor ()
      ensures jobs == map[] && Valid()
    {
      jobs := map[];
    }

    /** `Save`: stores a new job; an ID already present is refused. */
    method Save(job: Job) returns (err: Option<StoreError>)
      requires Valid()
      modifies this
      ensures Valid()
      ensures old(job.id in jobs) ==> err == Some(ErrJobAlreadyExists) && jobs == old(jobs)
      ensures old(job.id !in jobs) ==> err.None? && jobs == old(jobs)[job.id := job]
    {
      if job.id in jobs {
        return Some(ErrJobAlreadyExists);
      }
      jobs := jobs[job.id := job];
      return None;
    }

    /** `Get`. */
    method Get(id: string) returns (r: Option<Job>, err: Option<StoreError>)
      ensures id in jobs ==> r == Some(jobs[id]) && err.None?
      ensures id !in jobs ==> r.None? && err == Some(ErrJobNotFound)
    {
      if id !in jobs {
        return None, Some(ErrJobNotFound);
      }
      return Some(jobs[id]), None;
    }

    /** `Update`: replaces a stored job; an unknown ID is refused. */
    method Update(job: Job) returns (err: Option<StoreError>)
      requires Valid()
      modifies this
      ensures Valid()
      ensures old(job.id !in jobs) ==> err == Some(ErrJobNotFound) && jobs == old(jobs)
      ensures old(job.id in jobs) ==> err.None? && jobs == old(jobs)[job.id := job]
    {
      if job.id !in jobs {
        return Some(ErrJobNotFound);
      }
      jobs := jobs[job.id := job];
      return None;
    }

    /** `Delete`. */
    method Delete(id: string) returns (err: Option<StoreError>)
      requires Valid()
      modifies this
      ensures Valid()
      ensures old(id !in jobs) ==> err == Some(ErrJobNotFound) && jobs == old(jobs)
      ensures old(id in jobs) ==> err.None? && jobs == old(jobs) - {id}
    {
      if id !in jobs {
        return Some(ErrJobNotFound);
      }
      jobs := jobs - {id};
      return None;
    }

    /** The filter loop of `List`: every matching job once, in the order the keys were drawn. */
    method Matching(opts: ListOptions) returns (ms: seq<Job>)
      requires Valid()
      ensures Listed(ms, opts) && Distinct(ms)
      ensures |ms| == |MatchingIds(opts)|
    {
      ms := [];
      ghost var ids: set<string> := {};
      var js := jobs;
      var rest := js.Keys;
      while rest != {}
        invariant rest <= js.Keys && ids <= js.Keys - rest
        invariant forall id :: id in js.Keys - rest ==> (id in ids <==> Matches(js[id], opts))
        invariant forall j :: j in ms ==> j.id in ids && js[j.id] == j && Matches(j, opts)
        invariant Distinct(ms) && |ms| == |ids|
        decreases |rest|
      {
        var id :| id in rest;
        rest := rest - {id};
        var job := js[id];
        if (opts.jobType == "" || job.jobType == opts.jobType)
           && (|opts.statuses| == 0 || StatusMatches(job.status, opts.statuses))
        {
          assert job.id == id && id !in ids;
          DistinctSnoc(ms, job);
          ms := ms + [job];
          ids := ids + {id};
        }
      }
      assert ids == MatchingIds(opts);
    }

    /**
     * `List`: the matching jobs sorted by creation time, then the window after `offset` of at
     * most `limit` jobs (a non-positive offset or limit does not apply).
     */
    method List(opts: ListOptions) returns (result: seq<Job>)
      requires Valid()
      ensures Listed(result, opts) && Distinct(result) && SortedBy(result, opts.oldestFirst)
      ensures |result| == PageLength(|MatchingIds(opts)|, opts.offset, opts.limit)
      ensures exists s :: Listed(s, opts) && Distinct(s) && |s| == |MatchingIds(opts)| && SortedBy(s, opts.oldestFirst)
                          && result == Window(s, opts.offset, opts.limit)
    {
      var ms := Matching(opts);
      var sorted := SortJobs(ms, opts.oldestFirst);
      DistinctPermutation(ms, sorted);
      SameElements(ms, sorted);
      WindowKeeps(sorted, opts.offset, opts.limit, opts.oldestFirst);
      result := sorted;
      if opts.offset > 0 {
        if opts.offset >= |result| {
          return [];
        }
        result := result[opts.offset..];
      }
      if opts.limit > 0 && opts.limit < |result| {
        result := result[..opts.limit];
      }
      assert result == Window(sorted, opts.offset, opts.limit);
    }

    /** `GetRunningByType`: some pending or running job of the type, if there is one. */
    method GetRunningByType(jobType: string) returns (r: Option<Job>)
      requires Valid()
      ensures r.Some? ==> r.value.id in jobs && jobs[r.value.id] == r.value
                          && r.value.jobType == jobType
                          && (r.value.status == StatusPending || r.value.status == StatusRunning)
      ensures r.None? ==> forall id :: id in jobs && jobs[id].jobType == jobType
                                       ==> jobs[id].status != StatusPending && jobs[id].status != StatusRunning
    {
      var rest := jobs.Keys;
      while rest != {}
        invariant rest <= jobs.Keys
        invariant forall id :: id in jobs.Keys - rest && jobs[id].jobType == jobType
                               ==> jobs[id].status != StatusPending && jobs[id].status != StatusRunning
        decreases |rest|
      {
        var id :| id in rest;
        rest := rest - {id};
        var job := jobs[id];
        if job.jobType == jobType && (job.status == StatusPending || job.status == StatusRunning) {
          return Some(job);
        }
      }
      return None;
    }

    /** `DeleteExpired`: removes the terminal jobs that ended before `before`; returns how many. */
    method DeleteExpired(before: int) returns (count: nat)
      requires Valid()
      modifies this
      ensures Valid()
      ensures forall id :: id in jobs <==> id in old(jobs) && !Expired(old(jobs)[id], before)
      ensures forall id :: id in jobs ==> jobs[id] == old(jobs)[id]
      ensures count == |old(jobs)| - |jobs|
    {
      ghost var jobs0 := jobs;
      count := 0;
      var rest := jobs.Keys;
      while rest != {}
        invariant rest <= jobs.Keys <= jobs0.Keys
        invariant forall id :: id in jobs ==> jobs[id] == jobs0[id]
        invariant forall id :: id in jobs0 && id !in rest ==> (id in jobs <==> !Expired(jobs0[id], before))
        invariant count + |jobs| == |jobs0|
        invariant Valid()
        decreases |rest|
      {
        var id :| id in rest;
        rest := rest - {id};
        var job := jobs[id];
        if !IsTerminal(job.status) {
          continue;
        }
        if job.endedAt.Some? && job.endedAt.value < before {
          assert (jobs - {id}).Keys == jobs.Keys - {id};
          jobs := jobs - {id};
          count := count + 1;
        }
      }
    }

    /** `Count`. */
    method Count() returns (n: nat)
      ensures n == |jobs|
    {
      return |jobs|;
    }

    /** `Close`: drops every job. */
    method Close()
      modifies this
      ensures jobs == map[] && Valid()
    {
      jobs := map[];
    }
  }

  /** The jobs `DeleteExpired` removes. */
  predicate Expired(j: Job, before: int) {
    IsTerminal(j.status) && j.endedAt.Some? && j.endedAt.value < before
  }

  /** A saved job reads back unchanged, and a second save of its ID is refused. */
  method SaveThenGet(store: MemoryStore, job: Job) returns (r: Option<Job>, again: Option<StoreError>)
    requires store.Valid() && job.id !in store.jobs
    modifies store
    ensures r == Some(job) && again == Some(ErrJobAlreadyExists)
    ensures store.jobs == old(store.jobs)[job.id := job]
  {
    var err := store.Save(job);
    var _ := store.Save(job);
    again := store.Save(job);
    var e;
    r, e := store.Get(job.id);
  }
}
