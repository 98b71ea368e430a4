/**
 The execution registry of src/execution.rs: how many records and how many
 output bytes are spoken for, by entries that exist and by starts that have
 reserved room but not yet an entry.
 */
module ExecutionRegistry {
  import opened Wrappers
  import Obs = ObservationLog

  type Uuid = Obs.Uuid

  const MAX_RECORDS: nat := 64
  const MAX_TOTAL_OUTPUT_BYTES: nat := 67_108_864
  const MAX_OUTPUT_BYTES: nat := 4_194_304

  datatype Status = Starting | Running | RootExited | Exited | Canceled | TimedOut | Failed | InterruptedHostRestart {
    predicate Finished() { Exited? || Canceled? || TimedOut? || Failed? || InterruptedHostRestart? }
  }

  /** `live` says that the entry has a process handle; a restored entry has none. */
  datatype Entry = Entry(budget: nat, startedAt: nat, status: Status, live: bool, rootExited: bool, activeProcesses: nat) {
    /** Only a finished record without a process may be evicted. */
    predicate Evictable() {
      status.Finished() && (!live || (rootExited && activeProcesses == 0))
    }
  }

  // --- Sums over entries --------------------------------------------------

  ghost function Total(m: map<Uuid, Entry>): nat
    decreases |m|
  {
    if m == map[] then 0
    else
      var k :| k in m;
      assert |m - {k}| < |m| by {
        assert (m - {k}).Keys == m.Keys - {k};
      }
      m[k].budget + Total(m - {k})
  }

  lemma {:induction false} TotalRemove(m: map<Uuid, Entry>, k: Uuid)
    requires k in m
    ensures Total(m) == m[k].budget + Total(m - {k})
    decreases |m|
  {
    var first :| first in m && Total(m) == m[first].budget + Total(m - {first});
    assert (m - {first}).Keys == m.Keys - {first};
    if first != k {
      TotalRemove(m - {first}, k);
      assert (m - {k}).Keys == m.Keys - {k};
      TotalRemove(m - {k}, first);
      assert m - {first} - {k} == m - {k} - {first};
    }
  }

  lemma TotalAdd(m: map<Uuid, Entry>, k: Uuid, entry: Entry)
    requires k !in m
    ensures Total(m[k := entry]) == entry.budget + Total(m) && |m[k := entry]| == |m| + 1
  {
    assert m[k := entry].Keys == m.Keys + {k};
    TotalRemove(m[k := entry], k);
    assert m[k := entry] - {k} == m;
  }

  /** What an entry is charged does not depend on how its process is doing. */
  lemma TotalOfChanged(m: map<Uuid, Entry>, k: Uuid, entry: Entry)
    requires k in m && entry.budget == m[k].budget
    ensures Total(m[k := entry]) == Total(m) && m[k := entry].Keys == m.Keys
  {
    TotalRemove(m, k);
    TotalRemove(m[k := entry], k);
    assert m[k := entry] - {k} == m - {k};
  }

  /** One look of the supervisor at a process that it still watches; a verdict ends the record. */
  function Sampled(entry: Entry, exited: bool, active: nat, verdict: Option<Status>): Entry {
    entry.(rootExited := exited, activeProcesses := active,
           status := if verdict.Some? then verdict.value else if exited then RootExited else entry.status)
  }

  /** A record becomes evictable exactly when the supervisor has given its verdict, and it has given none before the whole tree is gone. */
  lemma VerdictFrees(entry: Entry, exited: bool, active: nat, verdict: Option<Status>)
    requires entry.live && !entry.status.Finished()
    requires verdict.Some? ==> exited && active == 0 && verdict.value.Finished()
    ensures Sampled(entry, exited, active, verdict).Evictable() <==> verdict.Some?
    ensures !entry.Evictable()
  {}

  /** The records that eviction can never remove. */
  function Pinned(m: map<Uuid, Entry>): map<Uuid, Entry> {
    map k | k in m && !m[k].Evictable() :: m[k]
  }

  lemma PinnedAfterEviction(m: map<Uuid, Entry>, k: Uuid)
    requires k in m && m[k].Evictable()
    ensures Pinned(m - {k}) == Pinned(m)
  {}

  lemma PinnedIsLess(m: map<Uuid, Entry>)
    ensures |Pinned(m)| <= |m| && Total(Pinned(m)) <= Total(m)
    decreases |m|
  {
    if k :| k in m && m[k].Evictable() {
      PinnedAfterEviction(m, k);
      assert (m - {k}).Keys == m.Keys - {k};
      PinnedIsLess(m - {k});
      TotalRemove(m, k);
    } else {
      assert Pinned(m) == m;
    }
  }

  /** Whether one more record of a budget fits beside these entries. */
  ghost predicate Fits(m: map<Uuid, Entry>, pending: nat, reserved: nat, budget: nat) {
    |m| + pending < MAX_RECORDS && Total(m) + reserved + budget <= MAX_TOTAL_OUTPUT_BYTES
  }

  // --- Reservations -------------------------------------------------------

  ghost function Reserved(m: map<nat, nat>): nat
    decreases |m|
  {
    if m == map[] then 0
    else
      var k :| k in m;
      assert |m - {k}| < |m| by {
        assert (m - {k}).Keys == m.Keys - {k};
      }
      m[k] + Reserved(m - {k})
  }

  lemma {:induction false} ReservedRemove(m: map<nat, nat>, k: nat)
    requires k in m
    ensures Reserved(m) == m[k] + Reserved(m - {k})
    decreases |m|
  {
    var first :| first in m && Reserved(m) == m[first] + Reserved(m - {first});
    assert (m - {first}).Keys == m.Keys - {first};
    if first != k {
      ReservedRemove(m - {first}, k);
      assert (m - {k}).Keys == m.Keys - {k};
      ReservedRemove(m - {k}, first);
      assert m - {first} - {k} == m - {k} - {first};
    }
  }

  lemma ReservedAdd(m: map<nat, nat>, k: nat, budget: nat)
    requires k !in m
    ensures Reserved(m[k := budget]) == budget + Reserved(m)
  {
    ReservedRemove(m[k := budget], k);
    assert m[k := budget] - {k} == m;
  }

  // --- The registry -------------------------------------------------------

  datatype ReserveError = NotPersistentHost | ConnectionClosed | CapacityReached

  /** What eviction removed: only evictable records, oldest first, and no more than was needed. */
  ghost predicate OldestEvicted(before: map<Uuid, Entry>, after: map<Uuid, Entry>) {
    && after.Keys <= before.Keys
    && (forall k | k in after :: after[k] == before[k])
    && (forall k | k in before && k !in after ::
          && before[k].Evictable()
          && forall r | r in after && after[r].Evictable() :: before[k].startedAt <= after[r].startedAt)
  }

  ghost predicate NoMoreThanNeeded(before: map<Uuid, Entry>, after: map<Uuid, Entry>, pending: nat, reserved: nat, budget: nat) {
    after.Keys != before.Keys ==>
      exists k | k in before && k !in after :: !Fits(after[k := before[k]], pending, reserved, budget)
  }

  lemma AllPinned(m: map<Uuid, Entry>)
    requires forall k | k in m :: !m[k].Evictable()
    ensures Pinned(m) == m
  {}

  /** `id` is the oldest evictable record of `m`; among equals, the one with the least identifier. */
  ghost predicate IsOldest(m: map<Uuid, Entry>, id: Uuid) {
    && id in m && m[id].Evictable()
    && forall k | k in m && m[k].Evictable() ::
         m[id].startedAt < m[k].startedAt || (m[id].startedAt == m[k].startedAt && id <= k)
  }

  lemma EvictionStep(before: map<Uuid, Entry>, m: map<Uuid, Entry>, id: Uuid)
    requires OldestEvicted(before, m) && IsOldest(m, id)
    ensures OldestEvicted(before, m - {id})
  {}

  lemma LastWasNeeded(before: map<Uuid, Entry>, m: map<Uuid, Entry>, id: Uuid, pending: nat, reserved: nat, budget: nat)
    requires OldestEvicted(before, m) && id in m && !Fits(m, pending, reserved, budget)
    ensures NoMoreThanNeeded(before, m - {id}, pending, reserved, budget)
  {
    assert (m - {id})[id := before[id]] == m;
  }

  /** Conservation: every reserved byte and record belongs to an entry or an outstanding reservation. */
  ghost predicate Conserved(entries: map<Uuid, Entry>, outstanding: map<nat, nat>, pending: nat, budget: nat) {
    && budget == Total(entries) + Reserved(outstanding) <= MAX_TOTAL_OUTPUT_BYTES
    && pending == |outstanding|
    && |entries| + pending <= MAX_RECORDS
  }

  class Registry {
    const persistentHost: bool
    var entries: map<Uuid, Entry>
    var connections: map<Uuid, bool>
    var closed: bool
    var pending: nat
    var budget: nat
    var evicted: nat
    /** The reservations handed out and not yet committed or dropped. */
    ghost var outstanding: map<nat, nat>
    ghost var nextToken: nat

    ghost predicate Valid()
      reads this
    {
      Conserved(entries, outstanding, pending, budget) && forall token | token in outstanding :: token < nextToken
    }

    constructor (persistentHost: bool)
      ensures Valid() && this.persistentHost == persistentHost
      ensures entries == map[] && connections == map[] && outstanding == map[] && !closed && evicted == 0
    {
      this.persistentHost := persistentHost;
      entries, connections, closed := map[], map[], false;
      pending, budget, evicted := 0, 0, 0;
      outstanding, nextToken := map[], 0;
    }

    /** `connections` maps a connection to whether its token is canceled. */
    predicate ConnectionIsOpen(id: Uuid)
      reads this
    {
      !closed && id in connections && !connections[id]
    }

    /** The oldest evictable entry; among equals, the one with the least identifier. */
    method Oldest() returns (oldest: Option<Uuid>)
      ensures oldest.None? ==> forall k | k in entries :: !entries[k].Evictable()
      ensures oldest.Some? ==> IsOldest(entries, oldest.value)
    {
      oldest := None;
      var todo := entries.Keys;
      while todo != {}
        invariant todo <= entries.Keys
        invariant oldest.None? ==> forall k | k in entries && k !in todo :: !entries[k].Evictable()
        invariant oldest.Some? ==>
                    && oldest.value in entries && entries[oldest.value].Evictable()
                    && forall k | k in entries && k !in todo && entries[k].Evictable() ::
                         || entries[oldest.value].startedAt < entries[k].startedAt
                         || (entries[oldest.value].startedAt == entries[k].startedAt && oldest.value <= k)
        decreases todo
      {
        var k :| k in todo;
        todo := todo - {k};
        if entries[k].Evictable() {
          if oldest.None?
             || entries[k].startedAt < entries[oldest.value].startedAt
             || (entries[k].startedAt == entries[oldest.value].startedAt && k < oldest.value) {
            oldest := Some(k);
          }
        }
      }
    }

    /** Remove one finished record. */
    method Evict(id: Uuid)
      requires Valid() && id in entries
      modifies this`entries, this`budget, this`evicted
      ensures Valid()
      ensures entries == old(entries) - {id} && |entries| == |old(entries)| - 1
      ensures evicted == old(evicted) + 1
    {
      TotalRemove(entries, id);
      assert (entries - {id}).Keys == entries.Keys - {id};
      budget := budget - entries[id].budget;
      evicted := evicted + 1;
      entries := entries - {id};
    }

    /** The eviction loop of a reservation. */
    method MakeRoom(request: nat) returns (full: bool)
      requires Valid()
      modifies this`entries, this`budget, this`evicted
      ensures Valid()
      ensures evicted == old(evicted) + (|old(entries)| - |entries|)
      ensures OldestEvicted(old(entries), entries)
      ensures full <==> !Fits(Pinned(old(entries)), pending, Reserved(outstanding), request)
      ensures full ==> entries == Pinned(old(entries))
      ensures !full ==>
                && Fits(entries, pending, Reserved(outstanding), request)
                && NoMoreThanNeeded(old(entries), entries, pending, Reserved(outstanding), request)
    {
      while |entries| + pending >= MAX_RECORDS || budget + request > MAX_TOTAL_OUTPUT_BYTES
        invariant Valid()
        invariant evicted == old(evicted) + (|old(entries)| - |entries|)
        invariant OldestEvicted(old(entries), entries)
        invariant Pinned(entries) == Pinned(old(entries))
        invariant NoMoreThanNeeded(old(entries), entries, pending, Reserved(outstanding), request)
        decreases |entries|
      {
        var oldest := Oldest();
        if oldest.None? {
          AllPinned(entries);
          return true;
        }
        EvictionStep(old(entries), entries, oldest.value);
        LastWasNeeded(old(entries), entries, oldest.value, pending, Reserved(outstanding), request);
        PinnedAfterEviction(entries, oldest.value);
        Evict(oldest.value);
      }
      PinnedIsLess(entries);
      return false;
    }

    /**
     Reserve room for one more record, evicting finished ones. For capacity it
     fails exactly when the request would not fit even with every evictable
     record gone, and then they are gone.
     */
    method Reserve(connection: Uuid, lifetime: Obs.Lifetime, request: nat)
      returns (error: Option<ReserveError>, ghost token: nat)
      requires Valid()
      modifies this`entries, this`budget, this`evicted, this`pending, this`outstanding, this`nextToken
      ensures Valid()
      ensures evicted == old(evicted) + (|old(entries)| - |entries|)
      ensures OldestEvicted(old(entries), entries)
      ensures error == if lifetime == Obs.Persistent && !persistentHost then Some(NotPersistentHost)
                       else if old(closed || connection !in connections || connections[connection]) then Some(ConnectionClosed)
                       else if !Fits(Pinned(old(entries)), old(pending), Reserved(old(outstanding)), request) then Some(CapacityReached)
                       else None
      ensures error == Some(CapacityReached) ==> entries == Pinned(old(entries))
      ensures error == Some(NotPersistentHost) || error == Some(ConnectionClosed) ==> entries == old(entries)
      ensures error.Some? ==> outstanding == old(outstanding)
      ensures error.None? ==>
                && token !in old(outstanding) && outstanding == old(outstanding)[token := request]
                && NoMoreThanNeeded(old(entries), entries, old(pending), Reserved(old(outstanding)), request)
    {
      token := nextToken;
      if lifetime == Obs.Persistent && !persistentHost {
        return Some(NotPersistentHost), token;
      }
      if !ConnectionIsOpen(connection) {
        return Some(ConnectionClosed), token;
      }
      var full := MakeRoom(request);
      if full {
        return Some(CapacityReached), token;
      }
      Take(request, token);
      return None, token;
    }

    /** Count one reservation. */
    method Take(request: nat, ghost token: nat)
      requires Valid() && token == nextToken
      requires Fits(entries, pending, Reserved(outstanding), request)
      modifies this`budget, this`pending, this`outstanding, this`nextToken
      ensures Valid()
      ensures outstanding == old(outstanding)[token := request] && token !in old(outstanding)
      ensures pending == old(pending) + 1 && budget == old(budget) + request
    {
      pending := pending + 1;
      budget := budget + request;
      ReservedAdd(outstanding, token, request);
      outstanding := outstanding[token := request];
      nextToken := nextToken + 1;
    }

    /** The start got its entry: the reservation becomes the entry's own budget. */
    method Commit(ghost token: nat, id: Uuid, entry: Entry)
      requires Valid() && token in outstanding && outstanding[token] == entry.budget && id !in entries
      modifies this`entries, this`pending, this`outstanding
      ensures Valid()
      ensures entries == old(entries)[id := entry] && outstanding == old(outstanding) - {token}
    {
      ReservedRemove(outstanding, token);
      TotalAdd(entries, id, entry);
      assert (outstanding - {token}).Keys == outstanding.Keys - {token};
      entries := entries[id := entry];
      pending := pending - 1;
      outstanding := outstanding - {token};
    }

    /** The supervisor's look at one process; only this makes the record evictable. */
    method Observe(id: Uuid, exited: bool, active: nat, verdict: Option<Status>)
      requires Valid() && id in entries && entries[id].live && !entries[id].status.Finished()
      requires verdict.Some? ==> exited && active == 0 && verdict.value.Finished()
      modifies this`entries
      ensures Valid()
      ensures entries == old(entries)[id := Sampled(old(entries)[id], exited, active, verdict)]
      ensures Pinned(entries).Keys == Pinned(old(entries)).Keys - if verdict.Some? then {id} else {}
    {
      var entry := entries[id];
      var status := entry.status;
      if verdict.Some? {
        status := verdict.value;
      } else if exited {
        status := RootExited;
      }
      entry := entry.(rootExited := exited, activeProcesses := active, status := status);
      TotalOfChanged(entries, id, entry);
      VerdictFrees(entries[id], exited, active, verdict);
      entries := entries[id := entry];
    }

    /** A process that can no longer be observed: its record has failed, but stays until its tree is known to be gone. */
    method ObserveError(id: Uuid)
      requires Valid() && id in entries && entries[id].live && !entries[id].status.Finished()
      modifies this`entries
      ensures Valid()
      ensures entries == old(entries)[id := old(entries)[id].(status := Status.Failed)]
      ensures entries[id].Evictable() <==> old(entries)[id].rootExited && old(entries)[id].activeProcesses == 0
    {
      var entry := entries[id].(status := Status.Failed);
      TotalOfChanged(entries, id, entry);
      entries := entries[id := entry];
    }

    /** The start failed: dropping the reservation gives back exactly what it took. */
    method Abandon(ghost token: nat, request: nat)
      requires Valid() && token in outstanding && outstanding[token] == request
      modifies this`pending, this`budget, this`outstanding
      ensures Valid()
      ensures entries == old(entries) && outstanding == old(outstanding) - {token}
      ensures pending == old(pending) - 1 && budget == old(budget) - request
    {
      ReservedRemove(outstanding, token);
      assert (outstanding - {token}).Keys == outstanding.Keys - {token};
      pending := pending - 1;
      budget := budget - request;
      outstanding := outstanding - {token};
    }
  }

  // --- Restart ------------------------------------------------------------

  /** A saved record. `streamsOk` says that its saved streams are those of its kind and fit its output limit. */
  datatype Saved = Saved(
    id: Uuid, lifetime: Obs.Lifetime, owner: Option<Uuid>, terminal: bool, outputLimit: nat, streamsOk: bool,
    startedAt: nat, status: Status, rootExited: bool, activeProcesses: nat)

  function RestoredEntry(saved: Saved): Entry {
    Entry(if saved.terminal then saved.outputLimit else 2 * saved.outputLimit, saved.startedAt,
          if saved.status.Finished() then saved.status else InterruptedHostRestart,
          false, saved.rootExited, saved.activeProcesses)
  }

  predicate SavedIsSound(saved: Saved) {
    saved.lifetime == Obs.Persistent && saved.owner.None? && 1 <= saved.outputLimit <= MAX_OUTPUT_BYTES && saved.streamsOk
  }

  /** The budget of the first `n` saved records. */
  ghost function BudgetOf(saved: seq<Saved>, n: nat): nat
    requires n <= |saved|
  {
    if n == 0 then 0 else BudgetOf(saved, n - 1) + RestoredEntry(saved[n - 1]).budget
  }

  lemma {:induction false} BudgetGrows(saved: seq<Saved>, k: nat, n: nat)
    requires k <= n <= |saved|
    ensures BudgetOf(saved, k) <= BudgetOf(saved, n)
    decreases n
  {
    if k < n {
      BudgetGrows(saved, k, n - 1);
    }
  }

  /** One more saved record can follow the `n` already restored. */
  ghost predicate Fitting(saved: seq<Saved>, n: nat)
    requires n < |saved|
  {
    && SavedIsSound(saved[n])
    && (forall i | 0 <= i < n :: saved[i].id != saved[n].id)
    && BudgetOf(saved, n) + RestoredEntry(saved[n]).budget <= MAX_TOTAL_OUTPUT_BYTES
  }

  /** A checkpoint that restoring accepts: sound records, no identifier twice, within the output budget. */
  ghost predicate Acceptable(saved: seq<Saved>) {
    && (forall i | 0 <= i < |saved| :: SavedIsSound(saved[i]))
    && (forall i, j | 0 <= i < j < |saved| :: saved[i].id != saved[j].id)
    && BudgetOf(saved, |saved|) <= MAX_TOTAL_OUTPUT_BYTES
  }

  lemma AcceptableMeansEachFits(saved: seq<Saved>)
    ensures Acceptable(saved) <==> FitsUpTo(saved, |saved|)
    ensures forall n | 0 <= n < |saved| && !Fitting(saved, n) :: !Acceptable(saved)
  {
    if Acceptable(saved) {
      forall n | 0 <= n < |saved| ensures Fitting(saved, n) {
        BudgetGrows(saved, n + 1, |saved|);
      }
    }
    if forall n | 0 <= n < |saved| :: Fitting(saved, n) {
      if |saved| > 0 {
        assert Fitting(saved, |saved| - 1);
      }
      forall i | 0 <= i < |saved| ensures SavedIsSound(saved[i]) {
        assert Fitting(saved, i);
      }
      forall i, j | 0 <= i < j < |saved| ensures saved[i].id != saved[j].id {
        assert Fitting(saved, j);
      }
    }
  }

  /** The entries that the first `n` saved records become. */
  ghost function RestoredEntries(saved: seq<Saved>, n: nat): map<Uuid, Entry>
    requires n <= |saved|
  {
    if n == 0 then map[] else RestoredEntries(saved, n - 1)[saved[n - 1].id := RestoredEntry(saved[n - 1])]
  }

  lemma {:induction false} RestoredEntriesAt(saved: seq<Saved>, n: nat, id: Uuid)
    requires n <= |saved|
    ensures id in RestoredEntries(saved, n) <==> exists i | 0 <= i < n :: saved[i].id == id
  {
    if n > 0 {
      RestoredEntriesAt(saved, n - 1, id);
    }
  }

  lemma FreshId(saved: seq<Saved>, n: nat)
    requires n < |saved| && Fitting(saved, n)
    ensures saved[n].id !in RestoredEntries(saved, n)
    ensures BudgetOf(saved, n + 1) <= MAX_TOTAL_OUTPUT_BYTES
  {
    RestoredEntriesAt(saved, n, saved[n].id);
  }

  ghost predicate FitsUpTo(saved: seq<Saved>, n: nat)
    requires n <= |saved|
  {
    forall k | 0 <= k < n :: Fitting(saved, k)
  }

  lemma FitsUpToNext(saved: seq<Saved>, n: nat)
    requires n < |saved| && FitsUpTo(saved, n)
    ensures FitsUpTo(saved, n + 1) <==> Fitting(saved, n)
  {
    assert FitsUpTo(saved, n + 1) ==> Fitting(saved, n);
  }

  lemma FitsUpToLast(saved: seq<Saved>, n: nat)
    requires n < |saved| && FitsUpTo(saved, n + 1)
    ensures FitsUpTo(saved, n) && Fitting(saved, n)
  {
    assert Fitting(saved, n);
  }

  lemma CountStep(saved: seq<Saved>, n: nat)
    requires n < |saved| && Fitting(saved, n)
    ensures |RestoredEntries(saved, n + 1)| == |RestoredEntries(saved, n)| + 1
    ensures Total(RestoredEntries(saved, n + 1)) == RestoredEntry(saved[n]).budget + Total(RestoredEntries(saved, n))
    ensures BudgetOf(saved, n + 1) <= MAX_TOTAL_OUTPUT_BYTES
  {
    FreshId(saved, n);
    TotalAdd(RestoredEntries(saved, n), saved[n].id, RestoredEntry(saved[n]));
  }

  /** While every record fits, the restored entries are as many as the records and their budgets add up. */
  lemma {:induction false} RestoredEntriesCount(saved: seq<Saved>, n: nat)
    requires n <= |saved| && FitsUpTo(saved, n)
    ensures |RestoredEntries(saved, n)| == n
    ensures Total(RestoredEntries(saved, n)) == BudgetOf(saved, n) <= MAX_TOTAL_OUTPUT_BYTES
  {
    if n > 0 {
      FitsUpToLast(saved, n - 1);
      RestoredEntriesCount(saved, n - 1);
      CountStep(saved, n - 1);
    }
  }

  /** One turn of the restoring loop. */
  method RestoreOne(registry: Registry, saved: seq<Saved>, n: nat) returns (good: bool)
    requires n < |saved| && registry.budget == BudgetOf(saved, n) && registry.entries == RestoredEntries(saved, n)
    modifies registry`entries, registry`budget
    ensures good <==> Fitting(saved, n)
    ensures good ==> registry.budget == BudgetOf(saved, n + 1) && registry.entries == RestoredEntries(saved, n + 1)
  {
    if !SavedIsSound(saved[n]) {
      return false;
    }
    var entry := RestoredEntry(saved[n]);
    registry.budget := registry.budget + entry.budget;
    if registry.budget > MAX_TOTAL_OUTPUT_BYTES {
      return false;
    }
    RestoredEntriesAt(saved, n, saved[n].id);
    if saved[n].id in registry.entries {
      return false;
    }
    registry.entries := registry.entries[saved[n].id := entry];
    return true;
  }

  /**
   Restoring a checkpoint into a new registry: accepted exactly when it is small
   enough and acceptable, and then conservation holds of what it restored.
   */
  method Restore(registry: Registry, saved: seq<Saved>, evicted: nat) returns (ok: bool)
    requires registry.Valid() && registry.entries == map[] && registry.outstanding == map[]
    modifies registry`entries, registry`budget, registry`evicted
    ensures ok <==> |saved| <= MAX_RECORDS && Acceptable(saved)
    ensures ok ==> registry.Valid() && registry.evicted == evicted
    ensures ok ==> registry.entries == RestoredEntries(saved, |saved|)
  {
    if |saved| > MAX_RECORDS {
      return false;
    }
    AcceptableMeansEachFits(saved);
    registry.evicted := evicted;
    for n := 0 to |saved|
      invariant registry.evicted == evicted
      invariant registry.budget == BudgetOf(saved, n) && registry.entries == RestoredEntries(saved, n)
      invariant FitsUpTo(saved, n)
    {
      FitsUpToNext(saved, n);
      var good := RestoreOne(registry, saved, n);
      if !good {
        return false;
      }
    }
    RestoredEntriesCount(saved, |saved|);
    return true;
  }

  /** What an accepted checkpoint restores: each saved record, finished and without a process, and nothing that is pinned. */
  lemma RestoredIsEvictable(saved: seq<Saved>, i: nat)
    requires Acceptable(saved) && i < |saved|
    ensures Pinned(RestoredEntries(saved, |saved|)) == map[]
    ensures saved[i].id in RestoredEntries(saved, |saved|)
    ensures RestoredEntries(saved, |saved|)[saved[i].id] == RestoredEntry(saved[i])
  {
    NothingPinned(saved, |saved|);
    RestoredEntryKept(saved, i, |saved|);
  }

  lemma {:induction false} NothingPinned(saved: seq<Saved>, n: nat)
    requires n <= |saved|
    ensures forall id | id in RestoredEntries(saved, n) :: RestoredEntries(saved, n)[id].Evictable()
  {
    if n > 0 {
      NothingPinned(saved, n - 1);
    }
  }

  lemma {:induction false} RestoredEntryKept(saved: seq<Saved>, i: nat, n: nat)
    requires i < n <= |saved| && Acceptable(saved)
    ensures saved[i].id in RestoredEntries(saved, n)
    ensures RestoredEntries(saved, n)[saved[i].id] == RestoredEntry(saved[i])
    decreases n
  {
    if i < n - 1 {
      RestoredEntryKept(saved, i, n - 1);
      assert saved[i].id != saved[n - 1].id;
    }
  }

  // --- What a checkpoint must say -----------------------------------------------

  /** The output that the streams of one saved record may hold: one for a terminal, two for a job. */
  function Held(saved: Saved): nat {
    if saved.terminal then saved.outputLimit else saved.outputLimit + saved.outputLimit
  }

  function HeldByAll(saved: seq<Saved>): nat {
    if saved == [] then 0 else HeldByAll(saved[..|saved| - 1]) + Held(saved[|saved| - 1])
  }

  lemma {:induction false} BudgetIsHeld(saved: seq<Saved>, n: nat)
    requires n <= |saved|
    ensures BudgetOf(saved, n) == HeldByAll(saved[..n])
    decreases n
  {
    if n > 0 {
      BudgetIsHeld(saved, n - 1);
      assert saved[..n][..n - 1] == saved[..n - 1];
    }
  }

  /** The conditions for restoring, in full: whose the records are, how much each and all of them hold, and that none is there twice. */
  lemma AcceptableExactly(saved: seq<Saved>)
    ensures Acceptable(saved) <==>
              && (forall i | 0 <= i < |saved| ::
                    && saved[i].lifetime == Obs.Persistent && saved[i].owner == None
                    && 1 <= saved[i].outputLimit <= 4_194_304 && saved[i].streamsOk)
              && (forall i, j | 0 <= i < |saved| && 0 <= j < |saved| && saved[i].id == saved[j].id :: i == j)
              && HeldByAll(saved) <= 67_108_864
  {
    BudgetIsHeld(saved, |saved|);
    assert saved[..|saved|] == saved;
  }

  /** What a restored record says: what was saved, except that a process that was running is gone, and the record says why. */
  lemma RestoredIsTruthful(saved: seq<Saved>, i: nat)
    requires Acceptable(saved) && i < |saved|
    ensures var r := RestoredEntries(saved, |saved|);
            && saved[i].id in r
            && var entry, was := r[saved[i].id], saved[i];
               && entry.budget == Held(was) && entry.startedAt == was.startedAt && !entry.live
               && entry.rootExited == was.rootExited && entry.activeProcesses == was.activeProcesses
               && entry.status == (if was.status in {Starting, Running, RootExited} then InterruptedHostRestart else was.status)
  {
    RestoredEntryKept(saved, i, |saved|);
  }

  /** Nothing else is restored. */
  lemma OnlySavedAreRestored(saved: seq<Saved>, id: Uuid)
    requires id in RestoredEntries(saved, |saved|)
    ensures exists i | 0 <= i < |saved| :: saved[i].id == id
  {
    RestoredEntriesAt(saved, |saved|, id);
  }

  /** What may be evicted: a record that ended, and whose process tree is known to be gone or was lost with an earlier host. */
  lemma EvictableExactly(m: map<Uuid, Entry>, id: Uuid)
    requires id in m
    ensures id !in Pinned(m) <==>
              && m[id].status !in {Starting, Running, RootExited}
              && (m[id].live ==> m[id].rootExited && m[id].activeProcesses == 0)
  {}
}
