/**
 * The persistence layer of the diary: an object store of entries keyed by `id`
 * with an ascending `timestamp` index, plus a singleton settings record kept
 * beside it, and the export/import of both as one document.
 */
module DiaryDb {
  import opened Prelude
  import opened Types

  /** Why a storage operation rejected. */
  datatype DbError =
    | NotInitialised     // an entry operation before `init` succeeded
    | OpenFailed         // the platform refused to open the database
    | ConstraintError    // `add` of a key that is already stored
    | DataError          // `put` of a record without a usable `id` key
    | InvalidImportFile  // the single error `importData` surfaces
    | WriteFailed        // the platform aborted a well-formed transaction (quota, abort)

  /** A record handed to `put`; an imported JSON element may lack a usable `id`. */
  datatype Record = Keyed(entry: Entry) | Keyless

  /** The write a read-write transaction performs on the entry store. */
  datatype WriteOp = Add(entry: Entry) | Put(rec: Record) | Delete(id: string)

  /** The shape of an imported `entries` field: an array of records, or anything else. */
  datatype EntriesField = NotAnArray | Items(records: seq<Record>)

  /**
   * The result of parsing an import file: text that is not JSON, the JSON
   * literal `null` (reading a field of it throws), or a value whose `entries`
   * and truthy `settings` fields have been read off.
   */
  datatype ImportDoc = Unparseable | NullDoc | Doc(entries: EntriesField, settings: Option<Settings>)

  /** The exported document, before it is serialised. */
  datatype ExportDoc = ExportDoc(entries: seq<Entry>, settings: Settings, version: int, exportedAt: string)

  const ExportVersion := 1

  /** The settings returned when none were ever saved; `now` is the current instant. */
  function DefaultSettings(now: int): Settings {
    Settings(false, "Friend", false, "20:00", [], [], now)
  }

  /** What `getSettings` reads from the settings slot `stored` at instant `now`. */
  function SettingsOr(stored: Option<Settings>, now: int): (s: Settings)
    ensures stored.Some? ==> s == stored.value
    ensures stored.None? ==>
      && s.userName == "Friend" && s.reminderTime == "20:00" && s.lastBackupDate == now
      && !s.darkMode && !s.reminderEnabled && s.customMoods == [] && s.customTags == []
  {
    match stored
    case Some(s) => s
    case None => DefaultSettings(now)
  }

  // ---------------------------------------------------------------------------
  // Writes

  /** The effect of one transaction on the entry store: the new store, or the error it rejects with. */
  function Commit(initialised: bool, store: map<string, Entry>, op: WriteOp): (r: Result<map<string, Entry>, DbError>)
  {
    if !initialised then Err(NotInitialised)
    else match op
      case Add(e) => if e.id in store then Err(ConstraintError) else Ok(store[e.id := e])
      case Put(Keyed(e)) => Ok(store[e.id := e])
      case Put(Keyless) => Err(DataError)
      case Delete(id) => Ok(store - {id})
  }

  /** Every stored entry sits under its own `id`. */
  ghost predicate KeyedById(store: map<string, Entry>) {
    forall k :: k in store ==> store[k].id == k
  }

  /** `add` inserts a new key and never overwrites: a stored key makes it reject and change nothing. */
  lemma AddIsInsertOnly(store: map<string, Entry>, e: Entry)
    ensures e.id in store ==> Commit(true, store, Add(e)) == Err(ConstraintError)
    ensures e.id !in store ==>
      && Commit(true, store, Add(e)).Ok?
      && Commit(true, store, Add(e)).value.Keys == store.Keys + {e.id}
      && Commit(true, store, Add(e)).value[e.id] == e
      && forall k :: k in store ==> Commit(true, store, Add(e)).value[k] == store[k]
  {
  }

  /** `put` of a keyed record stores that whole record under its id, inserting or replacing, and nothing else changes. */
  lemma PutIsUpsert(store: map<string, Entry>, e: Entry)
    ensures Commit(true, store, Put(Keyed(e))).Ok?
    ensures Commit(true, store, Put(Keyed(e))).value.Keys == store.Keys + {e.id}
    ensures Commit(true, store, Put(Keyed(e))).value[e.id] == e
    ensures forall k :: k in store && k != e.id ==> Commit(true, store, Put(Keyed(e))).value[k] == store[k]
  {
  }

  /** Two puts with the same id leave one record, the later one. */
  lemma PutTwiceKeepsLatest(store: map<string, Entry>, e1: Entry, e2: Entry)
    requires e1.id == e2.id
    ensures Commit(true, Commit(true, store, Put(Keyed(e1))).value, Put(Keyed(e2)))
         == Commit(true, store, Put(Keyed(e2)))
  {
    var twice := store[e1.id := e1][e2.id := e2];
    assert twice.Keys == store[e2.id := e2].Keys;
    assert twice == store[e2.id := e2];
  }

  /** `delete` removes the key if present and succeeds unchanged if absent. */
  lemma DeleteIsIdempotent(store: map<string, Entry>, id: string)
    ensures Commit(true, store, Delete(id)).Ok?
    ensures Commit(true, store, Delete(id)).value.Keys == store.Keys - {id}
    ensures id !in store ==> Commit(true, store, Delete(id)).value == store
    ensures Commit(true, Commit(true, store, Delete(id)).value, Delete(id)) == Commit(true, store, Delete(id))
  {
    assert (store - {id}) - {id} == store - {id};
  }

  /** Before `init` succeeds every write rejects. */
  lemma UninitialisedRejects(store: map<string, Entry>, op: WriteOp)
    ensures Commit(false, store, op) == Err(NotInitialised)
  {
  }

  /** Keeping entries under their own ids is preserved by every transaction. */
  lemma CommitKeepsKeys(initialised: bool, store: map<string, Entry>, op: WriteOp)
    requires KeyedById(store)
    ensures Commit(initialised, store, op).Ok? ==> KeyedById(Commit(initialised, store, op).value)
  {
  }

  // ---------------------------------------------------------------------------
  // The timestamp index

  /** IndexedDB's order on string keys: lexicographic by character code. */
  predicate IdLess(a: string, b: string)
  {
    if a == [] then b != []
    else b != [] && (a[0] < b[0] || (a[0] == b[0] && IdLess(a[1..], b[1..])))
  }

  lemma {:induction false} IdLessIrreflexive(a: string)
    ensures !IdLess(a, a)
  {
    if a != [] { IdLessIrreflexive(a[1..]); }
  }

  lemma {:induction false} IdLessTransitive(a: string, b: string, c: string)
    requires IdLess(a, b) && IdLess(b, c)
    ensures IdLess(a, c)
  {
    if a != [] && a[0] == b[0] && b[0] == c[0] {
      IdLessTransitive(a[1..], b[1..], c[1..]);
    }
  }

  lemma {:induction false} IdLessTotal(a: string, b: string)
    requires a != b
    ensures IdLess(a, b) || IdLess(b, a)
  {
    if a != [] && b != [] && a[0] == b[0] {
      assert a == [a[0]] + a[1..] && b == [b[0]] + b[1..];
      IdLessTotal(a[1..], b[1..]);
    }
  }

  lemma {:induction false} IdLessAsymmetric(a: string, b: string)
    requires IdLess(a, b)
    ensures !IdLess(b, a)
  {
    if IdLess(b, a) {
      IdLessTransitive(a, b, a);
      IdLessIrreflexive(a);
    }
  }

  /** The entry has a numeric `timestamp`, so the timestamp index holds it. */
  predicate Indexed(e: Entry) {
    e.timestamp.Some?
  }

  /** `a` precedes `b` in the timestamp index: records sort by timestamp, then by primary key. */
  predicate IndexBefore(a: Entry, b: Entry) {
    && Indexed(a) && Indexed(b)
    && (a.timestamp.value < b.timestamp.value
        || (a.timestamp.value == b.timestamp.value && IdLess(a.id, b.id)))
  }

  lemma IndexBeforeTransitive(a: Entry, b: Entry, c: Entry)
    requires IndexBefore(a, b) && IndexBefore(b, c)
    ensures IndexBefore(a, c)
  {
    if a.timestamp == b.timestamp == c.timestamp { IdLessTransitive(a.id, b.id, c.id); }
  }

  lemma IndexBeforeAsymmetric(a: Entry, b: Entry)
    requires IndexBefore(a, b)
    ensures !IndexBefore(b, a) && a != b
  {
    if a.timestamp == b.timestamp { IdLessAsymmetric(a.id, b.id); }
  }

  lemma IndexBeforeTotal(a: Entry, b: Entry)
    requires Indexed(a) && Indexed(b) && a.id != b.id
    ensures IndexBefore(a, b) || IndexBefore(b, a)
  {
    if a.timestamp == b.timestamp { IdLessTotal(a.id, b.id); }
  }

  /** Strictly ascending in index order (so every element is indexed and ids are distinct). */
  ghost predicate Ascending(xs: seq<Entry>) {
    forall i, j :: 0 <= i < j < |xs| ==> IndexBefore(xs[i], xs[j])
  }

  /** Strictly descending in index order: newest first, ties broken by descending id. */
  ghost predicate NewestFirst(xs: seq<Entry>) {
    forall i, j :: 0 <= i < j < |xs| ==> IndexBefore(xs[j], xs[i])
  }

  /** Places `e` in an ascending index scan that does not yet hold its id. */
  function InsertAscending(xs: seq<Entry>, e: Entry): (r: seq<Entry>)
    requires Ascending(xs) && Indexed(e)
    requires forall x :: x in xs ==> Indexed(x) && x.id != e.id
    ensures Ascending(r)
    ensures |r| == |xs| + 1
    ensures forall x :: x in r <==> x in xs || x == e
  {
    if xs == [] then [e]
    else if IndexBefore(e, xs[0]) then
      assert forall j :: 0 < j < |xs| ==> IndexBefore(xs[0], xs[j]);
      forall j | 0 <= j < |xs| ensures IndexBefore(e, xs[j]) {
        if j > 0 { IndexBeforeTransitive(e, xs[0], xs[j]); }
      }
      [e] + xs
    else
      IndexBeforeTotal(e, xs[0]);
      var rest := InsertAscending(xs[1..], e);
      assert forall x :: x in xs[1..] ==> IndexBefore(xs[0], x);
      [xs[0]] + rest
  }

  /** What `index('timestamp').getAll()` yields: the indexed records of the store, each once, ascending. */
  ghost predicate IsIndexScan(store: map<string, Entry>, scan: seq<Entry>) {
    && Ascending(scan)
    && (forall x :: x in scan ==> x.id in store && store[x.id] == x && Indexed(x))
    && (forall k :: k in store && Indexed(store[k]) ==> store[k] in scan)
  }

  /** The read-time upgrade of legacy records: a missing `moodScore` reads as 50. */
  function Normalise(e: Entry): (n: Entry)
    ensures n.moodScore.Some?
    ensures e.moodScore.None? ==> n.moodScore == Some(50)
    ensures n.(moodScore := e.moodScore) == e
    ensures e.moodScore.Some? ==> n == e
  {
    e.(moodScore := Some(e.moodScore.GetOr(50)))
  }

  function NormaliseAll(xs: seq<Entry>): (ys: seq<Entry>)
    ensures |ys| == |xs|
    ensures forall i :: 0 <= i < |xs| ==> ys[i] == Normalise(xs[i])
  {
    seq(|xs|, i requires 0 <= i < |xs| => Normalise(xs[i]))
  }

  function Reverse(xs: seq<Entry>): (ys: seq<Entry>)
    ensures |ys| == |xs|
    ensures forall i :: 0 <= i < |xs| ==> ys[i] == xs[|xs| - 1 - i]
  {
    seq(|xs|, i requires 0 <= i < |xs| => xs[|xs| - 1 - i])
  }

  /**
   * What `getAllEntries` resolves with: every indexed record of the store,
   * normalised, newest first (ties by descending id).
   */
  ghost predicate IsListing(store: map<string, Entry>, xs: seq<Entry>) {
    && NewestFirst(xs)
    && (forall x :: x in xs ==> x.id in store && Indexed(store[x.id]) && x == Normalise(store[x.id]))
    && (forall k :: k in store && Indexed(store[k]) ==> Normalise(store[k]) in xs)
  }

  /** Reversing an index scan and normalising it gives the listing. */
  lemma ScanToListing(store: map<string, Entry>, scan: seq<Entry>)
    requires IsIndexScan(store, scan)
    ensures IsListing(store, NormaliseAll(Reverse(scan)))
  {
    var xs := NormaliseAll(Reverse(scan));
    forall x | x in xs ensures x.id in store && Indexed(store[x.id]) && x == Normalise(store[x.id]) {
      var i :| 0 <= i < |xs| && xs[i] == x;
      assert scan[|scan| - 1 - i] in scan;
    }
    forall k | k in store && Indexed(store[k]) ensures Normalise(store[k]) in xs {
      var j :| 0 <= j < |scan| && scan[j] == store[k];
      assert xs[|scan| - 1 - j] == Normalise(store[k]);
    }
  }

  /** In a listing each stored id appears at most once. */
  lemma ListingIdsDistinct(store: map<string, Entry>, xs: seq<Entry>, i: int, j: int)
    requires IsListing(store, xs)
    requires 0 <= i < |xs| && 0 <= j < |xs| && xs[i].id == xs[j].id
    ensures i == j
  {
    if i < j { IndexBeforeAsymmetric(xs[j], xs[i]); }
    if j < i { IndexBeforeAsymmetric(xs[i], xs[j]); }
  }

  lemma HeadIsMember(xs: seq<Entry>)
    ensures xs != [] ==> xs[0] in xs
  {
  }

  /** Two newest-first sequences with the same elements are the same sequence. */
  lemma {:induction false} NewestFirstUnique(xs: seq<Entry>, ys: seq<Entry>)
    requires NewestFirst(xs) && NewestFirst(ys)
    requires forall x :: x in xs <==> x in ys
    ensures xs == ys
  {
    if xs == [] {
      HeadIsMember(ys);
    } else {
      assert ys != [] by { assert xs[0] in ys; }
      assert xs[0] in xs && ys[0] in ys;
      if xs[0] != ys[0] {
        var i :| 0 <= i < |xs| && xs[i] == ys[0];
        var j :| 0 <= j < |ys| && ys[j] == xs[0];
        assert i != 0 && j != 0;
        IndexBeforeAsymmetric(ys[0], xs[0]);
        assert false;
      }
      forall x ensures x in xs[1..] <==> x in ys[1..] {
        if x in xs[1..] {
          var i :| 1 <= i < |xs| && xs[i] == x;
          IndexBeforeAsymmetric(xs[i], xs[0]);
          assert x in ys && x != ys[0];
        }
        if x in ys[1..] {
          var j :| 1 <= j < |ys| && ys[j] == x;
          IndexBeforeAsymmetric(ys[j], ys[0]);
          assert x in xs && x != xs[0];
        }
      }
      NewestFirstUnique(xs[1..], ys[1..]);
      assert xs == [xs[0]] + xs[1..] && ys == [ys[0]] + ys[1..];
    }
  }

  /** The listing is determined by the store: at most one sequence satisfies `IsListing`. */
  lemma ListingIsDetermined(store: map<string, Entry>, xs: seq<Entry>, ys: seq<Entry>)
    requires IsListing(store, xs) && IsListing(store, ys)
    ensures xs == ys
  {
    forall x ensures x in xs <==> x in ys {
      if x in xs { assert Normalise(store[x.id]) in ys; }
      if x in ys { assert Normalise(store[x.id]) in xs; }
    }
    NewestFirstUnique(xs, ys);
  }

  // ---------------------------------------------------------------------------
  // Import

  /**
   * The sequential upserts of an import: each record is put in turn until one
   * rejects. Gives the store afterwards (earlier puts stay committed) and
   * whether every put succeeded.
   */
  function PutAll(initialised: bool, store: map<string, Entry>, recs: seq<Record>): (r: (map<string, Entry>, bool))
    decreases |recs|
  {
    if recs == [] then (store, true)
    else match Commit(initialised, store, Put(recs[0]))
      case Ok(next) => PutAll(initialised, next, recs[1..])
      case Err(_) => (store, false)
  }

  /** The last keyed record for `k` in `recs`, if there is one. */
  function LastFor(recs: seq<Record>, k: string): Option<Entry>
  {
    if recs == [] then None
    else
      var last := recs[|recs| - 1];
      if last.Keyed? && last.entry.id == k then Some(last.entry) else LastFor(recs[..|recs| - 1], k)
  }

  /** Every record carries a usable key. */
  predicate AllKeyed(recs: seq<Record>) {
    forall i :: 0 <= i < |recs| ==> recs[i].Keyed?
  }

  /** A key the import does not mention keeps its record; a mentioned key holds its last imported record. */
  ghost predicate MergedInto(store: map<string, Entry>, recs: seq<Record>, result: map<string, Entry>) {
    && (forall k :: k in result <==> k in store || LastFor(recs, k).Some?)
    && (forall k :: k in result ==> result[k] == if LastFor(recs, k).Some? then LastFor(recs, k).value else store[k])
  }

  lemma {:induction false} LastForSnoc(recs: seq<Record>, r: Record, k: string)
    ensures LastFor(recs + [r], k) == if r.Keyed? && r.entry.id == k then Some(r.entry) else LastFor(recs, k)
  {
    assert (recs + [r])[..|recs|] == recs;
  }

  lemma {:induction false} LastForCons(r: Record, recs: seq<Record>, k: string)
    ensures LastFor([r] + recs, k) ==
      if LastFor(recs, k).Some? then LastFor(recs, k)
      else if r.Keyed? && r.entry.id == k then Some(r.entry) else None
    decreases |recs|
  {
    if recs == [] {
      assert [r] + recs == [r];
      assert LastFor([r], k) == (if r.Keyed? && r.entry.id == k then Some(r.entry) else LastFor([], k)) by {
        LastForSnoc([], r, k);
      }
    } else {
      var init := recs[..|recs| - 1];
      var last := recs[|recs| - 1];
      assert recs == init + [last];
      assert [r] + recs == ([r] + init) + [last];
      LastForSnoc([r] + init, last, k);
      LastForSnoc(init, last, k);
      LastForCons(r, init, k);
    }
  }

  /** An import of only keyed records into a ready store succeeds and merges: upsert in order, untouched otherwise. */
  lemma {:induction false} PutAllMerges(store: map<string, Entry>, recs: seq<Record>)
    requires AllKeyed(recs)
    ensures PutAll(true, store, recs).1
    ensures MergedInto(store, recs, PutAll(true, store, recs).0)
    decreases |recs|
  {
    if recs != [] {
      var e := recs[0].entry;
      var next := store[e.id := e];
      var tail := recs[1..];
      assert AllKeyed(tail) by { forall i | 0 <= i < |tail| ensures tail[i].Keyed? { assert tail[i] == recs[i + 1]; } }
      PutAllMerges(next, tail);
      assert recs == [recs[0]] + tail;
      forall k ensures LastFor(recs, k) == (if LastFor(tail, k).Some? then LastFor(tail, k) else if e.id == k then Some(e) else None) {
        LastForCons(recs[0], tail, k);
      }
    }
  }

  /**
   * A put that rejects stops the import: the store then holds exactly the
   * upserts of the records before the first rejected one.
   */
  lemma {:induction false} PutAllStopsAtFirstFailure(initialised: bool, store: map<string, Entry>, recs: seq<Record>)
    ensures !PutAll(initialised, store, recs).1 <==> (recs != [] && (!initialised || !AllKeyed(recs)))
    ensures !PutAll(initialised, store, recs).1 ==>
      exists n :: 0 <= n < |recs| && AllKeyed(recs[..n]) && (!initialised || recs[n].Keyless?)
             && PutAll(initialised, store, recs).0 == PutAll(initialised, store, recs[..n]).0
    decreases |recs|
  {
    if recs != [] {
      var tail := recs[1..];
      if !initialised || recs[0].Keyless? {
        assert recs[..0] == [];
        assert AllKeyed(recs[..0]);
        if initialised {
          assert !AllKeyed(recs) by { assert !recs[0].Keyed?; }
        }
        if !initialised {
          assert PutAll(initialised, store, recs).0 == PutAll(initialised, store, recs[..0]).0;
        }
      } else {
        var e := recs[0].entry;
        var next := store[e.id := e];
        PutAllStopsAtFirstFailure(initialised, next, tail);
        assert AllKeyed(recs) <==> AllKeyed(tail) by {
          if AllKeyed(tail) { forall i | 0 <= i < |recs| ensures recs[i].Keyed? { if i > 0 { assert recs[i] == tail[i - 1]; } } }
          if AllKeyed(recs) { forall i | 0 <= i < |tail| ensures tail[i].Keyed? { assert tail[i] == recs[i + 1]; } }
        }
        if !PutAll(initialised, next, tail).1 {
          var n :| 0 <= n < |tail| && AllKeyed(tail[..n]) && tail[n].Keyless?
                  && PutAll(initialised, next, tail).0 == PutAll(initialised, next, tail[..n]).0;
          assert recs[..n + 1] == [recs[0]] + tail[..n];
          assert recs[..n + 1][1..] == tail[..n];
          var prefix := recs[..n + 1];
          assert AllKeyed(prefix) by {
            forall i | 0 <= i < |prefix| ensures prefix[i].Keyed? {
              if i > 0 { assert prefix[i] == tail[..n][i - 1]; }
            }
          }
          assert recs[n + 1] == tail[n];
        }
      }
    }
  }

  /**
   * What `importData` leaves behind when it is given `doc`: the entry store,
   * the settings and the outcome. `writes` says whether local storage accepts
   * the settings write.
   */
  ghost predicate ImportEffect(
    initialised: bool, store: map<string, Entry>, settings: Option<Settings>, doc: ImportDoc, writes: bool,
    store': map<string, Entry>, settings': Option<Settings>, r: Outcome<DbError>)
  {
    match doc
    case Unparseable => store' == store && settings' == settings && r == Fail(InvalidImportFile)
    case NullDoc => store' == store && settings' == settings && r == Fail(InvalidImportFile)
    case Doc(field, s) =>
      var (after, ok) := if field.Items? then PutAll(initialised, store, field.records) else (store, true);
      && store' == after
      && (ok && (s.None? || writes) ==> r == Pass && settings' == (if s.Some? then s else settings))
      && (!ok || (s.Some? && !writes) ==> r == Fail(InvalidImportFile) && settings' == settings)
  }

  // ---------------------------------------------------------------------------
  // The service object

  /** The database service: the handle of the opened database, the entry store and the settings record. */
  class DiaryDB {
    /** The database handle is set: `init` has succeeded. */
    var initialised: bool
    /** The `entries` object store, keyed by `id`. */
    var entries: map<string, Entry>
    /** The settings record kept in local storage, if one was ever saved. */
    var storedSettings: Option<Settings>

    ghost predicate Valid()
      reads this
    {
      KeyedById(entries)
    }

    /** A service over what the device already holds; the database is not yet opened. */
    constructor (persisted: map<string, Entry>, persistedSettings: Option<Settings>)
      requires KeyedById(persisted)
      ensures Valid()
      ensures !initialised && entries == persisted && storedSettings == persistedSettings
    {
      initialised := false;
      entries := persisted;
      storedSettings := persistedSettings;
    }

    /** Opens the database; `openSucceeds` is the platform's answer. A failure leaves the handle as it was. */
    method Init(openSucceeds: bool) returns (r: Outcome<DbError>)
      requires Valid()
      modifies this`initialised
      ensures Valid()
      ensures r == (if openSucceeds then Pass else Fail(OpenFailed))
      ensures initialised == (old(initialised) || openSucceeds)
    {
      if openSucceeds {
        initialised := true;
        r := Pass;
      } else {
        r := Fail(OpenFailed);
      }
    }

    /**
     * Runs one read-write transaction on the entry store; it commits entirely
     * or not at all. `commits` is the platform's answer for a well-formed
     * write: false when the transaction aborts (quota exceeded, say).
     */
    method PerformTransaction(op: WriteOp, commits: bool) returns (r: Outcome<DbError>)
      requires Valid()
      modifies this`entries
      ensures Valid()
      ensures Commit(initialised, old(entries), op).Ok? && commits ==>
        r == Pass && entries == Commit(initialised, old(entries), op).value
      ensures Commit(initialised, old(entries), op).Ok? && !commits ==>
        r == Fail(WriteFailed) && entries == old(entries)
      ensures Commit(initialised, old(entries), op).Err? ==>
        r == Fail(Commit(initialised, old(entries), op).error) && entries == old(entries)
    {
      CommitKeepsKeys(initialised, entries, op);
      if !initialised {
        return Fail(NotInitialised);
      }
      var staged := entries;
      match op {
        case Add(e) =>
          if e.id in entries {
            return Fail(ConstraintError);
          }
          staged := entries[e.id := e];
        case Put(Keyed(e)) =>
          staged := entries[e.id := e];
        case Put(Keyless) =>
          return Fail(DataError);
        case Delete(id) =>
          staged := entries - {id};
      }
      if !commits {
        return Fail(WriteFailed);
      }
      entries := staged;
      r := Pass;
    }

    /** Inserts a new entry; rejects with `ConstraintError` if its id is already stored. */
    method AddEntry(e: Entry, commits: bool) returns (r: Outcome<DbError>)
      requires Valid()
      modifies this`entries
      ensures Valid()
      ensures !initialised ==> r == Fail(NotInitialised) && entries == old(entries)
      ensures initialised && e.id in old(entries) ==> r == Fail(ConstraintError) && entries == old(entries)
      ensures initialised && e.id !in old(entries) && !commits ==> r == Fail(WriteFailed) && entries == old(entries)
      ensures initialised && e.id !in old(entries) && commits ==> r == Pass && entries == old(entries)[e.id := e]
    {
      r := PerformTransaction(Add(e), commits);
    }

    /** Stores the whole record under its id, inserting or replacing. */
    method UpdateEntry(rec: Record, commits: bool) returns (r: Outcome<DbError>)
      requires Valid()
      modifies this`entries
      ensures Valid()
      ensures !initialised ==> r == Fail(NotInitialised) && entries == old(entries)
      ensures initialised && rec.Keyless? ==> r == Fail(DataError) && entries == old(entries)
      ensures initialised && rec.Keyed? && !commits ==> r == Fail(WriteFailed) && entries == old(entries)
      ensures initialised && rec.Keyed? && commits ==> r == Pass && entries == old(entries)[rec.entry.id := rec.entry]
    {
      r := PerformTransaction(Put(rec), commits);
    }

    /** Removes the entry with this id; an absent id is a successful no-op. */
    method DeleteEntry(id: string, commits: bool) returns (r: Outcome<DbError>)
      requires Valid()
      modifies this`entries
      ensures Valid()
      ensures !initialised ==> r == Fail(NotInitialised) && entries == old(entries)
      ensures initialised && !commits ==> r == Fail(WriteFailed) && entries == old(entries)
      ensures initialised && commits ==> r == Pass && entries == old(entries) - {id}
    {
      r := PerformTransaction(Delete(id), commits);
    }

    /** The timestamp index read in ascending order (the platform's `getAll` on the index). */
    method IndexGetAll() returns (scan: seq<Entry>)
      requires Valid()
      ensures IsIndexScan(entries, scan)
    {
      var pending := entries.Keys;
      scan := [];
      while pending != {}
        invariant pending <= entries.Keys
        invariant Ascending(scan)
        invariant forall x :: x in scan ==> x.id in entries && entries[x.id] == x && Indexed(x) && x.id !in pending
        invariant forall k :: k in entries && k !in pending && Indexed(entries[k]) ==> entries[k] in scan
        decreases pending
      {
        var k :| k in pending;
        if Indexed(entries[k]) {
          assert entries[k].id == k;
          scan := InsertAscending(scan, entries[k]);
        }
        pending := pending - {k};
      }
    }

    /** All indexed entries, newest first, with legacy records given a mood score of 50. */
    method GetAllEntries() returns (r: Result<seq<Entry>, DbError>)
      requires Valid()
      ensures !initialised ==> r == Err(NotInitialised)
      ensures initialised ==> r.Ok? && IsListing(entries, r.value)
    {
      if !initialised {
        return Err(NotInitialised);
      }
      var scan := IndexGetAll();
      ScanToListing(entries, scan);
      r := Ok(NormaliseAll(Reverse(scan)));
    }

    /** The stored settings, or the defaults stamped with `now` when none were saved (not persisted). */
    function GetSettings(now: int): (s: Settings)
      reads this
      ensures s == SettingsOr(storedSettings, now)
    {
      SettingsOr(storedSettings, now)
    }

    /**
     * Replaces the settings record entirely. `writes` is local storage's
     * answer: when it refuses (quota exceeded, storage denied) the write
     * throws and the old record stays.
     */
    method SaveSettings(s: Settings, writes: bool) returns (r: Outcome<DbError>)
      modifies this`storedSettings
      ensures Valid() == old(Valid())
      ensures writes ==> r == Pass && storedSettings == Some(s)
      ensures !writes ==> r == Fail(WriteFailed) && storedSettings == old(storedSettings)
    {
      if !writes {
        return Fail(WriteFailed);
      }
      storedSettings := Some(s);
      r := Pass;
    }

    /**
     * Builds the backup document; `now` and `exportedAt` are the two clock
     * readings. Stamps and saves `lastBackupDate` once the entries are read;
     * `writes` is local storage's answer to that save, whose failure rejects
     * the export.
     */
    method ExportData(now: int, exportedAt: string, writes: bool) returns (r: Result<ExportDoc, DbError>)
      requires Valid()
      modifies this`storedSettings
      ensures !initialised ==> r == Err(NotInitialised) && storedSettings == old(storedSettings)
      ensures initialised && !writes ==> r == Err(WriteFailed) && storedSettings == old(storedSettings)
      ensures initialised && writes ==>
        && r.Ok?
        && IsListing(entries, r.value.entries)
        && r.value.settings == old(GetSettings(now)).(lastBackupDate := now)
        && r.value.version == ExportVersion && r.value.exportedAt == exportedAt
        && storedSettings == Some(r.value.settings)
    {
      var listed := GetAllEntries();
      if listed.Err? {
        return Err(listed.error);
      }
      var settings := GetSettings(now);
      settings := settings.(lastBackupDate := now);
      var saved := SaveSettings(settings, writes);
      if saved.Fail? {
        return Err(saved.error);
      }
      r := Ok(ExportDoc(listed.value, settings, ExportVersion, exportedAt));
    }

    /**
     * Merges a parsed backup: each keyed record of an `entries` array is put in
     * order, then truthy `settings` replace the stored ones. Every failure
     * surfaces as `InvalidImportFile`; puts made before it stay committed.
     * `writes` is local storage's answer to the settings write.
     */
    method ImportData(doc: ImportDoc, writes: bool) returns (r: Outcome<DbError>)
      requires Valid()
      modifies this`entries, this`storedSettings
      ensures Valid()
      ensures ImportEffect(initialised, old(entries), old(storedSettings), doc, writes, entries, storedSettings, r)
    {
      if doc.Unparseable? || doc.NullDoc? {
        return Fail(InvalidImportFile);
      }
      if doc.entries.Items? {
        var recs := doc.entries.records;
        var i := 0;
        while i < |recs|
          invariant 0 <= i <= |recs|
          invariant Valid() && storedSettings == old(storedSettings)
          invariant PutAll(initialised, old(entries), recs) == PutAll(initialised, entries, recs[i..])
          invariant PutAll(initialised, entries, recs[i..]).1 == PutAll(initialised, old(entries), recs).1
        {
          assert recs[i..][1..] == recs[i + 1..];
          var put := UpdateEntry(recs[i], true);
          if put.Fail? {
            return Fail(InvalidImportFile);
          }
          i := i + 1;
        }
      }
      if doc.settings.Some? {
        var saved := SaveSettings(doc.settings.value, writes);
        if saved.Fail? {
          return Fail(InvalidImportFile);
        }
      }
      r := Pass;
    }
  }

  /** The entries of an exported document as the records an import puts. */
  function AsRecords(xs: seq<Entry>): (recs: seq<Record>)
    ensures |recs| == |xs| && AllKeyed(recs)
    ensures forall i :: 0 <= i < |xs| ==> recs[i] == Keyed(xs[i])
  {
    seq(|xs|, i requires 0 <= i < |xs| => Keyed(xs[i]))
  }

  /** The document `importData` reads back from an exported file (JSON round-trips these shapes). */
  function Reread(doc: ExportDoc): ImportDoc {
    Doc(Items(AsRecords(doc.entries)), Some(doc.settings))
  }

  /** The store with every indexed legacy record given its read-time mood score. */
  function NormaliseIndexed(store: map<string, Entry>): map<string, Entry> {
    map k | k in store :: if Indexed(store[k]) then Normalise(store[k]) else store[k]
  }

  /**
   * Re-importing a listing of the store changes nothing visible: each indexed
   * record is rewritten in its normalised form, the others are untouched.
   */
  lemma ReimportListing(store: map<string, Entry>, xs: seq<Entry>)
    requires KeyedById(store) && IsListing(store, xs)
    ensures PutAll(true, store, AsRecords(xs)) == (NormaliseIndexed(store), true)
  {
    var recs := AsRecords(xs);
    PutAllMerges(store, recs);
    var result := PutAll(true, store, recs).0;
    forall k ensures LastFor(recs, k) == (if k in store && Indexed(store[k]) then Some(Normalise(store[k])) else None) {
      LastForListing(store, xs, k);
    }
    assert result == NormaliseIndexed(store);
  }

  /** In the records of a listing, the last (indeed only) record for a key is its normalised stored entry. */
  lemma {:induction false} LastForListing(store: map<string, Entry>, xs: seq<Entry>, k: string)
    requires KeyedById(store) && IsListing(store, xs)
    ensures LastFor(AsRecords(xs), k) == (if k in store && Indexed(store[k]) then Some(Normalise(store[k])) else None)
  {
    LastForFindsId(xs, k);
    if k in store && Indexed(store[k]) {
      var j :| 0 <= j < |xs| && xs[j] == Normalise(store[k]);
      assert xs[j].id == k;
      forall i | 0 <= i < |xs| && xs[i].id == k ensures i == j { ListingIdsDistinct(store, xs, i, j); }
    } else {
      forall i | 0 <= i < |xs| ensures xs[i].id != k {
        assert xs[i] in xs;
        assert Normalise(store[xs[i].id]).timestamp == store[xs[i].id].timestamp;
      }
    }
  }

  /** The last record for `k` among keyed copies of `xs` is the last element with that id. */
  lemma {:induction false} LastForFindsId(xs: seq<Entry>, k: string)
    ensures LastFor(AsRecords(xs), k).Some? <==> exists i :: 0 <= i < |xs| && xs[i].id == k
    ensures LastFor(AsRecords(xs), k).Some? ==>
      exists i :: 0 <= i < |xs| && xs[i].id == k && LastFor(AsRecords(xs), k) == Some(xs[i])
    decreases |xs|
  {
    if xs != [] {
      var init := xs[..|xs| - 1];
      assert AsRecords(xs)[..|xs| - 1] == AsRecords(init);
      LastForFindsId(init, k);
    }
  }

  /** Normalising the indexed records in place does not change what `getAllEntries` returns. */
  lemma NormaliseIndexedKeepsListing(store: map<string, Entry>, xs: seq<Entry>)
    requires IsListing(store, xs)
    ensures IsListing(NormaliseIndexed(store), xs)
  {
  }

  /**
   * Backing up and restoring the file just written, with local storage
   * accepting both settings writes: the entries read back the same and the
   * settings are those of the export, stamped with `now`.
   */
  method ExportThenReimport(db: DiaryDB, now: int, exportedAt: string) returns (r: Outcome<DbError>)
    requires db.Valid() && db.initialised
    modifies db
    ensures db.Valid() && db.initialised && r == Pass
    ensures db.entries == NormaliseIndexed(old(db.entries))
    ensures db.storedSettings == Some(old(db.GetSettings(now)).(lastBackupDate := now))
    ensures forall xs :: IsListing(old(db.entries), xs) ==> IsListing(db.entries, xs)
  {
    var doc := db.ExportData(now, exportedAt, true);
    ReimportListing(db.entries, doc.value.entries);
    r := db.ImportData(Reread(doc.value), true);
    forall xs | IsListing(old(db.entries), xs) ensures IsListing(db.entries, xs) {
      NormaliseIndexedKeepsListing(old(db.entries), xs);
    }
  }
}
