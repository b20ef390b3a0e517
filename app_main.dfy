/**
 * The application state of the diary: the in-memory list of entries shown on
 * screen, the settings being edited, the backup reminder and the encouragement
 * banner, kept beside the database service that persists the entries.
 */
module AppMain {
  import opened Prelude
  import opened Types
  import opened Seqs
  import opened AppMood
  import opened AppResponse
  import opened DiaryDb

  /**
   * The entry stored for a saved draft: a fresh `id`, the save instant, the
   * ISO day `date`, the draft's fields and the chosen affirmation.
   */
  function NewEntry(d: Draft, id: string, now: int, date: string, response: string): Entry {
    Entry(id, Some(now), date, d.title, d.content, d.image, d.tags, d.mood, Some(d.moodScore), Some(response), None)
  }

  /** The draft an entry was made from (a legacy entry without a score reads as 50). */
  function DraftOf(e: Entry): Draft {
    Draft(e.title, e.content, e.tags, e.mood, e.moodScore.GetOr(50), e.image)
  }

  /** A new entry carries its draft unchanged, is in the timestamp index and needs no read-time upgrade. */
  lemma NewEntryKeepsDraft(d: Draft, id: string, now: int, date: string, response: string)
    ensures DraftOf(NewEntry(d, id, now, date, response)) == d
    ensures Indexed(NewEntry(d, id, now, date, response))
    ensures Normalise(NewEntry(d, id, now, date, response)) == NewEntry(d, id, now, date, response)
  {
  }

  /** `entries.filter(e => e.id !== id)`: the entries with another id, in their order. */
  function RemoveId(xs: seq<Entry>, id: string): (r: seq<Entry>)
    ensures IsSubseq(r, xs)
    ensures forall e :: e in r <==> e in xs && e.id != id
    ensures forall e :: multiset(r)[e] == if e.id != id then multiset(xs)[e] else 0
  {
    FilterCounts(xs, (e: Entry) => e.id != id);
    Filter(xs, (e: Entry) => e.id != id)
  }

  /** Removing an id twice is removing it once; an absent id leaves the list as it was. */
  lemma RemoveIdIdempotent(xs: seq<Entry>, id: string)
    ensures RemoveId(RemoveId(xs, id), id) == RemoveId(xs, id)
    ensures (forall e :: e in xs ==> e.id != id) ==> RemoveId(xs, id) == xs
  {
    FilterKeepsAll(RemoveId(xs, id), (e: Entry) => e.id != id);
    if forall e :: e in xs ==> e.id != id {
      FilterKeepsAll(xs, (e: Entry) => e.id != id);
    }
  }

  /** Filtering a newest-first list keeps it newest first. */
  lemma {:induction false} FilterKeepsNewestFirst(xs: seq<Entry>, keep: Entry -> bool)
    requires NewestFirst(xs)
    ensures NewestFirst(Filter(xs, keep))
  {
    if xs != [] {
      var rest := Filter(xs[1..], keep);
      assert NewestFirst(xs[1..]) by {
        forall i, j | 0 <= i < j < |xs[1..]| ensures IndexBefore(xs[1..][j], xs[1..][i]) {
          assert xs[1..][j] == xs[j + 1] && xs[1..][i] == xs[i + 1];
        }
      }
      FilterKeepsNewestFirst(xs[1..], keep);
      if keep(xs[0]) {
        var r := [xs[0]] + rest;
        forall i, j | 0 <= i < j < |r| ensures IndexBefore(r[j], r[i]) {
          if i == 0 {
            assert r[j] in xs[1..];
            var k :| 0 <= k < |xs[1..]| && xs[1..][k] == r[j];
            assert IndexBefore(xs[k + 1], xs[0]);
          } else {
            assert r[j] == rest[j - 1] && r[i] == rest[i - 1];
          }
        }
      }
    }
  }

  /** Deleting an id from the store and from its listing leaves a listing of the new store. */
  lemma DeleteKeepsListing(store: map<string, Entry>, xs: seq<Entry>, id: string)
    requires KeyedById(store) && IsListing(store, xs)
    ensures IsListing(store - {id}, RemoveId(xs, id))
  {
    FilterKeepsNewestFirst(xs, (e: Entry) => e.id != id);
    var r := RemoveId(xs, id);
    var s := store - {id};
    forall x | x in r ensures x.id in s && Indexed(s[x.id]) && x == Normalise(s[x.id]) {
      assert x in xs && x.id != id;
    }
    forall k | k in s && Indexed(s[k]) ensures Normalise(s[k]) in r {
      assert Normalise(store[k]) in xs;
      assert Normalise(store[k]).id == k;
    }
  }

  /**
   * Adding an entry newer than everything stored, and putting it at the front
   * of the store's listing, leaves a listing of the new store.
   */
  lemma SaveKeepsListing(store: map<string, Entry>, xs: seq<Entry>, e: Entry)
    requires IsListing(store, xs) && Indexed(e) && e.moodScore.Some? && e.id !in store
    requires forall k :: k in store && Indexed(store[k]) ==> store[k].timestamp.value < e.timestamp.value
    ensures IsListing(store[e.id := e], [e] + xs)
  {
    var r := [e] + xs;
    forall x | x in xs ensures IndexBefore(x, e) && x.id != e.id {
      assert x.timestamp == store[x.id].timestamp;
    }
    forall i, j | 0 <= i < j < |r| ensures IndexBefore(r[j], r[i]) {
      if i == 0 {
        assert r[j] in xs;
      } else {
        assert r[j] == xs[j - 1] && r[i] == xs[i - 1];
      }
    }
    var s := store[e.id := e];
    forall x | x in r ensures x.id in s && Indexed(s[x.id]) && x == Normalise(s[x.id]) {
      if x != e {
        assert x in xs;
      }
    }
    forall k | k in s && Indexed(s[k]) ensures Normalise(s[k]) in r {
      if k != e.id {
        assert Normalise(store[k]) in xs;
      }
    }
  }

  /** `customTags` with `t` appended unless it is already there. */
  function WithCustomTag(tags: seq<string>, t: string): (r: seq<string>)
    ensures t in r
    ensures forall x :: x in r <==> x in tags || x == t
    ensures NoDuplicates(tags) ==> NoDuplicates(r)
    ensures t in tags ==> r == tags
    ensures t !in tags ==> |r| == |tags| + 1 && r[..|tags|] == tags && r[|tags|] == t
  {
    if t in tags then tags else tags + [t]
  }

  /** Adding the same custom tag again changes nothing. */
  lemma WithCustomTagIdempotent(tags: seq<string>, t: string)
    ensures WithCustomTag(WithCustomTag(tags, t), t) == WithCustomTag(tags, t)
  {
  }

  /** The settings the application starts with, before anything is loaded; `mount` is the instant of the first render. */
  function InitialSettings(mount: int): (s: Settings)
    ensures s.userName == "朋友" && s.reminderTime == "20:00" && s.lastBackupDate == mount
    ensures !s.darkMode && !s.reminderEnabled && s.customMoods == [] && s.customTags == []
  {
    Settings(false, "朋友", false, "20:00", [], [], mount)
  }

  /**
   * Start-up as written loads the initial settings whatever was stored:
   * a stored record whose backup is overdue would raise the reminder, but
   * the initial record written over it never does in the first three days
   * after the first render.
   */
  lemma StartupLosesStoredSettings(stored: Settings, mount: int, now: int)
    requires BackupOverdue(now, stored.lastBackupDate) && mount <= now <= mount + BackupInterval
    ensures SettingsOr(Some(stored), now) == stored && BackupOverdue(now, SettingsOr(Some(stored), now).lastBackupDate)
    ensures SettingsOr(Some(InitialSettings(mount)), now) == InitialSettings(mount) != stored
    ensures !BackupOverdue(now, SettingsOr(Some(InitialSettings(mount)), now).lastBackupDate)
  {
  }

  /** The state of the running application. */
  class AppState {
    /** The entries on screen, newest first. */
    var entries: seq<Entry>
    /** The settings being edited (persisted by the application's settings effect). */
    var settings: Settings
    /** The "back up your diary" reminder is shown. */
    var showBackupAlert: bool
    /** The affirmation banner shown after a save, if any. */
    var encouragement: Option<string>
    /** The database service. */
    const db: DiaryDB

    /** The on-screen list is what the database would list now. */
    ghost predicate InSync()
      reads this, db
    {
      IsListing(db.entries, entries)
    }

    /** The first render over `db` at instant `mount`: no entries yet, the initial settings, no banners. */
    constructor (db: DiaryDB, mount: int)
      ensures this.db == db && entries == [] && settings == InitialSettings(mount)
      ensures !showBackupAlert && encouragement == None
    {
      this.db := db;
      entries := [];
      settings := InitialSettings(mount);
      showBackupAlert := false;
      encouragement := None;
    }

    /**
     * Start-up: open the database, load the entries and the settings, then
     * check the backup reminder. A failure at the first step is swallowed and
     * leaves the application as it was.
     */
    method Startup(openSucceeds: bool, now: int)
      requires db.Valid()
      modifies this, db`initialised
      ensures db.Valid() && db.entries == old(db.entries) && db.storedSettings == old(db.storedSettings)
      ensures db.initialised == (old(db.initialised) || openSucceeds)
      ensures !openSucceeds ==> entries == old(entries) && settings == old(settings) && showBackupAlert == old(showBackupAlert)
      ensures openSucceeds ==>
        && InSync()
        && settings == db.GetSettings(now)
        && showBackupAlert == (old(showBackupAlert) || BackupOverdue(now, settings.lastBackupDate))
      ensures openSucceeds && db.storedSettings.None? ==> showBackupAlert == old(showBackupAlert)
      ensures encouragement == old(encouragement)
    {
      var open := db.Init(openSucceeds);
      if open.Fail? {
        return;
      }
      var loaded := db.GetAllEntries();
      entries := loaded.value;
      settings := db.GetSettings(now);
      CheckBackupStatus(settings.lastBackupDate, now);
    }

    /** The settings effect: the settings on screen are written to storage (on the first render and on every change). */
    method SettingsEffect()
      requires db.Valid()
      modifies db`storedSettings
      ensures db.Valid() && db.storedSettings == Some(settings)
    {
      var _ := db.SaveSettings(settings, true);
    }

    /**
     * Start-up as the application runs it: the settings effect of the first
     * render saves the settings on screen while the database is still
     * opening, and only then are the settings read back.
     */
    method StartupAsWritten(openSucceeds: bool, now: int)
      requires db.Valid()
      modifies this, db`initialised, db`storedSettings
      ensures db.Valid() && db.entries == old(db.entries) && db.storedSettings == Some(old(settings))
      ensures db.initialised == (old(db.initialised) || openSucceeds)
      ensures !openSucceeds ==> entries == old(entries) && settings == old(settings) && showBackupAlert == old(showBackupAlert)
      ensures openSucceeds ==>
        && InSync()
        && settings == old(settings)
        && showBackupAlert == (old(showBackupAlert) || BackupOverdue(now, old(settings).lastBackupDate))
      ensures encouragement == old(encouragement)
    {
      SettingsEffect();
      Startup(openSucceeds, now);
    }

    /** Raises the backup reminder when more than three days passed since `lastBackup`; never lowers it. */
    method CheckBackupStatus(lastBackup: int, now: int)
      modifies this`showBackupAlert
      ensures showBackupAlert == (old(showBackupAlert) || BackupOverdue(now, lastBackup))
    {
      if BackupOverdue(now, lastBackup) {
        showBackupAlert := true;
      }
    }

    /**
     * Saves a draft: draws the affirmation, stores the new entry and, once the
     * store accepted it, puts it at the front of the list and shows the
     * affirmation. `random`, `id`, `now` and `date` are the random draw, the
     * fresh UUID, the clock and the ISO day.
     */
    method HandleSaveEntry(data: Draft, random: real, id: string, now: int, date: string, commits: bool)
      returns (r: Outcome<DbError>, response: string)
      requires 0.0 <= random < 1.0 && db.Valid()
      modifies this`entries, this`encouragement, db`entries
      ensures db.Valid()
      ensures response in ResponsePool(data)
      ensures r == Pass <==> old(db.initialised) && id !in old(db.entries) && commits
      ensures r == Pass ==>
        && db.entries == old(db.entries)[id := NewEntry(data, id, now, date, response)]
        && entries == [NewEntry(data, id, now, date, response)] + old(entries)
        && encouragement == Some(response)
      ensures r != Pass ==> db.entries == old(db.entries) && entries == old(entries) && encouragement == old(encouragement)
      ensures old(InSync()) && (forall k :: k in old(db.entries) && Indexed(old(db.entries)[k]) ==> old(db.entries)[k].timestamp.value < now)
        ==> InSync()
    {
      response := GenerateResponse(data, random);
      var newEntry := NewEntry(data, id, now, date, response);
      ghost var before := db.entries;
      ghost var shown := entries;
      r := db.AddEntry(newEntry, commits);
      if r.Fail? {
        return;
      }
      entries := [newEntry] + entries;
      encouragement := Some(response);
      if IsListing(before, shown) && forall k :: k in before && Indexed(before[k]) ==> before[k].timestamp.value < now {
        SaveKeepsListing(before, shown, newEntry);
      }
    }

    /** Deletes an entry once the user confirmed; the list drops exactly the entries with that id. */
    method HandleDeleteEntry(id: string, confirmed: bool, commits: bool) returns (r: Outcome<DbError>)
      requires db.Valid()
      modifies this`entries, db`entries
      ensures db.Valid()
      ensures !confirmed ==> r == Pass && db.entries == old(db.entries) && entries == old(entries)
      ensures confirmed && !old(db.initialised) ==> r == Fail(NotInitialised) && db.entries == old(db.entries) && entries == old(entries)
      ensures confirmed && old(db.initialised) && !commits ==>
        r == Fail(WriteFailed) && db.entries == old(db.entries) && entries == old(entries)
      ensures confirmed && old(db.initialised) && commits ==>
        r == Pass && db.entries == old(db.entries) - {id} && entries == RemoveId(old(entries), id)
      ensures old(InSync()) ==> InSync()
    {
      if !confirmed {
        return Pass;
      }
      ghost var before := db.entries;
      ghost var shown := entries;
      r := db.DeleteEntry(id, commits);
      if r.Fail? {
        return;
      }
      entries := RemoveId(entries, id);
      if IsListing(before, shown) {
        DeleteKeepsListing(before, shown, id);
      }
    }

    /** Adds a custom tag to the settings unless it is already one. */
    method HandleAddCustomTag(newTag: string)
      modifies this`settings
      ensures settings == old(settings).(customTags := WithCustomTag(old(settings).customTags, newTag))
    {
      if newTag in settings.customTags {
        return;
      }
      settings := settings.(customTags := settings.customTags + [newTag]);
    }
  }

  /**
   * The first run of the application over a database that holds `stored`,
   * whose backup is overdue: after the first render and the start-up as
   * written, the screen shows the initial settings rather than the stored
   * ones, the stored record is overwritten, and no reminder is shown.
   */
  method FirstRunLosesStoredSettings(db: DiaryDB, stored: Settings, mount: int, now: int) returns (app: AppState)
    requires db.Valid() && db.storedSettings == Some(stored)
    requires BackupOverdue(now, stored.lastBackupDate) && mount <= now <= mount + BackupInterval
    modifies db
    ensures app.db == db && db.initialised && app.InSync()
    ensures app.settings == InitialSettings(mount) != stored
    ensures db.storedSettings == Some(InitialSettings(mount)) != old(db.storedSettings)
    ensures !app.showBackupAlert
  {
    app := new AppState(db, mount);
    app.StartupAsWritten(true, now);
    StartupLosesStoredSettings(stored, mount, now);
  }
}
