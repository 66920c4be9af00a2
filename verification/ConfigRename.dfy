/** Renaming a profile or target id across the config file and the session
    database, with a write-ahead journal and crash recovery. */
module ConfigRename {
  import opened Text

  datatype Kind = Profile | Target

  /** `reviewer` is the profile `[review]` names. */
  datatype Config<!V> = Config(profiles: map<string, V>, targets: map<string, V>, reviewer: Option<string>)

  datatype Session = Session(lastProfile: string, targetTemplate: string)

  datatype Journal = Journal(kind: Kind, oldId: string, newId: string)

  /** The configuration rule an id rename can break. */
  predicate ValidConfig<V>(c: Config<V>) {
    c.reviewer.Some? ==> c.reviewer.value in c.profiles
  }

  function Entries<V>(c: Config<V>, kind: Kind): map<string, V> {
    if kind.Profile? then c.profiles else c.targets
  }

  function WithEntries<V>(c: Config<V>, kind: Kind, entries: map<string, V>): Config<V> {
    if kind.Profile? then c.(profiles := entries) else c.(targets := entries)
  }

  function Reference(s: Session, kind: Kind): string {
    if kind.Profile? then s.lastProfile else s.targetTemplate
  }

  function Repointed(s: Session, j: Journal): Session {
    if Reference(s, j.kind) != j.oldId then s
    else if j.kind.Profile? then s.(lastProfile := j.newId)
    else s.(targetTemplate := j.newId)
  }

  function RepointedAll(sessions: map<string, Session>, j: Journal): map<string, Session> {
    map id | id in sessions :: Repointed(sessions[id], j)
  }

  function RenamedEntries<V>(entries: map<string, V>, oldId: string, newId: string): map<string, V>
    requires oldId in entries
  {
    (entries - {oldId})[newId := entries[oldId]]
  }

  function Renamed<V>(c: Config<V>, j: Journal): Config<V>
    requires j.oldId in Entries(c, j.kind)
  {
    WithEntries(c, j.kind, RenamedEntries(Entries(c, j.kind), j.oldId, j.newId))
  }

  /** No session refers to an entry the config does not have. */
  ghost predicate NoDangling<V>(c: Config<V>, sessions: map<string, Session>) {
    forall id :: id in sessions ==> sessions[id].lastProfile in c.profiles && sessions[id].targetTemplate in c.targets
  }

  /** A rename of an existing id to one not in use. */
  predicate Proper<V>(c: Config<V>, j: Journal) {
    j.oldId in Entries(c, j.kind) && j.newId !in Entries(c, j.kind)
  }

  // ----- What a rename means -----

  /** The entry of that kind keeps its value under the new id; every other entry
      of either map, and the review section, are as before. */
  ghost predicate EntriesFollow<V>(before: Config<V>, after: Config<V>, j: Journal) {
    && after.reviewer == before.reviewer
    && MapFollows(before.profiles, after.profiles, j.kind.Profile?, j)
    && MapFollows(before.targets, after.targets, j.kind.Target?, j)
  }

  ghost predicate MapFollows<V>(before: map<string, V>, after: map<string, V>, renamed: bool, j: Journal) {
    if !renamed then after == before
    else
      && (forall id :: id in after <==> id == j.newId || (id in before && id != j.oldId))
      && (j.oldId in before ==> after[j.newId] == before[j.oldId])
      && (forall id :: id in before && id != j.oldId && id != j.newId ==> after[id] == before[id])
  }

  /** There are the same sessions. A reference of that kind to the old id is now
      one to the new id, and every other reference is as before. */
  ghost predicate ReferencesFollow(before: map<string, Session>, after: map<string, Session>, j: Journal) {
    && (forall id :: id in after <==> id in before)
    && forall id :: id in before ==>
         && (if j.kind.Profile? && before[id].lastProfile == j.oldId
             then after[id].lastProfile == j.newId else after[id].lastProfile == before[id].lastProfile)
         && (if j.kind.Target? && before[id].targetTemplate == j.oldId
             then after[id].targetTemplate == j.newId else after[id].targetTemplate == before[id].targetTemplate)
  }

  /** That is what a rename does, and nothing else does it; and it leaves no
      dangling reference and no old one. */
  lemma RenameMeaning<V>(c: Config<V>, sessions: map<string, Session>, j: Journal)
    requires Proper(c, j)
    ensures forall d :: EntriesFollow(c, d, j) <==> d == Renamed(c, j)
    ensures forall t :: ReferencesFollow(sessions, t, j) <==> t == RepointedAll(sessions, j)
    ensures NoDangling(c, sessions) ==> NoDangling(Renamed(c, j), RepointedAll(sessions, j))
    ensures forall id :: id in RepointedAll(sessions, j) ==> Reference(RepointedAll(sessions, j)[id], j.kind) != j.oldId
  {
    hide EntriesFollow, ReferencesFollow;
    forall d
      ensures EntriesFollow(c, d, j) <==> d == Renamed(c, j)
    {
      OneRenaming(c, d, j);
    }
    forall t
      ensures ReferencesFollow(sessions, t, j) <==> t == RepointedAll(sessions, j)
    {
      OneRepointing(sessions, t, j);
    }
  }

  lemma OneRenaming<V>(c: Config<V>, d: Config<V>, j: Journal)
    requires Proper(c, j)
    ensures EntriesFollow(c, d, j) <==> d == Renamed(c, j)
  {
    if EntriesFollow(c, d, j) {
      assert Entries(d, j.kind) == Entries(Renamed(c, j), j.kind);
    }
  }

  lemma OneRepointing(sessions: map<string, Session>, t: map<string, Session>, j: Journal)
    ensures ReferencesFollow(sessions, t, j) <==> t == RepointedAll(sessions, j)
  {
    if ReferencesFollow(sessions, t, j) {
      assert t.Keys == sessions.Keys;
      assert t == RepointedAll(sessions, j);
    }
  }

  /** Repointing twice is repointing once. */
  lemma RepointTwice(sessions: map<string, Session>, j: Journal)
    requires j.oldId != j.newId
    ensures RepointedAll(RepointedAll(sessions, j), j) == RepointedAll(sessions, j)
  {
  }

  // ----- Faulty input and output -----

  /** How one step meets the world. An error leaves its effect undone; a crash
      ends the process just before or just after the effect. */
  datatype Fault = Fine | Fails | CrashBefore | CrashAfter

  datatype Io = Ok | Error | Crashed

  class Store<!V> {
    var config: Config<V>
    var sessions: map<string, Session>
    var journal: Option<Journal>

    constructor (config: Config<V>, sessions: map<string, Session>)
      ensures this.config == config && this.sessions == sessions && journal == None
    {
      this.config, this.sessions, this.journal := config, sessions, None;
    }

    method WriteJournal(j: Journal, fault: Fault) returns (io: Io)
      modifies this`journal
      ensures journal == if fault.Fine? || fault.CrashAfter? then Some(j) else old(journal)
      ensures io == IoOf(fault)
    {
      if fault.Fine? || fault.CrashAfter? {
        journal := Some(j);
      }
      io := IoOf(fault);
    }

    method RemoveJournal(fault: Fault) returns (io: Io)
      modifies this`journal
      ensures journal == if fault.Fine? || fault.CrashAfter? then None else old(journal)
      ensures io == IoOf(fault)
    {
      if fault.Fine? || fault.CrashAfter? {
        journal := None;
      }
      io := IoOf(fault);
    }

    /** Validate, then replace the file atomically. */
    method SaveConfig(c: Config<V>, fault: Fault) returns (io: Io)
      modifies this`config
      ensures config == if ValidConfig(c) && (fault.Fine? || fault.CrashAfter?) then c else old(config)
      ensures io == if !ValidConfig(c) then (if fault.CrashBefore? then Crashed else Error) else IoOf(fault)
    {
      if !ValidConfig(c) {
        return if fault.CrashBefore? then Crashed else Error;
      }
      if fault.Fine? || fault.CrashAfter? {
        config := c;
      }
      io := IoOf(fault);
    }

    /** One database transaction over every session. */
    method RenameReferences(j: Journal, fault: Fault) returns (io: Io)
      modifies this`sessions
      ensures sessions == if fault.Fine? || fault.CrashAfter? then RepointedAll(old(sessions), j) else old(sessions)
      ensures io == IoOf(fault)
    {
      if fault.Fine? || fault.CrashAfter? {
        sessions := RepointedAll(sessions, j);
      }
      io := IoOf(fault);
    }

    // ----- States of a rename -----

    ghost predicate AllOld(c: Config<V>, s: map<string, Session>)
      reads this
    {
      config == c && sessions == s
    }

    ghost predicate AllNew(c: Config<V>, s: map<string, Session>, j: Journal)
      requires j.oldId in Entries(c, j.kind)
      reads this
    {
      config == Renamed(c, j) && sessions == RepointedAll(s, j)
    }

    /** Without a journal the rename has happened entirely or not at all; with
        one, the config is never behind the database. */
    ghost predicate CrashSafe(c: Config<V>, s: map<string, Session>, j: Journal)
      requires j.oldId in Entries(c, j.kind)
      reads this
    {
      && (journal == None || journal == Some(j))
      && (AllOld(c, s) || AllNew(c, s, j) || (journal.Some? && config == Renamed(c, j) && sessions == s))
      // only a config that may be renamed ever is
      && (config == Renamed(c, j) ==> ValidConfig(Renamed(c, j)))
    }

    /** Startup recovery of an interrupted rename. */
    method RecoverConfigIdRename(faults: nat -> Fault, ghost c: Config<V>, ghost s: map<string, Session>, ghost j: Journal)
      returns (io: Io, recovered: bool)
      requires Proper(c, j) && CrashSafe(c, s, j)
      modifies this
      ensures CrashSafe(c, s, j)
      ensures io.Ok? ==> journal == None && recovered == old(journal).Some?
      ensures old(journal) == None ==> io.Ok? && config == old(config) && sessions == old(sessions)
      ensures old(journal).Some? && journal == None ==> AllNew(c, s, j)
      ensures io.Ok? && recovered ==> AllNew(c, s, j)
      // an invalid new config blocks recovery, whatever else goes well
      ensures old(journal).Some? && !ValidConfig(Renamed(c, j)) ==> !io.Ok? && journal == old(journal)
      // with no fault in the way it succeeds exactly when the new config is valid
      ensures old(journal).Some? && (forall k :: faults(k).Fine?) ==> (io.Ok? <==> ValidConfig(Renamed(c, j)))
    {
      RepointTwice(s, j);
      recovered := false;
      if journal == None {
        return Ok, false;
      }
      var found := journal.value;
      if !faults(0).Fine? {
        return if faults(0).Fails? then Error else Crashed, false;
      }
      var next := config;
      var done, entries := FinishConfigMapRename(Entries(next, found.kind), found.oldId, found.newId);
      if !done {
        return Error, false;
      }
      next := WithEntries(next, found.kind, entries);
      assert next == Renamed(c, j) by { FinishedIsRenamed(config, c, j); }
      io := SaveConfig(next, faults(1));
      if !io.Ok? {
        return;
      }
      io := RenameReferences(found, faults(2));
      if !io.Ok? {
        return;
      }
      io := RemoveJournal(faults(3));
      recovered := io.Ok?;
    }

    /** Recovery at every startup, however often it crashes or fails. */
    method Startups(plans: seq<nat -> Fault>, ghost c: Config<V>, ghost s: map<string, Session>, ghost j: Journal)
      returns (lastOk: bool)
      requires Proper(c, j) && CrashSafe(c, s, j)
      modifies this
      ensures CrashSafe(c, s, j)
      ensures old(journal).Some? && lastOk ==> journal == None && AllNew(c, s, j)
      ensures old(journal) == None ==> config == old(config) && sessions == old(sessions) && journal == None
      ensures old(journal) == None ==> (lastOk <==> plans != [])
      // and one that was left behind for a forbidden rename is never got rid of
      ensures old(journal).Some? && !ValidConfig(Renamed(c, j)) ==> !lastOk && journal == Some(j)
    {
      lastOk := false;
      for n := 0 to |plans|
        invariant CrashSafe(c, s, j)
        invariant old(journal) == None ==> config == old(config) && sessions == old(sessions) && journal == None
        invariant old(journal) == None ==> (lastOk <==> n > 0)
        invariant old(journal).Some? ==> journal == Some(j) || (journal == None && AllNew(c, s, j))
        invariant lastOk ==> journal == None
        invariant old(journal).Some? && !ValidConfig(Renamed(c, j)) ==> journal == Some(j)
      {
        var io, recovered := RecoverConfigIdRename(plans[n], c, s, j);
        lastOk := io.Ok?;
      }
    }
  }

  function IoOf(fault: Fault): Io {
    match fault
    case Fine => Ok
    case Fails => Error
    case CrashBefore => Crashed
    case CrashAfter => Crashed
  }

  /** Bring the map to its renamed form from either side of the rename. */
  method FinishConfigMapRename<V>(entries: map<string, V>, oldId: string, newId: string)
    returns (done: bool, result: map<string, V>)
    requires oldId != newId
    ensures done <==> (oldId in entries) != (newId in entries)
    ensures done && oldId in entries ==> result == RenamedEntries(entries, oldId, newId)
    ensures done && oldId !in entries ==> result == entries
  {
    result := entries;
    if oldId in entries {
      var entry := entries[oldId];
      result := result - {oldId};
      if newId in result {
        return false, result;
      }
      result := result[newId := entry];
      done := true;
    } else {
      done := newId in entries;
    }
  }

  lemma FinishedIsRenamed<V>(now: Config<V>, c: Config<V>, j: Journal)
    requires Proper(c, j) && (now == c || now == Renamed(c, j))
    ensures j.newId in Entries(Renamed(c, j), j.kind) && j.oldId !in Entries(Renamed(c, j), j.kind)
    ensures now == c ==> WithEntries(now, j.kind, RenamedEntries(Entries(now, j.kind), j.oldId, j.newId)) == Renamed(c, j)
    ensures now == Renamed(c, j) ==> WithEntries(now, j.kind, Entries(now, j.kind)) == now
  {
  }

  // ----- The rename itself -----

  /** The step takes effect. */
  predicate Happens(fault: Fault) {
    fault.Fine? || fault.CrashAfter?
  }

  /** The fault patterns after which a rename leaves its journal behind; `valid`
      is whether the renamed config is. */
  predicate JournalLeft(valid: bool, faults: nat -> Fault) {
    || faults(0).CrashAfter?
    || (faults(0).Fine? &&
        if !valid then faults(1).CrashBefore? || !Happens(faults(2))
        else match faults(1)
          case CrashBefore => true
          case CrashAfter => true
          case Fails => !Happens(faults(2))
          case Fine =>
            match faults(3)
            case CrashBefore => true
            case CrashAfter => true
            case Fails => !faults(4).Fine? || !Happens(faults(5))
            case Fine => !Happens(faults(6)))
  }

  class Controller<!V> {
    var config: Config<V>
    var sessions: map<string, Session>

    constructor (store: Store<V>)
      ensures config == store.config && sessions == store.sessions
    {
      config, sessions := store.config, store.sessions;
    }

    /** `rename_profile_id` and `rename_target_id`. */
    method RenameId(store: Store<V>, j: Journal, faults: nat -> Fault) returns (io: Io)
      requires config == store.config && sessions == store.sessions && store.journal == None
      requires ValidConfig(config)
      modifies this, store
      ensures !Proper(old(config), j) ==>
                (io.Ok? <==> j.oldId == j.newId && j.oldId in Entries(old(config), j.kind))
                && store.journal == None && store.config == old(config) && store.sessions == old(sessions)
      ensures Proper(old(config), j) ==> store.CrashSafe(old(config), old(sessions), j)
      ensures Proper(old(config), j) && io.Ok? ==> store.journal == None && store.AllNew(old(config), old(sessions), j)
      // a process that lives on agrees with the disk
      ensures !io.Crashed? ==> config == store.config && sessions == store.sessions
      // the journal is left behind exactly after these faults
      ensures Proper(old(config), j) ==>
                store.journal == if JournalLeft(ValidConfig(Renamed(old(config), j)), faults) then Some(j) else None
      // a rename the review section forbids never succeeds
      ensures Proper(old(config), j) && !ValidConfig(Renamed(old(config), j)) ==> !io.Ok? && store.AllOld(old(config), old(sessions))
    {
      hide RepointedAll, RenamedEntries, WithEntries, Renamed;
      if j.oldId !in Entries(config, j.kind) || (j.oldId != j.newId && j.newId in Entries(config, j.kind)) {
        return Error;
      }
      if j.oldId == j.newId {
        return Ok;
      }
      io := store.WriteJournal(j, faults(0));
      if !io.Ok? {
        return;
      }
      var previous := config;
      config := Renamed(config, j);
      FinishedIsRenamed(previous, previous, j);
      io := store.SaveConfig(config, faults(1));
      if io.Crashed? {
        return;
      }
      if io.Error? {
        config := previous;
        var removed := store.RemoveJournal(faults(2));
        return if removed.Crashed? then Crashed else Error;
      }
      io := store.RenameReferences(j, faults(3));
      if io.Crashed? {
        return;
      }
      if io.Error? {
        var restored := store.SaveConfig(previous, faults(4));
        if !restored.Ok? {
          return restored;
        }
        config := previous;
        var removed := store.RemoveJournal(faults(5));
        return if removed.Crashed? then Crashed else Error;
      }
      sessions := RepointedAll(sessions, j);
      io := store.RemoveJournal(faults(6));
    }
  }

  /** One rename, then any startups: whenever no journal is left, config and
      sessions agree, entirely before or entirely after the rename. */
  method RenameThenStartups<V>(store: Store<V>, j: Journal, faults: nat -> Fault, plans: seq<nat -> Fault>) returns (io: Io, lastOk: bool)
    requires store.journal == None && ValidConfig(store.config) && Proper(store.config, j)
    requires NoDangling(store.config, store.sessions)
    modifies store
    ensures store.CrashSafe(old(store.config), old(store.sessions), j)
    ensures store.journal == None ==> NoDangling(store.config, store.sessions)
    ensures store.journal == None ==>
              || (store.config == old(store.config) && store.sessions == old(store.sessions))
              || (EntriesFollow(old(store.config), store.config, j) && ReferencesFollow(old(store.sessions), store.sessions, j))
    ensures io.Ok? || (lastOk && JournalLeft(ValidConfig(Renamed(old(store.config), j)), faults)) ==>
              && store.journal == None
              && EntriesFollow(old(store.config), store.config, j) && ReferencesFollow(old(store.sessions), store.sessions, j)
    // a forbidden rename changes nothing, but blocks every startup exactly when
    // its journal was left behind
    ensures !ValidConfig(Renamed(old(store.config), j)) ==>
              && !io.Ok? && store.AllOld(old(store.config), old(store.sessions))
              && store.journal == (if JournalLeft(false, faults) then Some(j) else None)
              && (lastOk <==> plans != [] && !JournalLeft(false, faults))
  {
    ghost var c, s := store.config, store.sessions;
    hide EntriesFollow, ReferencesFollow, NoDangling, Renamed, RepointedAll, JournalLeft;
    RenameMeaning(c, s, j);
    var controller := new Controller(store);
    io := controller.RenameId(store, j, faults);
    lastOk := store.Startups(plans, c, s, j);
  }

  // ----- A rename the review section forbids -----

  /** One crash while the reviewer's profile is renamed, and no startup ever
      succeeds again, though nothing else goes wrong. */
  method StuckStartups(startups: nat) returns (io: Io, lastOk: bool, journal: Option<Journal>)
    ensures !io.Ok? && !lastOk && journal == Some(Journal(Profile, "old", "new"))
  {
    var config: Config<int> := Config(map["old" := 1], map["target" := 2], Some("old"));
    var store := new Store(config, map[]);
    var j := Journal(Profile, "old", "new");
    io, lastOk := RenameThenStartups(store, j, (k: nat) => if k == 1 then CrashBefore else Fine, seq(startups, _ => (k: nat) => Fine));
    journal := store.journal;
  }

  /** The new config is valid unless `[review]` names the profile being renamed. */
  lemma RenameValidIff<V>(c: Config<V>, j: Journal)
    requires Proper(c, j) && ValidConfig(c)
    ensures ValidConfig(Renamed(c, j)) <==> !(j.kind.Profile? && c.reviewer == Some(j.oldId))
  {
  }
}
