/**
 * The secret store as objects: the two key files, the database, and the open store holding
 * the root key in memory. Every method but `RotateRootKey`, which stages nothing, is a run of
 * steps of the rotation protocol, so a crash inside one is covered by what is proved about runs.
 *
 * Faults arrive as parameters: whether a file operation takes effect, which row updates
 * fail, and whether the transaction commits.
 */
module SecretStorage {
  import opened Prelude
  import opened Envelope
  import opened KeyRotation

  datatype StorageError =
    | KeyInvalid
    | KeyMismatch
    | NotFound
    | Corrupt
    | Unavailable

  class KeyFiles {
    var live: Slot
    var staged: Slot

    constructor ()
      ensures live.Absent? && staged.Absent?
    {
      live, staged := Absent, Absent;
    }

    method Load(minted: Key) returns (r: Result<Key, StorageError>)
      modifies this`live
      ensures old(live).Torn? ==> r == Err(KeyInvalid) && live == old(live)
      ensures !old(live).Torn? ==> r.Ok? && live == Holds(r.value)
      ensures old(live).Holds? ==> live == old(live)
      ensures old(live).Absent? ==> live == Holds(minted)
    {
      match live {
        case Holds(key) => r := Ok(key);
        case Torn => r := Err(KeyInvalid);
        case Absent =>
          live := Holds(minted);
          r := Ok(minted);
      }
    }

    method StagedKey() returns (r: Option<Key>)
      ensures r == if staged.Holds? then Some(staged.key) else None
    {
      r := if staged.Holds? then Some(staged.key) else None;
    }

    /** rename(2): atomic, or without effect. */
    method PromoteStaged(renamed: bool) returns (ok: bool)
      modifies this
      ensures ok == renamed
      ensures live == if renamed then old(staged) else old(live)
      ensures staged == if renamed then Absent else old(staged)
    {
      if renamed {
        live, staged := staged, Absent;
      }
      ok := renamed;
    }

    /** Removal failures are ignored. */
    method DiscardStaged(removed: bool)
      modifies this`staged
      ensures staged == if removed then Absent else old(staged)
    {
      if removed {
        staged := Absent;
      }
    }
  }

  class Database {
    var rows: Rows
    var active: Option<KeyId>

    constructor ()
      ensures rows == map[] && active.None?
    {
      rows, active := map[], None;
    }
  }

  ghost function DiskOf(files: KeyFiles, db: Database): Disk
    reads files, db
  {
    Disk(files.live, files.staged, db.rows, db.active)
  }

  class Store {
    const files: KeyFiles
    const db: Database
    var kek: Key
    ghost var written: map<Scalars, Text>

    ghost function View(): State
      reads this, files, db
    {
      State(DiskOf(files, db), Ready(kek), written)
    }

    ghost predicate Valid()
      reads this, files, db
    {
      Inv(View())
    }

    constructor (files: KeyFiles, db: Database, kek: Key, ghost written: map<Scalars, Text>)
      ensures this.files == files && this.db == db && this.kek == kek && this.written == written
    {
      this.files, this.db, this.kek, this.written := files, db, kek, written;
    }

    /** Write a secret; `commits` is false when the transaction fails and rolls back. */
    method WriteSecret(name: Text, text: Text, dek: Key, commits: bool) returns (r: Result<(), StorageError>)
      requires Valid()
      modifies this`written, db`rows
      ensures Valid()
      ensures r.Ok? <==> name != [] && commits
      ensures View() == if r.Ok? then Next(old(View()), Put(Encode(name), text, dek)) else old(View())
      ensures written == if r.Ok? then old(written)[Encode(name) := text] else old(written)
    {
      if name == [] {
        return Err(Corrupt);
      }
      if !commits {
        return Err(Unavailable);
      }
      PutKeeps(View(), Encode(name), text, dek);
      db.rows := db.rows[Encode(name) := SealSecret(kek, Encode(name), text, dek)];
      written := written[Encode(name) := text];
      r := Ok(());
    }

    /**
     * The text last written under the name, as it survives storage. Whatever became of the rows:
     * a missing row alone is not found, and one that does not open is corrupt, never absent.
     */
    method ReadSecret(name: Text) returns (r: Result<Text, StorageError>)
      ensures r == Err(NotFound) <==> Encode(name) !in db.rows
      ensures r == Err(Corrupt) <==>
                Encode(name) in db.rows && OpenSecret(kek, Encode(name), db.rows[Encode(name)]).Err?
      ensures r.Ok? ==> Encode(name) in db.rows && OpenSecret(kek, Encode(name), db.rows[Encode(name)]) == Ok(r.value)
      ensures r.Err? ==> r.error.NotFound? || r.error.Corrupt?
      ensures Valid() ==> r == if Encode(name) in written then Ok(Stored(written[Encode(name)])) else Err(NotFound)
    {
      if Encode(name) !in db.rows {
        return Err(NotFound);
      }
      match OpenSecret(kek, Encode(name), db.rows[Encode(name)]) {
        case Ok(text) => r := Ok(text);
        case Err(_) => r := Err(Corrupt);
      }
    }

    method DeleteSecret(name: Text) returns (existed: bool)
      requires Valid()
      modifies this`written, db`rows
      ensures Valid() && View() == Next(old(View()), Delete(Encode(name)))
      ensures written == old(written) - {Encode(name)}
      ensures existed <==> Encode(name) in old(written)
    {
      existed := Encode(name) in db.rows;
      db.rows := db.rows - {Encode(name)};
      written := written - {Encode(name)};
    }

    /** The store as it was before `next` was staged. */
    ghost predicate Staged(before: State, next: Key)
      reads this, files, db
    {
      && before.process == Ready(kek) && before.written == written
      && before.disk.(staged := Holds(next)) == DiskOf(files, db)
    }

    /**
     * Rewrap every row in one transaction: either every row and the recorded key change, or
     * nothing does. When the new key was staged first, `before` is the store as it was then.
     */
    method RewrapAll(next: Key, failing: set<Scalars>, commits: bool, ghost before: State)
      returns (r: Result<nat, StorageError>, ghost steps: seq<Step>)
      modifies this`kek, db
      ensures r.Ok? ==>
                && kek == next && db.active == Some(Fingerprint(next)) && r.value == |old(db.rows)|
                && AllRewrapped(old(kek), next, old(db.rows), db.rows)
      ensures r.Err? ==> kek == old(kek) && db.active == old(db.active) && db.rows == old(db.rows)
      ensures r.Ok? <==> commits && failing !! old(db.rows).Keys && Rewrappable(old(kek), next, old(db.rows))
      ensures old(Staged(before, next)) && r.Ok? ==>
                Leads(before, steps, State(DiskOf(files, db), Promoting(next), written))
      ensures old(Staged(before, next)) && r.Err? ==>
                exists pending, working ::
                  Leads(before, steps, State(DiskOf(files, db), Rewriting(kek, next, pending, working), written))
    {
      var pending, working, rotated := db.rows.Keys, db.rows, 0;
      ghost var staged := Staged(before, next);
      steps := [Begin(next)];
      if staged {
        LeadsToBegin(before, kek, next);
      }
      while pending != {}
        invariant kek == old(kek) && db.rows == old(db.rows) && db.active == old(db.active)
        invariant Partly(kek, next, db.rows, pending, working) && rotated + |pending| == |db.rows|
        invariant failing !! (db.rows.Keys - pending)
        invariant staged ==>
                    Leads(before, steps, State(DiskOf(files, db), Rewriting(kek, next, pending, working), written))
        decreases |pending|
      {
        var name :| name in pending;
        var rewrapped := RewrapEnvelope(kek, next, name, working[name]);
        if rewrapped.Err? || name in failing {
          return Err(Corrupt), steps;
        }
        if staged {
          LeadsToRewrapped(before, steps, State(DiskOf(files, db), Rewriting(kek, next, pending, working), written),
                           name, rewrapped.value);
        }
        PartlyMore(kek, next, db.rows, pending, working, name, rewrapped.value);
        steps := steps + [RewrapRow(name)];
        working := working[name := rewrapped.value];
        pending := pending - {name};
        rotated := rotated + 1;
      }
      if !commits {
        return Err(Unavailable), steps;
      }
      ghost var last := State(DiskOf(files, db), Rewriting(kek, next, pending, working), written);
      db.rows, db.active := working, Some(Fingerprint(next));
      kek := next;
      if staged {
        LeadsFurther(before, steps, last, Commit, State(DiskOf(files, db), Promoting(next), written));
      }
      steps := steps + [Commit];
      r := Ok(rotated);
    }

    /**
     * Rotate onto a key that a caller's provider holds. All secrets then open under it, and the
     * store can be opened from its own files again exactly when that key is in them.
     */
    method RotateRootKey(next: Key, failing: set<Scalars>, commits: bool) returns (r: Result<nat, StorageError>)
      requires Valid()
      modifies this`kek, db
      ensures r.Ok? ==> kek == next && db.active == Some(Fingerprint(next)) && r.value == |old(db.rows)|
                        && AllOpen(next, db.rows, written)
      ensures r.Err? ==> kek == old(kek) && db.active == old(db.active) && db.rows == old(db.rows)
      ensures r.Ok? <==> commits && failing !! old(db.rows).Keys
      ensures Valid() <==> r.Err? || OnDisk(DiskOf(files, db), next)
    {
      OpenIsRewrappable(kek, next, db.rows, written);
      ghost var steps;
      r, steps := RewrapAll(next, failing, commits, View());
      if r.Ok? {
        RewrappedOpen(old(kek), next, old(db.rows), db.rows, written);
      }
    }

    /** The part of a rotation behind the staging of `next`. */
    method RotateStaged(next: Key, failing: set<Scalars>, commits: bool, renamed: bool, removed: bool,
                        ghost before: State)
      returns (r: Result<nat, StorageError>, ghost steps: seq<Step>)
      requires Inv(before) && Staged(before, next)
      modifies this`kek, db, files
      ensures Rotated(before, View(), next, r) && Leads(before, steps, View())
      ensures r.Ok? <==> commits && renamed && failing !! before.disk.rows.Keys
    {
      OpenIsRewrappable(kek, next, db.rows, written);
      r, steps := RewrapAll(next, failing, commits, before);
      if r.Err? {
        ghost var pending, working :|
          Leads(before, steps, State(DiskOf(files, db), Rewriting(kek, next, pending, working), written));
        ghost var last := State(DiskOf(files, db), Rewriting(kek, next, pending, working), written);
        files.DiscardStaged(removed);
        LeadsFurther(before, steps, last, Abandon(removed), View());
        steps := steps + [Abandon(removed)];
        Uncommitted(before, View(), next);
      } else {
        ghost var last := State(DiskOf(files, db), Promoting(next), written);
        RewrappedOpen(before.process.kek, next, before.disk.rows, db.rows, written);
        var promoted := files.PromoteStaged(renamed);
        LeadsFurther(before, steps, last, Promote(renamed), View());
        steps := steps + [Promote(renamed)];
        CommittedKeeps(View(), next);
        if !promoted {
          r := Err(KeyInvalid);
        }
      }
    }

    /**
     * Rotate onto a freshly minted key. Whatever fails in it, the call is a run of the protocol,
     * of allowed steps when the live file holds the running key.
     */
    method RotateManagedRootKey(next: Key, stages: bool, failing: set<Scalars>, commits: bool, renamed: bool,
                                removed: bool)
      returns (r: Result<nat, StorageError>, ghost steps: seq<Step>)
      requires Valid()
      modifies this`kek, db, files
      ensures Rotated(old(View()), View(), next, r) && Leads(old(View()), steps, View())
      ensures r.Ok? <==> stages && commits && renamed && failing !! old(db.rows).Keys
    {
      ghost var before := View();
      if !stages {
        files.staged := Torn;
        steps := [] + [TearStagedFile];
        LeadsNowhere(before);
        LeadsFurther(before, [], before, TearStagedFile, View());
        Uncommitted(before, View(), next);
        r := Err(KeyInvalid);
      } else {
        files.staged := Holds(next);
        r, steps := RotateStaged(next, failing, commits, renamed, removed, before);
      }
    }
  }

  /**
   * What a rotation onto `next` may come to. It reports success only when the new key is the live
   * file; a failure either changed nothing but the staged file or left the new key staged. Only
   * one that neither began from the live key nor got as far as its commit leaves a store whose
   * key is in no file.
   */
  ghost predicate Rotated(before: State, after: State, next: Key, r: Result<nat, StorageError>)
    requires before.process.Ready?
  {
    && after.process.Ready? && after.written == before.written
    && (r.Ok? ==> after.process.kek == next && after.disk.live == Holds(next) && after.disk.staged.Absent?
                  && after.disk.active == Some(Fingerprint(next)) && r.value == |before.disk.rows|)
    && (r.Err? ==>
          || (after.process == before.process && after.disk == before.disk.(staged := after.disk.staged))
          || (after.process.kek == next && after.disk.active == Some(Fingerprint(next))
              && after.disk.staged == Holds(next)))
    && (r.Ok? || Secured(before) ==> Inv(after))
    && (next != before.process.kek ==>
          (Inv(after) <==> Secured(before) || after.disk.active == Some(Fingerprint(next))))
  }

  /** `rows` are those before, rewrapped from one key to the other. */
  ghost predicate AllRewrapped(kek: Key, next: Key, before: Rows, rows: Rows) {
    && rows.Keys == before.Keys
    && forall name :: name in rows ==> RewrapEnvelope(kek, next, name, before[name]) == Ok(rows[name])
  }

  /** The rows that are not pending are rewrapped. */
  ghost predicate Partly(kek: Key, next: Key, before: Rows, pending: set<Scalars>, working: Rows) {
    && pending <= working.Keys == before.Keys
    && (forall name :: name in pending ==> working[name] == before[name])
    && forall name :: name in working && name !in pending ==>
         RewrapEnvelope(kek, next, name, before[name]) == Ok(working[name])
  }

  lemma PartlyMore(kek: Key, next: Key, before: Rows, pending: set<Scalars>, working: Rows, name: Scalars, e: Envelope)
    requires Partly(kek, next, before, pending, working) && name in pending
    requires RewrapEnvelope(kek, next, name, before[name]) == Ok(e)
    ensures Partly(kek, next, before, pending - {name}, working[name := e])
  {
  }

  ghost predicate Rewrappable(kek: Key, next: Key, rows: Rows) {
    forall name :: name in rows ==> RewrapEnvelope(kek, next, name, rows[name]).Ok?
  }

  lemma OpenIsRewrappable(kek: Key, next: Key, rows: Rows, written: map<Scalars, Text>)
    requires AllOpen(kek, rows, written)
    ensures Rewrappable(kek, next, rows)
  {
    forall name | name in rows ensures RewrapEnvelope(kek, next, name, rows[name]).Ok? {
      assert OpenSecret(kek, name, rows[name]) == Ok(Stored(written[name]));
      RewrapKeepsMeaning(kek, next, name, rows[name]);
    }
  }

  lemma RewrappedOpen(kek: Key, next: Key, before: Rows, rows: Rows, written: map<Scalars, Text>)
    requires AllRewrapped(kek, next, before, rows) && AllOpen(kek, before, written)
    ensures AllOpen(next, rows, written)
  {
    forall name | name in rows ensures OpenSecret(next, name, rows[name]) == Ok(Stored(written[name])) {
      assert OpenSecret(kek, name, before[name]) == Ok(Stored(written[name]));
      RewrapKeepsMeaning(kek, next, name, before[name]);
    }
  }

  /** A rotation that did not commit changed the staged file alone, which matters when that held the running key. */
  lemma Uncommitted(before: State, after: State, next: Key)
    requires Inv(before) && before.process.Ready? && after.written == before.written && after.process == before.process
    requires after.disk == before.disk.(staged := after.disk.staged)
    requires after.disk.staged in {Torn, Absent, Holds(next)}
    ensures Secured(before) ==> Inv(after)
    ensures next != before.process.kek ==> (Inv(after) <==> Secured(before))
  {
  }

  lemma CommittedKeeps(after: State, next: Key)
    requires after.process == Ready(next) && after.disk.active == Some(Fingerprint(next))
    requires OnDisk(after.disk, next) && AllOpen(next, after.disk.rows, after.written)
    ensures Inv(after)
  {
  }

  /** A running store whose key is the live file. */
  ghost predicate Secured(s: State) {
    s.process.Ready? && s.disk.live == Holds(s.process.kek)
  }

  /** The steps lead from the one state to the other; they are allowed when the first is secured. */
  ghost predicate Leads(before: State, steps: seq<Step>, after: State) {
    Run(before, steps) == after && (Secured(before) ==> AllowedRun(before, steps))
  }

  lemma LeadsFurther(before: State, steps: seq<Step>, s: State, step: Step, after: State)
    requires Leads(before, steps, s) && (Secured(before) ==> Allowed(s, step)) && Next(s, step) == after
    ensures Leads(before, steps + [step], after)
  {
    assert (steps + [step])[..|steps|] == steps;
  }

  lemma LeadsNowhere(s: State)
    ensures Leads(s, [], s)
  {
  }

  lemma LeadsToBegin(s: State, kek: Key, next: Key)
    requires s.process == Ready(kek)
    ensures Leads(s, [Begin(next)], State(s.disk.(staged := Holds(next)),
                                          Rewriting(kek, next, s.disk.rows.Keys, s.disk.rows), s.written))
  {
    LeadsFurther(s, [], s, Begin(next), Next(s, Begin(next)));
    assert [] + [Begin(next)] == [Begin(next)];
  }

  lemma LeadsToRewrapped(before: State, steps: seq<Step>, s: State, name: Scalars, e: Envelope)
    requires Leads(before, steps, s) && s.process.Rewriting?
    requires name in s.process.pending && name in s.process.working
    requires RewrapEnvelope(s.process.kek, s.process.next, name, s.process.working[name]) == Ok(e)
    ensures Leads(before, steps + [RewrapRow(name)],
                  s.(process := s.process.(pending := s.process.pending - {name},
                  working := s.process.working[name := e])))
  {
    LeadsFurther(before, steps, s, RewrapRow(name), AfterRewrapRow(s, name));
  }

  /** Accept the loaded key, recover the staged one, or refuse; `written` is the history. */
  method DecideKey(files: KeyFiles, db: Database, ghost written: map<Scalars, Text>, loaded: Key, renamed: bool,
                   removed: bool)
    returns (r: Result<Key, StorageError>)
    modifies files, db
    ensures var entered := Next(State(old(DiskOf(files, db)), Loaded(loaded), written), Decide(renamed, removed));
            && DiskOf(files, db) == entered.disk && entered.written == written
            && (r.Ok? <==> entered.process.Ready?)
            && (r.Ok? ==> entered.process == Ready(r.value))
  {
    if db.active.None? {
      db.active := Some(Fingerprint(loaded));
      return Ok(loaded);
    }
    var recorded := db.active.value;
    if recorded == Fingerprint(loaded) {
      files.DiscardStaged(removed);
      return Ok(loaded);
    }
    var staged := files.StagedKey();
    if staged.Some? && recorded == Fingerprint(staged.value) {
      var promoted := files.PromoteStaged(renamed);
      return if promoted then Ok(staged.value) else Err(KeyInvalid);
    }
    if staged.Some? {
      files.DiscardStaged(removed);
    }
    return Err(KeyMismatch);
  }

  /**
   * Open a store on the key files and the database as a crash may have left them. The staged
   * key is promoted exactly when the database names it and not the live one.
   */
  method OpenStore(files: KeyFiles, db: Database, ghost written: map<Scalars, Text>, minted: Key, renamed: bool,
                   removed: bool)
    returns (r: Result<Store, StorageError>)
    modifies files, db
    ensures var loaded := Next(State(old(DiskOf(files, db)), Down, written), LoadKek(minted));
            var entered := Next(loaded, Decide(renamed, removed));
            && DiskOf(files, db) == entered.disk
            && (r.Ok? <==> entered.process.Ready?)
            && (r.Ok? ==> r.value.files == files && r.value.db == db && r.value.View() == entered)
    ensures old(Consistent(DiskOf(files, db), written)) ==>
              Consistent(DiskOf(files, db), written) && (renamed ==> r.Ok?) && (r.Ok? ==> r.value.Valid())
  {
    ghost var start := State(DiskOf(files, db), Down, written);
    OpeningKeeps(start, minted, renamed, removed);
    var loaded := files.Load(minted);
    if loaded.Err? {
      return Err(loaded.error);
    }
    var kek := DecideKey(files, db, written, loaded.value, renamed, removed);
    if kek.Err? {
      return Err(kek.error);
    }
    var store := new Store(files, db, kek.value, written);
    r := Ok(store);
  }

  lemma OpeningKeeps(start: State, minted: Key, renamed: bool, removed: bool)
    requires start.process.Down?
    ensures Consistent(start.disk, start.written) ==>
              var entered := Next(Next(start, LoadKek(minted)), Decide(renamed, removed));
              Inv(entered) && entered.written == start.written && (renamed ==> entered.process.Ready?)
  {
    if Consistent(start.disk, start.written) {
      LoadKeeps(start, minted);
      DecideKeeps(Next(start, LoadKek(minted)), renamed, removed);
    }
  }
}
