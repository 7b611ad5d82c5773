/**
 * Root-key rotation with crash recovery: a commit across two stores. A staged key file is
 * written, every row is rewrapped in one transaction, and the staged file is renamed over
 * the live one; opening the store promotes or discards a staged key by its fingerprint.
 *
 * One step is one effect on a file or on the database. A crash may fall between any two.
 */
module KeyRotation {
  import opened Prelude
  import opened Envelope

  /** A key file: missing, of the wrong length, or a key. */
  datatype Slot = Absent | Torn | Holds(key: Key)

  type Rows = map<Scalars, Envelope>

  datatype Disk = Disk(live: Slot, staged: Slot, rows: Rows, active: Option<KeyId>)

  /** What the process holds in memory, and how far it is. */
  datatype Process =
    | Down
    | Loaded(kek: Key)
    | Ready(kek: Key)
    | Rewriting(kek: Key, next: Key, pending: set<Scalars>, working: Rows)
    | Promoting(kek: Key)

  /** `written` is history: the text most recently written under each name. */
  datatype State = State(disk: Disk, process: Process, written: map<Scalars, Text>)

  const EMPTY := State(Disk(Absent, Absent, map[], None), Down, map[])

  /** Arguments called `renamed` and `removed` say whether the file operation took effect. */
  datatype Step =
    | LoadKek(minted: Key)
    | TearLiveFile
    | Decide(renamed: bool, removed: bool)
    | Put(name: Scalars, text: Text, dek: Key)
    | Delete(name: Scalars)
    | Begin(next: Key)
    | TearStagedFile
    | RewrapRow(name: Scalars)
    | Commit
    | Abandon(removed: bool)
    | Promote(renamed: bool)
    | LoggerThrows(removed: bool)
    | Crash

  function Discard(d: Disk, removed: bool): Disk {
    if removed then d.(staged := Absent) else d
  }

  /** rename(2) of the staged file over the live one. */
  function Rename(d: Disk): Disk {
    d.(live := d.staged, staged := Absent)
  }

  /** Read the live key file, creating it when there is none; the wrong length is fatal. */
  function AfterLoad(s: State, minted: Key): State {
    match s.disk.live
    case Holds(kek) => s.(process := Loaded(kek))
    case Torn => s
    case Absent => s.(disk := s.disk.(live := Holds(minted)), process := Loaded(minted))
  }

  /** The recovery decision of opening the store. `Down` afterwards means the open was refused. */
  function AfterDecide(s: State, kek: Key, renamed: bool, removed: bool): State {
    match s.disk.active
    case None => s.(disk := s.disk.(active := Some(Fingerprint(kek))), process := Ready(kek))
    case Some(recorded) =>
      if recorded == Fingerprint(kek) then s.(disk := Discard(s.disk, removed), process := Ready(kek))
      else if s.disk.staged.Holds? && recorded == Fingerprint(s.disk.staged.key) then
        if renamed then s.(disk := Rename(s.disk), process := Ready(s.disk.staged.key))
        else s.(process := Down)
      else s.(disk := if s.disk.staged.Holds? then Discard(s.disk, removed) else s.disk, process := Down)
  }

  function AfterRewrapRow(s: State, name: Scalars): State
    requires s.process.Rewriting? && name in s.process.pending && name in s.process.working
  {
    var p := s.process;
    match RewrapEnvelope(p.kek, p.next, name, p.working[name])
    case Err(_) => s
    case Ok(e) => s.(process := p.(pending := p.pending - {name}, working := p.working[name := e]))
  }

  /** A step that is not enabled changes nothing. */
  function Next(s: State, step: Step): State {
    match step
    case LoadKek(minted) => if s.process.Down? then AfterLoad(s, minted) else s
    case TearLiveFile =>
      if s.process.Down? && s.disk.live.Absent? then s.(disk := s.disk.(live := Torn)) else s
    case Decide(renamed, removed) =>
      if s.process.Loaded? then AfterDecide(s, s.process.kek, renamed, removed) else s
    case Put(name, text, dek) =>
      if s.process.Ready? then
        s.(disk := s.disk.(rows := s.disk.rows[name := SealSecret(s.process.kek, name, text, dek)]),
        written := s.written[name := text])
      else s
    case Delete(name) =>
      if s.process.Ready? then
        s.(disk := s.disk.(rows := s.disk.rows - {name}), written := s.written - {name})
      else s
    case Begin(next) =>
      if s.process.Ready? then
        s.(disk := s.disk.(staged := Holds(next)),
        process := Rewriting(s.process.kek, next, s.disk.rows.Keys, s.disk.rows))
      else s
    case TearStagedFile => if s.process.Ready? then s.(disk := s.disk.(staged := Torn)) else s
    case RewrapRow(name) =>
      if s.process.Rewriting? && name in s.process.pending && name in s.process.working
      then AfterRewrapRow(s, name) else s
    case Commit =>
      if s.process.Rewriting? && s.process.pending == {} then
        s.(disk := s.disk.(rows := s.process.working, active := Some(Fingerprint(s.process.next))),
        process := Promoting(s.process.next))
      else s
    case Abandon(removed) =>
      if s.process.Rewriting? then s.(disk := Discard(s.disk, removed), process := Ready(s.process.kek)) else s
    case Promote(renamed) =>
      if s.process.Promoting? then
        s.(disk := if renamed then Rename(s.disk) else s.disk, process := Ready(s.process.kek))
      else s
    case LoggerThrows(removed) =>
      if s.process.Promoting? then s.(disk := Discard(s.disk, removed), process := Ready(s.process.kek)) else s
    case Crash => s.(process := Down)
  }

  function Run(s: State, steps: seq<Step>): State
    decreases |steps|
  {
    if steps == [] then s else Next(Run(s, steps[..|steps| - 1]), steps[|steps| - 1])
  }

  /**
   * The three things the design relies on, each a question about the state before the step:
   * the first key file is written whole, no logger throws after a commit so that the staged
   * key is removed while the live file holds another, and no rotation begins while the running
   * key is not the live file.
   */
  predicate Allowed(s: State, step: Step) {
    match step
    case TearLiveFile => s.process.Down? ==> !s.disk.live.Absent?
    case LoggerThrows(removed) => s.process.Promoting? && removed ==> s.disk.live == Holds(s.process.kek)
    case Begin(_) => s.process.Ready? ==> s.disk.live == Holds(s.process.kek)
    case TearStagedFile => s.process.Ready? ==> s.disk.live == Holds(s.process.kek)
    case _ => true
  }

  /** Every step of the run is allowed in the state it is taken in. */
  predicate AllowedRun(s: State, steps: seq<Step>)
    decreases |steps|
  {
    steps == []
    || (AllowedRun(s, steps[..|steps| - 1]) && Allowed(Run(s, steps[..|steps| - 1]), steps[|steps| - 1]))
  }

  // ---- the invariant ---------------------------------------------------------------------------

  /** Exactly the written names are stored, each opening under `kek` to its stored text. */
  ghost predicate AllOpen(kek: Key, rows: Rows, written: map<Scalars, Text>) {
    && rows.Keys == written.Keys
    && forall name :: name in rows ==> OpenSecret(kek, name, rows[name]) == Ok(Stored(written[name]))
  }

  ghost predicate OnDisk(d: Disk, key: Key) {
    d.live == Holds(key) || (d.live.Holds? && d.staged == Holds(key))
  }

  /** The database is wrapped under the key it names, and that key is on disk. */
  ghost predicate Consistent(d: Disk, written: map<Scalars, Text>) {
    match d.active
    case None => d.rows == map[] && written == map[] && !d.live.Torn?
    case Some(id) => OnDisk(d, id.key) && AllOpen(id.key, d.rows, written)
  }

  ghost predicate HalfRewrapped(kek: Key, next: Key, pending: set<Scalars>, working: Rows, s: State) {
    && working.Keys == s.disk.rows.Keys == s.written.Keys
    && pending <= working.Keys
    && forall name :: name in working ==>
         OpenSecret(if name in pending then kek else next, name, working[name]) == Ok(Stored(s.written[name]))
  }

  ghost predicate Inv(s: State) {
    && Consistent(s.disk, s.written)
    && match s.process
       case Down => true
       case Loaded(kek) => s.disk.live == Holds(kek)
       case Ready(kek) => s.disk.active == Some(Fingerprint(kek))
       case Rewriting(kek, next, pending, working) =>
         && s.disk.active == Some(Fingerprint(kek)) && s.disk.live == Holds(kek) && s.disk.staged == Holds(next)
         && HalfRewrapped(kek, next, pending, working, s)
       case Promoting(kek) => s.disk.active == Some(Fingerprint(kek)) && s.disk.staged == Holds(kek)
  }

  lemma OneMoreRewrapped(kek: Key, next: Key, pending: set<Scalars>, working: Rows, s: State, name: Scalars,
                         e: Envelope)
    requires HalfRewrapped(kek, next, pending, working, s) && name in pending
    requires OpenSecret(next, name, e) == Ok(Stored(s.written[name]))
    ensures HalfRewrapped(kek, next, pending - {name}, working[name := e], s)
  {
  }

  lemma RewrapRowKeeps(s: State, name: Scalars)
    requires Inv(s) && s.process.Rewriting? && name in s.process.pending && name in s.process.working
    ensures Inv(AfterRewrapRow(s, name))
    ensures AfterRewrapRow(s, name).process.pending == s.process.pending - {name}
  {
    var p := s.process;
    assert OpenSecret(p.kek, name, p.working[name]) == Ok(Stored(s.written[name]));
    RewrapKeepsMeaning(p.kek, p.next, name, p.working[name]);
    var e := RewrapEnvelope(p.kek, p.next, name, p.working[name]).value;
    OneMoreRewrapped(p.kek, p.next, p.pending, p.working, s, name, e);
  }

  lemma PutOpens(kek: Key, rows: Rows, written: map<Scalars, Text>, name: Scalars, text: Text, dek: Key)
    requires AllOpen(kek, rows, written)
    ensures AllOpen(kek, rows[name := SealSecret(kek, name, text, dek)], written[name := text])
  {
    OpenAfterSeal(kek, name, text, dek, kek, name);
  }

  lemma PutKeeps(s: State, name: Scalars, text: Text, dek: Key)
    requires Inv(s) && s.process.Ready?
    ensures Inv(Next(s, Put(name, text, dek)))
  {
    PutOpens(s.process.kek, s.disk.rows, s.written, name, text, dek);
  }

  lemma CommitKeeps(s: State)
    requires Inv(s) && s.process.Rewriting? && s.process.pending == {}
    ensures Inv(Next(s, Commit))
  {
    assert AllOpen(s.process.next, s.process.working, s.written);
  }

  lemma LoadKeeps(s: State, minted: Key)
    requires Inv(s) && s.process.Down?
    ensures Inv(AfterLoad(s, minted)) && AfterLoad(s, minted).process.Loaded?
    ensures AfterLoad(s, minted).written == s.written
  {
  }

  lemma DecideNew(s: State, kek: Key, renamed: bool, removed: bool)
    requires Inv(s) && s.process == Loaded(kek) && s.disk.active.None?
    ensures Inv(AfterDecide(s, kek, renamed, removed)) && AfterDecide(s, kek, renamed, removed).process.Ready?
  {
    assert AllOpen(kek, map[], map[]);
  }

  lemma DecideAccepts(s: State, kek: Key, renamed: bool, removed: bool)
    requires Inv(s) && s.process == Loaded(kek) && s.disk.active == Some(Fingerprint(kek))
    ensures Inv(AfterDecide(s, kek, renamed, removed)) && AfterDecide(s, kek, renamed, removed).process.Ready?
  {
  }

  lemma DecideRecovers(s: State, kek: Key, renamed: bool, removed: bool)
    requires Inv(s) && s.process == Loaded(kek) && s.disk.active.Some? && s.disk.active != Some(Fingerprint(kek))
    ensures Inv(AfterDecide(s, kek, renamed, removed))
    ensures AfterDecide(s, kek, renamed, removed).process.Ready? <==> renamed
  {
    assert OnDisk(s.disk, s.disk.active.value.key);
  }

  /** A key the database names neither as the live nor as the staged one is refused, and nothing else is touched. */
  lemma DecideRefuses(s: State, kek: Key, renamed: bool, removed: bool)
    requires s.process == Loaded(kek) && s.disk.active.Some?
    requires s.disk.active.value.key != kek && s.disk.staged != Holds(s.disk.active.value.key)
    ensures var t := AfterDecide(s, kek, renamed, removed);
            && t.process.Down? && t.written == s.written
            && t.disk == s.disk.(staged := if removed && s.disk.staged.Holds? then Absent else s.disk.staged)
  {
  }

  /** Opening promotes a staged key the database names, and never discards that one. */
  lemma DecideKeeps(s: State, renamed: bool, removed: bool)
    requires Inv(s) && s.process.Loaded?
    ensures Inv(AfterDecide(s, s.process.kek, renamed, removed))
    ensures renamed ==> AfterDecide(s, s.process.kek, renamed, removed).process.Ready?
    ensures AfterDecide(s, s.process.kek, renamed, removed).written == s.written
  {
    if s.disk.active.None? {
      DecideNew(s, s.process.kek, renamed, removed);
    } else if s.disk.active == Some(Fingerprint(s.process.kek)) {
      DecideAccepts(s, s.process.kek, renamed, removed);
    } else {
      DecideRecovers(s, s.process.kek, renamed, removed);
    }
  }

  /** A logger that throws after the commit has the staged key discarded, the only copy unless it is the live one. */
  lemma LoggerKeeps(s: State, removed: bool)
    requires Inv(s) && s.process.Promoting?
    ensures Inv(Next(s, LoggerThrows(removed))) <==> Allowed(s, LoggerThrows(removed))
  {
  }

  /** What is allowed is exactly what keeps the invariant. */
  lemma NextKeeps(s: State, step: Step)
    requires Inv(s)
    ensures Inv(Next(s, step)) <==> Allowed(s, step)
  {
    match step
    case LoadKek(minted) =>
      if s.process.Down? {
        LoadKeeps(s, minted);
      }
    case Decide(renamed, removed) =>
      if s.process.Loaded? {
        DecideKeeps(s, renamed, removed);
      }
    case Put(name, text, dek) =>
      if s.process.Ready? {
        PutKeeps(s, name, text, dek);
      }
    case RewrapRow(name) =>
      if s.process.Rewriting? && name in s.process.pending && name in s.process.working {
        RewrapRowKeeps(s, name);
      }
    case Commit =>
      if s.process.Rewriting? && s.process.pending == {} {
        CommitKeeps(s);
      }
    case LoggerThrows(removed) =>
      if s.process.Promoting? {
        LoggerKeeps(s, removed);
      }
    case _ =>
  }

  /**
   * Crash safety over whole runs, from the empty store or any consistent one: however
   * rotations, writes, failed file operations, crashes and reopens interleave, every row opens
   * under the key the database names, and that key is in the live file or in the staged one.
   */
  lemma {:induction false} EveryRunIsConsistent(s: State, steps: seq<Step>)
    requires Inv(s) && AllowedRun(s, steps)
    ensures Inv(Run(s, steps))
    decreases |steps|
  {
    if steps != [] {
      EveryRunIsConsistent(s, steps[..|steps| - 1]);
      NextKeeps(Run(s, steps[..|steps| - 1]), steps[|steps| - 1]);
    }
  }

  /** Kill the process wherever it is and open the store again. */
  function Reopen(s: State, minted: Key, removed: bool): State {
    var loaded := AfterLoad(s.(process := Down), minted);
    if loaded.process.Loaded? then AfterDecide(loaded, loaded.process.kek, true, removed) else loaded
  }

  function Get(s: State, name: Scalars): Option<Result<Text, CryptoError>>
    requires s.process.Ready?
  {
    if name in s.disk.rows then Some(OpenSecret(s.process.kek, name, s.disk.rows[name])) else None
  }

  lemma ReopenReadsAll(s: State, minted: Key, removed: bool)
    requires Inv(s)
    ensures var t := Reopen(s, minted, removed);
            && t.process.Ready?
            && forall name :: Get(t, name) == if name in s.written then Some(Ok(Stored(s.written[name]))) else None
  {
    var crashed := s.(process := Down);
    LoadKeeps(crashed, minted);
    var t := Reopen(s, minted, removed);
    DecideKeeps(AfterLoad(crashed, minted), true, removed);
    assert AllOpen(t.process.kek, t.disk.rows, t.written);
  }

  /**
   * The text last put under a name and not deleted since, read off the steps of a run from the
   * empty directory: a put or a delete takes place when the store is ready at that moment.
   */
  function LastText(steps: seq<Step>, name: Scalars): Option<Text>
    decreases |steps|
  {
    if steps == [] then None
    else
      var front, last := steps[..|steps| - 1], steps[|steps| - 1];
      if !Run(EMPTY, front).process.Ready? then LastText(front, name)
      else
        match last
        case Put(put, text, _) => if put == name then Some(text) else LastText(front, name)
        case Delete(deleted) => if deleted == name then None else LastText(front, name)
        case _ => LastText(front, name)
  }

  ghost predicate Records(written: map<Scalars, Text>, steps: seq<Step>) {
    forall name :: LastText(steps, name) == if name in written then Some(written[name]) else None
  }

  lemma WrittenChanges(s: State, step: Step)
    ensures Next(s, step).written
         == if !s.process.Ready? then s.written
            else
              match step
              case Put(name, text, _) => s.written[name := text]
              case Delete(name) => s.written - {name}
              case _ => s.written
  {
  }

  /** The history a state carries is what the steps say, whatever the steps were. */
  lemma {:induction false} WrittenIsLastText(steps: seq<Step>)
    ensures Records(Run(EMPTY, steps).written, steps)
    decreases |steps|
  {
    if steps != [] {
      WrittenIsLastText(steps[..|steps| - 1]);
      WrittenChanges(Run(EMPTY, steps[..|steps| - 1]), steps[|steps| - 1]);
    }
  }

  /**
   * Wherever a run is interrupted, the next open succeeds and every name reads back the text
   * last put under it, and no other name reads anything.
   */
  lemma ReopenRecoversEverything(steps: seq<Step>, minted: Key, removed: bool)
    requires AllowedRun(EMPTY, steps)
    ensures var t := Reopen(Run(EMPTY, steps), minted, removed);
            && t.process.Ready?
            && forall name :: Get(t, name) == match LastText(steps, name)
                                              case None => None
                                              case Some(text) => Some(Ok(Stored(text)))
  {
    EveryRunIsConsistent(EMPTY, steps);
    ReopenReadsAll(Run(EMPTY, steps), minted, removed);
    WrittenIsLastText(steps);
  }

  // ---- what the three exclusions exclude ----------------------------------------------------

  /** The key the database names is in neither file. */
  ghost predicate KeyLost(d: Disk) {
    d.active.Some? && d.live.Holds? && d.live.key != d.active.value.key && d.staged != Holds(d.active.value.key)
  }

  /** Once the process ends, a lost key stays lost: no sequence of opens reads anything again. */
  lemma {:induction false} LostStaysLost(s: State, steps: seq<Step>)
    requires s.process.Down? && KeyLost(s.disk)
    ensures KeyLost(Run(s, steps).disk)
    ensures Run(s, steps).process.Down? || Run(s, steps).process == Loaded(s.disk.live.key)
    ensures Run(s, steps).disk.live == s.disk.live
    decreases |steps|
  {
    if steps != [] {
      LostStaysLost(s, steps[..|steps| - 1]);
    }
  }

  /**
   * A rotation may begin in a running store exactly when the live file holds the running key:
   * staging a new key, whole or cut short, then leaves the store recoverable, and otherwise
   * destroys the only copy of the key its rows need.
   */
  lemma BeginIsSafeExactlyWhenPromoted(s: State, next: Key, minted: Key, removed: bool)
    requires Inv(s) && s.process.Ready? && next != s.process.kek
    ensures Reopen(Next(s, Begin(next)), minted, removed).process.Ready? <==> s.disk.live == Holds(s.process.kek)
    ensures KeyLost(Next(Next(s, Begin(next)), Crash).disk) <==> s.disk.live != Holds(s.process.kek)
    ensures KeyLost(Next(Next(s, TearStagedFile), Crash).disk) <==> s.disk.live != Holds(s.process.kek)
  {
  }

  /**
   * A logger that throws after the commit has the staged key discarded. Every secret is lost with
   * it exactly when the removal takes effect while the live file holds another key.
   */
  lemma ThrowingLoggerLosesTheKey(s: State, thrown: bool, minted: Key, removed: bool)
    requires Inv(s) && s.process.Promoting?
    ensures var after := Next(s, LoggerThrows(thrown));
            && (Inv(after) <==> !thrown || s.disk.live == Holds(s.process.kek))
            && (KeyLost(Next(after, Crash).disk) <==> thrown && s.disk.live != Holds(s.process.kek))
            && (Reopen(after, minted, removed).process.Ready? <==> !thrown || s.disk.live == Holds(s.process.kek))
  {
    LoggerKeeps(s, thrown);
  }

  /**
   * A live key file cut short makes every later open fail, whatever else happens; it can be cut
   * short exactly when there was none.
   */
  lemma TornFirstFileNeverOpens(s: State, steps: seq<Step>)
    requires Inv(s) && s.process.Down?
    ensures var torn := Next(s, TearLiveFile);
            && (torn.disk.live.Torn? <==> s.disk.live.Absent?) && (!s.disk.live.Absent? ==> torn == s)
            && (torn.disk.live.Torn? ==> Run(torn, steps) == torn && forall key :: Reopen(torn, key, true) == torn)
  {
    TornStays(Next(s, TearLiveFile), steps);
  }

  lemma {:induction false} TornStays(s: State, steps: seq<Step>)
    requires s.process.Down?
    ensures s.disk.live.Torn? ==> Run(s, steps) == s
    decreases |steps|
  {
    if steps != [] {
      TornStays(s, steps[..|steps| - 1]);
    }
  }

  /** A first open, a rotation of the empty store up to its commit. */
  function Committed(live: Key, staged: Key): seq<Step> {
    [LoadKek(live)] + [Decide(true, true)] + [Begin(staged)] + [Commit]
  }

  lemma CommittedState(live: Key, staged: Key)
    ensures Run(EMPTY, Committed(live, staged))
            == State(Disk(Holds(live), Holds(staged), map[], Some(Fingerprint(staged))), Promoting(staged), map[])
  {
    var steps := [] + [LoadKek(live)];
    RunSnoc(EMPTY, [], LoadKek(live));
    assert steps == [LoadKek(live)];
    RunSnoc(EMPTY, steps, Decide(true, true));
    RunSnoc(EMPTY, steps + [Decide(true, true)], Begin(staged));
    RunSnoc(EMPTY, steps + [Decide(true, true)] + [Begin(staged)], Commit);
  }

  /** Both losses are reached by whole runs that break only the one exclusion. */
  lemma ExclusionsAreNeeded(live: Key, staged: Key, third: Key)
    requires live != staged && staged != third
    ensures KeyLost(Run(EMPTY, Committed(live, staged) + [Promote(false)] + [Begin(third)] + [Crash]).disk)
    ensures KeyLost(Run(EMPTY, Committed(live, staged) + [LoggerThrows(true)] + [Crash]).disk)
  {
    var steps := Committed(live, staged);
    CommittedState(live, staged);
    RunSnoc(EMPTY, steps, Promote(false));
    RunSnoc(EMPTY, steps + [Promote(false)], Begin(third));
    RunSnoc(EMPTY, steps + [Promote(false)] + [Begin(third)], Crash);
    RunSnoc(EMPTY, steps, LoggerThrows(true));
    RunSnoc(EMPTY, steps + [LoggerThrows(true)], Crash);
  }

  lemma RunSnoc(s: State, steps: seq<Step>, step: Step)
    ensures Run(s, steps + [step]) == Next(Run(s, steps), step)
  {
    assert (steps + [step])[..|steps|] == steps;
  }
}
