/**
 * The migration runner, crashed at any point and run again, and the checks in front of it and
 * behind it.
 *
 * What a statement does to a schema is a parameter; a transaction is all or nothing.
 */
module Migrations {
  import opened Prelude
  import opened Text
  import Numerals

  datatype Migration<St> = Migration(version: int, statements: seq<St>, suspendForeignKeys: bool)

  /** The database engine: a statement may throw; a schema may lack the ledger table, or have dangling references. */
  datatype Engine<!Sc, !St> = Engine(
    empty: Sc,
    apply: (Sc, St) -> Option<Sc>,
    intact: Sc -> bool,
    hasLedger: Sc -> bool)

  /** What survives a crash. Versions in the ledger are distinct: the column is its primary key. */
  datatype Disk<Sc> = Disk(schema: Sc, ledger: set<int>, userVersion: int)

  // ---- what a whole migration does -----------------------------------------------------------------

  function ApplyAll<Sc, St>(e: Engine<Sc, St>, schema: Sc, statements: seq<St>): Option<Sc> {
    if statements == [] then Some(schema)
    else
      match e.apply(schema, statements[0])
      case None => None
      case Some(next) => ApplyAll(e, next, statements[1..])
  }

  /**
   * The schema behind a migration; none when a statement throws, a reference dangles, or there
   * is no ledger to record it.
   */
  function Migrate<Sc, St>(e: Engine<Sc, St>, schema: Sc, m: Migration<St>): Option<Sc> {
    match ApplyAll(e, schema, m.statements)
    case None => None
    case Some(next) => if (m.suspendForeignKeys && !e.intact(next)) || !e.hasLedger(next) then None else Some(next)
  }

  /** The schema behind the first `k` migrations. */
  function Fold<Sc, St>(e: Engine<Sc, St>, migrations: seq<Migration<St>>, k: nat): Option<Sc>
    requires k <= |migrations|
  {
    if k == 0 then Some(e.empty)
    else
      match Fold(e, migrations, k - 1)
      case None => None
      case Some(schema) => Migrate(e, schema, migrations[k - 1])
  }

  /** The versions 1 to `k`. */
  function UpTo(k: nat): (s: set<int>)
    ensures forall v :: v in s <==> 1 <= v <= k
    ensures |s| == k
  {
    if k == 0 then {} else UpTo(k - 1) + {k}
  }

  /** Versions are 1 to n, in order, without gaps. */
  ghost predicate Numbered<St>(migrations: seq<Migration<St>>) {
    forall i :: 0 <= i < |migrations| ==> migrations[i].version == i + 1
  }

  /** Exactly the first `k` migrations are in effect, recorded, and counted. */
  ghost predicate Reached<Sc, St>(e: Engine<Sc, St>, migrations: seq<Migration<St>>, disk: Disk<Sc>, k: nat)
    requires k <= |migrations|
  {
    Fold(e, migrations, k) == Some(disk.schema) && disk.ledger == UpTo(k) && disk.userVersion == k
  }

  // ---- the runner, with a fuse -----------------------------------------------------------------------

  /** How far the statements got before the process died, a statement threw, or all were executed. */
  datatype Progress<Sc> = Executed(schema: Sc, fuse: nat) | Broke | Blown

  function Execute<Sc, St>(e: Engine<Sc, St>, schema: Sc, statements: seq<St>, fuse: nat): Progress<Sc>
    decreases |statements|
  {
    if statements == [] then Executed(schema, fuse)
    else if fuse == 0 then Blown
    else
      match e.apply(schema, statements[0])
      case None => Broke
      case Some(next) => Execute(e, next, statements[1..], fuse - 1)
  }

  datatype Attempt<Sc> = Committed(disk: Disk<Sc>, fuse: nat) | RolledBack | Died

  /**
   * One migration: begin, statements, reference check, ledger row, version, commit. Each step
   * costs one of the fuse.
   */
  function RunOne<Sc, St>(e: Engine<Sc, St>, disk: Disk<Sc>, m: Migration<St>, fuse: nat): Attempt<Sc> {
    if fuse == 0 then Died
    else
      match Execute(e, disk.schema, m.statements, fuse - 1)
      case Blown => Died
      case Broke => RolledBack
      case Executed(schema, left) =>
        if m.suspendForeignKeys && left == 0 then Died
        else if m.suspendForeignKeys && !e.intact(schema) then RolledBack
        else Record(e, disk, schema, m.version, if m.suspendForeignKeys then left - 1 else left)
  }

  function Record<Sc, St>(e: Engine<Sc, St>, disk: Disk<Sc>, schema: Sc, version: int, fuse: nat): Attempt<Sc> {
    if fuse == 0 then Died
    else if !e.hasLedger(schema) || version in disk.ledger then RolledBack
    else if fuse < 3 then Died
    else Committed(Disk(schema, disk.ledger + {version}, version), fuse - 3)
  }

  datatype RunResult = Applied(count: nat) | Threw | Crashed

  /** The rest of a run that read `current` at its start. */
  function RunFrom<Sc, St>(e: Engine<Sc, St>, disk: Disk<Sc>, current: int, migrations: seq<Migration<St>>, i: nat,
                           fuse: nat, applied: nat): (Disk<Sc>, RunResult)
    requires i <= |migrations|
    decreases |migrations| - i
  {
    if i == |migrations| then (disk, Applied(applied))
    else if migrations[i].version <= current then RunFrom(e, disk, current, migrations, i + 1, fuse, applied)
    else if migrations[i].version < 1 then (disk, Threw)
    else
      match RunOne(e, disk, migrations[i], fuse)
      case Died => (disk, Crashed)
      case RolledBack => (disk, Threw)
      case Committed(next, left) => RunFrom(e, next, current, migrations, i + 1, left, applied + 1)
  }

  function Run<Sc, St>(e: Engine<Sc, St>, disk: Disk<Sc>, migrations: seq<Migration<St>>, fuse: nat):
    (Disk<Sc>, RunResult)
  {
    RunFrom(e, disk, disk.userVersion, migrations, 0, fuse, 0)
  }

  // ---- one migration is all or nothing ---------------------------------------------------------------

  lemma {:induction false} ExecuteIsApplyAll<Sc, St>(e: Engine<Sc, St>, schema: Sc, statements: seq<St>, fuse: nat)
    ensures match Execute(e, schema, statements, fuse)
            case Executed(next, left) => ApplyAll(e, schema, statements) == Some(next) && left + |statements| == fuse
            case Broke => ApplyAll(e, schema, statements) == None
            case Blown => fuse < |statements|
    decreases |statements|
  {
    if statements != [] && fuse > 0 {
      var next := e.apply(schema, statements[0]);
      if next.Some? {
        ExecuteIsApplyAll(e, next.value, statements[1..], fuse - 1);
      }
    }
  }

  /** What a migration can cost at most. */
  function Cost<St>(m: Migration<St>): nat {
    |m.statements| + 5
  }

  lemma RunOneIsMigrate<Sc, St>(e: Engine<Sc, St>, disk: Disk<Sc>, m: Migration<St>, fuse: nat)
    requires m.version !in disk.ledger
    ensures match RunOne(e, disk, m, fuse)
            case Committed(next, left) =>
              && Migrate(e, disk.schema, m) == Some(next.schema)
              && next == Disk(next.schema, disk.ledger + {m.version}, m.version) && left + Cost(m) >= fuse
            case RolledBack => Migrate(e, disk.schema, m) == None
            case Died => fuse < Cost(m)
  {
    if fuse > 0 {
      ExecuteIsApplyAll(e, disk.schema, m.statements, fuse - 1);
    }
  }

  lemma ReachedNext<Sc, St>(e: Engine<Sc, St>, migrations: seq<Migration<St>>, disk: Disk<Sc>, k: nat, fuse: nat)
    requires Numbered(migrations) && k < |migrations| && Reached(e, migrations, disk, k)
    ensures match RunOne(e, disk, migrations[k], fuse)
            case Committed(next, left) => Reached(e, migrations, next, k + 1) && left + Cost(migrations[k]) >= fuse
            case RolledBack => Fold(e, migrations, k + 1) == None
            case Died => fuse < Cost(migrations[k])
  {
    RunOneIsMigrate(e, disk, migrations[k], fuse);
  }

  // ---- a run, however it ends --------------------------------------------------------------------------

  /** What migrations from `k` on can cost at most. */
  function CostFrom<St>(migrations: seq<Migration<St>>, k: nat): nat
    requires k <= |migrations|
    decreases |migrations| - k
  {
    if k == |migrations| then 0 else Cost(migrations[k]) + CostFrom(migrations, k + 1)
  }

  /** A run got from `j` to `k`; how it ended says why it stopped there. */
  ghost predicate Advanced<Sc, St>(e: Engine<Sc, St>, migrations: seq<Migration<St>>, j: nat, fuse: nat, disk: Disk<Sc>,
                                   result: RunResult, applied: nat, k: nat)
    requires j <= |migrations|
  {
    && j <= k <= |migrations| && Reached(e, migrations, disk, k)
    && match result
       case Applied(count) => k == |migrations| && count == applied + (k - j)
       case Threw => k < |migrations| && Fold(e, migrations, k + 1) == None
       case Crashed => k < |migrations| && fuse < CostFrom(migrations, j)
  }

  lemma {:induction false} RunAdvances<Sc, St>(e: Engine<Sc, St>, migrations: seq<Migration<St>>, disk: Disk<Sc>,
                                               current: int, j: nat, fuse: nat, applied: nat) returns (k: nat)
    requires Numbered(migrations) && j <= |migrations| && current <= j && Reached(e, migrations, disk, j)
    ensures var (after, result) := RunFrom(e, disk, current, migrations, j, fuse, applied);
            Advanced(e, migrations, j, fuse, after, result, applied, k)
    decreases |migrations| - j
  {
    k := j;
    if j < |migrations| {
      ReachedNext(e, migrations, disk, j, fuse);
      var attempt := RunOne(e, disk, migrations[j], fuse);
      if attempt.Committed? {
        k := RunAdvances(e, migrations, attempt.disk, current, j + 1, attempt.fuse, applied + 1);
      }
    }
  }

  /** Migrations at or below the recorded version are skipped. */
  lemma {:induction false} SkipsToCurrent<Sc, St>(e: Engine<Sc, St>, migrations: seq<Migration<St>>, disk: Disk<Sc>,
                                                  current: nat, i: nat, fuse: nat, applied: nat)
    requires Numbered(migrations) && i <= current <= |migrations|
    ensures RunFrom(e, disk, current, migrations, i, fuse, applied)
         == RunFrom(e, disk, current, migrations, current, fuse, applied)
    decreases current - i
  {
    if i < current {
      SkipsToCurrent(e, migrations, disk, current, i + 1, fuse, applied);
    }
  }

  /**
   * A run stopped anywhere, by a crash at any statement or by a failing migration, leaves
   * exactly the first k migrations in effect, for some k no smaller than before.
   */
  lemma EveryRunLeavesAPrefix<Sc, St>(e: Engine<Sc, St>, migrations: seq<Migration<St>>, disk: Disk<Sc>, j: nat,
                                      fuse: nat)
    returns (k: nat)
    requires Numbered(migrations) && j <= |migrations| && Reached(e, migrations, disk, j)
    ensures Advanced(e, migrations, j, fuse, Run(e, disk, migrations, fuse).0, Run(e, disk, migrations, fuse).1, 0, k)
  {
    SkipsToCurrent(e, migrations, disk, j, 0, fuse, 0);
    k := RunAdvances(e, migrations, disk, j, j, fuse, 0);
  }

  /** Runs one after the other, each with its own fuse. */
  function Runs<Sc, St>(e: Engine<Sc, St>, disk: Disk<Sc>, migrations: seq<Migration<St>>, fuses: seq<nat>): Disk<Sc> {
    if fuses == [] then disk
    else Run(e, Runs(e, disk, migrations, fuses[..|fuses| - 1]), migrations, fuses[|fuses| - 1]).0
  }

  lemma {:induction false} RunsLeaveAPrefix<Sc, St>(e: Engine<Sc, St>, migrations: seq<Migration<St>>, disk: Disk<Sc>,
                                                    j: nat, fuses: seq<nat>) returns (k: nat)
    requires Numbered(migrations) && j <= |migrations| && Reached(e, migrations, disk, j)
    ensures j <= k <= |migrations| && Reached(e, migrations, Runs(e, disk, migrations, fuses), k)
    decreases |fuses|
  {
    k := j;
    if fuses != [] {
      var front := fuses[..|fuses| - 1];
      k := RunsLeaveAPrefix(e, migrations, disk, j, front);
      k := EveryRunLeavesAPrefix(e, migrations, Runs(e, disk, migrations, front), k, fuses[|fuses| - 1]);
    }
  }

  lemma {:induction false} CostShrinks<St>(migrations: seq<Migration<St>>, j: nat, k: nat)
    requires j <= k <= |migrations|
    ensures CostFrom(migrations, k) <= CostFrom(migrations, j)
    decreases k - j
  {
    if j < k {
      CostShrinks(migrations, j + 1, k);
    }
  }

  lemma {:induction false} FoldStops<Sc, St>(e: Engine<Sc, St>, migrations: seq<Migration<St>>, k: nat, n: nat)
    requires k <= n <= |migrations| && Fold(e, migrations, k) == None
    ensures Fold(e, migrations, n) == None
    decreases n - k
  {
    if k < n {
      FoldStops(e, migrations, k, n - 1);
    }
  }

  /** A new database. */
  function Fresh<Sc, St>(e: Engine<Sc, St>): Disk<Sc> {
    Disk(e.empty, {}, 0)
  }

  /**
   * However often the runner was stopped, one run that is not stopped reaches the state an
   * uninterrupted run on a new database reaches; and running again changes nothing.
   */
  lemma InterruptionsDoNotMatter<Sc, St>(e: Engine<Sc, St>, migrations: seq<Migration<St>>, fuses: seq<nat>, fuse: nat)
    requires Numbered(migrations) && Fold(e, migrations, |migrations|).Some? && fuse >= CostFrom(migrations, 0)
    ensures var n := |migrations|;
            var stopped := Runs(e, Fresh(e), migrations, fuses);
            var (disk, result) := Run(e, stopped, migrations, fuse);
            && Reached(e, migrations, disk, n) && disk == Run(e, Fresh(e), migrations, fuse).0
            && 0 <= stopped.userVersion <= n && result == Applied(n - stopped.userVersion)
            && Run(e, disk, migrations, 0) == (disk, Applied(0))
  {
    var j := RunsLeaveAPrefix(e, migrations, Fresh(e), 0, fuses);
    var stopped := Runs(e, Fresh(e), migrations, fuses);
    Completes(e, migrations, stopped, j, fuse);
    Completes(e, migrations, Fresh(e), 0, fuse);
    var disk := Run(e, stopped, migrations, fuse).0;
    SkipsToCurrent(e, migrations, disk, |migrations|, 0, 0, 0);
  }

  lemma Completes<Sc, St>(e: Engine<Sc, St>, migrations: seq<Migration<St>>, disk: Disk<Sc>, j: nat, fuse: nat)
    requires Numbered(migrations) && j <= |migrations| && Reached(e, migrations, disk, j)
    requires Fold(e, migrations, |migrations|).Some? && fuse >= CostFrom(migrations, 0)
    ensures Reached(e, migrations, Run(e, disk, migrations, fuse).0, |migrations|)
    ensures Run(e, disk, migrations, fuse).1 == Applied(|migrations| - j)
  {
    var k := EveryRunLeavesAPrefix(e, migrations, disk, j, fuse);
    CostShrinks(migrations, 0, j);
    if Run(e, disk, migrations, fuse).1.Threw? {
      FoldStops(e, migrations, k + 1, |migrations|);
    }
  }

  // ---- the ledger checks -------------------------------------------------------------------------------

  /** The greatest version of a ledger; 0 for an empty one. */
  ghost predicate IsHead(ledger: set<int>, head: int) {
    if ledger == {} then head == 0 else head in ledger && forall v :: v in ledger ==> v <= head
  }

  /** Distinct positive versions up to `u` number at most `u`, and number `u` only when they are all there. */
  lemma {:induction false} Pigeonhole(s: set<int>, u: nat)
    requires forall v :: v in s ==> 1 <= v <= u
    ensures |s| <= u && (|s| == u <==> s == UpTo(u))
  {
    if u > 0 {
      var rest := s - {u};
      Pigeonhole(rest, u - 1);
      if u in s {
        assert s == rest + {u};
      } else {
        assert rest == s;
      }
    } else {
      assert forall v :: v in s ==> false;
      assert s == {};
    }
  }

  /** The check in front of the runner. */
  ghost predicate VerifyRecorded(tablePresent: bool, ledger: set<int>, userVersion: int) {
    userVersion == 0 || (tablePresent && IsHead(ledger, userVersion) && |ledger| == userVersion)
  }

  /**
   * Greatest version and count accept exactly the complete ledgers; a recorded version of zero
   * is accepted whatever the ledger says.
   */
  lemma VerifyAcceptsExactlyComplete(tablePresent: bool, ledger: set<int>, userVersion: int)
    requires forall v :: v in ledger ==> v >= 1
    ensures VerifyRecorded(tablePresent, ledger, userVersion)
       <==> (userVersion == 0 || (userVersion > 0 && tablePresent && ledger == UpTo(userVersion)))
  {
    if userVersion > 0 {
      if forall v :: v in ledger ==> v <= userVersion {
        Pigeonhole(ledger, userVersion);
      }
      if ledger == UpTo(userVersion) {
        assert userVersion in ledger;
      }
    }
  }

  ghost predicate VerifyNotAhead(userVersion: int, head: int) {
    userVersion <= head
  }

  lemma {:induction false} FoldHasLedger<Sc, St>(e: Engine<Sc, St>, migrations: seq<Migration<St>>, k: nat)
    requires 0 < k <= |migrations| && Fold(e, migrations, k).Some?
    ensures e.hasLedger(Fold(e, migrations, k).value)
  {
  }

  /** Nothing a stopped run leaves behind is refused by the checks in front of the next one. */
  lemma StoppedRunsAreAccepted<Sc, St>(e: Engine<Sc, St>, migrations: seq<Migration<St>>, fuses: seq<nat>)
    requires Numbered(migrations)
    ensures var disk := Runs(e, Fresh(e), migrations, fuses);
            VerifyRecorded(e.hasLedger(disk.schema), disk.ledger, disk.userVersion)
            && VerifyNotAhead(disk.userVersion, |migrations|)
  {
    var k := RunsLeaveAPrefix(e, migrations, Fresh(e), 0, fuses);
    var disk := Runs(e, Fresh(e), migrations, fuses);
    VerifyAcceptsExactlyComplete(e.hasLedger(disk.schema), disk.ledger, disk.userVersion);
    if k > 0 {
      FoldHasLedger(e, migrations, k);
    }
  }

  // ---- the chain -----------------------------------------------------------------------------------------

  function Texts<St>(text: St -> string, statements: seq<St>): (r: seq<string>)
    ensures |r| == |statements| && forall i :: 0 <= i < |statements| ==> r[i] == text(statements[i])
  {
    seq(|statements|, i requires 0 <= i < |statements| => text(statements[i]))
  }

  /** The statements of a migration as they are digested: joined by semicolons. */
  function Joined<St>(text: St -> string, m: Migration<St>): string {
    Join(Texts(text, m.statements), ";")
  }

  function VersionText(version: int): string {
    if version < 0 then "-" + Numerals.Decimal(-version) else Numerals.Decimal(version)
  }

  /** What one link adds to the digest of the links before it. */
  function Link<St>(text: St -> string, m: Migration<St>): string {
    VersionText(m.version) + Joined(text, m)
  }

  /** The digest of the applied migrations, ideally: every text that is folded into it. */
  function Chain<St>(text: St -> string, migrations: seq<Migration<St>>, upTo: int): seq<string> {
    if migrations == [] then []
    else
      var last := migrations[|migrations| - 1];
      Chain(text, migrations[..|migrations| - 1], upTo) + if last.version > upTo then [] else [Link(text, last)]
  }

  datatype ChainCheck = Recorded(chain: seq<string>) | Agrees | Refused

  ghost function VerifyChain<St>(text: St -> string, recorded: Option<seq<string>>, migrations: seq<Migration<St>>,
                                 ledger: set<int>, schemaVersion: int): ChainCheck
  {
    var expected := Chain(text, migrations, schemaVersion);
    if recorded.None? then Recorded(expected)
    else if recorded.value != expected then Refused
    else if !IsHead(ledger, schemaVersion) || |ledger| != schemaVersion then Refused
    else Agrees
  }

  function Links<St>(text: St -> string, migrations: seq<Migration<St>>): (r: seq<string>)
    ensures |r| == |migrations| && forall i :: 0 <= i < |migrations| ==> r[i] == Link(text, migrations[i])
  {
    seq(|migrations|, i requires 0 <= i < |migrations| => Link(text, migrations[i]))
  }

  lemma LinksSnoc<St>(text: St -> string, front: seq<Migration<St>>, last: Migration<St>)
    ensures Links(text, front + [last]) == Links(text, front) + [Link(text, last)]
  {
  }

  lemma {:induction false} ChainOfPrefix<St>(text: St -> string, migrations: seq<Migration<St>>, n: nat, k: nat)
    requires Numbered(migrations) && n <= |migrations|
    ensures Chain(text, migrations[..n], k) == Links(text, migrations[..if k < n then k else n])
    decreases n
  {
    if n > 0 {
      ChainOfPrefix(text, migrations, n - 1, k);
      ChainSnoc(text, migrations, n, k);
      TakeNext(migrations, n - 1);
      LinksSnoc(text, migrations[..n - 1], migrations[n - 1]);
    }
  }

  lemma ChainSnoc<St>(text: St -> string, migrations: seq<Migration<St>>, n: nat, k: nat)
    requires 0 < n <= |migrations|
    ensures Chain(text, migrations[..n], k)
         == Chain(text, migrations[..n - 1], k)
            + if migrations[n - 1].version > k then [] else [Link(text, migrations[n - 1])]
  {
    assert migrations[..n][..n - 1] == migrations[..n - 1];
  }

  /**
   * Two builds' chains agree exactly when they applied the same versions, each with statements
   * that join to the same text.
   */
  lemma ChainsAgree<St>(text: St -> string, a: seq<Migration<St>>, j: nat, b: seq<Migration<St>>, k: nat)
    requires Numbered(a) && Numbered(b) && j <= |a| && k <= |b|
    ensures Chain(text, a, j) == Chain(text, b, k)
       <==> j == k && forall i :: 0 <= i < j ==> Joined(text, a[i]) == Joined(text, b[i])
  {
    ChainIsLinks(text, a, j);
    ChainIsLinks(text, b, k);
    SameLinks(text, a, j, b, k);
  }

  lemma ChainIsLinks<St>(text: St -> string, migrations: seq<Migration<St>>, k: nat)
    requires Numbered(migrations) && k <= |migrations|
    ensures Chain(text, migrations, k) == Links(text, migrations[..k])
  {
    ChainOfPrefix(text, migrations, |migrations|, k);
    assert migrations[..|migrations|] == migrations;
  }

  lemma SameLinks<St>(text: St -> string, a: seq<Migration<St>>, j: nat, b: seq<Migration<St>>, k: nat)
    requires Numbered(a) && Numbered(b) && j <= |a| && k <= |b|
    ensures Links(text, a[..j]) == Links(text, b[..k])
       <==> j == k && forall i :: 0 <= i < j ==> Joined(text, a[i]) == Joined(text, b[i])
  {
    if Links(text, a[..j]) == Links(text, b[..k]) {
      assert |Links(text, a[..j])| == j && |Links(text, b[..k])| == k;
      forall i | 0 <= i < j ensures Joined(text, a[i]) == Joined(text, b[i]) {
        assert Links(text, a[..j])[i] == Links(text, b[..k])[i];
        SameLink(text, a[i], b[i]);
      }
    }
  }

  lemma SameLink<St>(text: St -> string, a: Migration<St>, b: Migration<St>)
    requires a.version == b.version && Link(text, a) == Link(text, b)
    ensures Joined(text, a) == Joined(text, b)
  {
    var n := |VersionText(a.version)|;
    assert Link(text, a)[n..] == Joined(text, a) && Link(text, b)[n..] == Joined(text, b);
  }

  /** Statements without semicolons are told apart, unless one migration has none at all. */
  lemma JoinedTellsApart<St>(text: St -> string, a: Migration<St>, b: Migration<St>)
    requires a.statements != [] && b.statements != []
    requires Free(Texts(text, a.statements), ';') && Free(Texts(text, b.statements), ';')
    ensures Joined(text, a) == Joined(text, b) <==> Texts(text, a.statements) == Texts(text, b.statements)
  {
    SplitOfJoin(Texts(text, a.statements), ';');
    SplitOfJoin(Texts(text, b.statements), ';');
  }

  /** A semicolon inside a statement hides where it ends: one statement and two have the same chain. */
  lemma JoiningHidesBoundaries<St>(text: St -> string, whole: St, first: St, second: St)
    requires text(whole) == text(first) + ";" + text(second)
    ensures Chain(text, [Migration(1, [whole], false)], 1) == Chain(text, [Migration(1, [first, second], false)], 1)
  {
    var a, b := [Migration(1, [whole], false)], [Migration(1, [first, second], false)];
    assert Texts(text, a[0].statements) == [text(whole)];
    assert Texts(text, b[0].statements) == [text(first), text(second)];
    JoinTwo(text(first), text(second), ";");
    assert Joined(text, a[0]) == text(whole) == Joined(text, b[0]);
    ChainsAgree(text, a, 1, b, 1);
  }

  /**
   * A chain recorded by an earlier build makes every later open agree exactly when no migration
   * has been added since and none applied then has changed: with any new migration the
   * database is migrated first and refused then.
   */
  lemma UpgradeAfterRecordingIsRefused<Sc, St>(e: Engine<Sc, St>, text: St -> string, earlier: seq<Migration<St>>,
                                               later: seq<Migration<St>>, disk: Disk<Sc>, fuse: nat)
    requires Numbered(earlier) && Numbered(later) && |earlier| <= |later| && later[..|earlier|] == earlier
    requires Reached(e, later, disk, |earlier|) && Fold(e, later, |later|).Some? && fuse >= CostFrom(later, 0)
    ensures var (after, result) := Run(e, disk, later, fuse);
            var recorded := Some(Chain(text, earlier, |earlier|));
            var check := VerifyChain(text, recorded, later, after.ledger, after.userVersion);
            && result == Applied(|later| - |earlier|) && Reached(e, later, after, |later|)
            && (check == Agrees <==> |later| == |earlier|) && (check == Refused <==> |later| > |earlier|)
  {
    Completes(e, later, disk, |earlier|, fuse);
    ChainsAgree(text, earlier, |earlier|, later, |later|);
    var after := Run(e, disk, later, fuse).0;
    VerifyAcceptsExactlyComplete(true, after.ledger, after.userVersion);
    if |later| == 0 {
      assert after.ledger == {};
    }
  }

  // ---- the runner ------------------------------------------------------------------------------------------

  class Database<!Sc, !St> {
    const engine: Engine<Sc, St>
    var disk: Disk<Sc>
    /** The schema inside an open transaction. */
    var working: Sc
    /** How many more operations the process survives. */
    var fuse: nat

    constructor (engine: Engine<Sc, St>, disk: Disk<Sc>, fuse: nat)
      ensures this.engine == engine && this.disk == disk && this.fuse == fuse
    {
      this.engine, this.disk, this.fuse, this.working := engine, disk, fuse, disk.schema;
    }

    method ExecAll(statements: seq<St>) returns (p: Progress<Sc>)
      modifies this`working, this`fuse
      ensures p == Execute(engine, old(working), statements, old(fuse))
      ensures p.Executed? ==> working == p.schema && fuse == p.fuse
    {
      for i := 0 to |statements|
        invariant Execute(engine, old(working), statements, old(fuse))
               == Execute(engine, working, statements[i..], fuse)
      {
        if fuse == 0 {
          return Blown;
        }
        fuse := fuse - 1;
        var next := engine.apply(working, statements[i]);
        if next.None? {
          return Broke;
        }
        working := next.value;
        assert statements[i..][1..] == statements[i + 1..];
      }
      return Executed(working, fuse);
    }

    /** One transaction: the disk changes at the commit or not at all. */
    method ApplyOne(m: Migration<St>) returns (a: Attempt<Sc>)
      modifies this
      ensures a == RunOne(engine, old(disk), m, old(fuse))
      ensures if a.Committed? then disk == a.disk && fuse == a.fuse else disk == old(disk)
    {
      if fuse == 0 {
        return Died;
      }
      fuse, working := fuse - 1, disk.schema;
      var p := ExecAll(m.statements);
      if p.Blown? {
        return Died;
      }
      if p.Broke? {
        return RolledBack;
      }
      if m.suspendForeignKeys {
        if fuse == 0 {
          return Died;
        }
        fuse := fuse - 1;
        if !engine.intact(working) {
          return RolledBack;
        }
      }
      if fuse == 0 {
        return Died;
      }
      if !engine.hasLedger(working) || m.version in disk.ledger {
        return RolledBack;
      }
      if fuse < 3 {
        return Died;
      }
      fuse := fuse - 3;
      disk := Disk(working, disk.ledger + {m.version}, m.version);
      return Committed(disk, fuse);
    }

    method RunMigrations(migrations: seq<Migration<St>>) returns (r: RunResult)
      modifies this
      ensures (disk, r) == Run(engine, old(disk), migrations, old(fuse))
    {
      var current := disk.userVersion;
      var applied := 0;
      for i := 0 to |migrations|
        invariant RunFrom(engine, disk, current, migrations, i, fuse, applied)
               == Run(engine, old(disk), migrations, old(fuse))
      {
        if migrations[i].version <= current {
          continue;
        }
        if migrations[i].version < 1 {
          return Threw;
        }
        var a := ApplyOne(migrations[i]);
        if a.Died? {
          return Crashed;
        }
        if a.RolledBack? {
          return Threw;
        }
        applied := applied + 1;
      }
      return Applied(applied);
    }
  }
}
