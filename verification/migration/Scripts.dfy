/**
  What one migration script does to one database, and what a whole list of
  scripts does when its versions are applied one after the other.
 */
module Scripts {
  import opened Wrappers

  /** The contents of every table except "version". */
  type Data(!new)

  /** `versions` lists the rows of the table "version" in insertion order; it
      is None while that table does not exist. */
  datatype Database = Database(data: Data, versions: Option<seq<int>>)

  /** A step is a partial function on the data (None: the server rejects the
      statement). It may also create the table "version". */
  datatype Step = Step(createsVersionTable: bool, run: Data -> Option<Data>)

  type Migrations = seq<seq<Step>>

  // The largest value of the SQL type int, the type of the column "version".
  const MAX_INT4 := 0x7FFF_FFFF

  function ExecStep(step: Step, db: Database): Option<Database> {
    match step.run(db.data)
    case None => None
    case Some(data) =>
      if !step.createsVersionTable then Some(Database(data, db.versions))
      else if db.versions.Some? then None
      else Some(Database(data, Some([])))
  }

  function ExecSteps(steps: seq<Step>, db: Database): Option<Database> {
    if steps == [] then Some(db)
    else
      match ExecSteps(steps[..|steps| - 1], db)
      case None => None
      case Some(mid) => ExecStep(steps[|steps| - 1], mid)
  }

  /** INSERT INTO version(version) VALUES(v), under the constraints of the
      bootstrap script: the table exists, v is unique, not negative, an int4. */
  function InsertVersion(db: Database, v: int): Option<Database> {
    match db.versions
    case None => None
    case Some(rows) =>
      if v < 0 || v > MAX_INT4 || v in rows then None
      else Some(Database(db.data, Some(rows + [v])))
  }

  function ApplyVersion(steps: seq<Step>, v: int, db: Database): Option<Database> {
    match ExecSteps(steps, db)
    case None => None
    case Some(mid) => InsertVersion(mid, v)
  }

  /** Versions from + 1, ..., upto of `m`, one after the other. */
  function Replay(m: Migrations, from: int, upto: int, db: Database): Option<Database>
    requires -1 <= from && upto < |m|
    decreases upto - from
  {
    if upto <= from then Some(db)
    else
      match Replay(m, from, upto - 1, db)
      case None => None
      case Some(mid) => ApplyVersion(m[upto], upto, mid)
  }

  function MaxRow(rows: seq<int>): (m: int)
    requires rows != []
    ensures m in rows && forall r :: r in rows ==> r <= m
  {
    if |rows| == 1 then rows[0]
    else
      var m := MaxRow(rows[1..]);
      assert forall r :: r in rows <==> r == rows[0] || r in rows[1..];
      if m < rows[0] then rows[0] else m
  }

  /** A "version" table that exists is not empty and holds no negative row. */
  predicate WellFormed(db: Database) {
    db.versions.Some? ==>
      && db.versions.value != []
      && forall r :: r in db.versions.value ==> 0 <= r
  }

  /** The version a database is at; -1 before the first one. */
  function Version(db: Database): (v: int)
    requires WellFormed(db)
    ensures -1 <= v && (v == -1 <==> db.versions.None?)
  {
    match db.versions
    case None => -1
    case Some(rows) => MaxRow(rows)
  }

  // The rows from, ..., upto - 1.
  function Range(from: int, upto: int): (r: seq<int>)
    requires from <= upto
    ensures |r| == upto - from && forall i :: 0 <= i < |r| ==> r[i] == from + i
  {
    seq(upto - from, i => from + i)
  }

  // The rows of a table that may not exist yet.
  function Rows(db: Database): seq<int> {
    match db.versions
    case None => []
    case Some(rows) => rows
  }

  lemma {:induction false} StepsKeepVersionRows(steps: seq<Step>, db: Database)
    ensures match ExecSteps(steps, db)
            case None => true
            case Some(mid) => Rows(mid) == Rows(db) && (db.versions.Some? ==> mid.versions.Some?)
  {
    if steps != [] {
      StepsKeepVersionRows(steps[..|steps| - 1], db);
    }
  }

  /** The next version never breaks the constraints of the table: applying it
      fails only if a step does, if no step ever created the table, or if the
      number does not fit its column. */
  lemma NextVersionInserts(steps: seq<Step>, db: Database)
    requires WellFormed(db)
    ensures var next := Version(db) + 1;
            ApplyVersion(steps, next, db).None? <==>
              || ExecSteps(steps, db).None?
              || ExecSteps(steps, db).value.versions.None?
              || next > MAX_INT4
  {
    StepsKeepVersionRows(steps, db);
  }

  lemma ApplyVersionExtends(steps: seq<Step>, db: Database)
    requires WellFormed(db)
    ensures match ApplyVersion(steps, Version(db) + 1, db)
            case None => true
            case Some(db') =>
              && WellFormed(db')
              && Version(db') == Version(db) + 1
              && Rows(db') == Rows(db) + [Version(db) + 1]
  {
    StepsKeepVersionRows(steps, db);
    match ApplyVersion(steps, Version(db) + 1, db)
    case None =>
    case Some(db') => MaxOfGrown(Rows(db), Version(db) + 1);
  }

  lemma MaxOfGrown(rows: seq<int>, m: int)
    requires forall r :: r in rows ==> r <= m
    ensures MaxRow(rows + [m]) == m
  {
    assert m in rows + [m];
  }

  /** Replaying to a later version passes through every earlier one. */
  lemma {:induction false} ReplaySplits(m: Migrations, from: int, mid: int, upto: int, db: Database)
    requires -1 <= from <= mid <= upto < |m|
    ensures Replay(m, from, upto, db) ==
            match Replay(m, from, mid, db)
            case None => None
            case Some(d) => Replay(m, mid, upto, d)
    decreases upto - mid
  {
    if mid < upto {
      ReplaySplits(m, from, mid, upto - 1, db);
    }
  }

  /** A replay adds exactly the rows Version(base) + 1, ..., upto. */
  lemma {:induction false} ReplayRows(m: Migrations, upto: int, base: Database)
    requires WellFormed(base) && Version(base) <= upto < |m|
    ensures match Replay(m, Version(base), upto, base)
            case None => true
            case Some(db) =>
              && WellFormed(db) && Version(db) == upto
              && Rows(db) == Rows(base) + Range(Version(base) + 1, upto + 1)
    decreases upto
  {
    if Version(base) < upto {
      ReplayRows(m, upto - 1, base);
      match Replay(m, Version(base), upto - 1, base)
      case None =>
      case Some(mid) => ApplyVersionExtends(m[upto], mid);
    }
  }

  /** Lists that agree on their common prefix replay alike. */
  lemma {:induction false} ReplayPrefix(m: Migrations, longer: Migrations, from: int, upto: int, db: Database)
    requires m <= longer && -1 <= from && upto < |m|
    ensures Replay(m, from, upto, db) == Replay(longer, from, upto, db)
    decreases upto - from
  {
    if from < upto {
      ReplayPrefix(m, longer, from, upto - 1, db);
    }
  }

  ghost predicate Compatible(a: Migrations, b: Migrations) {
    a <= b || b <= a
  }

  /** Finitely many lists that pairwise agree on their common prefix are all
      prefixes of one list: the newest release. */
  lemma {:induction false} CompatibleListsHaveRelease(lists: seq<Migrations>)
    requires lists != []
    requires forall i, j :: 0 <= i < j < |lists| ==> Compatible(lists[i], lists[j])
    ensures exists r :: r in lists && forall m :: m in lists ==> m <= r
  {
    var last := lists[|lists| - 1];
    if |lists| == 1 {
      assert last in lists && forall m :: m in lists ==> m <= last;
    } else {
      var init := lists[..|lists| - 1];
      CompatibleListsHaveRelease(init);
      var r :| r in init && forall m :: m in init ==> m <= r;
      assert lists == init + [last];
      var i :| 0 <= i < |init| && init[i] == r;
      assert Compatible(lists[i], lists[|lists| - 1]);
      var top := if last <= r then r else last;
      assert top in lists && forall m :: m in lists ==> m <= top;
    }
  }
}
