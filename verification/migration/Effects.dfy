/** What scripts do to the data, step by step. */
module Effects {
  import opened Wrappers
  import opened Scripts

  /** The data between the steps, each of which has run on the one before it. */
  ghost predicate RunsThrough(ds: seq<Data>, steps: seq<Step>) {
    && |ds| == |steps| + 1
    && forall k :: 0 <= k < |steps| ==> steps[k].run(ds[k]) == Some(ds[k + 1])
  }

  ghost predicate Transforms(steps: seq<Step>, d: Data, d': Data) {
    exists ds :: RunsThrough(ds, steps) && ds[0] == d && ds[|steps|] == d'
  }

  ghost predicate CanRun(steps: seq<Step>, d: Data) {
    exists d' :: Transforms(steps, d, d')
  }

  /** The table is created once at most, and not if it is there. */
  predicate CreatesFit(steps: seq<Step>, there: bool) {
    forall i | 0 <= i < |steps| && steps[i].createsVersionTable ::
      !there && forall j | 0 <= j < i :: !steps[j].createsVersionTable
  }

  predicate Creates(steps: seq<Step>) {
    exists i | 0 <= i < |steps| :: steps[i].createsVersionTable
  }

  lemma {:induction false} SameStepsSameData(ds: seq<Data>, es: seq<Data>, steps: seq<Step>)
    requires RunsThrough(ds, steps) && RunsThrough(es, steps) && ds[0] == es[0]
    ensures ds == es
    decreases |steps|
  {
    if steps == [] {
      assert ds == [ds[0]] && es == [es[0]];
    } else {
      var n := |steps| - 1;
      SameStepsSameData(ds[..n + 1], es[..n + 1], steps[..n]);
      assert ds[..n + 1][n] == es[..n + 1][n];
      assert steps[n].run(ds[n]) == Some(ds[n + 1]) && steps[n].run(es[n]) == Some(es[n + 1]);
      assert ds == ds[..n + 1] + [ds[n + 1]] && es == es[..n + 1] + [es[n + 1]];
    }
  }

  /** One step: it runs on the data, and it may create the table. */
  lemma StepRuns(step: Step, db: Database)
    ensures ExecStep(step, db).Some? <==> step.run(db.data).Some? && !(step.createsVersionTable && db.versions.Some?)
    ensures ExecStep(step, db).Some? ==>
              && Some(ExecStep(step, db).value.data) == step.run(db.data)
              && ExecStep(step, db).value.versions == if step.createsVersionTable then Some([]) else db.versions
  {
  }

  lemma TransformsGrows(steps: seq<Step>, last: Step, d: Data, mid: Data, d': Data)
    requires Transforms(steps, d, mid) && last.run(mid) == Some(d')
    ensures Transforms(steps + [last], d, d')
  {
    var ds :| RunsThrough(ds, steps) && ds[0] == d && ds[|steps|] == mid;
    var longer := ds + [d'];
    forall k | 0 <= k < |steps| + 1 ensures (steps + [last])[k].run(longer[k]) == Some(longer[k + 1]) {
      if k < |steps| {
        assert longer[k] == ds[k] && longer[k + 1] == ds[k + 1] && (steps + [last])[k] == steps[k];
      }
    }
    assert RunsThrough(longer, steps + [last]);
  }

  lemma TransformsShrinks(steps: seq<Step>, d: Data, d': Data) returns (mid: Data)
    requires steps != [] && Transforms(steps, d, d')
    ensures Transforms(steps[..|steps| - 1], d, mid) && steps[|steps| - 1].run(mid) == Some(d')
  {
    var n := |steps| - 1;
    var ds :| RunsThrough(ds, steps) && ds[0] == d && ds[|steps|] == d';
    mid := ds[n];
    assert RunsThrough(ds[..n + 1], steps[..n]) && ds[..n + 1][0] == d && ds[..n + 1][n] == mid;
    assert steps[n].run(ds[n]) == Some(ds[n + 1]);
  }

  lemma TransformsOneWay(steps: seq<Step>, d: Data, a: Data, b: Data)
    requires Transforms(steps, d, a) && Transforms(steps, d, b)
    ensures a == b
  {
    var ds :| RunsThrough(ds, steps) && ds[0] == d && ds[|steps|] == a;
    var es :| RunsThrough(es, steps) && es[0] == d && es[|steps|] == b;
    SameStepsSameData(ds, es, steps);
  }

  lemma CreatesGrows(steps: seq<Step>, last: Step, there: bool)
    ensures Creates(steps + [last]) <==> Creates(steps) || last.createsVersionTable
    ensures CreatesFit(steps + [last], there)
            <==> CreatesFit(steps, there) && !(last.createsVersionTable && (there || Creates(steps)))
  {
    var longer := steps + [last];
    assert forall i :: 0 <= i < |steps| ==> longer[i] == steps[i];
    assert longer[|steps|] == last;
    if CreatesFit(longer, there) {
      assert last.createsVersionTable ==> !there && forall j | 0 <= j < |steps| :: !longer[j].createsVersionTable;
    }
  }

  /** A list of steps runs exactly if each runs on the data the one before it has
      left, and the table is not created twice; then the data is what the last one
      has left, and nothing else has changed but that the table may exist. */
  lemma {:induction false} StepsRun(steps: seq<Step>, db: Database)
    ensures match ExecSteps(steps, db)
            case None => !CreatesFit(steps, db.versions.Some?) || forall d' :: !Transforms(steps, db.data, d')
            case Some(after) =>
              && CreatesFit(steps, db.versions.Some?) && Transforms(steps, db.data, after.data)
              && after.versions == if Creates(steps) then Some([]) else db.versions
    decreases |steps|
  {
    if steps == [] {
      assert RunsThrough([db.data], steps);
    } else {
      var init, last := steps[..|steps| - 1], steps[|steps| - 1];
      assert steps == init + [last];
      StepsRun(init, db);
      CreatesGrows(init, last, db.versions.Some?);
      if ExecSteps(init, db).Some? {
        var mid := ExecSteps(init, db).value;
        StepRuns(last, mid);
        if ExecSteps(steps, db).Some? {
          TransformsGrows(init, last, db.data, mid.data, ExecSteps(steps, db).value.data);
        }
      }
      if ExecSteps(steps, db).None? {
        forall d' ensures !CreatesFit(steps, db.versions.Some?) || !Transforms(steps, db.data, d') {
          NoWayThrough(init, last, db, d');
        }
      }
    }
  }

  lemma NoWayThrough(init: seq<Step>, last: Step, db: Database, d': Data)
    requires ExecSteps(init + [last], db).None?
    requires match ExecSteps(init, db)
             case None => !CreatesFit(init, db.versions.Some?) || forall d :: !Transforms(init, db.data, d)
             case Some(mid) =>
               && Transforms(init, db.data, mid.data)
               && mid.versions == if Creates(init) then Some([]) else db.versions
    ensures !CreatesFit(init + [last], db.versions.Some?) || !Transforms(init + [last], db.data, d')
  {
    var steps := init + [last];
    assert steps[..|steps| - 1] == init && steps[|steps| - 1] == last;
    CreatesGrows(init, last, db.versions.Some?);
    if Transforms(steps, db.data, d') {
      var d := TransformsShrinks(steps, db.data, d');
      if ExecSteps(init, db).Some? {
        TransformsOneWay(init, db.data, d, ExecSteps(init, db).value.data);
        StepRuns(last, ExecSteps(init, db).value);
      }
    }
  }

  /** The steps of several versions, in order. */
  function AllSteps(versions: seq<seq<Step>>): seq<Step> {
    if versions == [] then [] else AllSteps(versions[..|versions| - 1]) + versions[|versions| - 1]
  }

  lemma TransformsJoins(a: seq<Step>, b: seq<Step>, d: Data, mid: Data, d': Data)
    requires Transforms(a, d, mid) && Transforms(b, mid, d')
    ensures Transforms(a + b, d, d')
  {
    var ds :| RunsThrough(ds, a) && ds[0] == d && ds[|a|] == mid;
    var es :| RunsThrough(es, b) && es[0] == mid && es[|b|] == d';
    var all := ds + es[1..];
    forall k | 0 <= k < |a + b| ensures (a + b)[k].run(all[k]) == Some(all[k + 1]) {
      if k < |a| {
        assert all[k] == ds[k] && all[k + 1] == ds[k + 1] && (a + b)[k] == a[k];
      } else {
        assert all[k] == es[k - |a|] && all[k + 1] == es[k - |a| + 1] && (a + b)[k] == b[k - |a|];
      }
    }
    assert RunsThrough(all, a + b);
  }

  /** All steps of versions from + 1, ..., upto of m have run on the data d, one
      after the other, and have left d'. */
  ghost predicate EveryStepRan(m: Migrations, from: int, upto: int, d: Data, d': Data)
    requires -1 <= from <= upto < |m|
  {
    Transforms(AllSteps(m[from + 1..upto + 1]), d, d')
  }

  /** A replay has run every step of every version, in order. */
  lemma {:induction false} ReplayRunsEveryStep(m: Migrations, from: int, upto: int, db: Database)
    requires -1 <= from <= upto < |m|
    ensures match Replay(m, from, upto, db)
            case None => true
            case Some(after) => EveryStepRan(m, from, upto, db.data, after.data)
    decreases upto - from
  {
    var versions := m[from + 1..upto + 1];
    if upto == from {
      assert versions == [];
      assert RunsThrough([db.data], []);
    } else {
      assert versions[..|versions| - 1] == m[from + 1..upto] && versions[|versions| - 1] == m[upto];
      ReplayRunsEveryStep(m, from, upto - 1, db);
      match Replay(m, from, upto - 1, db)
      case None =>
      case Some(mid) =>
        StepsRun(m[upto], mid);
        match Replay(m, from, upto, db)
        case None =>
        case Some(after) =>
          assert after.data == ExecSteps(m[upto], mid).value.data;
          TransformsJoins(AllSteps(m[from + 1..upto]), m[upto], db.data, mid.data, after.data);
    }
  }

  lemma TransformsSplits(a: seq<Step>, b: seq<Step>, d: Data, d': Data) returns (mid: Data)
    requires Transforms(a + b, d, d')
    ensures Transforms(a, d, mid) && Transforms(b, mid, d')
  {
    var ds :| RunsThrough(ds, a + b) && ds[0] == d && ds[|a + b|] == d';
    mid := ds[|a|];
    var first, second := ds[..|a| + 1], ds[|a|..];
    forall k | 0 <= k < |a| ensures a[k].run(first[k]) == Some(first[k + 1]) {
      assert (a + b)[k] == a[k];
    }
    forall k | 0 <= k < |b| ensures b[k].run(second[k]) == Some(second[k + 1]) {
      assert (a + b)[|a| + k] == b[k];
      assert (a + b)[|a| + k].run(ds[|a| + k]) == Some(ds[|a| + k + 1]);
    }
    assert RunsThrough(first, a) && RunsThrough(second, b);
  }

  lemma {:induction false} CreatesJoins(a: seq<Step>, b: seq<Step>, there: bool)
    ensures Creates(a + b) <==> Creates(a) || Creates(b)
    ensures CreatesFit(a + b, there) <==> CreatesFit(a, there) && CreatesFit(b, there || Creates(a))
    decreases |b|
  {
    if b == [] {
      assert a + b == a;
    } else {
      var init, last := b[..|b| - 1], b[|b| - 1];
      CreatesJoins(a, init, there);
      CreatesGrows(a + init, last, there);
      CreatesGrows(init, last, there || Creates(a));
      assert a + init + [last] == a + b && init + [last] == b;
    }
  }

  /** When all versions after the one the database is at can be applied, up to
      `upto`: their steps run one after the other, one of the first of them creates
      the table if it is not there, none creates it twice, and the last number
      fits its column. */
  ghost predicate Applicable(m: Migrations, upto: int, base: Database)
    requires WellFormed(base) && Version(base) < upto < |m|
  {
    var v := Version(base);
    && CanRun(AllSteps(m[v + 1..upto + 1]), base.data)
    && CreatesFit(AllSteps(m[v + 1..upto + 1]), base.versions.Some?)
    && (base.versions.Some? || Creates(m[v + 1]))
    && upto <= MAX_INT4
  }

  lemma RunsIff(steps: seq<Step>, db: Database)
    ensures ExecSteps(steps, db).Some? <==> CreatesFit(steps, db.versions.Some?) && CanRun(steps, db.data)
    ensures ExecSteps(steps, db).Some? ==> (ExecSteps(steps, db).value.versions.Some? <==> Creates(steps) || db.versions.Some?)
  {
    StepsRun(steps, db);
    if ExecSteps(steps, db).Some? {
      assert Transforms(steps, db.data, ExecSteps(steps, db).value.data);
    }
  }

  lemma OneVersion(m: Migrations, k: nat)
    requires k < |m|
    ensures AllSteps(m[k..k + 1]) == m[k]
  {
    assert m[k..k + 1][..0] == [];
    assert AllSteps([]) + m[k] == m[k];
  }

  lemma FirstApplicable(m: Migrations, base: Database)
    requires WellFormed(base) && Version(base) + 1 < |m|
    ensures ApplyVersion(m[Version(base) + 1], Version(base) + 1, base).Some? <==> Applicable(m, Version(base) + 1, base)
  {
    var k := Version(base) + 1;
    OneVersion(m, k);
    NextVersionInserts(m[k], base);
    RunsIff(m[k], base);
  }

  lemma AllStepsGrow(m: Migrations, v: int, upto: int)
    requires -1 <= v < upto < |m|
    ensures AllSteps(m[v + 1..upto + 1]) == AllSteps(m[v + 1..upto]) + m[upto]
  {
    var versions := m[v + 1..upto + 1];
    assert versions[..|versions| - 1] == m[v + 1..upto];
  }

  lemma {:induction false} FirstCreates(m: Migrations, v: int, upto: int)
    requires -1 <= v < upto < |m| && Creates(m[v + 1])
    ensures Creates(AllSteps(m[v + 1..upto + 1]))
    decreases upto
  {
    AllStepsGrow(m, v, upto);
    CreatesJoins(AllSteps(m[v + 1..upto]), m[upto], false);
    if v + 1 < upto {
      FirstCreates(m, v, upto - 1);
    }
  }

  /** More steps run exactly if they run on what is there. */
  lemma StepsAfter(before: seq<Step>, steps: seq<Step>, d: Data, mid: Database)
    requires Transforms(before, d, mid.data)
    ensures ExecSteps(steps, mid).Some?
            <==> CreatesFit(steps, mid.versions.Some?) && CanRun(before + steps, d)
  {
    StepsRun(steps, mid);
    match ExecSteps(steps, mid)
    case Some(after) =>
      TransformsJoins(before, steps, d, mid.data, after.data);
    case None =>
      forall d' | Transforms(before + steps, d, d') ensures !CreatesFit(steps, mid.versions.Some?) {
        var d0 := TransformsSplits(before, steps, d, d');
        TransformsOneWay(before, d, d0, mid.data);
      }
  }

  /** The table is there after the first version. */
  lemma TableIsThere(m: Migrations, upto: int, base: Database)
    requires WellFormed(base) && Version(base) + 1 < upto < |m|
    requires base.versions.Some? || Creates(m[Version(base) + 1])
    ensures base.versions.Some? || Creates(AllSteps(m[Version(base) + 1..upto]))
  {
    if Creates(m[Version(base) + 1]) {
      FirstCreates(m, Version(base), upto - 1);
    }
  }

  /** The step from one version to the next. */
  lemma NextApplicable(m: Migrations, upto: int, base: Database, mid: Database)
    requires WellFormed(base) && Version(base) + 1 < upto < |m|
    requires Replay(m, Version(base), upto - 1, base) == Some(mid) && Applicable(m, upto - 1, base)
    ensures ApplyVersion(m[upto], upto, mid).Some? <==> Applicable(m, upto, base)
  {
    var v := Version(base);
    var before := AllSteps(m[v + 1..upto]);
    ReplayRows(m, upto - 1, base);
    ReplayRunsEveryStep(m, v, upto - 1, base);
    NextVersionInserts(m[upto], mid);
    RunsIff(m[upto], mid);
    StepsAfter(before, m[upto], base.data, mid);
    TableIsThere(m, upto, base);
    AllStepsGrow(m, v, upto);
    CreatesJoins(before, m[upto], base.versions.Some?);
  }

  lemma FewerApplicable(m: Migrations, upto: int, base: Database)
    requires WellFormed(base) && Version(base) + 1 < upto < |m| && Applicable(m, upto, base)
    ensures Applicable(m, upto - 1, base)
  {
    var v := Version(base);
    AllStepsGrow(m, v, upto);
    CreatesJoins(AllSteps(m[v + 1..upto]), m[upto], base.versions.Some?);
    var d' :| Transforms(AllSteps(m[v + 1..upto + 1]), base.data, d');
    var d := TransformsSplits(AllSteps(m[v + 1..upto]), m[upto], base.data, d');
    assert Transforms(AllSteps(m[v + 1..upto]), base.data, d);
  }

  /** Exactly then the replay succeeds, and its data is what the steps have made
      of the data before. */
  lemma {:induction false} ReplaySucceedsIff(m: Migrations, upto: int, base: Database)
    requires WellFormed(base) && Version(base) < upto < |m|
    ensures Replay(m, Version(base), upto, base).Some? <==> Applicable(m, upto, base)
    ensures Replay(m, Version(base), upto, base).Some? ==>
              EveryStepRan(m, Version(base), upto, base.data, Replay(m, Version(base), upto, base).value.data)
    decreases upto
  {
    ReplayRunsEveryStep(m, Version(base), upto, base);
    if upto == Version(base) + 1 {
      FirstApplicable(m, base);
      assert Replay(m, Version(base), upto - 1, base) == Some(base);
    } else {
      ReplaySucceedsIff(m, upto - 1, base);
      match Replay(m, Version(base), upto - 1, base)
      case Some(mid) => NextApplicable(m, upto, base, mid);
      case None => if Applicable(m, upto, base) { FewerApplicable(m, upto, base); }
    }
  }

  /** What the versions from base on have made of its data. */
  ghost predicate Gained(m: Migrations, base: Database, db: Database)
    requires WellFormed(base) && WellFormed(db)
  {
    && Version(base) <= Version(db)
    && (Version(db) == Version(base) ==> db == base)
    && (Version(base) < Version(db) ==>
          Version(db) < |m| && EveryStepRan(m, Version(base), Version(db), base.data, db.data))
  }
}
