/** How the list of migrations is built from the service's list of SQL files. */
module Assets {
  import opened Wrappers
  import opened Scripts

  /** The packaged files and the two engines a file goes through: the template
      engine, used only when the file has arguments, and the SQL server. */
  datatype Package = Package(
    asset: string -> Option<string>,
    render: (string, seq<string>) -> Option<string>,
    createsVersionTable: string -> bool,
    exec: (string, Data) -> Option<Data>)

  // The SQL text to execute, or None for a missing file or a bad template.
  function SqlOf(package: Package, filename: string, args: seq<string>): Option<string> {
    match package.asset(filename)
    case None => None
    case Some(text) => if |args| > 0 then package.render(text, args) else Some(text)
  }

  function ExecuteSqlFile(package: Package, filename: string, args: seq<string>): Step {
    match SqlOf(package, filename, args)
    case None => Step(false, data => None)
    case Some(sql) => Step(package.createsVersionTable(sql), data => package.exec(sql, data))
  }

  /** Each entry is a file name followed by its arguments. */
  predicate Named(names: seq<seq<string>>) {
    forall i :: 0 <= i < |names| ==> names[i] != []
  }

  function MigrationsOf(package: Package, names: seq<seq<string>>): Migrations
    requires Named(names)
  {
    seq(|names|, i requires 0 <= i < |names| => [ExecuteSqlFile(package, names[i][0], names[i][1..])])
  }

  method GetMigrations(package: Package, names: seq<seq<string>>) returns (m: Migrations)
    requires Named(names)
    ensures m == MigrationsOf(package, names)
    ensures |m| == |names| && forall i :: 0 <= i < |m| ==> |m[i]| == 1
  {
    m := [];
    for i := 0 to |names|
      invariant m == MigrationsOf(package, names)[..i]
    {
      var nameWithArgs := names[i];
      m := m + [[ExecuteSqlFile(package, nameWithArgs[0], nameWithArgs[1..])]];
    }
  }

  /** What the script of a file does: it executes the text of the file, or, if the
      entry has arguments, what the template engine makes of text and arguments. */
  lemma FileIsExecuted(package: Package, names: seq<seq<string>>, k: nat)
    requires Named(names) && k < |names|
    ensures var file, args, steps := names[k][0], names[k][1..], MigrationsOf(package, names)[k];
            && |steps| == 1
            && (package.asset(file).None? ==> !steps[0].createsVersionTable && forall d :: steps[0].run(d) == None)
            && (package.asset(file).Some? ==>
                  var text := package.asset(file).value;
                  && (args == [] ==>
                        && steps[0].createsVersionTable == package.createsVersionTable(text)
                        && forall d :: steps[0].run(d) == package.exec(text, d))
                  && (args != [] && package.render(text, args).None? ==> forall d :: steps[0].run(d) == None)
                  && (args != [] && package.render(text, args).Some? ==>
                        var sql := package.render(text, args).value;
                        && steps[0].createsVersionTable == package.createsVersionTable(sql)
                        && forall d :: steps[0].run(d) == package.exec(sql, d)))
  {
  }

  /** A binary that only appends files to the list of an older one agrees with
      it on every version the older one has, and so replays them alike. */
  lemma AppendedFilesAreCompatible(package: Package, older: seq<seq<string>>, newer: seq<seq<string>>, upto: int, db: Database)
    requires older <= newer && Named(newer)
    requires -1 <= upto < |older|
    ensures Named(older) && MigrationsOf(package, older) <= MigrationsOf(package, newer)
    ensures Replay(MigrationsOf(package, older), -1, upto, db) == Replay(MigrationsOf(package, newer), -1, upto, db)
  {
    assert forall i :: 0 <= i < |older| ==> older[i] == newer[i];
    ReplayPrefix(MigrationsOf(package, older), MigrationsOf(package, newer), -1, upto, db);
  }

  /** A missing file or a template that does not render stops the list at its
      version, whatever the database holds. */
  lemma UnreadableFileBlocks(package: Package, names: seq<seq<string>>, k: nat)
    requires Named(names) && k < |names|
    requires SqlOf(package, names[k][0], names[k][1..]).None?
    ensures forall base, from :: -1 <= from < k ==> Replay(MigrationsOf(package, names), from, k, base).None?
  {
    forall base, from | -1 <= from < k ensures Replay(MigrationsOf(package, names), from, k, base).None? {
      match Replay(MigrationsOf(package, names), from, k - 1, base)
      case None =>
      case Some(mid) =>
        var steps := MigrationsOf(package, names)[k];
        assert steps == [ExecuteSqlFile(package, names[k][0], names[k][1..])];
        assert steps[..0] == [];
        assert ExecSteps(steps, mid).None?;
    }
  }
}
