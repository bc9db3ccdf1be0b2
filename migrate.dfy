/**
 * The migration runner of scripts/migrate.js and its re-implementation `runMigration`
 * in the runner's unit test: select the `.sql` entries of the migrations directory,
 * sort them, refuse to run without any, then issue one `wrangler d1 execute`
 * command per file in order, stopping at the first command that fails.
 *
 * The external command is the oracle `exec`: `exec(c)` says whether `execSync(c)`
 * returns normally or what it throws. `process.exit(1)` ends the run with exit code 1;
 * a run that reaches the end has exit code 0.
 */
module Migrate {
  import opened Wrappers
  import opened Strings
  import opened Sorting

  /** DB_NAME of scripts/migrate.js. */
  const DbName: string := "automationa-tools-db"

  /** A value returned by `fs.readdirSync`; the unit test's mock may return non-strings. */
  datatype DirEntry = Name(name: string) | NotAString

  /** The console output of a run, in order. */
  datatype Message =
    | NoMigrationFiles      // "❌ マイグレーションファイルが見つかりません。…"
    | Starting(count: nat)  // "🔍 <count>個のマイグレーションファイルを実行します..."
    | Running(file: string) // "⚙️ マイグレーションを実行中: <file>"
    | Succeeded(file: string)
    | Failed(file: string)  // "❌ マイグレーション失敗: <file>"
    | ErrorText(text: string) // `console.error(error.message)`
    | AllSucceeded          // "🎉 すべてのマイグレーションが正常に実行されました！"

  /** The value a failing command throws. */
  datatype Thrown = ErrorObject(message: string) | OtherValue

  /** What `execSync` does with one command line. */
  datatype Outcome = Returned | Threw(thrown: Thrown)

  /** What a run did: the commands it issued, what it printed and its exit code. */
  datatype Run = Run(commands: seq<string>, log: seq<Message>, exitCode: nat)

  /** The listing of scripts/migrate.js, whose entries are all file names. */
  function Names(listing: seq<string>): (r: seq<DirEntry>)
    ensures |r| == |listing| && forall i :: 0 <= i < |r| ==> r[i] == Name(listing[i])
  {
    seq(|listing|, i requires 0 <= i < |listing| => Name(listing[i]))
  }

  /** `.filter((file) => typeof file === 'string' && file.endsWith('.sql'))` */
  function SqlNames(entries: seq<DirEntry>): (r: seq<string>)
    ensures forall x :: x in r <==> Name(x) in entries && EndsWith(x, ".sql")
  {
    if entries == [] then []
    else
      var rest := SqlNames(entries[1..]);
      assert forall e :: e in entries <==> e == entries[0] || e in entries[1..];
      if entries[0].Name? && EndsWith(entries[0].name, ".sql") then [entries[0].name] + rest else rest
  }

  /** The selected files after `.sort()`. */
  function SqlFiles(entries: seq<DirEntry>): (r: seq<string>)
    ensures SortedLex(r)
    ensures multiset(r) == multiset(SqlNames(entries))
    ensures forall x :: x in r <==> Name(x) in entries && EndsWith(x, ".sql")
  {
    var r := SortLex(SqlNames(entries));
    assert forall x :: x in r <==> x in multiset(SqlNames(entries));
    r
  }

  /** `path.join(migrationsDir, file)`, as the test's mock joins with '/'. */
  function PathJoin(dir: string, file: string): string {
    dir + "/" + file
  }

  /** The command issued for one migration file. */
  function Command(dbName: string, dir: string, file: string): string {
    "pnpm wrangler d1 execute " + dbName + " --file=" + PathJoin(dir, file)
  }

  /** The command text names both the database and the file. */
  lemma CommandMentions(dbName: string, dir: string, file: string)
    ensures Contains(Command(dbName, dir, file), dbName)
    ensures Contains(Command(dbName, dir, file), file)
    ensures EndsWith(Command(dbName, dir, file), file)
  {
    var c := Command(dbName, dir, file);
    var prefix := "pnpm wrangler d1 execute ";
    assert c[|prefix|..|prefix| + |dbName|] == dbName;
    assert OccursAt(c, dbName, |prefix|);
    assert c[|c| - |file|..] == file;
    assert OccursAt(c, file, |c| - |file|);
  }

  /**
   * What the `catch` prints for a failed file: the failure line, then the error's
   * message when an `Error` was thrown.
   */
  function FailureLines(file: string, thrown: Thrown): (lines: seq<Message>)
    ensures 1 <= |lines| <= 2 && lines[0] == Failed(file)
    ensures |lines| == 2 <==> thrown.ErrorObject?
    ensures thrown.ErrorObject? ==> lines[1] == ErrorText(thrown.message)
  {
    [Failed(file)] + (if thrown.ErrorObject? then [ErrorText(thrown.message)] else [])
  }

  /** `log` ends with the messages `tail`. */
  predicate LogEndsWith(log: seq<Message>, tail: seq<Message>) {
    |tail| <= |log| && log[|log| - |tail|..] == tail
  }

  /** The loop `for (const file of sqlFiles)` over the files still to run. */
  function ExecuteFrom(files: seq<string>, dir: string, dbName: string, exec: string -> Outcome): Run {
    if files == [] then Run([], [AllSucceeded], 0)
    else
      var cmd := Command(dbName, dir, files[0]);
      if exec(cmd).Returned? then
        var rest := ExecuteFrom(files[1..], dir, dbName, exec);
        Run([cmd] + rest.commands, [Running(files[0]), Succeeded(files[0])] + rest.log, rest.exitCode)
      else
        Run([cmd], [Running(files[0])] + FailureLines(files[0], exec(cmd).thrown), 1)
  }

  /** The whole run for a directory listing. */
  function Migration(entries: seq<DirEntry>, dir: string, dbName: string, exec: string -> Outcome): Run {
    var files := SqlFiles(entries);
    if files == [] then Run([], [NoMigrationFiles], 1)
    else
      var r := ExecuteFrom(files, dir, dbName, exec);
      Run(r.commands, [Starting(|files|)] + r.log, r.exitCode)
  }

  /** Glues what a run has done so far in front of what the rest of the loop does. */
  function Then(commands: seq<string>, log: seq<Message>, r: Run): Run {
    Run(commands + r.commands, log + r.log, r.exitCode)
  }

  lemma ThenThen(c1: seq<string>, l1: seq<Message>, c2: seq<string>, l2: seq<Message>, r: Run)
    ensures Then(c1, l1, Then(c2, l2, r)) == Then(c1 + c2, l1 + l2, r)
  {
    assert c1 + (c2 + r.commands) == (c1 + c2) + r.commands;
    assert l1 + (l2 + r.log) == (l1 + l2) + r.log;
  }

  /** `runMigration(migrationsDir, dbName)` of the unit test. */
  method RunMigration(entries: seq<DirEntry>, migrationsDir: string, dbName: string, exec: string -> Outcome)
    returns (run: Run)
    ensures run == Migration(entries, migrationsDir, dbName, exec)
  {
    var sqlFiles := SqlFiles(entries);
    if |sqlFiles| == 0 {
      run := Run([], [NoMigrationFiles], 1);
      return;
    }
    var commands: seq<string> := [];
    var log: seq<Message> := [Starting(|sqlFiles|)];
    for i := 0 to |sqlFiles|
      invariant Migration(entries, migrationsDir, dbName, exec)
                == Then(commands, log, ExecuteFrom(sqlFiles[i..], migrationsDir, dbName, exec))
    {
      var file := sqlFiles[i];
      var cmd := Command(dbName, migrationsDir, file);
      assert sqlFiles[i..][0] == file && sqlFiles[i..][1..] == sqlFiles[i + 1..];
      ExecuteFromUnfold(sqlFiles[i..], migrationsDir, dbName, exec);
      ghost var before, logBefore := commands, log;
      commands := commands + [cmd];
      if exec(cmd).Returned? {
        log := log + [Running(file), Succeeded(file)];
        ThenThen(before, logBefore, [cmd], [Running(file), Succeeded(file)],
                 ExecuteFrom(sqlFiles[i + 1..], migrationsDir, dbName, exec));
      } else {
        log := log + [Running(file), Failed(file)];
        var error := exec(cmd).thrown;
        if error.ErrorObject? {
          log := log + [ErrorText(error.message)];
        }
        assert log == logBefore + ([Running(file)] + FailureLines(file, error));
        run := Run(commands, log, 1);
        return;
      }
    }
    log := log + [AllSucceeded];
    run := Run(commands, log, 0);
  }

  /**
   * `execSync` of the script, which throws only `Error` objects: None when the command
   * returns normally, else the message of the error it throws.
   */
  function ScriptOutcome(execSync: string -> Option<string>): string -> Outcome {
    c => if execSync(c).None? then Returned else Threw(ErrorObject(execSync(c).value))
  }

  /**
   * The top level of scripts/migrate.js, run on the entries of MIGRATIONS_DIR. Its
   * `console.error(error.message)` prints the message of the `Error` `execSync` throws.
   */
  method MigrateScript(listing: seq<string>, migrationsDir: string, execSync: string -> Option<string>)
    returns (run: Run)
    ensures run == Migration(Names(listing), migrationsDir, DbName, ScriptOutcome(execSync))
  {
    run := RunMigration(Names(listing), migrationsDir, DbName, ScriptOutcome(execSync));
  }

  /** One turn of the loop: the first file's command, then the rest of the loop or the failure. */
  lemma ExecuteFromUnfold(files: seq<string>, dir: string, dbName: string, exec: string -> Outcome)
    requires files != []
    ensures var cmd := Command(dbName, dir, files[0]);
      ExecuteFrom(files, dir, dbName, exec) ==
        if exec(cmd).Returned? then Then([cmd], [Running(files[0]), Succeeded(files[0])], ExecuteFrom(files[1..], dir, dbName, exec))
        else Run([cmd], [Running(files[0])] + FailureLines(files[0], exec(cmd).thrown), 1)
  {
  }

  /** The loop issues the commands for a prefix of the files, and all but the last succeeded. */
  lemma {:induction false} ExecuteFromCommands(files: seq<string>, dir: string, dbName: string, exec: string -> Outcome)
    ensures var r := ExecuteFrom(files, dir, dbName, exec);
      && |r.commands| <= |files|
      && (forall i :: 0 <= i < |r.commands| ==> r.commands[i] == Command(dbName, dir, files[i]))
      && (forall i :: 0 <= i < |r.commands| - 1 ==> exec(r.commands[i]).Returned?)
  {
    if files != [] {
      var cmd := Command(dbName, dir, files[0]);
      ExecuteFromUnfold(files, dir, dbName, exec);
      if exec(cmd).Returned? {
        var rest := ExecuteFrom(files[1..], dir, dbName, exec);
        ExecuteFromCommands(files[1..], dir, dbName, exec);
        var r := ExecuteFrom(files, dir, dbName, exec);
        assert r.commands == [cmd] + rest.commands;
        assert forall i :: 1 <= i < |r.commands| ==> r.commands[i] == rest.commands[i - 1];
      }
    }
  }

  /** The loop exits 0 exactly when every file's command ran and succeeded, and 1 otherwise. */
  lemma {:induction false} ExecuteFromExitCode(files: seq<string>, dir: string, dbName: string, exec: string -> Outcome)
    ensures var r := ExecuteFrom(files, dir, dbName, exec);
      && |r.commands| <= |files|
      && (r.exitCode == 0 || r.exitCode == 1)
      && (r.exitCode == 0 <==> |r.commands| == |files| && forall i :: 0 <= i < |r.commands| ==> exec(r.commands[i]).Returned?)
  {
    if files != [] {
      var cmd := Command(dbName, dir, files[0]);
      ExecuteFromUnfold(files, dir, dbName, exec);
      if exec(cmd).Returned? {
        var rest := ExecuteFrom(files[1..], dir, dbName, exec);
        ExecuteFromExitCode(files[1..], dir, dbName, exec);
        var r := ExecuteFrom(files, dir, dbName, exec);
        assert r.commands == [cmd] + rest.commands && r.exitCode == rest.exitCode;
        if forall i :: 0 <= i < |rest.commands| ==> exec(rest.commands[i]).Returned? {
          forall i | 0 <= i < |r.commands| ensures exec(r.commands[i]).Returned? {
            if i > 0 {
              assert r.commands[i] == rest.commands[i - 1];
            }
          }
        }
        if forall i :: 0 <= i < |r.commands| ==> exec(r.commands[i]).Returned? {
          forall i | 0 <= i < |rest.commands| ensures exec(rest.commands[i]).Returned? {
            assert r.commands[i + 1] == rest.commands[i];
          }
        }
      } else {
        assert ExecuteFrom(files, dir, dbName, exec).commands[0] == cmd;
      }
    }
  }

  /**
   * Exit 1 comes from a failing last command: the log ends with that file's failure
   * line, followed by the error's message when an `Error` was thrown.
   */
  lemma {:induction false} ExecuteFromFailure(files: seq<string>, dir: string, dbName: string, exec: string -> Outcome)
    ensures var r := ExecuteFrom(files, dir, dbName, exec);
      r.exitCode == 1 ==>
        && 0 < |r.commands| <= |files|
        && exec(r.commands[|r.commands| - 1]).Threw?
        && LogEndsWith(r.log, FailureLines(files[|r.commands| - 1], exec(r.commands[|r.commands| - 1]).thrown))
  {
    if files != [] {
      var cmd := Command(dbName, dir, files[0]);
      ExecuteFromUnfold(files, dir, dbName, exec);
      var r := ExecuteFrom(files, dir, dbName, exec);
      if exec(cmd).Returned? {
        var rest := ExecuteFrom(files[1..], dir, dbName, exec);
        ExecuteFromFailure(files[1..], dir, dbName, exec);
        if r.exitCode == 1 {
          var last := rest.commands[|rest.commands| - 1];
          var tail := FailureLines(files[1..][|rest.commands| - 1], exec(last).thrown);
          assert r.commands == [cmd] + rest.commands;
          assert r.commands[|r.commands| - 1] == last;
          assert files[|r.commands| - 1] == files[1..][|rest.commands| - 1];
          assert LogEndsWith(r.log, tail) by {
            LogEndsWithAfter([Running(files[0]), Succeeded(files[0])], rest.log, tail);
          }
        }
      } else {
        LogEndsWithAfter([Running(files[0])], FailureLines(files[0], exec(cmd).thrown), FailureLines(files[0], exec(cmd).thrown));
      }
    }
  }

  /** Messages printed before a log do not change how it ends. */
  lemma LogEndsWithAfter(before: seq<Message>, log: seq<Message>, tail: seq<Message>)
    requires |tail| <= |log| && log[|log| - |tail|..] == tail
    ensures LogEndsWith(before + log, tail)
  {
    assert (before + log)[|before + log| - |tail|..] == log[|log| - |tail|..];
  }

  /** The completion message is printed exactly on exit 0. */
  lemma {:induction false} ExecuteFromCompletion(files: seq<string>, dir: string, dbName: string, exec: string -> Outcome)
    ensures var r := ExecuteFrom(files, dir, dbName, exec);
      AllSucceeded in r.log <==> r.exitCode == 0
  {
    if files != [] {
      var cmd := Command(dbName, dir, files[0]);
      ExecuteFromUnfold(files, dir, dbName, exec);
      if exec(cmd).Returned? {
        var rest := ExecuteFrom(files[1..], dir, dbName, exec);
        ExecuteFromCompletion(files[1..], dir, dbName, exec);
        var r := ExecuteFrom(files, dir, dbName, exec);
        assert r.log == [Running(files[0]), Succeeded(files[0])] + rest.log;
      }
    }
  }

  /**
   * The loop exits 0 exactly when every file's command succeeded; exit 1 comes from a
   * failing last command whose failure line and error text end the log, and the
   * completion message is printed exactly on exit 0.
   */
  lemma ExecuteFromExit(files: seq<string>, dir: string, dbName: string, exec: string -> Outcome)
    ensures var r := ExecuteFrom(files, dir, dbName, exec);
      && |r.commands| <= |files|
      && (r.exitCode == 0 || r.exitCode == 1)
      && (r.exitCode == 0 <==> |r.commands| == |files| && forall i :: 0 <= i < |r.commands| ==> exec(r.commands[i]).Returned?)
      && (r.exitCode == 1 ==>
            r.commands != [] && exec(r.commands[|r.commands| - 1]).Threw?
            && LogEndsWith(r.log, FailureLines(files[|r.commands| - 1], exec(r.commands[|r.commands| - 1]).thrown)))
      && (AllSucceeded in r.log <==> r.exitCode == 0)
  {
    ExecuteFromExitCode(files, dir, dbName, exec);
    ExecuteFromFailure(files, dir, dbName, exec);
    ExecuteFromCompletion(files, dir, dbName, exec);
  }

  /**
   * What a run over the selected `files` guarantees: the commands follow the files from
   * the first one, every command but the last succeeded, the exit code is 0 exactly when
   * there were files and every one's command was issued and succeeded, on exit 1 the last
   * command threw and its failure line and error text end the log, and the completion
   * message is printed exactly on exit 0.
   */
  ghost predicate RunGuarantees(files: seq<string>, dir: string, dbName: string, exec: string -> Outcome, r: Run) {
    && |r.commands| <= |files|
    && (forall i :: 0 <= i < |r.commands| ==> r.commands[i] == Command(dbName, dir, files[i]))
    && (forall i :: 0 <= i < |r.commands| - 1 ==> exec(r.commands[i]).Returned?)
    && (r.exitCode == 0 || r.exitCode == 1)
    && (r.exitCode == 0 <==> files != [] && |r.commands| == |files|
                             && forall i :: 0 <= i < |r.commands| ==> exec(r.commands[i]).Returned?)
    && (r.exitCode == 1 && files != [] ==>
          r.commands != [] && exec(r.commands[|r.commands| - 1]).Threw?
          && LogEndsWith(r.log, FailureLines(files[|r.commands| - 1], exec(r.commands[|r.commands| - 1]).thrown)))
    && (AllSucceeded in r.log <==> r.exitCode == 0)
  }

  /**
   * What a run guarantees: an empty selection fails before any command, and the
   * missing-files message appears exactly then; in every case `RunGuarantees` holds
   * for the sorted selection.
   */
  lemma MigrationFacts(entries: seq<DirEntry>, dir: string, dbName: string, exec: string -> Outcome)
    ensures var files := SqlFiles(entries);
      var r := Migration(entries, dir, dbName, exec);
      && (files == [] ==> r.commands == [] && r.exitCode == 1 && r.log == [NoMigrationFiles])
      && (NoMigrationFiles in r.log <==> files == [])
      && RunGuarantees(files, dir, dbName, exec, r)
  {
    var files := SqlFiles(entries);
    if files != [] {
      var r := ExecuteFrom(files, dir, dbName, exec);
      StartedRunFacts(files, dir, dbName, exec);
      assert Migration(entries, dir, dbName, exec) == Run(r.commands, [Starting(|files|)] + r.log, r.exitCode);
    } else {
      assert Migration(entries, dir, dbName, exec) == Run([], [NoMigrationFiles], 1);
    }
  }

  /** The loop facts, for the log with the start message in front of it. */
  lemma StartedRunFacts(files: seq<string>, dir: string, dbName: string, exec: string -> Outcome)
    requires files != []
    ensures var r := ExecuteFrom(files, dir, dbName, exec);
      var log := [Starting(|files|)] + r.log;
      && NoMigrationFiles !in log
      && RunGuarantees(files, dir, dbName, exec, Run(r.commands, log, r.exitCode))
  {
    var r := ExecuteFrom(files, dir, dbName, exec);
    LoopGuarantees(files, dir, dbName, exec);
    NoMissingMessage(files, dir, dbName, exec);
    GuaranteesAfterPrefix(files, dir, dbName, exec, r, [Starting(|files|)]);
  }

  /** The loop alone meets `RunGuarantees`. */
  lemma LoopGuarantees(files: seq<string>, dir: string, dbName: string, exec: string -> Outcome)
    requires files != []
    ensures RunGuarantees(files, dir, dbName, exec, ExecuteFrom(files, dir, dbName, exec))
  {
    ExecuteFromCommands(files, dir, dbName, exec);
    ExecuteFromExit(files, dir, dbName, exec);
  }

  /** Messages without the completion message in front of the log keep `RunGuarantees`. */
  lemma GuaranteesAfterPrefix(files: seq<string>, dir: string, dbName: string, exec: string -> Outcome,
                              r: Run, before: seq<Message>)
    requires RunGuarantees(files, dir, dbName, exec, r) && AllSucceeded !in before
    ensures RunGuarantees(files, dir, dbName, exec, Run(r.commands, before + r.log, r.exitCode))
  {
    assert AllSucceeded in before + r.log <==> AllSucceeded in r.log;
    if r.exitCode == 1 && files != [] {
      var tail := FailureLines(files[|r.commands| - 1], exec(r.commands[|r.commands| - 1]).thrown);
      LogEndsWithAfter(before, r.log, tail);
    }
  }

  lemma {:induction false} NoMissingMessage(files: seq<string>, dir: string, dbName: string, exec: string -> Outcome)
    ensures NoMigrationFiles !in ExecuteFrom(files, dir, dbName, exec).log
  {
    if files != [] && exec(Command(dbName, dir, files[0])).Returned? {
      NoMissingMessage(files[1..], dir, dbName, exec);
    }
  }

  /** The selection of scripts/migrate.js: the `.sql` names, and only them, in sorted order. */
  lemma ScriptSelection(listing: seq<string>)
    ensures var files := SqlFiles(Names(listing));
      SortedLex(files) && forall x :: x in files <==> x in listing && EndsWith(x, ".sql")
  {
    var entries := Names(listing);
    forall x ensures Name(x) in entries <==> x in listing {
      if x in listing {
        var i :| 0 <= i < |listing| && listing[i] == x;
        assert entries[i] == Name(x);
      }
    }
  }

  /** Unit test: an empty directory logs the missing-files error, exits 1 and runs nothing. */
  lemma EmptyDirectoryTest(exec: string -> Outcome)
    ensures Migration([], "/fake/path", "test-db", exec) == Run([], [NoMigrationFiles], 1)
  {
  }

  /** Two `.sql` names already in order are selected as they are. */
  lemma TwoFilesInOrder(a: string, b: string)
    requires EndsWith(a, ".sql") && EndsWith(b, ".sql") && LexLe(a, b)
    ensures SqlFiles([Name(a), Name(b)]) == [a, b]
  {
    var e := [Name(a), Name(b)];
    assert SqlNames(e) == [a, b] by {
      assert e[1..] == [Name(b)] && [Name(b)][1..] == [];
      assert SqlNames([Name(b)]) == [b] + SqlNames([]);
      assert SqlNames(e) == [a] + SqlNames([Name(b)]);
    }
    assert SortLex([a, b]) == [a, b] by {
      SortLexOfSorted([a, b]);
    }
  }

  /** The run for two selected files `a`, `b` in that order. */
  lemma TwoFilesRun(a: string, b: string, dir: string, dbName: string, exec: string -> Outcome)
    requires EndsWith(a, ".sql") && EndsWith(b, ".sql") && LexLe(a, b)
    ensures var r := ExecuteFrom([a, b], dir, dbName, exec);
      Migration([Name(a), Name(b)], dir, dbName, exec) == Run(r.commands, [Starting(2)] + r.log, r.exitCode)
  {
    TwoFilesInOrder(a, b);
  }

  /** Two selected files whose commands both succeed: two commands in order, then the completion message. */
  lemma TwoFilesSucceed(a: string, b: string, dir: string, dbName: string, exec: string -> Outcome)
    requires EndsWith(a, ".sql") && EndsWith(b, ".sql") && LexLe(a, b)
    requires exec(Command(dbName, dir, a)).Returned? && exec(Command(dbName, dir, b)).Returned?
    ensures var r := Migration([Name(a), Name(b)], dir, dbName, exec);
      && r.commands == [Command(dbName, dir, a), Command(dbName, dir, b)]
      && r.exitCode == 0
      && r.log[|r.log| - 1] == AllSucceeded
  {
    var ca, cb := Command(dbName, dir, a), Command(dbName, dir, b);
    var last := ExecuteFrom([b], dir, dbName, exec);
    assert last == Run([cb], [Running(b), Succeeded(b), AllSucceeded], 0) by {
      ExecuteFromUnfold([b], dir, dbName, exec);
      assert [b][1..] == [];
    }
    assert ExecuteFrom([a, b], dir, dbName, exec) ==
      Run([ca, cb], [Running(a), Succeeded(a), Running(b), Succeeded(b), AllSucceeded], 0) by {
      ExecuteFromUnfold([a, b], dir, dbName, exec);
      assert [a, b][1..] == [b];
    }
    TwoFilesRun(a, b, dir, dbName, exec);
  }

  /** The loop over two files whose second command throws. */
  lemma SecondOfTwoFailsLoop(a: string, b: string, dir: string, dbName: string, exec: string -> Outcome)
    requires exec(Command(dbName, dir, a)).Returned? && exec(Command(dbName, dir, b)).Threw?
    ensures ExecuteFrom([a, b], dir, dbName, exec) ==
      Run([Command(dbName, dir, a), Command(dbName, dir, b)],
          [Running(a), Succeeded(a), Running(b)] + FailureLines(b, exec(Command(dbName, dir, b)).thrown), 1)
  {
    var ca, cb := Command(dbName, dir, a), Command(dbName, dir, b);
    var lines := FailureLines(b, exec(cb).thrown);
    var rb := ExecuteFrom([b], dir, dbName, exec);
    assert rb == Run([cb], [Running(b)] + lines, 1) by {
      ExecuteFromUnfold([b], dir, dbName, exec);
    }
    assert ExecuteFrom([a, b], dir, dbName, exec) == Then([ca], [Running(a), Succeeded(a)], rb) by {
      ExecuteFromUnfold([a, b], dir, dbName, exec);
      assert [a, b][1..] == [b];
    }
    assert [Running(a), Succeeded(a)] + ([Running(b)] + lines) == [Running(a), Succeeded(a), Running(b)] + lines;
  }

  /**
   * Two selected files whose second command throws: both issued, the log ends with the
   * second file's failure line and the error's message, and the exit code is 1.
   */
  lemma SecondOfTwoFails(a: string, b: string, dir: string, dbName: string, exec: string -> Outcome)
    requires EndsWith(a, ".sql") && EndsWith(b, ".sql") && LexLe(a, b)
    requires exec(Command(dbName, dir, a)).Returned? && exec(Command(dbName, dir, b)).Threw?
    ensures var r := Migration([Name(a), Name(b)], dir, dbName, exec);
      && r.commands == [Command(dbName, dir, a), Command(dbName, dir, b)]
      && r.exitCode == 1
      && r.log == [Starting(2), Running(a), Succeeded(a), Running(b)] + FailureLines(b, exec(Command(dbName, dir, b)).thrown)
      && AllSucceeded !in r.log
  {
    var lines := FailureLines(b, exec(Command(dbName, dir, b)).thrown);
    SecondOfTwoFailsLoop(a, b, dir, dbName, exec);
    TwoFilesRun(a, b, dir, dbName, exec);
    assert [Starting(2)] + ([Running(a), Succeeded(a), Running(b)] + lines) ==
      [Starting(2), Running(a), Succeeded(a), Running(b)] + lines;
  }

  /** Names that agree on their first two characters and differ at the third are ordered by it. */
  lemma LexLeAtThird(a: string, b: string)
    requires |a| >= 3 && |b| >= 3 && a[0] == b[0] && a[1] == b[1] && a[2] < b[2]
    ensures LexLe(a, b)
  {
    assert LexLe(a[2..], b[2..]);
    assert a[1..][1..] == a[2..] && b[1..][1..] == b[2..];
    assert LexLe(a[1..], b[1..]);
  }

  /** The file names of the unit test's scenarios. */
  lemma TestNames()
    ensures EndsWith("001_initial.sql", ".sql") && EndsWith("002_add_tasks.sql", ".sql")
    ensures EndsWith("002_error.sql", ".sql")
    ensures LexLe("001_initial.sql", "002_add_tasks.sql") && LexLe("001_initial.sql", "002_error.sql")
  {
    assert "001_initial.sql" == "001_initial" + ".sql";
    assert "002_add_tasks.sql" == "002_add_tasks" + ".sql";
    assert "002_error.sql" == "002_error" + ".sql";
    LexLeAtThird("001_initial.sql", "002_add_tasks.sql");
    LexLeAtThird("001_initial.sql", "002_error.sql");
  }

  /** The unit test's scenario: '001_initial.sql' and '002_add_tasks.sql' both succeed. */
  lemma TwoFilesSucceedTest()
    ensures var r := Migration([Name("001_initial.sql"), Name("002_add_tasks.sql")],
                               "/fake/path", "test-db", _ => Returned);
      && |r.commands| == 2
      && Contains(r.commands[0], "001_initial.sql")
      && Contains(r.commands[1], "002_add_tasks.sql")
      && r.log[|r.log| - 1] == AllSucceeded
  {
    TestNames();
    TwoFilesSucceed("001_initial.sql", "002_add_tasks.sql", "/fake/path", "test-db", _ => Returned);
    CommandMentions("test-db", "/fake/path", "001_initial.sql");
    CommandMentions("test-db", "/fake/path", "002_add_tasks.sql");
  }

  /**
   * The unit test's scenario: '001_initial.sql' succeeds and the command for
   * '002_error.sql' throws `new Error('Migration failed')` (the mock answers the first
   * call normally and throws on the second): the failure line and the message are logged.
   */
  lemma SecondFileFailsTest(exec: string -> Outcome)
    requires exec(Command("test-db", "/fake/path", "001_initial.sql")) == Returned
    requires exec(Command("test-db", "/fake/path", "002_error.sql")) == Threw(ErrorObject("Migration failed"))
    ensures var r := Migration([Name("001_initial.sql"), Name("002_error.sql")], "/fake/path", "test-db", exec);
      && |r.commands| == 2
      && r.exitCode == 1
      && r.log[|r.log| - 2..] == [Failed("002_error.sql"), ErrorText("Migration failed")]
      && AllSucceeded !in r.log
  {
    TestNames();
    SecondOfTwoFails("001_initial.sql", "002_error.sql", "/fake/path", "test-db", exec);
  }
}
