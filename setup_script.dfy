/**
 * The setup script (src/lib/db/setup.ts): run the migration, stopping at
 * the first failing statement, and, unless the admin already exists, draw
 * a password and insert the admin, the categories and the products.
 *
 * The script does not check that the database URL is set; connecting is
 * outside this model.
 */
module SetupScript {
  import opened Text
  import opened DbScripts

  datatype SetupRun =
    | StatementFailed(index: nat)
    | AlreadySeeded
    | Seeded(password: string)

  /**
   * `setupDatabase`. The migration file, the database and the random draws
   * are parameters; `adminExists` is the answer to the admin lookup.
   */
  method SetupMain(migrationSql: string, execute: (nat, string) -> ExecResult, adminExists: bool, draws: seq<real>)
    returns (run: SetupRun)
    requires |draws| == 8 && forall i :: 0 <= i < 8 ==> IsDraw(draws[i])
    ensures var statements := Statements(migrationSql);
      run.StatementFailed? ==>
        run.index < |statements| && execute(run.index, statements[run.index]).Error?
        && forall i :: 0 <= i < run.index ==> execute(i, statements[i]).Ok?
    ensures var statements := Statements(migrationSql);
      !run.StatementFailed? <==> forall i :: 0 <= i < |statements| ==> execute(i, statements[i]).Ok?
    ensures run.AlreadySeeded? <==> !run.StatementFailed? && adminExists
    ensures run.Seeded? ==> run.password == Password(draws)
  {
    var statements := NonEmpty(TrimAll(Split(migrationSql, Breakpoint)));
    var succeeded := RunStrict(statements, execute);
    if succeeded < |statements| {
      return StatementFailed(succeeded);
    }
    if adminExists {
      return AlreadySeeded;
    }
    var password := Password(draws);
    run := Seeded(password);
  }
}
