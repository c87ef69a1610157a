/**
 * The seeding script (src/lib/db/seed.ts): read the settings file, require
 * a database URL, run the migration tolerating failures, and, unless the
 * admin already exists, draw a password and insert the admin, categories
 * and products.
 */
module SeedScript {
  import opened Wrappers
  import opened Types
  import opened Text
  import opened DbScripts

  /**
   * One line of the settings file: `const [key, ...value] = line.split('=')`.
   * A line with no '=' is ignored, and so is one that starts with '='
   * (its raw key is empty).
   */
  function EnvEntry(line: string): (r: Option<(string, string)>)
    ensures '=' !in line ==> r.None?
    ensures |line| > 0 && line[0] == '=' ==> r.None?
  {
    SplitFirst(line, "=");
    var parts := Split(line, "=");
    var key, value := parts[0], parts[1..];
    if key != "" && |value| > 0 then Some((Trim(key), Trim(Join(value, "=")))) else None
  }

  /** The parsed entry sets `key`. */
  predicate Writes(entry: Option<(string, string)>, key: string) {
    entry.Some? && entry.value.0 == key
  }

  /**
   * A line with an '=' after a non-empty raw key gives the trimmed text
   * before the first '=' and the trimmed text after it; any other line is
   * ignored.
   */
  lemma EnvEntryAtFirstEquals(line: string)
    ensures var i := IndexOf(line, "=");
      EnvEntry(line) == if i <= 0 then None else Some((Trim(line[..i]), Trim(line[i + 1..])))
  {
    SplitFirst(line, "=");
  }

  /** So a value may itself contain '=': only the first one separates. */
  lemma ValueKeepsEquals(key: string, value: string)
    requires key != "" && !Contains(key, "=")
    ensures EnvEntry(key + "=" + value) == Some((Trim(key), Trim(value)))
  {
    var line := key + "=" + value;
    assert OccursAt(line, "=", |key|) by { assert line[|key|..|key| + 1] == "="; }
    var i := IndexOf(line, "=");
    if i < |key| {
      assert line[i..i + 1] == key[i..i + 1];
      assert OccursAt(key, "=", i);
      assert false;
    }
    EnvEntryAtFirstEquals(line);
    assert line[..|key|] == key;
    assert line[|key| + 1..] == value;
  }

  /** One step of the `forEach`: an accepted line writes its key. */
  function Apply(env: map<string, string>, entry: Option<(string, string)>): map<string, string> {
    match entry
    case Some((key, value)) => env[key := value]
    case None => env
  }

  /** The settings after applying `entries` in order. */
  function EnvFold(entries: seq<Option<(string, string)>>): map<string, string>
    decreases |entries|
  {
    if entries == [] then map[] else Apply(EnvFold(entries[..|entries| - 1]), entries[|entries| - 1])
  }

  /** The entry of each line, in order. */
  function Entries(lines: seq<string>): (entries: seq<Option<(string, string)>>)
    ensures |entries| == |lines|
    ensures forall i :: 0 <= i < |lines| ==> entries[i] == EnvEntry(lines[i])
  {
    seq(|lines|, i requires 0 <= i < |lines| => EnvEntry(lines[i]))
  }

  /** The settings after the `forEach` over `lines`: every key some line writes is set. */
  function EnvOf(lines: seq<string>): (r: map<string, string>)
    ensures forall i :: 0 <= i < |lines| && EnvEntry(lines[i]).Some? ==> EnvEntry(lines[i]).value.0 in r
  {
    var entries := Entries(lines);
    WrittenKeysSet(entries);
    EnvFold(entries)
  }

  /** The `forEach` filling `envVars` in place. */
  method ParseEnv(content: string) returns (env: map<string, string>)
    ensures env == EnvOf(Split(content, "\n"))
  {
    var lines := Split(content, "\n");
    env := map[];
    for i := 0 to |lines|
      invariant env == EnvOf(lines[..i])
    {
      EnvOfStep(lines, i);
      env := Apply(env, EnvEntry(lines[i]));
    }
    assert lines[..|lines|] == lines;
  }

  /** Reading one more line applies its entry to the settings so far. */
  lemma EnvOfStep(lines: seq<string>, i: nat)
    requires i < |lines|
    ensures EnvOf(lines[..i + 1]) == Apply(EnvOf(lines[..i]), EnvEntry(lines[i]))
  {
    assert Entries(lines[..i + 1])[..i] == Entries(lines[..i]);
  }

  /** A key is set exactly when some entry writes it, and the last entry that writes it decides its value. */
  lemma {:induction false} LastEntryWins(entries: seq<Option<(string, string)>>, key: string)
    ensures key in EnvFold(entries) <==> exists i :: 0 <= i < |entries| && Writes(entries[i], key)
    ensures forall i :: 0 <= i < |entries| && Writes(entries[i], key) && (forall j :: i < j < |entries| ==> !Writes(entries[j], key)) ==>
      EnvFold(entries)[key] == entries[i].value.1
    decreases |entries|
  {
    if entries != [] {
      var init, last := entries[..|entries| - 1], entries[|entries| - 1];
      LastEntryWins(init, key);
      forall i | 0 <= i < |init| ensures init[i] == entries[i] { }
      if !Writes(last, key) {
        assert key in EnvFold(entries) <==> key in EnvFold(init);
        assert (exists i :: 0 <= i < |entries| && Writes(entries[i], key)) ==> exists i :: 0 <= i < |init| && Writes(init[i], key);
      }
    }
  }

  /** Every key some entry writes is set once all entries are applied. */
  lemma WrittenKeysSet(entries: seq<Option<(string, string)>>)
    ensures forall i :: 0 <= i < |entries| && entries[i].Some? ==> entries[i].value.0 in EnvFold(entries)
  {
    forall i | 0 <= i < |entries| && entries[i].Some?
      ensures entries[i].value.0 in EnvFold(entries)
    {
      LastEntryWins(entries, entries[i].value.0);
    }
  }

  /**
   * The same for the settings file: a key is set exactly when some line
   * sets it, and a later line with the same key overwrites an earlier one.
   */
  lemma LastLineWins(lines: seq<string>, key: string)
    ensures key in EnvOf(lines) <==> exists i :: 0 <= i < |lines| && Writes(EnvEntry(lines[i]), key)
    ensures forall i :: 0 <= i < |lines| && Writes(EnvEntry(lines[i]), key) && (forall j :: i < j < |lines| ==> !Writes(EnvEntry(lines[j]), key)) ==>
      EnvOf(lines)[key] == EnvEntry(lines[i]).value.1
  {
    LastEntryWins(Entries(lines), key);
  }

  /** `!envVars.DATABASE_URL`: missing or empty. */
  predicate HasDatabaseUrl(env: map<string, string>) {
    "DATABASE_URL" in env && env["DATABASE_URL"] != ""
  }

  /** A row the script inserts after the migration. */
  datatype Row = AdminUser(email: string, name: string, role: string) | CategoryRow(category: Category) | ProductRow(product: Product)

  const AdminEmail := "priyanshu@priyanshusharma.dev"

  /** The rows inserted on a fresh database, in order. */
  function SeedRows(categories: seq<Category>, products: seq<Product>): (rows: seq<Row>)
    ensures |rows| == 1 + |categories| + |products|
    ensures rows[0] == AdminUser(AdminEmail, "Admin User", "admin")
    ensures forall i :: 0 <= i < |categories| ==> rows[1 + i] == CategoryRow(categories[i])
    ensures forall i :: 0 <= i < |products| ==> rows[1 + |categories| + i] == ProductRow(products[i])
  {
    [AdminUser(AdminEmail, "Admin User", "admin")]
      + seq(|categories|, i requires 0 <= i < |categories| => CategoryRow(categories[i]))
      + seq(|products|, i requires 0 <= i < |products| => ProductRow(products[i]))
  }

  /** The admin user, then one insert per category, then one per product. */
  method InsertRows(categories: seq<Category>, products: seq<Product>) returns (rows: seq<Row>)
    ensures rows == SeedRows(categories, products)
  {
    rows := [AdminUser(AdminEmail, "Admin User", "admin")];
    for i := 0 to |categories|
      invariant |rows| == 1 + i && rows[0] == AdminUser(AdminEmail, "Admin User", "admin")
      invariant forall k :: 0 <= k < i ==> rows[1 + k] == CategoryRow(categories[k])
    {
      rows := rows + [CategoryRow(categories[i])];
    }
    for i := 0 to |products|
      invariant |rows| == 1 + |categories| + i && rows[0] == AdminUser(AdminEmail, "Admin User", "admin")
      invariant forall k :: 0 <= k < |categories| ==> rows[1 + k] == CategoryRow(categories[k])
      invariant forall k :: 0 <= k < i ==> rows[1 + |categories| + k] == ProductRow(products[k])
    {
      rows := rows + [ProductRow(products[i])];
    }
    var expected := SeedRows(categories, products);
    forall k | 0 <= k < |rows| ensures rows[k] == expected[k] {
      if 1 <= k < 1 + |categories| {
        assert rows[1 + (k - 1)] == expected[1 + (k - 1)];
      } else if 1 + |categories| <= k {
        assert rows[1 + |categories| + (k - 1 - |categories|)] == expected[1 + |categories| + (k - 1 - |categories|)];
      }
    }
  }

  datatype SeedRun =
    | MissingDatabaseUrl
    | AlreadySeeded(log: seq<StatementLog>)
    | Seeded(log: seq<StatementLog>, password: string, rows: seq<Row>)

  /**
   * `main`. The settings file, the migration file, the database and the
   * random draws are parameters; `adminExists` is the answer to the
   * admin lookup.
   */
  method SeedMain(envContent: string, migrationSql: string, execute: (nat, string) -> ExecResult, adminExists: bool,
                  draws: seq<real>, categories: seq<Category>, products: seq<Product>) returns (run: SeedRun)
    requires |draws| == 8 && forall i :: 0 <= i < 8 ==> IsDraw(draws[i])
    ensures run.MissingDatabaseUrl? <==> !HasDatabaseUrl(EnvOf(Split(envContent, "\n")))
    ensures run.AlreadySeeded? <==> HasDatabaseUrl(EnvOf(Split(envContent, "\n"))) && adminExists
    ensures !run.MissingDatabaseUrl? ==>
      |run.log| == |Statements(migrationSql)| && forall i :: 0 <= i < |run.log| ==> run.log[i] == Classify(execute(i, Statements(migrationSql)[i]))
    ensures run.Seeded? ==> run.password == Password(draws) && run.rows == SeedRows(categories, products)
  {
    var env := ParseEnv(envContent);
    if !("DATABASE_URL" in env && env["DATABASE_URL"] != "") {
      return MissingDatabaseUrl;
    }
    var log := RunTolerant(Statements(migrationSql), execute);
    if adminExists {
      return AlreadySeeded(log);
    }
    var password := Password(draws);
    var rows := InsertRows(categories, products);
    run := Seeded(log, password, rows);
  }
}
