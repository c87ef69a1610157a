/**
 * What the two database scripts (src/lib/db/seed.ts and
 * src/lib/db/setup.ts) share: cutting the migration file into statements,
 * running them, and drawing the admin password.
 *
 * The database is the parameter `execute`, which gives the outcome of the
 * statement run at each position (so a statement run twice may fare
 * differently); `Math.random` is a sequence of draws in [0, 1).
 */
module DbScripts {
  import opened Wrappers
  import opened Text

  /** The marker between statements in the generated migration file. */
  const Breakpoint := "--> statement-breakpoint"

  /** `.map(s => s.trim())` */
  function TrimAll(pieces: seq<string>): (r: seq<string>)
    ensures |r| == |pieces|
    ensures forall i :: 0 <= i < |r| ==> r[i] == Trim(pieces[i])
  {
    if pieces == [] then [] else [Trim(pieces[0])] + TrimAll(pieces[1..])
  }

  /** `.filter(Boolean)`, equally `.filter(s => s.length > 0)`: drop the empty strings, keeping the order. */
  function NonEmpty(pieces: seq<string>): (r: seq<string>)
    ensures |r| <= |pieces|
    ensures forall i :: 0 <= i < |r| ==> r[i] != "" && r[i] in pieces
    ensures forall i :: 0 <= i < |pieces| && pieces[i] != "" ==> pieces[i] in r
  {
    if pieces == [] then []
    else (if pieces[0] != "" then [pieces[0]] else []) + NonEmpty(pieces[1..])
  }

  /**
   * The statements of a migration file: none is empty, and a file without a
   * marker is one statement, or none when it is only white space.
   */
  function Statements(sql: string): (r: seq<string>)
    ensures forall i :: 0 <= i < |r| ==> r[i] != ""
    ensures IndexOf(sql, Breakpoint) == -1 ==> r == if Trim(sql) == "" then [] else [Trim(sql)]
  {
    NonEmpty(TrimAll(Split(sql, Breakpoint)))
  }

  lemma {:induction false} NonEmptyAppend(a: seq<string>, b: seq<string>)
    ensures NonEmpty(a + b) == NonEmpty(a) + NonEmpty(b)
  {
    if a != [] {
      assert (a + b)[1..] == a[1..] + b;
      NonEmptyAppend(a[1..], b);
    } else {
      assert a + b == b;
    }
  }

  /** No proper suffix of the marker is also a prefix of it, so two occurrences cannot overlap. */
  lemma MarkerUnbordered()
    ensures Unbordered(Breakpoint)
  {
    forall d | 0 < d < |Breakpoint| ensures Breakpoint[d..] != Breakpoint[..|Breakpoint| - d] {
      MarkerShiftDiffers(d);
    }
  }

  lemma MarkerShiftDiffers(d: nat)
    requires 0 < d < |Breakpoint|
    ensures Breakpoint[d..] != Breakpoint[..|Breakpoint| - d]
  {
    assert forall k :: 0 <= k < |Breakpoint| && Breakpoint[k] == '-' ==> k == 0 || k == 1 || k == 13;
    if d == 1 || d == 13 {
      assert Breakpoint[d..][1] != Breakpoint[..|Breakpoint| - d][1];
    } else {
      assert Breakpoint[d..][0] != Breakpoint[..|Breakpoint| - d][0];
    }
  }

  /** The first marker after a marker-free text is the one right after it. */
  lemma FirstMarkerAfter(first: string, rest: string)
    requires !Contains(first, Breakpoint)
    ensures IndexOf(first + Breakpoint + rest, Breakpoint) == |first|
  {
    MarkerUnbordered();
    FirstOccurrenceAfter(first, Breakpoint, rest);
  }

  /**
   * The statements in order: a migration made of two parts separated by
   * the marker yields the first part's statement, then the second's.
   */
  lemma StatementsOfTwoParts(first: string, rest: string)
    requires !Contains(first, Breakpoint)
    ensures Statements(first + Breakpoint + rest)
         == (if Trim(first) != "" then [Trim(first)] else []) + Statements(rest)
  {
    var sql := first + Breakpoint + rest;
    FirstMarkerAfter(first, rest);
    assert sql[..|first|] == first;
    assert sql[|first| + |Breakpoint|..] == rest;
    var tail := Split(rest, Breakpoint);
    assert Split(sql, Breakpoint) == [first] + tail;
    assert TrimAll([first] + tail) == [Trim(first)] + TrimAll(tail) by {
      assert ([first] + tail)[1..] == tail;
    }
    NonEmptyAppend([Trim(first)], TrimAll(tail));
    assert [Trim(first)][1..] == [];
  }

  /** Each statement is non-empty, has no surrounding white space, and contains no marker. */
  lemma StatementsAreClean(sql: string)
    ensures forall i :: 0 <= i < |Statements(sql)| ==>
      && Statements(sql)[i] != ""
      && !IsSpace(Statements(sql)[i][0]) && !IsSpace(Statements(sql)[i][|Statements(sql)[i]| - 1])
      && !Contains(Statements(sql)[i], Breakpoint)
  {
    var pieces := Split(sql, Breakpoint);
    var trimmed := TrimAll(pieces);
    SplitPiecesFree(sql, Breakpoint);
    forall j | 0 <= j < |trimmed| ensures !Contains(trimmed[j], Breakpoint) {
      var a, b := TrimIsInfix(pieces[j]);
      InfixKeepsAbsence(pieces[j], Breakpoint, a, b);
    }
    forall i | 0 <= i < |Statements(sql)|
      ensures !Contains(Statements(sql)[i], Breakpoint)
      ensures Statements(sql)[i] != "" && !IsSpace(Statements(sql)[i][0]) && !IsSpace(Statements(sql)[i][|Statements(sql)[i]| - 1])
    {
      var s := Statements(sql)[i];
      assert s in trimmed;
      var j :| 0 <= j < |trimmed| && trimmed[j] == s;
    }
  }

  /** A statement's outcome at the database: success, or an error whose message may be missing. */
  datatype ExecResult = Ok | Error(message: Option<string>)

  /** How the tolerant loop reports each statement. */
  datatype StatementLog = Executed | Skipped | Warned(message: Option<string>)

  /** The `catch` in seed.ts: "already exists" and "Duplicate" errors are skipped, all others warned about. */
  function Classify(result: ExecResult): (log: StatementLog)
    ensures log == Executed <==> result.Ok?
    ensures log == Skipped <==>
      result.Error? && result.message.Some? && (Contains(result.message.value, "already exists") || Contains(result.message.value, "Duplicate"))
    ensures log.Warned? ==> log.message == result.message
  {
    match result
    case Ok => Executed
    case Error(message) =>
      if message.Some? && message.value != "" && (Contains(message.value, "already exists") || Contains(message.value, "Duplicate"))
      then Skipped
      else Warned(message)
  }

  /** The loop in seed.ts: every statement is run, whatever happened to the ones before. */
  method RunTolerant(statements: seq<string>, execute: (nat, string) -> ExecResult) returns (log: seq<StatementLog>)
    ensures |log| == |statements|
    ensures forall i :: 0 <= i < |statements| ==> log[i] == Classify(execute(i, statements[i]))
  {
    log := [];
    for i := 0 to |statements|
      invariant |log| == i
      invariant forall j :: 0 <= j < i ==> log[j] == Classify(execute(j, statements[j]))
    {
      var result := execute(i, statements[i]);
      log := log + [Classify(result)];
    }
  }

  /** The loop in setup.ts: the first failing statement ends the run. Returns how many succeeded. */
  method RunStrict(statements: seq<string>, execute: (nat, string) -> ExecResult) returns (succeeded: nat)
    ensures succeeded <= |statements|
    ensures forall i :: 0 <= i < succeeded ==> execute(i, statements[i]).Ok?
    ensures succeeded < |statements| ==> execute(succeeded, statements[succeeded]).Error?
  {
    var i := 0;
    while i < |statements|
      invariant i <= |statements|
      invariant forall j :: 0 <= j < i ==> execute(j, statements[j]).Ok?
    {
      var result := execute(i, statements[i]);
      if result.Error? {
        return i;
      }
      i := i + 1;
    }
    succeeded := i;
  }

  const Uppercase := "ABCDEFGHIJKLMNOPQRSTUVWXYZ"
  const Lowercase := "abcdefghijklmnopqrstuvwxyz"
  const Numbers := "0123456789"
  const Specials := "!@#$%^&*"

  /** The character class of position `i`: upper, lower, digit, special, repeated. */
  function CharClass(i: nat): (c: string)
    ensures c != []
  {
    if i % 4 == 0 then Uppercase else if i % 4 == 1 then Lowercase else if i % 4 == 2 then Numbers else Specials
  }

  predicate IsDraw(x: real) {
    0.0 <= x < 1.0
  }

  /** `chars[Math.floor(Math.random() * chars.length)]` */
  function Pick(chars: string, draw: real): (c: char)
    requires chars != [] && IsDraw(draw)
    ensures c in chars
    ensures forall k :: 0 <= k < |chars| && k as real <= draw * |chars| as real < k as real + 1.0 ==> c == chars[k]
  {
    var x := draw * |chars| as real;
    var k := x.Floor;
    assert 0 <= k < |chars| by {
      ScaleBelow(draw, |chars|);
    }
    chars[k]
  }

  /** A draw in [0, 1) scales a positive length into [0, length), and so does its floor. */
  lemma ScaleBelow(draw: real, n: nat)
    requires IsDraw(draw) && n > 0
    ensures 0.0 <= draw * n as real < n as real
    ensures 0 <= (draw * n as real).Floor < n
  {
    assert n as real - draw * n as real == (1.0 - draw) * n as real;
  }

  /** The admin password: eight characters, one draw each. */
  function Password(draws: seq<real>): (p: string)
    requires |draws| == 8 && forall i :: 0 <= i < 8 ==> IsDraw(draws[i])
    ensures |p| == 8
    ensures p[0] in Uppercase && p[4] in Uppercase && p[1] in Lowercase && p[5] in Lowercase
    ensures p[2] in Numbers && p[6] in Numbers && p[3] in Specials && p[7] in Specials
  {
    [Pick(Uppercase, draws[0]), Pick(Lowercase, draws[1]), Pick(Numbers, draws[2]), Pick(Specials, draws[3]),
     Pick(Uppercase, draws[4]), Pick(Lowercase, draws[5]), Pick(Numbers, draws[6]), Pick(Specials, draws[7])]
  }

  /** Character `i` of the password is drawn from class `i mod 4` by the `i`-th draw. */
  lemma PasswordShape(draws: seq<real>)
    requires |draws| == 8 && forall i :: 0 <= i < 8 ==> IsDraw(draws[i])
    ensures forall i :: 0 <= i < 8 ==> Password(draws)[i] == Pick(CharClass(i), draws[i])
  {
    var p := Password(draws);
    assert CharClass(0) == CharClass(4) == Uppercase && CharClass(1) == CharClass(5) == Lowercase;
    assert CharClass(2) == CharClass(6) == Numbers && CharClass(3) == CharClass(7) == Specials;
    forall i | 0 <= i < 8 ensures p[i] == Pick(CharClass(i), draws[i]) {
      if i < 4 {
        assert i == 0 || i == 1 || i == 2 || i == 3;
      } else {
        assert i == 4 || i == 5 || i == 6 || i == 7;
      }
    }
  }
}
