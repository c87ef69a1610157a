/**
 * The JavaScript string operations the seed scripts and the access gate
 * use: `startsWith`, `includes`, `split` on a non-empty string separator,
 * `join` and `trim`. Strings are sequences of Unicode scalar values here,
 * not of the UTF-16 code units JavaScript counts.
 */
module Text {

  /** `sub` occurs in `s` starting at index `j`. */
  predicate OccursAt(s: string, sub: string, j: nat) {
    j + |sub| <= |s| && s[j..j + |sub|] == sub
  }

  /** `s.startsWith(prefix)` */
  predicate StartsWith(s: string, prefix: string) {
    |prefix| <= |s| && s[..|prefix|] == prefix
  }

  /** `s.includes(sub)` */
  function Contains(s: string, sub: string): (r: bool)
    ensures r <==> exists j: nat :: j <= |s| && OccursAt(s, sub, j)
    decreases |s|
  {
    if StartsWith(s, sub) then
      assert OccursAt(s, sub, 0);
      true
    else if s == [] then false
    else
      var r := Contains(s[1..], sub);
      if r then
        var j: nat :| j <= |s[1..]| && OccursAt(s[1..], sub, j);
        assert OccursAt(s, sub, j + 1);
        true
      else
        forall j: nat | 1 <= j <= |s| && OccursAt(s, sub, j) ensures OccursAt(s[1..], sub, j - 1) {
          assert s[1..][j - 1..j - 1 + |sub|] == s[j..j + |sub|];
        }
        false
  }

  /** `s.indexOf(sep, from)`: the first index from `from` on where `sep` occurs, or -1. */
  function IndexOfFrom(s: string, sep: string, from: nat): (r: int)
    requires sep != []
    ensures r == -1 || from <= r <= |s| - |sep|
    ensures r == -1 ==> forall j: nat :: from <= j ==> !OccursAt(s, sep, j)
    ensures r >= 0 ==> OccursAt(s, sep, r) && forall j: nat :: from <= j < r ==> !OccursAt(s, sep, j)
    decreases |s| - from
  {
    if from + |sep| > |s| then -1
    else if s[from..from + |sep|] == sep then from
    else IndexOfFrom(s, sep, from + 1)
  }

  /** `s.indexOf(sep)`: the first index where `sep` occurs, or -1. */
  function IndexOf(s: string, sep: string): (r: int)
    requires sep != []
    ensures r == -1 || 0 <= r <= |s| - |sep|
    ensures r == -1 ==> forall j: nat :: j <= |s| ==> !OccursAt(s, sep, j)
    ensures r >= 0 ==> OccursAt(s, sep, r) && forall j: nat :: j < r ==> !OccursAt(s, sep, j)
  {
    IndexOfFrom(s, sep, 0)
  }

  /** `s.split(sep)` for a non-empty separator: the pieces between occurrences, left to right. */
  function Split(s: string, sep: string): (r: seq<string>)
    requires sep != []
    ensures |r| >= 1
    decreases |s|
  {
    var i := IndexOf(s, sep);
    if i == -1 then [s]
    else [s[..i]] + Split(s[i + |sep|..], sep)
  }

  /** No piece of a split contains the separator. */
  lemma {:induction false} SplitPiecesFree(s: string, sep: string)
    requires sep != []
    ensures forall i :: 0 <= i < |Split(s, sep)| ==> !Contains(Split(s, sep)[i], sep)
    decreases |s|
  {
    var i := IndexOf(s, sep);
    if i != -1 {
      SplitPiecesFree(s[i + |sep|..], sep);
      assert !Contains(s[..i], sep) by {
        forall j: nat | j <= i && OccursAt(s[..i], sep, j) ensures false {
          assert s[..i][j..j + |sep|] == s[j..j + |sep|];
          assert OccursAt(s, sep, j);
        }
      }
    }
  }

  /** `parts.join(sep)` */
  function Join(parts: seq<string>, sep: string): string {
    if |parts| == 0 then ""
    else if |parts| == 1 then parts[0]
    else parts[0] + sep + Join(parts[1..], sep)
  }

  /** Joining the pieces of a split with the same separator gives back the original string. */
  lemma {:induction false} JoinSplit(s: string, sep: string)
    requires sep != []
    ensures Join(Split(s, sep), sep) == s
    decreases |s|
  {
    var i := IndexOf(s, sep);
    if i == -1 {
      assert Split(s, sep) == [s];
    } else {
      var rest := s[i + |sep|..];
      var tail := Split(rest, sep);
      JoinSplit(rest, sep);
      JoinAround(s, sep, i, tail);
    }
  }

  /** The text before an occurrence of `sep`, then `sep`, then pieces that join to the rest, join back to the whole text. */
  lemma JoinAround(s: string, sep: string, i: nat, tail: seq<string>)
    requires i + |sep| <= |s| && s[i..i + |sep|] == sep
    requires tail != [] && Join(tail, sep) == s[i + |sep|..]
    ensures Join([s[..i]] + tail, sep) == s
  {
    JoinCons(s[..i], tail, sep);
    SliceAround(s, i, |sep|);
  }

  lemma JoinCons(first: string, tail: seq<string>, sep: string)
    requires tail != []
    ensures Join([first] + tail, sep) == first + sep + Join(tail, sep)
  {
    assert ([first] + tail)[1..] == tail;
  }

  lemma SliceAround(s: string, i: nat, n: nat)
    requires i + n <= |s|
    ensures s == s[..i] + s[i..i + n] + s[i + n..]
  {
  }

  /** A split's first piece is the text before the first separator; the rest joins back to the text after it. */
  lemma SplitFirst(s: string, sep: string)
    requires sep != []
    ensures var parts, i := Split(s, sep), IndexOf(s, sep);
      && (i == -1 ==> parts == [s])
      && (i >= 0 ==> |parts| >= 2 && parts[0] == s[..i] && Join(parts[1..], sep) == s[i + |sep|..])
  {
    var i := IndexOf(s, sep);
    var parts := Split(s, sep);
    if i >= 0 {
      var rest := s[i + |sep|..];
      assert parts == [s[..i]] + Split(rest, sep);
      assert parts[1..] == Split(rest, sep);
      JoinSplit(rest, sep);
    } else {
      assert parts == [s];
    }
  }

  /** No proper suffix of `sep` is also a prefix of it, so two occurrences of it cannot overlap. */
  ghost predicate Unbordered(sep: string) {
    forall d :: 0 < d < |sep| ==> sep[d..] != sep[..|sep| - d]
  }

  /** For a separator that cannot overlap itself, the first occurrence after a separator-free text is the one right after it. */
  lemma FirstOccurrenceAfter(first: string, sep: string, rest: string)
    requires sep != [] && Unbordered(sep) && !Contains(first, sep)
    ensures IndexOf(first + sep + rest, sep) == |first|
  {
    var s, n, m := first + sep + rest, |sep|, |first|;
    assert s[m..m + n] == sep by {
      assert s[..m + n] == first + sep;
      assert s[m..m + n] == (first + sep)[m..];
    }
    var i := IndexOf(s, sep);
    assert OccursAt(s, sep, m);
    assert 0 <= i <= m;
    if i < m {
      if i + n <= m {
        OccurrenceInPrefix(first, sep, rest, i);
      } else {
        OccurrenceAcrossIsBorder(first, sep, rest, i);
      }
    }
  }

  /** An occurrence that ends inside `first` is an occurrence in `first`. */
  lemma OccurrenceInPrefix(first: string, sep: string, rest: string, i: nat)
    requires i + |sep| <= |first| && OccursAt(first + sep + rest, sep, i)
    ensures Contains(first, sep)
  {
    var s := first + sep + rest;
    forall k | 0 <= k < |sep| ensures first[i..i + |sep|][k] == sep[k] {
      assert s[i..i + |sep|][k] == s[i + k] == first[i + k];
    }
    assert OccursAt(first, sep, i);
  }

  /** An occurrence that starts inside `first` and runs into the separator after it makes the separator bordered. */
  lemma OccurrenceAcrossIsBorder(first: string, sep: string, rest: string, i: nat)
    requires i < |first| < i + |sep| && OccursAt(first + sep + rest, sep, i)
    ensures !Unbordered(sep)
  {
    var s, n, d := first + sep + rest, |sep|, |first| - i;
    forall k | 0 <= k < n - d ensures sep[d..][k] == sep[..n - d][k] {
      assert sep[d + k] == s[i..i + n][d + k] == s[|first| + k];
    }
    assert sep[d..] == sep[..n - d];
  }

  /** The characters `String.prototype.trim` removes: ECMAScript white space and line terminators. */
  predicate IsSpace(c: char) {
    || c == ' ' || c == '\t' || c == '\n' || c == '\r' || c == '\U{000B}' || c == '\U{000C}'
    || c == '\U{00A0}' || c == '\U{FEFF}' || c == '\U{1680}' || ('\U{2000}' <= c <= '\U{200A}')
    || c == '\U{2028}' || c == '\U{2029}' || c == '\U{202F}' || c == '\U{205F}' || c == '\U{3000}'
  }

  /** `s.trim()`: drop white space from both ends. */
  function Trim(s: string): (r: string)
    ensures |r| <= |s|
    ensures r == [] || (!IsSpace(r[0]) && !IsSpace(r[|r| - 1]))
    decreases |s|
  {
    if s != [] && IsSpace(s[0]) then Trim(s[1..])
    else if s != [] && IsSpace(s[|s| - 1]) then Trim(s[..|s| - 1])
    else s
  }

  /** The trimmed text is the infix of `s` left after removing only white space at either end. */
  lemma {:induction false} TrimIsInfix(s: string) returns (a: nat, b: nat)
    ensures a <= b <= |s| && Trim(s) == s[a..b]
    ensures forall j :: 0 <= j < a ==> IsSpace(s[j])
    ensures forall j :: b <= j < |s| ==> IsSpace(s[j])
    decreases |s|
  {
    if s != [] && IsSpace(s[0]) {
      var a', b' := TrimIsInfix(s[1..]);
      a, b := a' + 1, b' + 1;
      SpacesAfterHead(s, s[1..], a', b');
    } else if s != [] && IsSpace(s[|s| - 1]) {
      a, b := TrimIsInfix(s[..|s| - 1]);
      SpacesBeforeLast(s, s[..|s| - 1], a, b);
    } else {
      a, b := 0, |s|;
      assert s[..] == s;
    }
  }

  /** Spaces around an infix of `s[1..]` are spaces around the shifted infix of `s` when `s[0]` is one too. */
  lemma SpacesAfterHead(s: string, t: string, a: nat, b: nat)
    requires s != [] && IsSpace(s[0]) && t == s[1..] && a <= b <= |t|
    requires forall j :: 0 <= j < a ==> IsSpace(t[j])
    requires forall j :: b <= j < |t| ==> IsSpace(t[j])
    ensures t[a..b] == s[a + 1..b + 1]
    ensures forall j :: 0 <= j < a + 1 ==> IsSpace(s[j])
    ensures forall j :: b + 1 <= j < |s| ==> IsSpace(s[j])
  {
    forall j | 0 < j < a + 1 ensures IsSpace(s[j]) {
      assert s[j] == t[j - 1];
    }
    forall j | b + 1 <= j < |s| ensures IsSpace(s[j]) {
      assert s[j] == t[j - 1];
    }
  }

  /** Spaces around an infix of `s[..|s| - 1]` are spaces around the same infix of `s` when its last character is one too. */
  lemma SpacesBeforeLast(s: string, t: string, a: nat, b: nat)
    requires s != [] && IsSpace(s[|s| - 1]) && t == s[..|s| - 1] && a <= b <= |t|
    requires forall j :: 0 <= j < a ==> IsSpace(t[j])
    requires forall j :: b <= j < |t| ==> IsSpace(t[j])
    ensures t[a..b] == s[a..b]
    ensures forall j :: 0 <= j < a ==> IsSpace(s[j])
    ensures forall j :: b <= j < |s| ==> IsSpace(s[j])
  {
    forall j | 0 <= j < a ensures IsSpace(s[j]) {
      assert s[j] == t[j];
    }
    forall j | b <= j < |s| - 1 ensures IsSpace(s[j]) {
      assert s[j] == t[j];
    }
  }

  /** Trimming twice is trimming once. */
  lemma TrimIdempotent(s: string)
    ensures Trim(Trim(s)) == Trim(s)
  {
    var r := Trim(s);
    assert r == [] || (!IsSpace(r[0]) && !IsSpace(r[|r| - 1]));
  }

  /** A piece cut out of a string that does not contain `sub` does not contain it either. */
  lemma InfixKeepsAbsence(s: string, sub: string, a: nat, b: nat)
    requires a <= b <= |s| && !Contains(s, sub)
    ensures !Contains(s[a..b], sub)
  {
    if Contains(s[a..b], sub) {
      var j: nat :| j <= |s[a..b]| && OccursAt(s[a..b], sub, j);
      InfixOfInfix(s, a, b, j, |sub|);
      assert OccursAt(s, sub, a + j);
    }
  }

  /** A slice of a slice is a slice of the original. */
  lemma InfixOfInfix(s: string, a: nat, b: nat, j: nat, n: nat)
    requires a <= b <= |s| && j + n <= b - a
    ensures s[a..b][j..j + n] == s[a + j..a + j + n]
  {
    var u, v := s[a..b][j..j + n], s[a + j..a + j + n];
    forall k | 0 <= k < n ensures u[k] == v[k] {
    }
  }
}
