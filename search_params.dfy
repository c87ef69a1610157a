/**
 * The storefront's query string (src/components/store/product-filters.tsx).
 * A `URLSearchParams` is a list of name-value pairs: `get` reads the first
 * pair with the name, `delete` removes every pair with it, and `set` gives
 * the first such pair the new value and removes the others, or appends a
 * pair when there is none (the WHATWG URL Standard, section 6.2).
 */
module SearchParams {
  import opened Wrappers
  import opened Lists

  type Pair = (string, string)

  function PairName(p: Pair): string { p.0 }

  /** `params.get(name)`: the value of the first pair with the name, or null when there is none. */
  function Lookup(pairs: seq<Pair>, name: string): (r: Option<string>)
    ensures r.None? <==> forall i :: 0 <= i < |pairs| ==> pairs[i].0 != name
    ensures r.Some? ==> (name, r.value) in pairs
    ensures forall i :: 0 <= i < |pairs| && pairs[i].0 == name && (forall j :: 0 <= j < i ==> pairs[j].0 != name) ==>
      r == Some(pairs[i].1)
  {
    match Find(pairs, PairName, name)
    case Some(p) => Some(p.1)
    case None => None
  }

  /** `params.delete(name)`: no pair with the name is left, and every other pair is kept. */
  function WithDeleted(pairs: seq<Pair>, name: string): (r: seq<Pair>)
    ensures forall i :: 0 <= i < |r| ==> r[i].0 != name && r[i] in pairs
    ensures forall i :: 0 <= i < |pairs| && pairs[i].0 != name ==> pairs[i] in r
  {
    RemoveWhere(pairs, PairName, name)
  }

  /**
   * `params.set(name, value)`: the list gains the pair, every pair with the
   * name carries the new value, and the pairs with other names stay as
   * they were, in their order.
   */
  function WithSet(pairs: seq<Pair>, name: string, value: string): (r: seq<Pair>)
    ensures (name, value) in r
    ensures forall i :: 0 <= i < |r| ==> r[i].0 == name ==> r[i].1 == value
    ensures WithDeleted(r, name) == WithDeleted(pairs, name)
  {
    var i := FindIndex(pairs, PairName, name);
    if i == -1 then
      AppendedPair(pairs, name, value);
      pairs + [(name, value)]
    else
      ReplacedPair(pairs, i, name, value);
      pairs[..i] + [(name, value)] + RemoveWhere(pairs[i + 1..], PairName, name)
  }

  /** `set` on a name no pair has appends the pair, which is then the only one with the name. */
  lemma AppendedPair(pairs: seq<Pair>, name: string, value: string)
    requires forall j :: 0 <= j < |pairs| ==> pairs[j].0 != name
    ensures (name, value) in pairs + [(name, value)]
    ensures forall j :: 0 <= j < |pairs| + 1 ==> (pairs + [(name, value)])[j].0 == name ==> (pairs + [(name, value)])[j].1 == value
    ensures RemoveWhere(pairs + [(name, value)], PairName, name) == RemoveWhere(pairs, PairName, name)
  {
    assert (pairs + [(name, value)])[|pairs|] == (name, value);
    RemoveAfterAppend(pairs, (name, value), PairName, name);
  }

  /** `set` on a name whose first pair is at `i` replaces that pair and drops the later ones with the name. */
  lemma ReplacedPair(pairs: seq<Pair>, i: nat, name: string, value: string)
    requires i < |pairs| && pairs[i].0 == name
    requires forall j :: 0 <= j < i ==> pairs[j].0 != name
    ensures var r := pairs[..i] + [(name, value)] + RemoveWhere(pairs[i + 1..], PairName, name);
      && (name, value) in r
      && (forall j :: 0 <= j < |r| ==> r[j].0 == name ==> r[j].1 == value)
      && RemoveWhere(r, PairName, name) == RemoveWhere(pairs, PairName, name)
  {
    var back := RemoveWhere(pairs[i + 1..], PairName, name);
    var r := pairs[..i] + [(name, value)] + back;
    assert r[i] == (name, value);
    assert forall j :: 0 <= j < i ==> r[j] == pairs[j];
    assert forall j :: i < j < |r| ==> r[j] == back[j - i - 1];
    RemoveAfterReplace(pairs, i, (name, value), PairName, name);
  }

  /** `params.get(name) || fallback`: an absent or empty value reads as the fallback. */
  function ValueOr(pairs: seq<Pair>, name: string, fallback: string): string {
    match Lookup(pairs, name)
    case Some(v) => if v == "" then fallback else v
    case None => fallback
  }

  // The three controls' current values.

  /** The category select never shows an empty value: 'all' unless a non-empty category is given. */
  function CurrentCategory(pairs: seq<Pair>): (r: string)
    ensures r != ""
    ensures r == "all" || Lookup(pairs, "category") == Some(r)
  {
    ValueOr(pairs, "category", "all")
  }

  /** The sort select never shows an empty value: 'default' unless a non-empty sort is given. */
  function CurrentSort(pairs: seq<Pair>): (r: string)
    ensures r != ""
    ensures r == "default" || Lookup(pairs, "sort") == Some(r)
  {
    ValueOr(pairs, "sort", "default")
  }

  /** The search box shows exactly the stored term, and nothing when there is none. */
  function CurrentSearch(pairs: seq<Pair>): (r: string)
    ensures Lookup(pairs, "search").Some? ==> r == Lookup(pairs, "search").value
    ensures Lookup(pairs, "search").None? ==> r == ""
  {
    ValueOr(pairs, "search", "")
  }

  /** The values `updateFilter` treats as "clear this parameter". */
  predicate IsSentinel(value: string) {
    value == "" || value == "all" || value == "default"
  }

  /**
   * The query `updateFilter(key, value)` navigates to: a sentinel value
   * removes every pair with the key, any other value is set; the other
   * parameters stay as they were, in their order.
   */
  function Updated(pairs: seq<Pair>, key: string, value: string): (r: seq<Pair>)
    ensures IsSentinel(value) ==> forall i :: 0 <= i < |r| ==> r[i].0 != key
    ensures !IsSentinel(value) ==> (key, value) in r && forall i :: 0 <= i < |r| ==> r[i].0 == key ==> r[i].1 == value
    ensures WithDeleted(r, key) == WithDeleted(pairs, key)
  {
    RemoveWhereAbsent(WithDeleted(pairs, key), PairName, key);
    if !IsSentinel(value) then WithSet(pairs, key, value) else WithDeleted(pairs, key)
  }

  /** The copy `new URLSearchParams(searchParams)` that `updateFilter` edits. */
  class URLSearchParams {
    var pairs: seq<Pair>

    constructor (init: seq<Pair>)
      ensures pairs == init
    {
      pairs := init;
    }

    function Get(name: string): Option<string>
      reads this
    {
      Lookup(pairs, name)
    }

    method Set(name: string, value: string)
      modifies this
      ensures pairs == WithSet(old(pairs), name, value)
    {
      pairs := WithSet(pairs, name, value);
    }

    method Delete(name: string)
      modifies this
      ensures pairs == WithDeleted(old(pairs), name)
    {
      pairs := WithDeleted(pairs, name);
    }
  }

  /** `updateFilter`: copy the current parameters, set or delete `key`, and return the new query. */
  method UpdateFilter(current: seq<Pair>, key: string, value: string) returns (next: seq<Pair>)
    ensures next == Updated(current, key, value)
  {
    var params := new URLSearchParams(current);
    if !IsSentinel(value) {
      params.Set(key, value);
    } else {
      params.Delete(key);
    }
    next := params.pairs;
  }

  /** After `set`, reading the name gives the value set. */
  lemma LookupAfterSet(pairs: seq<Pair>, name: string, value: string)
    ensures Lookup(WithSet(pairs, name, value), name) == Some(value)
  {
    var i := FindIndex(pairs, PairName, name);
    var entry := [(name, value)];
    assert Find(entry, PairName, name) == Some((name, value));
    if i == -1 {
      FindAppend(pairs, entry, PairName, name);
    } else {
      var front, kept := pairs[..i], RemoveWhere(pairs[i + 1..], PairName, name);
      assert WithSet(pairs, name, value) == front + (entry + kept);
      assert Find(front, PairName, name).None?;
      FindAppend(front, entry + kept, PairName, name);
      FindAppend(entry, kept, PairName, name);
    }
  }

  /** `delete` of one name leaves every other name reading as before. */
  lemma LookupAfterDeleteOther(pairs: seq<Pair>, name: string, other: string)
    requires other != name
    ensures Lookup(WithDeleted(pairs, name), other) == Lookup(pairs, other)
  {
    FindAfterRemoveOther(pairs, PairName, name, other);
  }

  /** `set` of one name leaves every other name reading as before. */
  lemma LookupAfterSetOther(pairs: seq<Pair>, name: string, value: string, other: string)
    requires other != name
    ensures Lookup(WithSet(pairs, name, value), other) == Lookup(pairs, other)
  {
    FindAfterSetOther(pairs, name, value, other);
  }

  lemma FindAfterSetOther(pairs: seq<Pair>, name: string, value: string, other: string)
    requires other != name
    ensures Find(WithSet(pairs, name, value), PairName, other) == Find(pairs, PairName, other)
  {
    var i := FindIndex(pairs, PairName, name);
    if i == -1 {
      assert WithSet(pairs, name, value) == pairs + [(name, value)];
      FindAppend(pairs, [(name, value)], PairName, other);
    } else {
      assert WithSet(pairs, name, value) == pairs[..i] + [(name, value)] + RemoveWhere(pairs[i + 1..], PairName, name);
      FindAfterReplaceOther(pairs, i, (name, value), PairName, name, other);
    }
  }

  /**
   * Round trip: after `updateFilter(key, value)` the control reads back the
   * value, or its default when the value was '', 'all' or 'default'; every
   * other parameter reads as before.
   */
  lemma UpdateFilterRoundTrip(pairs: seq<Pair>, key: string, value: string, fallback: string, other: string)
    ensures Lookup(Updated(pairs, key, value), key) == if IsSentinel(value) then None else Some(value)
    ensures ValueOr(Updated(pairs, key, value), key, fallback) == if IsSentinel(value) then fallback else value
    ensures other != key ==> Lookup(Updated(pairs, key, value), other) == Lookup(pairs, other)
  {
    if IsSentinel(value) {
      assert Find(RemoveWhere(pairs, PairName, key), PairName, key).None?;
    } else {
      LookupAfterSet(pairs, key, value);
    }
    if other != key {
      if IsSentinel(value) {
        LookupAfterDeleteOther(pairs, key, other);
      } else {
        LookupAfterSetOther(pairs, key, value, other);
      }
    }
  }

  /** `updateFilter` never leaves the edited parameter holding '', 'all' or 'default'. */
  lemma UpdateFilterWritesNoSentinel(pairs: seq<Pair>, key: string, value: string)
    ensures Lookup(Updated(pairs, key, value), key).Some? ==> !IsSentinel(Lookup(Updated(pairs, key, value), key).value)
  {
    UpdateFilterRoundTrip(pairs, key, value, "", key);
  }

  /** So searching for the literal text "all" or "default" clears the search instead. */
  lemma SearchForSentinelClears(pairs: seq<Pair>)
    ensures CurrentSearch(Updated(pairs, "search", "all")) == ""
    ensures CurrentSearch(Updated(pairs, "search", "default")) == ""
    ensures CurrentCategory(Updated(pairs, "category", "all")) == "all"
    ensures CurrentSort(Updated(pairs, "sort", "default")) == "default"
  {
    UpdateFilterRoundTrip(pairs, "search", "all", "", "search");
    UpdateFilterRoundTrip(pairs, "search", "default", "", "search");
    UpdateFilterRoundTrip(pairs, "category", "all", "all", "category");
    UpdateFilterRoundTrip(pairs, "sort", "default", "default", "sort");
  }
}
