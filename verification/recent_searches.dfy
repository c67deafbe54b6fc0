/**
  The recent-searches list of the search sheet: newest first, capped at ten,
  without duplicates, and shown five at a time. Its persistence is not part
  of the model; the list is a plain value.
 */
module RecentSearches {
  import opened Numeric

  /** Most entries kept after an insertion. */
  const Capacity: nat := 10
  /** Most entries shown under "Recent Searches". */
  const DisplayLimit: nat := 5

  predicate NoDuplicates(xs: seq<string>) {
    forall i, j :: 0 <= i < j < |xs| ==> xs[i] != xs[j]
  }

  /**
    The list after a search for `query`: an empty query or one already listed
    leaves the list exactly as it was (no move to the front); a new query goes
    first and pushes the oldest entry out once the list is full.
   */
  function Record(recent: seq<string>, query: string): (r: seq<string>)
    ensures query == "" ==> r == recent
    ensures query in recent ==> r == recent
    ensures query != "" && query !in recent ==>
              r == [query] + recent[..MinInt(|recent|, Capacity - 1)]
    ensures query != "" ==> query in r
    ensures |recent| <= Capacity ==> |r| <= Capacity
    ensures NoDuplicates(recent) ==> NoDuplicates(r)
  {
    if query == "" || query in recent then
      recent
    else
      var inserted := [query] + recent;
      if |inserted| > Capacity then inserted[..Capacity] else inserted
  }

  /**
    Which entries survive a new query: the query itself and exactly the nine
    newest of the old entries; with a full list the oldest one is dropped.
   */
  lemma RecordMembers(recent: seq<string>, query: string, x: string)
    requires query != "" && query !in recent
    ensures x in Record(recent, query) <==> x == query || x in recent[..MinInt(|recent|, Capacity - 1)]
    ensures NoDuplicates(recent) && |recent| >= Capacity ==> recent[Capacity - 1] !in Record(recent, query)
  {
  }

  /** The entries shown: the first five. */
  function Displayed(recent: seq<string>): (d: seq<string>)
    ensures |d| == MinInt(|recent|, DisplayLimit)
    ensures d <= recent
  {
    recent[..MinInt(|recent|, DisplayLimit)]
  }

  /** The "Clear" button: no recent searches are left and nothing is shown. */
  function Clear(recent: seq<string>): (r: seq<string>)
    ensures |r| == 0 && Displayed(r) == []
  {
    []
  }

  /** A new query is always shown, at the top. */
  lemma NewQueryShownFirst(recent: seq<string>, query: string)
    requires query != "" && query !in recent
    ensures Displayed(Record(recent, query))[0] == query
  {
  }

  /**
    Searching again for an entry pushed below the shown five does not bring it
    back: without move-to-front it stays hidden.
   */
  lemma HiddenEntryStaysHidden(recent: seq<string>, i: nat)
    requires NoDuplicates(recent)
    requires DisplayLimit <= i < |recent|
    ensures Record(recent, recent[i]) == recent
    ensures recent[i] !in Displayed(Record(recent, recent[i]))
  {
  }

  /** Tapping a shown entry re-runs it without changing the list. */
  lemma TapShownEntryKeepsList(recent: seq<string>, x: string)
    requires x in Displayed(recent)
    ensures Record(recent, x) == recent
  {
  }

  /** The list after a whole sequence of searches, oldest first. */
  function RecordAll(recent: seq<string>, queries: seq<string>): seq<string>
    decreases |queries|
  {
    if queries == [] then recent else RecordAll(Record(recent, queries[0]), queries[1..])
  }

  /** The list's invariant: bounded and duplicate-free. */
  predicate Valid(recent: seq<string>) {
    |recent| <= Capacity && NoDuplicates(recent)
  }

  /**
    Starting from a valid list, any sequence of searches keeps it valid, and
    every entry afterwards was either listed before or searched for (and
    non-empty).
   */
  lemma {:induction false} RecordAllValid(recent: seq<string>, queries: seq<string>)
    requires Valid(recent)
    ensures Valid(RecordAll(recent, queries))
    ensures forall x :: x in RecordAll(recent, queries) ==> x in recent || (x != "" && x in queries)
    decreases |queries|
  {
    if queries != [] {
      var next := Record(recent, queries[0]);
      RecordAllValid(next, queries[1..]);
      forall x | x in RecordAll(recent, queries)
        ensures x in recent || (x != "" && x in queries)
      {
        assert x in next || (x != "" && x in queries[1..]);
        if x in next && x !in recent {
          if queries[0] != "" && queries[0] !in recent {
            RecordMembers(recent, queries[0], x);
            assert x in recent[..MinInt(|recent|, Capacity - 1)] ==> x in recent;
          }
          assert x == queries[0];
        }
      }
    }
  }
}
