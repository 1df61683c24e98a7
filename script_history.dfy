/** The recent-search history of script.js: the JSON list under
    localStorage 'bloxHistory', newest first, without repeats, at most five
    entries once it has reached five. */
module ScriptHistory {
  const MaxEntries := 5

  /** The list addToHistory writes back: a term already present leaves it as
      it was; a new term goes in front, and when that makes more than five
      entries the last (oldest) one is dropped. */
  function Added(history: seq<string>, term: string): (r: seq<string>)
    ensures term in r
    ensures term in history ==> r == history
    ensures term !in history ==>
      r[0] == term &&
      |r| == (if |history| < MaxEntries then |history| + 1 else |history|) &&
      r[1..] == history[..|r| - 1]
  {
    if term in history then history
    else
      var grown := [term] + history;
      var r := if |grown| > MaxEntries then grown[..|grown| - 1] else grown;
      assert r[0] == term;
      r
  }

  predicate NoDuplicates(s: seq<string>) {
    forall i, j :: 0 <= i < j < |s| ==> s[i] != s[j]
  }

  /** A history of at most five entries stays within five. */
  lemma AddedBounded(history: seq<string>, term: string)
    requires |history| <= MaxEntries
    ensures |Added(history, term)| <= MaxEntries
  {
  }

  /** Every entry after an add was already there, or is the term. */
  lemma AddedFrom(history: seq<string>, term: string)
    ensures forall x :: x in Added(history, term) ==> x == term || x in history
  {
  }

  /** A history without repeats keeps none after an add. */
  lemma AddedNoDuplicates(history: seq<string>, term: string)
    requires NoDuplicates(history)
    ensures NoDuplicates(Added(history, term))
  {
  }

  /** Adding the same term twice is adding it once. */
  lemma AddedIdempotent(history: seq<string>, term: string)
    ensures Added(Added(history, term), term) == Added(history, term)
  {
  }

  /** The entry dropped by an add is the oldest one. */
  lemma AddedDropsOldest(history: seq<string>, term: string)
    requires term !in history && |history| >= MaxEntries
    ensures Added(history, term) == [term] + history[..|history| - 1]
  {
  }
}
