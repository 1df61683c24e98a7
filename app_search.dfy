/** handleSearch of app.js: every game card is shown when its lower-cased
    title contains the lower-cased search term and hidden otherwise. */
module AppSearch {
  import opened JsRuntime

  /** A card's inline `style.display`: never set, 'block' or 'none'. */
  datatype Display = Unset | Block | NoDisplay

  /** The visibility rule for one card. */
  predicate Matches(title: string, term: string) {
    Includes(ToLower(title), ToLower(term))
  }

  function DisplayFor(title: string, term: string): (d: Display)
    ensures d == Block <==> exists i :: OccursAt(ToLower(title), ToLower(term), i)
    ensures d != Unset
  {
    if Matches(title, term) then Block else NoDisplay
  }

  /** The rendered game cards: the titles are fixed once loadGames has run;
      only their display style changes. */
  class CardGrid {
    const titles: seq<string>
    var display: array<Display>

    ghost predicate Valid()
      reads this
    {
      display.Length == |titles|
    }

    constructor (titles: seq<string>)
      ensures Valid() && this.titles == titles && fresh(display)
      ensures forall i :: 0 <= i < display.Length ==> display[i] == Unset
    {
      this.titles := titles;
      display := new Display[|titles|](_ => Unset);
    }

    /** handleSearch: walk every card and set its display. */
    method HandleSearch(term: string)
      requires Valid()
      modifies display
      ensures Valid()
      ensures forall i :: 0 <= i < display.Length ==> display[i] == DisplayFor(titles[i], term)
    {
      var searchTerm := ToLower(term);
      var i := 0;
      while i < display.Length
        invariant 0 <= i <= display.Length
        invariant forall k :: 0 <= k < i ==> display[k] == DisplayFor(titles[k], term)
      {
        var gameName := ToLower(titles[i]);
        if Includes(gameName, searchTerm) {
          display[i] := Block;
        } else {
          display[i] := NoDisplay;
        }
        i := i + 1;
      }
    }
  }

  /** An empty search term shows every card. */
  lemma EmptyTermShowsAll(title: string)
    ensures DisplayFor(title, "") == Block
  {
  }

  lemma LowerOfSlice(s: string, i: nat, j: nat)
    requires i <= j <= |s|
    ensures ToLower(s[i..j]) == ToLower(s)[i..j]
  {
  }

  /** Occurrence is transitive: a substring of a substring is a substring. */
  lemma OccursTransitive(h: string, m: string, n: string)
    requires exists i :: OccursAt(h, m, i)
    requires exists j :: OccursAt(m, n, j)
    ensures exists k :: OccursAt(h, n, k)
  {
    var i :| OccursAt(h, m, i);
    var j :| OccursAt(m, n, j);
    assert forall k :: 0 <= k < |n| ==> n[k] == m[j + k] == h[i + j + k];
    assert h[i + j..i + j + |n|] == n;
    assert OccursAt(h, n, i + j);
  }

  /** Typing more narrows the result: when the old term occurs in the new
      one, every card the new term shows, the old term showed too. */
  lemma NarrowingTerm(title: string, term: string, longer: string)
    requires Includes(longer, term)
    ensures DisplayFor(title, longer) == Block ==> DisplayFor(title, term) == Block
  {
    if DisplayFor(title, longer) == Block {
      var j :| OccursAt(longer, term, j);
      LowerOfSlice(longer, j, j + |term|);
      assert OccursAt(ToLower(longer), ToLower(term), j);
      OccursTransitive(ToLower(title), ToLower(longer), ToLower(term));
    }
  }

  lemma {:induction false} LowerCharIdempotent(c: char)
    ensures LowerChar(LowerChar(c)) == LowerChar(c)
  {
  }

  /** The rule ignores case: a title and its lower-cased form, and a term and
      its lower-cased form, give the same display. */
  lemma CaseInsensitive(title: string, term: string)
    ensures DisplayFor(ToLower(title), term) == DisplayFor(title, term)
    ensures DisplayFor(title, ToLower(term)) == DisplayFor(title, term)
  {
    forall c ensures LowerChar(LowerChar(c)) == LowerChar(c) { LowerCharIdempotent(c); }
    assert ToLower(ToLower(title)) == ToLower(title);
    assert ToLower(ToLower(term)) == ToLower(term);
  }
}
