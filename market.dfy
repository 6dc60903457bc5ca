/** The market page's search (pages/MarketPage.tsx): a listing is kept when
    the lower-cased search term occurs in its lower-cased name or farm.
    `toLowerCase` is modelled on ASCII letters only. */
module MarketSearch {
  import opened Types
  import opened Sequences

  /** `toLowerCase` on one character, restricted to A-Z. */
  function LowerChar(c: char): char {
    if 'A' <= c <= 'Z' then (c as int + 32) as char else c
  }

  /** `s.toLowerCase()`: each letter A-Z becomes its lower-case form, no
      upper-case letter is left, and every other character is kept in
      place. */
  function ToLower(s: string): (r: string)
    ensures |r| == |s|
    ensures forall k :: 0 <= k < |r| ==> !('A' <= r[k] <= 'Z')
    ensures forall k :: 0 <= k < |s| && !('A' <= s[k] <= 'Z') ==> r[k] == s[k]
    ensures forall k :: 0 <= k < |s| && 'A' <= s[k] <= 'Z' ==> r[k] == (s[k] as int + 32) as char
  {
    seq(|s|, k requires 0 <= k < |s| => LowerChar(s[k]))
  }

  /** Lower-casing twice is lower-casing once. */
  lemma ToLowerIdempotent(s: string)
    ensures ToLower(ToLower(s)) == ToLower(s)
  {
    assert forall k :: 0 <= k < |s| ==> LowerChar(LowerChar(s[k])) == LowerChar(s[k]);
  }

  /** `sub` occurs in `s` starting at position `i`. */
  predicate OccursAt(s: string, sub: string, i: int) {
    0 <= i <= |s| - |sub| && s[i..i + |sub|] == sub
  }

  /** `s.includes(sub)`, computed by trying every start position; it holds
      exactly when `sub` occurs at some position of `s`. */
  function Includes(s: string, sub: string): (r: bool)
    ensures r <==> exists i :: OccursAt(s, sub, i)
  {
    if sub <= s then
      assert OccursAt(s, sub, 0);
      true
    else if |s| == 0 then
      assert forall i :: !OccursAt(s, sub, i);
      false
    else
      var r := Includes(s[1..], sub);
      assert (exists i :: OccursAt(s, sub, i)) ==> r by {
        if exists i :: OccursAt(s, sub, i) {
          var i :| OccursAt(s, sub, i);
          assert i != 0;
          assert OccursAt(s[1..], sub, i - 1);
        }
      }
      assert r ==> exists i :: OccursAt(s, sub, i) by {
        if r {
          var i :| OccursAt(s[1..], sub, i);
          assert OccursAt(s, sub, i + 1);
        }
      }
      r
  }

  /** The filter's predicate. */
  predicate Matches(listing: CropListing, searchTerm: string) {
    var term := ToLower(searchTerm);
    Includes(ToLower(listing.name), term) || Includes(ToLower(listing.farm), term)
  }

  /** `filteredListings`: the listings that match, in their original order,
      each as many times as it occurs in `listings`. */
  function FilterListings(listings: seq<CropListing>, searchTerm: string): (r: seq<CropListing>)
    ensures IsSubsequence(r, listings)
    ensures forall x :: x in r ==> Matches(x, searchTerm)
    ensures forall x :: x in listings && Matches(x, searchTerm) ==> x in r
    ensures forall x :: multiset(r)[x] == if Matches(x, searchTerm) then multiset(listings)[x] else 0
  {
    if listings == [] then []
    else
      assert listings == [listings[0]] + listings[1..];
      if Matches(listings[0], searchTerm) then
        [listings[0]] + FilterListings(listings[1..], searchTerm)
      else
        FilterListings(listings[1..], searchTerm)
  }

  /** The empty search term occurs in every string, so nothing is dropped. */
  lemma {:induction false} EmptyTermKeepsAll(listings: seq<CropListing>)
    ensures FilterListings(listings, "") == listings
  {
    if listings != [] {
      assert ToLower("") == "";
      assert Matches(listings[0], "");
      EmptyTermKeepsAll(listings[1..]);
    }
  }

  /** Search terms that differ only in letter case give the same result. */
  lemma {:induction false} CaseInsensitive(listings: seq<CropListing>, t1: string, t2: string)
    requires ToLower(t1) == ToLower(t2)
    ensures FilterListings(listings, t1) == FilterListings(listings, t2)
  {
    if listings != [] {
      CaseInsensitive(listings[1..], t1, t2);
    }
  }

  /** Filtering the result again with the same term changes nothing. */
  lemma {:induction false} FilterIdempotent(listings: seq<CropListing>, searchTerm: string)
    ensures FilterListings(FilterListings(listings, searchTerm), searchTerm)
         == FilterListings(listings, searchTerm)
  {
    if listings != [] {
      FilterIdempotent(listings[1..], searchTerm);
      var rest := FilterListings(listings[1..], searchTerm);
      if Matches(listings[0], searchTerm) {
        assert ([listings[0]] + rest)[1..] == rest;
      }
    }
  }
}
