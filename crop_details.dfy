/** The crop details page (pages/CropDetailsPage.tsx): the seller's
    five-star rating row, and the lookup that fills the page's `details` and
    `loading` state. The fetched application data is a parameter: `None` for
    a `null` result, otherwise its `cropDetails` map. */
module CropDetailsView {
  import opened Wrappers
  import opened Types

  const TotalStars: nat := 5

  /** `n` flags, the first `k` of them set (`i < k` for each index `i`). */
  function PrefixFlags(n: nat, k: int): seq<bool> {
    seq(n, i => i < k)
  }

  /** `RatingStars`: star `i` is filled when `i < Math.floor(rating)`. */
  function Stars(rating: real): (stars: seq<bool>)
    ensures |stars| == TotalStars
  {
    PrefixFlags(TotalStars, rating.Floor)
  }

  function CountFilled(flags: seq<bool>): nat {
    if flags == [] then 0
    else CountFilled(flags[..|flags| - 1]) + (if flags[|flags| - 1] then 1 else 0)
  }

  /** The filled stars form a prefix of the row. */
  lemma FilledStarsFormPrefix(rating: real)
    ensures forall i, j :: 0 <= i < j < TotalStars && Stars(rating)[j] ==> Stars(rating)[i]
  {
  }

  /** `k` set flags out of `n`, clamped to the range `[0, n]`. */
  lemma {:induction false} CountPrefixFlags(n: nat, k: int)
    ensures CountFilled(PrefixFlags(n, k)) == if k < 0 then 0 else if k > n then n else k
  {
    if n > 0 {
      assert PrefixFlags(n, k)[..n - 1] == PrefixFlags(n - 1, k);
      CountPrefixFlags(n - 1, k);
    }
  }

  /** The number of filled stars is `min(5, max(0, floor(rating)))`. */
  lemma FilledCount(rating: real)
    ensures CountFilled(Stars(rating)) == if rating.Floor < 0 then 0 else if rating.Floor > 5 then 5 else rating.Floor
  {
    CountPrefixFlags(TotalStars, rating.Floor);
  }

  /** Ratings 4.5 and 4.9 both show four filled stars. */
  lemma FractionalRatingsRoundDown()
    ensures CountFilled(Stars(4.5)) == 4 && CountFilled(Stars(4.9)) == 4
  {
    FilledCount(4.5);
    FilledCount(4.9);
  }

  /** `data?.cropDetails[id]`. */
  function LookupDetail(data: Option<map<string, CropDetails>>, id: string): (r: Option<CropDetails>)
    ensures r.Some? <==> data.Some? && id in data.value
    ensures r.Some? ==> r.value == data.value[id]
  {
    if data.Some? && id in data.value then Some(data.value[id]) else None
  }

  /** `!id`: the route parameter is absent or empty. */
  predicate IdMissing(id: Option<string>) {
    id.None? || id.value == ""
  }

  /** The page's `details` and `loading` state. */
  class DetailsView {
    var details: Option<CropDetails>
    var loading: bool

    constructor ()
      ensures details == None && loading
    {
      details := None;
      loading := true;
    }

    /** `loadDetails`: without an id it returns early and `loading` stays as
        it was; otherwise `details` is set when the id is found (and left
        as it was when not), and `loading` ends false. */
    method LoadDetails(id: Option<string>, data: Option<map<string, CropDetails>>)
      modifies this
      ensures IdMissing(id) ==> details == old(details) && loading == old(loading)
      ensures !IdMissing(id) ==> !loading
      ensures !IdMissing(id) && LookupDetail(data, id.value).Some? ==> details == LookupDetail(data, id.value)
      ensures !IdMissing(id) && LookupDetail(data, id.value).None? ==> details == old(details)
    {
      if IdMissing(id) {
        return;
      }
      loading := true;
      var cropDetail := LookupDetail(data, id.value);
      if cropDetail.Some? {
        details := cropDetail;
      }
      loading := false;
    }
  }
}
