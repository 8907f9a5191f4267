/** The trader profile's rules: how a rating splits into full, half and
    empty stars, and which trust badges a trader earns. */
module UserProfile {
  import opened Wrappers
  import opened MockData

  // ---------------------------------------------------------------- stars

  /** `Math.trunc`: rounds toward zero, so the result never has the
      opposite sign of `x` and lies less than 1 closer to zero than `x`. */
  function Trunc(x: real): (r: int)
    ensures r > 0 ==> x > 0.0
    ensures r < 0 ==> x < 0.0
    ensures (if r < 0 then -r else r) as real <= (if x < 0.0 then -x else x) < (if r < 0 then -r else r) as real + 1.0
  {
    if x >= 0.0 then x.Floor else -((-x).Floor)
  }

  /** `x % 1` on numbers: the remainder keeps the sign of `x`. */
  function FracPart(x: real): (r: real)
    ensures x >= 0.0 ==> 0.0 <= r < 1.0 && r == x - x.Floor as real
    ensures x < 0.0 ==> -1.0 < r <= 0.0
  {
    x - Trunc(x) as real
  }

  /** The longest array `Array(n)` accepts. */
  const MaxArrayLength: int := 0xFFFF_FFFF

  /** The three runs of stars. */
  datatype StarRow = StarRow(full: nat, half: bool, empty: nat)

  /** `getRatingStars`. Building `Array(n)` with a negative `n` (or one
      beyond the largest array length) throws a `RangeError`, which the
      model returns as a failure. */
  function RatingStars(rating: real): (r: Result<StarRow, string>)
    ensures r.Success? ==> r.value.full == rating.Floor
    ensures r.Success? ==> (r.value.half <==> FracPart(rating) >= 0.5)
    ensures r.Success? ==> r.value.full + (if r.value.half then 1 else 0) + r.value.empty == 5
  {
    var fullStars := rating.Floor;
    var hasHalfStar := FracPart(rating) >= 0.5;
    var emptyStars := 5 - fullStars - (if hasHalfStar then 1 else 0);
    if !(0 <= fullStars <= MaxArrayLength) || !(0 <= emptyStars <= MaxArrayLength) then
      Failure("RangeError: Invalid array length")
    else
      Success(StarRow(fullStars, hasHalfStar, emptyStars))
  }

  /** The row is drawn exactly for ratings from 0 up to (not including) 5.5;
      a rating of 5.5 or more asks for a negative number of empty stars and
      a negative rating for a negative number of full stars. */
  lemma {:induction false} RatingStarsDefinedIff(rating: real)
    ensures RatingStars(rating).Success? <==> 0.0 <= rating < 5.5
  {
    var f := rating.Floor;
    if 0.0 <= rating < 5.5 {
      assert 0 <= f <= 5;
      if f == 5 {
        assert FracPart(rating) < 0.5;
      }
    } else if rating >= 5.5 && f == 5 {
      assert FracPart(rating) >= 0.5;
    }
  }

  /** On the scale 0 to 5 every star is accounted for once. */
  lemma RatingStarsOnScale(rating: real)
    requires 0.0 <= rating <= 5.0
    ensures RatingStars(rating).Success?
    ensures var row := RatingStars(rating).value;
      row.full + (if row.half then 1 else 0) + row.empty == 5 && row.full == rating.Floor
    ensures RatingStars(rating).value.half <==> rating - rating.Floor as real >= 0.5
  {
    RatingStarsDefinedIff(rating);
  }

  /** 4.8 shows four full stars and a half, 4.2 four full and one empty,
      and 5.5 cannot be drawn. */
  lemma SeedRatingStars()
    ensures RatingStars(4.8) == Success(StarRow(4, true, 0))
    ensures RatingStars(4.2) == Success(StarRow(4, false, 1))
    ensures RatingStars(5.5).Failure?
  {
    assert (4.8).Floor == 4;
    assert (4.2).Floor == 4;
    assert (5.5).Floor == 5;
  }

  // ---------------------------------------------------------------- badges

  datatype Badge = IdVerified | TopRated | Experienced | Reliable

  /** The trust indicators a trader earns. */
  function Badges(u: User): (r: set<Badge>)
    ensures IdVerified in r <==> u.verified
    ensures TopRated in r <==> u.rating >= 4.5
    ensures Experienced in r <==> u.totalTrades >= 100
    ensures Reliable in r <==> u.totalTrades >= 50 && u.rating >= 4.0
  {
    (if u.verified then {IdVerified} else {})
    + (if u.rating >= 4.5 then {TopRated} else {})
    + (if u.totalTrades >= 100 then {Experienced} else {})
    + (if u.totalTrades >= 50 && u.rating >= 4.0 then {Reliable} else {})
  }

  /** A top-rated, experienced trader is always a reliable partner. */
  lemma TopRatedExperiencedIsReliable(u: User)
    ensures TopRated in Badges(u) && Experienced in Badges(u) ==> Reliable in Badges(u)
  {
  }

  /** The seed traders: all are verified, top rated and reliable; only the
      one with 89 trades is not yet experienced. */
  lemma SeedBadges()
    ensures Badges(MockUsers[0]) == {IdVerified, TopRated, Experienced, Reliable}
    ensures Badges(MockUsers[1]) == {IdVerified, TopRated, Reliable}
    ensures Badges(MockUsers[2]) == {IdVerified, TopRated, Experienced, Reliable}
  {
  }
}
