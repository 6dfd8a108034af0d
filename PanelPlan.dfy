/** How many panels an outline asks for (`calculatePanelCount` in
    repository/ComicRepository.kt): a base count per age bracket, times a
    reading-time factor of about one panel per two minutes, clamped to
    [4, 16]. */
module PanelPlan {
  import opened JavaNumbers

  const MinPanels: int := 4
  const MaxPanels: int := 16

  /** Younger children get fewer panels: 4 up to age 5, 6 up to 8, 8 up to
      12, 10 beyond. */
  function BasePanels(childAge: int): (b: int)
    ensures MinPanels <= b <= 10 && b % 2 == 0
  {
    if childAge <= 5 then 4
    else if childAge <= 8 then 6
    else if childAge <= 12 then 8
    else 10
  }

  /** `(readingTimeMinutes / 2.0).toInt().coerceAtLeast(1)`: half the reading
      time, rounded toward zero, but never below one. */
  function TimeFactor(readingTimeMinutes: int): (f: int)
    ensures f >= 1
    ensures readingTimeMinutes >= 2 ==> 2 * f <= readingTimeMinutes < 2 * f + 2
    ensures readingTimeMinutes < 4 ==> f == 1
  {
    var half := HalfTowardZero(readingTimeMinutes);
    if half < 1 then 1 else half
  }

  /** `coerceIn(lo, hi)`. */
  function CoerceIn(x: int, lo: int, hi: int): (r: int)
    requires lo <= hi
    ensures lo <= r <= hi
    ensures lo <= x <= hi ==> r == x
    ensures x < lo ==> r == lo
    ensures hi < x ==> r == hi
  {
    if x < lo then lo else if hi < x then hi else x
  }

  /** The panel count as the source computes it: the product is an `Int`
      and wraps around at 32 bits before it is clamped. */
  function PanelCountAsWritten(readingTimeMinutes: int, childAge: int): (r: int)
    requires IsInt32(readingTimeMinutes) && IsInt32(childAge)
    ensures MinPanels <= r <= MaxPanels
  {
    CoerceIn(Wrap32(BasePanels(childAge) * TimeFactor(readingTimeMinutes)), MinPanels, MaxPanels)
  }

  /** The panel count with the product taken without overflow; this is the
      count the rest of the model uses. */
  function PanelCount(readingTimeMinutes: int, childAge: int): (r: int)
    ensures MinPanels <= r <= MaxPanels
  {
    CoerceIn(BasePanels(childAge) * TimeFactor(readingTimeMinutes), MinPanels, MaxPanels)
  }

  /** Up to three minutes of reading the factor is one, so the count is the
      age bracket's base count: 4 up to age 5, 6 up to 8, 8 up to 12, 10
      beyond. */
  lemma ShortReadingUsesBase(readingTimeMinutes: int, childAge: int)
    requires readingTimeMinutes <= 3
    ensures childAge <= 5 ==> PanelCount(readingTimeMinutes, childAge) == 4
    ensures 5 < childAge <= 8 ==> PanelCount(readingTimeMinutes, childAge) == 6
    ensures 8 < childAge <= 12 ==> PanelCount(readingTimeMinutes, childAge) == 8
    ensures 12 < childAge ==> PanelCount(readingTimeMinutes, childAge) == 10
  {
  }

  /** From eight minutes on every age reaches the cap. */
  lemma LongReadingHitsCap(readingTimeMinutes: int, childAge: int)
    requires readingTimeMinutes >= 8
    ensures PanelCount(readingTimeMinutes, childAge) == MaxPanels
  {
    var b := BasePanels(childAge);
    var f := TimeFactor(readingTimeMinutes);
    assert f >= 4;
    assert b * f >= 4 * f by { ProductMonotone(4, b, f, f); }
  }

  lemma ProductMonotone(b1: int, b2: int, f1: int, f2: int)
    requires 0 <= b1 <= b2 && 0 <= f1 <= f2
    ensures b1 * f1 <= b2 * f2
  {
    assert b1 * f1 <= b2 * f1;
    assert b2 * f1 <= b2 * f2;
  }

  lemma TimeFactorMonotone(t1: int, t2: int)
    requires t1 <= t2
    ensures TimeFactor(t1) <= TimeFactor(t2)
  {
    if t1 >= 2 {
      assert 2 * TimeFactor(t1) <= t1 <= t2 < 2 * TimeFactor(t2) + 2;
    }
  }

  /** Older children and longer reading never get fewer panels. */
  lemma PanelCountMonotone(t1: int, t2: int, age1: int, age2: int)
    requires t1 <= t2 && age1 <= age2
    ensures PanelCount(t1, age1) <= PanelCount(t2, age2)
  {
    TimeFactorMonotone(t1, t2);
    ProductMonotone(BasePanels(age1), BasePanels(age2), TimeFactor(t1), TimeFactor(t2));
  }

  /** Examples: five minutes at age eight, one minute at age three, fifteen
      minutes at age sixteen. */
  lemma PanelCountExamples()
    ensures PanelCount(5, 8) == 12
    ensures PanelCount(1, 3) == 4
    ensures PanelCount(15, 16) == 16
  {
  }

  /** Whenever the product fits in an `Int` (every reading time up to
      429496729 minutes, every age) the source's count is the model's. */
  lemma AsWrittenAgreesBelowOverflow(readingTimeMinutes: int, childAge: int)
    requires IsInt32(readingTimeMinutes) && IsInt32(childAge)
    requires readingTimeMinutes <= 429496729
    ensures PanelCountAsWritten(readingTimeMinutes, childAge) == PanelCount(readingTimeMinutes, childAge)
  {
    var f := TimeFactor(readingTimeMinutes);
    assert f <= 214748364;
    ProductMonotone(BasePanels(childAge), 10, f, 214748364);
  }

  /** The source's count is not monotone in the reading time: at age 13 one
      more minute past 429496729 wraps the product negative and the clamp
      turns 16 panels into 4. */
  lemma AsWrittenOverflows()
    ensures PanelCountAsWritten(429496729, 13) == 16
    ensures PanelCountAsWritten(429496730, 13) == 4
    ensures PanelCount(429496730, 13) == 16
  {
    assert TimeFactor(429496730) == 214748365;
    assert Wrap32(10 * 214748365) == -2147483646;
  }
}
