/** The fetch times of a day, 6:00, 11:30 and 16:30 at the fixed offset +9 h: server/internal/articlefetch/schedule.go.
    Instants are in nanoseconds. */
module Schedule {

  const MINUTE := 60_000_000_000
  const DAY := 1440 * MINUTE
  const OFFSET := 540 * MINUTE
  const SLOT_TIMES := [360 * MINUTE, 690 * MINUTE, 990 * MINUTE]

  /** The local midnight on or before t. */
  function Midnight(t: int): int {
    (t + OFFSET) / DAY * DAY - OFFSET
  }

  function SlotOn(t: int, i: nat): int
    requires i < |SLOT_TIMES|
  {
    Midnight(t) + SLOT_TIMES[i]
  }

  function LatestFrom(now: int, i: nat): int
    requires i <= |SLOT_TIMES|
  {
    if i == 0 then SlotOn(now - DAY, |SLOT_TIMES| - 1)
    else if SlotOn(now, i - 1) <= now then SlotOn(now, i - 1)
    else LatestFrom(now, i - 1)
  }

  function LatestSlot(now: int): int { LatestFrom(now, |SLOT_TIMES|) }

  function NextFrom(now: int, i: nat): int
    requires i <= |SLOT_TIMES|
    decreases |SLOT_TIMES| - i
  {
    if i == |SLOT_TIMES| then SlotOn(now + DAY, 0)
    else if SlotOn(now, i) > now then SlotOn(now, i)
    else NextFrom(now, i + 1)
  }

  function NextSlot(now: int): int { NextFrom(now, 0) }

  /** Being a slot, independently of any search. */
  predicate IsSlot(t: int) {
    (t + OFFSET) % DAY in SLOT_TIMES
  }

  lemma MidnightsShift(now: int)
    ensures Midnight(now - DAY) == Midnight(now) - DAY && Midnight(now + DAY) == Midnight(now) + DAY
  {
  }

  lemma LatestUnfolded(now: int)
    ensures LatestSlot(now) == var m := Midnight(now);
              if m + 990 * MINUTE <= now then m + 990 * MINUTE
              else if m + 690 * MINUTE <= now then m + 690 * MINUTE
              else if m + 360 * MINUTE <= now then m + 360 * MINUTE
              else m - DAY + 990 * MINUTE
  {
    MidnightsShift(now);
    assert LatestFrom(now, 1) == if SlotOn(now, 0) <= now then SlotOn(now, 0) else SlotOn(now - DAY, 2);
    assert LatestFrom(now, 2) == if SlotOn(now, 1) <= now then SlotOn(now, 1) else LatestFrom(now, 1);
  }

  lemma NextUnfolded(now: int)
    ensures NextSlot(now) == var m := Midnight(now);
              if m + 360 * MINUTE > now then m + 360 * MINUTE
              else if m + 690 * MINUTE > now then m + 690 * MINUTE
              else if m + 990 * MINUTE > now then m + 990 * MINUTE
              else m + DAY + 360 * MINUTE
  {
    MidnightsShift(now);
    assert NextFrom(now, 2) == if SlotOn(now, 2) > now then SlotOn(now, 2) else SlotOn(now + DAY, 0);
    assert NextFrom(now, 1) == if SlotOn(now, 1) > now then SlotOn(now, 1) else NextFrom(now, 2);
  }

  lemma SlotShape(t: int)
    ensures IsSlot(t) <==>
      t == Midnight(t) + 360 * MINUTE || t == Midnight(t) + 690 * MINUTE || t == Midnight(t) + 990 * MINUTE
    ensures Midnight(t) <= t < Midnight(t) + DAY
  {
    var r := (t + OFFSET) % DAY;
    assert t + OFFSET == (t + OFFSET) / DAY * DAY + r;
    assert r in SLOT_TIMES <==> r == SLOT_TIMES[0] || r == SLOT_TIMES[1] || r == SLOT_TIMES[2];
  }

  lemma DayOf(t: int, m: int)
    requires (m + OFFSET) % DAY == 0 && m <= t < m + DAY
    ensures Midnight(t) == m
  {
  }

  lemma MidnightAligned(t: int)
    ensures (Midnight(t) + OFFSET) % DAY == 0
    ensures (Midnight(t) - DAY + OFFSET) % DAY == 0 && (Midnight(t) + DAY + OFFSET) % DAY == 0
  {
    assert Midnight(t) + OFFSET == (t + OFFSET) / DAY * DAY;
  }

  lemma SlotFromMidnight(m: int, s: int)
    requires (m + OFFSET) % DAY == 0 && (s == 360 * MINUTE || s == 690 * MINUTE || s == 990 * MINUTE)
    ensures IsSlot(m + s)
  {
    DayOf(m + s, m);
    SlotShape(m + s);
  }

  lemma SlotsOfDay(m: int)
    requires (m + OFFSET) % DAY == 0
    ensures IsSlot(m + 360 * MINUTE) && IsSlot(m + 690 * MINUTE) && IsSlot(m + 990 * MINUTE)
  {
    SlotFromMidnight(m, 360 * MINUTE);
    SlotFromMidnight(m, 690 * MINUTE);
    SlotFromMidnight(m, 990 * MINUTE);
  }

  lemma FoundAreSlots(now: int)
    ensures IsSlot(LatestSlot(now)) && LatestSlot(now) <= now
    ensures IsSlot(NextSlot(now)) && now < NextSlot(now)
  {
    var m := Midnight(now);
    LatestUnfolded(now);
    NextUnfolded(now);
    MidnightAligned(now);
    SlotShape(now);
    SlotsOfDay(m);
    SlotsOfDay(m - DAY);
    SlotsOfDay(m + DAY);
  }

  lemma NoSlotBetween(now: int, s: int)
    requires IsSlot(s)
    ensures s <= LatestSlot(now) || NextSlot(now) <= s
  {
    LatestUnfolded(now);
    NextUnfolded(now);
    MidnightAligned(now);
    SlotShape(now);
    SlotShape(s);
    MidnightAligned(s);
    MidnightsApart(Midnight(s), Midnight(now));
  }

  /** LatestSlot is the greatest slot not after now, and NextSlot the least slot after now. */
  lemma SlotsAround(now: int)
    ensures IsSlot(LatestSlot(now)) && LatestSlot(now) <= now
    ensures IsSlot(NextSlot(now)) && now < NextSlot(now)
    ensures forall s :: IsSlot(s) ==> s <= LatestSlot(now) || NextSlot(now) <= s
  {
    FoundAreSlots(now);
    forall s | IsSlot(s) ensures s <= LatestSlot(now) || NextSlot(now) <= s {
      NoSlotBetween(now, s);
    }
  }

  lemma MidnightsApart(a: int, b: int)
    requires (a + OFFSET) % DAY == 0 && (b + OFFSET) % DAY == 0
    ensures a == b || a <= b - DAY || a >= b + DAY
  {
    var x, y := (a + OFFSET) / DAY, (b + OFFSET) / DAY;
    assert a + OFFSET == x * DAY && b + OFFSET == y * DAY;
  }

  /** The two searches agree with each other. */
  lemma SlotIdentities(now: int)
    ensures NextSlot(LatestSlot(now)) == NextSlot(now)
    ensures LatestSlot(NextSlot(now)) == NextSlot(now)
    ensures LatestSlot(LatestSlot(now)) == LatestSlot(now)
  {
    SlotsAround(now);
    SlotsAround(LatestSlot(now));
    SlotsAround(NextSlot(now));
  }

  lemma LatestMonotone(a: int, b: int)
    requires a <= b
    ensures LatestSlot(a) <= LatestSlot(b)
  {
    SlotsAround(a);
    SlotsAround(b);
  }
}
