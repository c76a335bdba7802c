/**
 The integer slot geometry of `src/handlers/coverScheduler.ts`: `slotAt`, `nextCycleBoundary` and
 `validateCoverSchedule`, on integer milliseconds.
 */
module CoverSlots {
  import opened Arithmetic

  const MAX_COVER_LANES: nat := 16
  const MIN_COVER_SLOT_MS: nat := 25

  datatype ScheduleData = Schedule(phase: int, cadence: int, lanes: int, frames: int, epochs: int) {
    function SlotsPerEpoch(): int { lanes * frames }
    function SlotsPerLane(): int { frames * epochs }
    function CycleSlots(): int { SlotsPerEpoch() * epochs }
    function CycleMs(): int { cadence * epochs }
  }

  predicate Safe(x: int) { -(MAX_SAFE as int) <= x <= MAX_SAFE }

  /** `validateCoverSchedule`; the spacing test compares cadence / (lanes * frames) with 25 exactly. */
  predicate ValidSchedule(s: ScheduleData) {
    && Safe(s.phase) && Safe(s.cadence) && Safe(s.lanes) && Safe(s.frames) && Safe(s.epochs)
    && s.cadence >= 1 && 1 <= s.lanes <= MAX_COVER_LANES && s.frames >= 1 && s.epochs >= 1
    && Safe(s.SlotsPerEpoch()) && Safe(s.SlotsPerLane()) && Safe(s.CycleMs())
    && s.cadence >= MIN_COVER_SLOT_MS * s.SlotsPerEpoch()
  }

  type Schedule = s: ScheduleData | ValidSchedule(s) witness Schedule(0, 25, 1, 1, 1)

  datatype Slot = Slot(deadline: int, epochInCycle: int, lane: int, frame: int, laneSlot: int)

  function SlotAt(s: Schedule, start: int, ordinal: nat): Slot {
    PositiveProducts(s);
    var epochInCycle := ordinal / s.SlotsPerEpoch();
    var within := ordinal % s.SlotsPerEpoch();
    var frame := within / s.lanes;
    var epochStart := start + epochInCycle * s.cadence;
    Slot(epochStart + ((2 * within + 1) * s.cadence) / (2 * s.SlotsPerEpoch()),
         epochInCycle, within % s.lanes, frame, epochInCycle * s.frames + frame)
  }

  lemma PositiveProducts(s: Schedule)
    ensures s.SlotsPerEpoch() >= 1 && s.CycleMs() >= 1 && s.CycleSlots() >= 1 && s.SlotsPerLane() >= 1
  {
    Positive(s.lanes, s.frames);
    Positive(s.cadence, s.epochs);
    Positive(s.frames, s.epochs);
    Positive(s.SlotsPerEpoch(), s.epochs);
  }

  // ----- deadlines as one formula

  /** Cadence `c` cut into `n` slots: slot `v` is due at floor((2v + 1) * c / 2n). */
  function Due(c: int, n: int, v: int): int
    requires n >= 1
  {
    ((2 * v + 1) * c) / (2 * n)
  }

  lemma DueOfEpochs(c: int, n: int, e: int, w: int)
    requires n >= 1
    ensures Due(c, n, e * n + w) == e * c + Due(c, n, w)
  {
    assert (2 * (e * n + w) + 1) * c == (2 * w + 1) * c + (e * c) * (2 * n);
    DivAddMultiple((2 * w + 1) * c, e * c, 2 * n);
  }

  lemma DueOfOrdinal(c: int, n: int, o: int)
    requires n >= 1
    ensures Due(c, n, o) == (o / n) * c + Due(c, n, o % n)
  {
    assert o == (o / n) * n + o % n;
    DueOfEpochs(c, n, o / n, o % n);
  }

  lemma DueStep(c: int, n: int, v: int)
    requires n >= 1
    ensures Due(c, n, v + 1) >= Due(c, n, v) + c / n
  {
    assert (2 * (v + 1) + 1) * c == (2 * v + 1) * c + 2 * c;
    FloorDifference((2 * v + 1) * c, 2 * c, 2 * n);
    assert 2 * c == (c / n) * (2 * n) + 2 * (c % n);
    DivUnique(2 * c, 2 * n, c / n, 2 * (c % n));
  }

  lemma DueBelow(c: int, n: int, d: int, v: int)
    requires c >= 1 && n >= 1 && d >= 1 && 0 <= v < n * d
    ensures Due(c, n, v) < c * d
  {
    var a := (2 * v + 1) * c;
    Monotone(2 * v + 1, 2 * (n * d) - 1, c);
    assert (2 * (n * d) - 1) * c == (c * d) * (2 * n) - c;
    if a / (2 * n) >= c * d { Monotone(c * d, a / (2 * n), 2 * n); }
  }

  // ----- one formula for all deadlines

  /** The offset of slot `v` from the cycle start, counted over cycle borders. */
  function Offset(s: Schedule, v: int): int {
    PositiveProducts(s);
    Due(s.cadence, s.SlotsPerEpoch(), v)
  }

  lemma DeadlineIsOffset(s: Schedule, start: int, ordinal: nat)
    ensures SlotAt(s, start, ordinal).deadline == start + Offset(s, ordinal)
  {
    PositiveProducts(s);
    DueOfOrdinal(s.cadence, s.SlotsPerEpoch(), ordinal);
  }

  lemma FloorBounds(a: int, b: int)
    requires b >= 1
    ensures a / b * b <= a < (a / b + 1) * b
  {
    Distribute(a / b, 1, b);
  }

  /** Each slot is due in the middle of its share of the cadence, rounded down. */
  lemma DueInTheMiddle(s: Schedule, start: int, ordinal: nat)
    ensures var n, d := s.SlotsPerEpoch(), SlotAt(s, start, ordinal).deadline - start;
            d * (2 * n) <= (2 * ordinal + 1) * s.cadence < (d + 1) * (2 * n)
  {
    PositiveProducts(s);
    DeadlineIsOffset(s, start, ordinal);
    FloorBounds((2 * ordinal + 1) * s.cadence, 2 * s.SlotsPerEpoch());
  }

  /** The guaranteed spacing: floor(cadence / slots) >= 25 ms. */
  function Spacing(s: Schedule): int {
    PositiveProducts(s);
    s.cadence / s.SlotsPerEpoch()
  }

  lemma SpacingAtLeast25(s: Schedule)
    ensures Spacing(s) >= MIN_COVER_SLOT_MS
  {
    PositiveProducts(s);
    QuotientAtLeast(s.cadence, s.SlotsPerEpoch(), MIN_COVER_SLOT_MS);
  }

  /** Slots that lie `n` apart are at least `n` spacings apart, within and across epochs and cycles. */
  lemma {:induction false} OffsetSteps(s: Schedule, v: int, n: nat)
    ensures Offset(s, v + n) >= Offset(s, v) + n * Spacing(s)
    decreases n
  {
    if n > 0 {
      PositiveProducts(s);
      OffsetSteps(s, v, n - 1);
      DueStep(s.cadence, s.SlotsPerEpoch(), v + n - 1);
      assert n * Spacing(s) == (n - 1) * Spacing(s) + Spacing(s);
    }
  }

  lemma OffsetInside(s: Schedule, ordinal: nat)
    requires ordinal < s.CycleSlots()
    ensures 0 < Offset(s, ordinal) < s.CycleMs()
  {
    PositiveProducts(s);
    SpacingAtLeast25(s);
    OffsetSteps(s, 0, ordinal);
    Monotone(0, ordinal, Spacing(s));
    QuotientAtLeast(s.cadence, 2 * s.SlotsPerEpoch(), 1);
    DueBelow(s.cadence, s.SlotsPerEpoch(), s.epochs, ordinal);
  }

  /**
   All deadlines of a cycle lie strictly inside it; a later slot of the same cycle, and the first
   slot of the next one, follow at least one spacing of 25 ms or more later.
   */
  lemma DeadlinesSpaced(s: Schedule, start: int, ordinal: nat)
    requires ordinal < s.CycleSlots()
    ensures var d := SlotAt(s, start, ordinal).deadline;
            && start < d < start + s.CycleMs()
            && Spacing(s) >= MIN_COVER_SLOT_MS
            && SlotAt(s, start, ordinal + 1).deadline >= d + Spacing(s)
            && (ordinal + 1 == s.CycleSlots() ==>
                  SlotAt(s, start + s.CycleMs(), 0).deadline == SlotAt(s, start, ordinal + 1).deadline)
  {
    SpacingAtLeast25(s);
    DeadlineIsOffset(s, start, ordinal);
    DeadlineIsOffset(s, start, ordinal + 1);
    DeadlineIsOffset(s, start + s.CycleMs(), 0);
    OffsetNext(s, ordinal);
    OffsetInside(s, ordinal);
    OffsetAcross(s);
  }

  lemma OffsetNext(s: Schedule, v: int)
    ensures Offset(s, v + 1) >= Offset(s, v) + Spacing(s)
  {
    OffsetSteps(s, v, 1);
  }

  /** The first slot of the next cycle is the one after the last. */
  lemma OffsetAcross(s: Schedule)
    ensures Offset(s, s.CycleSlots()) == s.CycleMs() + Offset(s, 0)
  {
    PositiveProducts(s);
    DueOfEpochs(s.cadence, s.SlotsPerEpoch(), s.epochs, 0);
  }

  // ----- every lane slot is served exactly once

  /** The ordinal that serves slot `laneSlot` of `lane`. */
  function OrdinalOf(s: Schedule, lane: int, laneSlot: int): int {
    (laneSlot / s.frames) * s.SlotsPerEpoch() + (laneSlot % s.frames) * s.lanes + lane
  }

  lemma OrdinalServes(s: Schedule, start: int, lane: int, laneSlot: int)
    requires 0 <= lane < s.lanes && 0 <= laneSlot < s.SlotsPerLane()
    ensures 0 <= OrdinalOf(s, lane, laneSlot) < s.CycleSlots()
    ensures var slot := SlotAt(s, start, OrdinalOf(s, lane, laneSlot)); slot.lane == lane && slot.laneSlot == laneSlot
  {
    PositiveProducts(s);
    DigitsOf(laneSlot, s.frames, s.epochs);
    var e, frame := laneSlot / s.frames, laneSlot % s.frames;
    TwoDigits(s.lanes, s.frames, lane, frame);
    TwoDigits(s.SlotsPerEpoch(), s.epochs, frame * s.lanes + lane, e);
  }

  lemma SlotOfOrdinal(s: Schedule, start: int, ordinal: nat)
    requires ordinal < s.CycleSlots()
    ensures var slot := SlotAt(s, start, ordinal);
            0 <= slot.lane < s.lanes && 0 <= slot.laneSlot < s.SlotsPerLane()
                && OrdinalOf(s, slot.lane, slot.laneSlot) == ordinal
  {
    PositiveProducts(s);
    DigitsOf(ordinal, s.SlotsPerEpoch(), s.epochs);
    var e, within := ordinal / s.SlotsPerEpoch(), ordinal % s.SlotsPerEpoch();
    DigitsOf(within, s.lanes, s.frames);
    TwoDigits(s.frames, s.epochs, within / s.lanes, e);
  }

  /** The slot ordinals of a cycle hit each (lane, lane slot) pair exactly once. */
  lemma EachLaneSlotOnce(s: Schedule, start: int, ordinal: nat, lane: int, laneSlot: int)
    requires 0 <= lane < s.lanes && 0 <= laneSlot < s.SlotsPerLane() && ordinal < s.CycleSlots()
    ensures var slot := SlotAt(s, start, ordinal);
            (slot.lane == lane && slot.laneSlot == laneSlot) <==> ordinal == OrdinalOf(s, lane, laneSlot)
  {
    OrdinalServes(s, start, lane, laneSlot);
    SlotOfOrdinal(s, start, ordinal);
  }

  // ----- the cycle grid

  /** Math.ceil, then one point further if it must be strictly later. */
  function NextPoint(phase: int, ms: int, now: int, inclusive: bool): int
    requires ms >= 1
  {
    var index := -((phase - now) / ms);
    var boundary := phase + index * ms;
    if !inclusive && boundary <= now then phase + (index + 1) * ms else boundary
  }

  lemma GridPoint(phase: int, ms: int, k: int)
    requires ms >= 1
    ensures (phase + k * ms - phase) % ms == 0
  {
    DivUnique(k * ms, ms, k, 0);
  }

  lemma NextPointIsFirst(phase: int, ms: int, now: int, inclusive: bool)
    requires ms >= 1
    ensures var b := NextPoint(phase, ms, now, inclusive);
            (b - phase) % ms == 0 && (if inclusive then now <= b < now + ms else now < b <= now + ms)
  {
    var q := (phase - now) / ms;
    assert phase - now == q * ms + (phase - now) % ms;
    assert (-q) * ms == -(q * ms) && (-q + 1) * ms == -(q * ms) + ms;
    GridPoint(phase, ms, -q);
    GridPoint(phase, ms, -q + 1);
  }

  lemma NextMultiple(a: int, ms: int)
    requires ms >= 1 && a % ms == 0
    ensures (a + ms) % ms == 0
  {
    assert a == (a / ms) * ms;
    DivUnique(a + ms, ms, a / ms + 1, 0);
  }

  predicate OnGrid(s: Schedule, t: int) { PositiveProducts(s); (t - s.phase) % s.CycleMs() == 0 }

  /** `nextCycleBoundary`. */
  function NextBoundary(s: Schedule, now: int, inclusive: bool): int {
    PositiveProducts(s);
    NextPoint(s.phase, s.CycleMs(), now, inclusive)
  }

  /** The boundary is the first grid point at or after `now` (strictly after, unless inclusive). */
  lemma NextBoundaryIsFirst(s: Schedule, now: int, inclusive: bool)
    ensures var b := NextBoundary(s, now, inclusive);
            OnGrid(s, b) && (if inclusive then now <= b < now + s.CycleMs() else now < b <= now + s.CycleMs())
  {
    PositiveProducts(s);
    NextPointIsFirst(s.phase, s.CycleMs(), now, inclusive);
  }

  lemma NextGridPoint(s: Schedule, t: int)
    requires OnGrid(s, t)
    ensures OnGrid(s, t + s.CycleMs())
  {
    PositiveProducts(s);
    NextMultiple(t - s.phase, s.CycleMs());
  }
}
