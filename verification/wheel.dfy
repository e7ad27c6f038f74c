/** The three picker wheels of the add-alarm form (hour, minute, AM/PM).
    A wheel is a vertical list of rows `ItemHeight` pixels tall; a scroll
    event reports the content offset, which is turned into a row index by
    rounding, and a tap on a row commits that row's value directly. Offsets
    are whole pixels. */
module Wheel {
  import opened Seqs

  /** `ITEM_HEIGHT`: the height of one wheel row, in pixels. */
  const ItemHeight: int := 50

  /** `Array.from({ length: n }, (_, i) => i + 1)`: the numbers 1 to n. */
  function OneTo(n: nat): seq<int> {
    seq(n, k => k + 1)
  }

  /** `hours`: the hour wheel's rows, 1 to 12. */
  const Hours: seq<int> := OneTo(12)

  /** `minutes`: the minute wheel's rows, 1 to 59 (there is no row 0). */
  const Minutes: seq<int> := OneTo(59)

  /** `periods`: the AM/PM wheel's rows. */
  const Periods: seq<string> := ["AM", "PM"]

  /** What the wheels show: the hour rows rise strictly through exactly
      1..12, the minute rows are exactly 1..59 (there is no row for 0), and
      the period wheel reads "AM" then "PM". */
  lemma WheelRows()
    ensures forall i, j :: 0 <= i < j < |Hours| ==> Hours[i] < Hours[j]
    ensures forall x :: x in Hours <==> 1 <= x <= 12
    ensures forall x :: x in Minutes <==> 1 <= x <= 59
    ensures |Periods| == 2 && Periods[0] == "AM" && Periods[1] == "PM"
  {
    forall x | 1 <= x <= 12
      ensures x in Hours
    {
      assert Hours[x - 1] == x;
    }
    forall x | 1 <= x <= 59
      ensures x in Minutes
    {
      assert Minutes[x - 1] == x;
    }
  }

  /** `Math.round(offsetY / ITEM_HEIGHT)` for a whole-pixel offset: the
      row whose centre band holds the offset, halves rounding up. */
  function RoundIndex(offset: int): (i: int)
    ensures ItemHeight * i - ItemHeight / 2 <= offset < ItemHeight * i + ItemHeight / 2
  {
    (offset + ItemHeight / 2) / ItemHeight
  }

  /** The offset the `scrollTo` after a tap aims at: the top of row
      `index`. */
  function SnapOffset(index: int): int {
    index * ItemHeight
  }

  /** `values[index]`, which is `undefined` outside the list. */
  function At<T>(values: seq<T>, index: int): Option<T> {
    if 0 <= index < |values| then Some(values[index]) else None
  }

  /** `handleHourScroll`: commits the row under the offset when it exists
      and differs from the selection (`hour && hour !== selectedHour`, where
      a 0 would count as missing). */
  function HourScroll(selected: int, offset: int): (r: int)
    ensures 0 <= RoundIndex(offset) < |Hours| ==> r == Hours[RoundIndex(offset)]
    ensures RoundIndex(offset) < 0 || |Hours| <= RoundIndex(offset) ==> r == selected
    ensures selected in Hours ==> r in Hours
  {
    match At(Hours, RoundIndex(offset))
    case Some(hour) => if hour != 0 && hour != selected then hour else selected
    case None => selected
  }

  /** `handleMinuteScroll`: commits the row under the offset when it
      exists (`minute !== undefined`) and differs from the selection. */
  function MinuteScroll(selected: int, offset: int): (r: int)
    ensures 0 <= RoundIndex(offset) < |Minutes| ==> r == Minutes[RoundIndex(offset)]
    ensures RoundIndex(offset) < 0 || |Minutes| <= RoundIndex(offset) ==> r == selected
    ensures selected in Minutes ==> r in Minutes
  {
    match At(Minutes, RoundIndex(offset))
    case Some(minute) => if minute != selected then minute else selected
    case None => selected
  }

  /** `handlePeriodScroll`: commits the row under the offset when it
      exists and differs from the selection (`period && ...`, where an
      empty string would count as missing). */
  function PeriodScroll(selected: string, offset: int): (r: string)
    ensures 0 <= RoundIndex(offset) < |Periods| ==> r == Periods[RoundIndex(offset)]
    ensures RoundIndex(offset) < 0 || |Periods| <= RoundIndex(offset) ==> r == selected
    ensures selected in Periods ==> r in Periods
  {
    match At(Periods, RoundIndex(offset))
    case Some(period) => if period != "" && period != selected then period else selected
    case None => selected
  }

  /** The `onPress` of row `index` on any wheel: the row's value becomes
      the selection, whatever it was. */
  function Tap<T>(values: seq<T>, index: int): (r: T)
    requires 0 <= index < |values|
    ensures r in values
  {
    values[index]
  }

  /** Rounding undoes the snap: a tap's `scrollTo` target reads back as
      the tapped row, and every offset within half a row of it does too. */
  lemma RoundSnap(index: int, drift: int)
    requires -ItemHeight / 2 <= drift < ItemHeight / 2
    ensures RoundIndex(SnapOffset(index) + drift) == index
  {
    var i := RoundIndex(SnapOffset(index) + drift);
    assert ItemHeight * i - 25 <= ItemHeight * index + drift < ItemHeight * i + 25;
  }

  /** A tap and a scroll that comes to rest on the same row commit the same
      value, whatever was selected before: once the tap's snap animation
      arrives, the scroll handler confirms the tapped row. */
  lemma TapAgreesWithScroll(index: int, drift: int, hour: int, minute: int, period: string)
    requires -ItemHeight / 2 <= drift < ItemHeight / 2
    ensures 0 <= index < |Hours| ==> HourScroll(hour, SnapOffset(index) + drift) == Tap(Hours, index)
    ensures 0 <= index < |Minutes| ==> MinuteScroll(minute, SnapOffset(index) + drift) == Tap(Minutes, index)
    ensures 0 <= index < |Periods| ==> PeriodScroll(period, SnapOffset(index) + drift) == Tap(Periods, index)
  {
    RoundSnap(index, drift);
  }

  /** The minute wheel has no row for 0, so neither a scroll nor a tap can
      select it: a minute that has left its initial 0 never returns to 0
      through the wheel. */
  lemma MinuteWheelSkipsZero(selected: int, offset: int, index: int)
    requires selected != 0
    ensures 0 !in Minutes
    ensures MinuteScroll(selected, offset) != 0
    ensures 0 <= index < |Minutes| ==> Tap(Minutes, index) != 0
  {
  }
}
