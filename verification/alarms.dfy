/** The alarm list of the screen: an ordered list of alarm records that
    the user can switch on and off and delete by id. */
module Alarms {
  import opened Seqs
  import opened Days

  /** One reminder. `time` is the "HH:MM" text, `period` "AM" or "PM",
      `days` the repeat-day list; `labelText` is the record's `label` (a
      keyword in Dafny). */
  datatype Alarm = Alarm(
    id: int,
    time: string,
    period: string,
    labelText: string,
    speechText: string,
    isActive: bool,
    days: seq<Tag>)

  /** The record with its switch flipped and everything else kept. */
  function Flip(a: Alarm): Alarm {
    a.(isActive := !a.isActive)
  }

  /** `toggleAlarm`: maps over the list, flipping `isActive` on every
      record whose id matches. */
  function ToggleAlarm(alarms: seq<Alarm>, id: int): (r: seq<Alarm>)
    ensures |r| == |alarms|
    ensures forall i :: 0 <= i < |r| ==> r[i].(isActive := alarms[i].isActive) == alarms[i]
    ensures forall i :: 0 <= i < |r| ==> (r[i].isActive != alarms[i].isActive <==> alarms[i].id == id)
  {
    if alarms == [] then []
    else [if alarms[0].id == id then Flip(alarms[0]) else alarms[0]] + ToggleAlarm(alarms[1..], id)
  }

  /** Whether some record carries the id. */
  predicate HasId(alarms: seq<Alarm>, id: int) {
    exists i :: 0 <= i < |alarms| && alarms[i].id == id
  }

  /** The test `(alarm) => alarm.id !== id` handed to `filter`. */
  function OtherId(id: int): Alarm -> bool {
    (a: Alarm) => a.id != id
  }

  /** `deleteAlarm`: behind a confirmation dialog; on "Delete" the list is
      filtered to the records whose id differs, on "Cancel" nothing
      happens. */
  function DeleteAlarm(alarms: seq<Alarm>, id: int, confirmed: bool): (r: seq<Alarm>)
    ensures !confirmed ==> r == alarms
    ensures confirmed ==> forall a :: a in r <==> a in alarms && a.id != id
    ensures confirmed && HasId(alarms, id) ==> |r| < |alarms|
  {
    if confirmed then Filter(OtherId(id), alarms) else alarms
  }

  /** No two records share an id. */
  predicate UniqueIds(alarms: seq<Alarm>) {
    forall i, j :: 0 <= i < j < |alarms| ==> alarms[i].id != alarms[j].id
  }

  /** Toggling an id no record carries changes nothing. */
  lemma ToggleAbsentId(alarms: seq<Alarm>, id: int)
    requires !HasId(alarms, id)
    ensures ToggleAlarm(alarms, id) == alarms
  {
    var r := ToggleAlarm(alarms, id);
    forall i | 0 <= i < |r|
      ensures r[i] == alarms[i]
    {
      assert alarms[i].id != id;
    }
  }

  /** Toggling the same id twice restores the list. */
  lemma ToggleTwice(alarms: seq<Alarm>, id: int)
    ensures ToggleAlarm(ToggleAlarm(alarms, id), id) == alarms
  {
    var once := ToggleAlarm(alarms, id);
    var twice := ToggleAlarm(once, id);
    forall i | 0 <= i < |alarms|
      ensures twice[i] == alarms[i]
    {
      assert once[i].id == alarms[i].id;
    }
  }

  /** Toggling keeps every id where it was, so it keeps ids unique. */
  lemma ToggleKeepsIds(alarms: seq<Alarm>, id: int)
    ensures forall i :: 0 <= i < |alarms| ==> ToggleAlarm(alarms, id)[i].id == alarms[i].id
    ensures UniqueIds(alarms) ==> UniqueIds(ToggleAlarm(alarms, id))
  {
    var r := ToggleAlarm(alarms, id);
    forall i | 0 <= i < |alarms|
      ensures r[i].id == alarms[i].id
    {
      assert r[i].(isActive := alarms[i].isActive) == alarms[i];
    }
  }

  /** Deleting keeps the survivors in order: deleting from a joined list
      is deleting from each part. */
  lemma DeleteKeepsOrder(front: seq<Alarm>, back: seq<Alarm>, id: int)
    ensures DeleteAlarm(front + back, id, true) == DeleteAlarm(front, id, true) + DeleteAlarm(back, id, true)
  {
    FilterAppend(OtherId(id), front, back);
  }

  /** Deleting an id no record carries changes nothing. */
  lemma DeleteAbsentId(alarms: seq<Alarm>, id: int)
    requires !HasId(alarms, id)
    ensures DeleteAlarm(alarms, id, true) == alarms
  {
    FilterKeepsAll(OtherId(id), alarms);
  }

  /** Deleting keeps ids unique, and with unique ids it removes exactly one
      record when the id is present. */
  lemma {:induction false} DeleteUnique(alarms: seq<Alarm>, id: int)
    requires UniqueIds(alarms)
    ensures UniqueIds(DeleteAlarm(alarms, id, true))
    ensures HasId(alarms, id) ==> |DeleteAlarm(alarms, id, true)| == |alarms| - 1
  {
    if alarms != [] {
      var rest := alarms[1..];
      UniqueSplit(alarms);
      DeleteUnique(rest, id);
      var tail := DeleteAlarm(rest, id, true);
      assert DeleteAlarm(alarms, id, true) == (if alarms[0].id != id then [alarms[0]] else []) + tail;
      if alarms[0].id != id {
        ConsUnique(alarms[0], tail);
        if HasId(alarms, id) {
          var k :| 0 <= k < |alarms| && alarms[k].id == id;
          assert rest[k - 1].id == id;
        }
      } else {
        DeleteAbsentId(rest, id);
      }
    }
  }

  /** With unique ids, the first record's id occurs nowhere in the rest,
      and the rest has unique ids. */
  lemma UniqueSplit(alarms: seq<Alarm>)
    requires UniqueIds(alarms) && alarms != []
    ensures UniqueIds(alarms[1..])
    ensures !HasId(alarms[1..], alarms[0].id)
    ensures forall a :: a in alarms[1..] ==> a.id != alarms[0].id
  {
    var rest := alarms[1..];
    forall k | 0 <= k < |rest|
      ensures rest[k].id != alarms[0].id
    {
      assert rest[k] == alarms[k + 1];
    }
  }

  /** A record whose id is new may go in front of a list with unique ids. */
  lemma ConsUnique(x: Alarm, tail: seq<Alarm>)
    requires UniqueIds(tail)
    requires forall a :: a in tail ==> a.id != x.id
    ensures UniqueIds([x] + tail)
  {
    var r := [x] + tail;
    forall i, j | 0 <= i < j < |r|
      ensures r[i].id != r[j].id
    {
      assert r[j] == tail[j - 1];
      if i > 0 {
        assert r[i] == tail[i - 1];
      }
    }
  }

  /** Switching an alarm and then deleting it is the same as deleting it:
      toggling touches nothing that survives the delete. */
  lemma DeleteAfterToggle(alarms: seq<Alarm>, id: int)
    ensures DeleteAlarm(ToggleAlarm(alarms, id), id, true) == DeleteAlarm(alarms, id, true)
  {
    if alarms != [] {
      var t := ToggleAlarm(alarms, id);
      var head := if alarms[0].id == id then Flip(alarms[0]) else alarms[0];
      assert t == [head] + ToggleAlarm(alarms[1..], id);
      DeleteKeepsOrder([head], ToggleAlarm(alarms[1..], id), id);
      DeleteKeepsOrder([alarms[0]], alarms[1..], id);
      assert alarms == [alarms[0]] + alarms[1..];
      DeleteAfterToggle(alarms[1..], id);
    }
  }
}
