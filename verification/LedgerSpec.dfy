/** An append-only ledger of numbered events, and what of it lies between two cursors. */
module LedgerSpec {
  datatype Event = Event(number: nat, body: string)

  function LastSeq(ledger: seq<Event>): nat {
    if ledger == [] then 0 else ledger[|ledger| - 1].number
  }

  ghost predicate Increasing(ledger: seq<Event>) {
    forall i, j :: 0 <= i < j < |ledger| ==> ledger[i].number < ledger[j].number
  }

  /** The events numbered above `from` and up to `to`. */
  function Segment(ledger: seq<Event>, from: nat, to: nat): seq<Event> {
    if ledger == [] then []
    else
      var init, last := ledger[..|ledger| - 1], ledger[|ledger| - 1];
      Segment(init, from, to) + if from < last.number <= to then [last] else []
  }

  /** The events numbered above `from`. */
  function After(ledger: seq<Event>, from: nat): seq<Event> {
    if ledger == [] then []
    else
      var init, last := ledger[..|ledger| - 1], ledger[|ledger| - 1];
      After(init, from) + if from < last.number then [last] else []
  }

  lemma InitIncreases(ledger: seq<Event>)
    requires Increasing(ledger) && ledger != []
    ensures var init, last := ledger[..|ledger| - 1], ledger[|ledger| - 1];
      Increasing(init) && (forall e :: e in init ==> e.number < last.number)
  {
  }

  lemma {:induction false} NothingBetween(ledger: seq<Event>, from: nat, to: nat)
    requires to <= from
    ensures Segment(ledger, from, to) == []
  {
    if ledger != [] { NothingBetween(ledger[..|ledger| - 1], from, to); }
  }

  lemma {:induction false} AfterComesFromLedger(ledger: seq<Event>, from: nat)
    ensures forall e :: e in After(ledger, from) ==> e in ledger && e.number > from
  {
    if ledger != [] { AfterComesFromLedger(ledger[..|ledger| - 1], from); }
  }

  lemma {:induction false} NothingAfter(ledger: seq<Event>, from: nat)
    requires forall e :: e in ledger ==> e.number <= from
    ensures After(ledger, from) == []
  {
    if ledger != [] {
      assert ledger[|ledger| - 1] in ledger;
      NothingAfter(ledger[..|ledger| - 1], from);
    }
  }

  /** With a bound above every event, a segment is everything behind its lower cursor. */
  lemma {:induction false} SegmentToTheEnd(ledger: seq<Event>, from: nat, to: nat)
    requires forall e :: e in ledger ==> e.number <= to
    ensures Segment(ledger, from, to) == After(ledger, from)
  {
    if ledger != [] {
      assert ledger[|ledger| - 1] in ledger;
      SegmentToTheEnd(ledger[..|ledger| - 1], from, to);
    }
  }

  /** Adjacent segments join without gap or overlap. */
  lemma {:induction false} SegmentsJoin(ledger: seq<Event>, a: nat, b: nat, c: nat)
    requires Increasing(ledger) && a <= b <= c
    ensures Segment(ledger, a, b) + Segment(ledger, b, c) == Segment(ledger, a, c)
  {
    if ledger != [] {
      var init, last := ledger[..|ledger| - 1], ledger[|ledger| - 1];
      InitIncreases(ledger);
      SegmentsJoin(init, a, b, c);
      if last.number <= b { NothingHigh(init, b, c, last); }
    }
  }

  lemma {:induction false} NothingHigh(init: seq<Event>, from: nat, to: nat, last: Event)
    requires last.number <= from && forall e :: e in init ==> e.number < last.number
    ensures Segment(init, from, to) == []
  {
    if init != [] {
      assert init[|init| - 1] in init;
      NothingHigh(init[..|init| - 1], from, to, last);
    }
  }

  /** A page, the first events behind a cursor, is the segment up to its own last event. */
  lemma {:induction false} PageIsSegment(ledger: seq<Event>, from: nat, m: nat)
    requires Increasing(ledger) && 0 < m <= |After(ledger, from)|
    ensures After(ledger, from)[..m] == Segment(ledger, from, After(ledger, from)[m - 1].number)
    ensures from < After(ledger, from)[m - 1].number <= LastSeq(ledger)
  {
    var init, last := ledger[..|ledger| - 1], ledger[|ledger| - 1];
    InitIncreases(ledger);
    AfterComesFromLedger(init, from);
    if last.number <= from {
      NothingAfter(init, from);
    } else if m <= |After(init, from)| {
      PageIsSegment(init, from, m);
      var e := After(init, from)[m - 1];
      assert e in After(init, from) && e in init;
      assert After(ledger, from)[..m] == After(init, from)[..m];
    } else {
      SegmentToTheEnd(init, from, last.number);
      assert After(ledger, from)[..m] == After(ledger, from);
    }
  }

  /** Appending behind the last event changes no segment that ends before it. */
  lemma SegmentIgnoresAppend(ledger: seq<Event>, from: nat, to: nat, e: Event)
    requires e.number > to || e.number <= from
    ensures Segment(ledger + [e], from, to) == Segment(ledger, from, to)
  {
    assert (ledger + [e])[..|ledger|] == ledger;
  }
}
