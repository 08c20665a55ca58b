/**
  The weekly timetable editor: a grid of 5 days by 8 periods in which a
  course occupies a run of consecutive periods of one day. The first slot
  of the run is its start and carries the course's span; the others are
  covered by it. Adding checks the run is free before writing it, deleting
  clears the run from its start, and rendering draws each start as one cell
  as wide as its span.
*/
module TimeTableCreator {
  import opened Wrappers
  import opened Text

  const DayNames := ["Saturday", "Sunday", "Monday", "Tuesday", "Wednesday"]

  datatype Period = Period(id: nat, start: string, end: string)

  const Periods := [
    Period(1, "9:00", "9:45"), Period(2, "9:45", "10:30"),
    Period(3, "10:40", "11:25"), Period(4, "11:25", "12:10"),
    Period(5, "12:20", "1:05"), Period(6, "1:05", "1:50"),
    Period(7, "2:00", "2:45"), Period(8, "2:45", "3:30")]

  datatype Course = Course(name: string, location: string, span: int)

  datatype Slot = Slot(course: Option<Course>, isStart: bool)

  const Empty := Slot(None, false)

  /** A slot covered by a course that starts in an earlier slot. */
  predicate IsCover(s: Slot) {
    s.course.Some? && !s.isStart
  }

  // ---- rows ----

  /**
    `row[i..]` is a sequence of empty slots and whole courses: each course
    is a start slot followed by `span - 1` covered slots holding the same
    course, all inside the row. So no slot belongs to two courses and every
    slot without a course is empty.
  */
  predicate TiledFrom(row: seq<Slot>, i: nat)
    decreases |row| - i
  {
    if i >= |row| then true
    else if row[i] == Empty then TiledFrom(row, i + 1)
    else
      && row[i].course.Some? && row[i].isStart
      && 1 <= row[i].course.value.span && i + row[i].course.value.span <= |row|
      && (forall k :: i < k < i + row[i].course.value.span ==> row[k] == Slot(row[i].course, false))
      && TiledFrom(row, i + row[i].course.value.span)
  }

  predicate Tiled(row: seq<Slot>) {
    TiledFrom(row, 0)
  }

  /** No course in the `n` slots from `p`. */
  predicate Free(row: seq<Slot>, p: nat, n: nat)
    requires p + n <= |row|
  {
    forall k :: p <= k < p + n ==> row[k].course.None?
  }

  /** The row with course `c` written over the `c.span` slots from `p`, the first as its start. */
  function Place(row: seq<Slot>, p: nat, c: Course): seq<Slot> {
    seq(|row|, k requires 0 <= k < |row| => if p <= k < p + c.span then Slot(Some(c), k == p) else row[k])
  }

  /** The row with the `n` slots from `p` emptied. */
  function Clear(row: seq<Slot>, p: nat, n: int): seq<Slot> {
    seq(|row|, k requires 0 <= k < |row| => if p <= k < p + n then Empty else row[k])
  }

  datatype AddOutcome = EmptyName | NotEnoughPeriods | Occupied | Added

  /** What adding `c` at period `p` of a row does: the checks in order, then the write. */
  function AddResult(row: seq<Slot>, p: nat, c: Course): AddOutcome {
    if c.name == "" then EmptyName
    else if c.span < 0 || p + c.span > |row| then NotEnoughPeriods
    else if !Free(row, p, c.span) then Occupied
    else Added
  }

  // ---- the span input ----

  /** The longest run of decimal digits at the start of `s`. */
  function LeadingDigits(s: string): (r: string)
    ensures |r| <= |s| && r == s[..|r|] && AllDigits(r)
    ensures |r| < |s| ==> !('0' <= s[|r|] <= '9')
  {
    if s != [] && '0' <= s[0] <= '9' then [s[0]] + LeadingDigits(s[1..]) else []
  }

  /**
    `parseInt(s)` in base 10: leading white space, an optional sign, then the
    longest run of digits; `None` stands for NaN when there is no digit.
  */
  function ParseInt(s: string): Option<int> {
    var t := TrimStart(s);
    var negative := t != [] && t[0] == '-';
    var body := if t != [] && (t[0] == '-' || t[0] == '+') then t[1..] else t;
    var digits := LeadingDigits(body);
    if digits == [] then None
    else
      var v: int := DigitsValue(digits);
      Some(if negative then -v else v)
  }

  /** `Math.max(1, Math.min(8, parseInt(input) || 1))`: NaN and 0 become 1. */
  function ClampSpan(input: string): (r: int)
    ensures 1 <= r <= 8
  {
    var v := ParseInt(input);
    var n := if v.None? || v.value == 0 then 1 else v.value;
    if n < 1 then 1 else if n > 8 then 8 else n
  }

  // ---- rendering ----

  /** A rendered table cell: the period it starts at, its course and its width. */
  datatype Cell = Cell(period: nat, course: Option<Course>, colSpan: int)

  /** `slot.course?.span || 1`. */
  function ColSpan(s: Slot): int {
    if s.course.Some? && s.course.value.span != 0 then s.course.value.span else 1
  }

  /** The cells drawn for `row[i..]`: covered slots draw nothing. */
  function RenderFrom(row: seq<Slot>, i: nat): seq<Cell>
    decreases |row| - i
  {
    if i >= |row| then []
    else (if IsCover(row[i]) then [] else [Cell(i, row[i].course, ColSpan(row[i]))]) + RenderFrom(row, i + 1)
  }

  function RenderRow(row: seq<Slot>): seq<Cell> {
    RenderFrom(row, 0)
  }

  /** The total width of some cells. */
  function Width(cells: seq<Cell>): int {
    if cells == [] then 0 else cells[0].colSpan + Width(cells[1..])
  }

  // ---- the editor ----

  class TimeTable {
    const grid: array2<Slot>
    var selectedDay: int
    var selectedPeriod: int
    var newCourse: Course
    var dialogOpen: bool

    /** Day `d`'s slots, in period order. */
    function Row(d: int): seq<Slot>
      reads grid
      requires 0 <= d < grid.Length0
    {
      seq(grid.Length1, k requires 0 <= k < grid.Length1 reads grid => grid[d, k])
    }

    /** The grid has 5 days of 8 periods, every day is tiled, and the selection and span are in range. */
    predicate Valid()
      reads this, grid
    {
      && grid.Length0 == |DayNames| && grid.Length1 == |Periods|
      && (forall d :: 0 <= d < grid.Length0 ==> Tiled(Row(d)))
      && 0 <= selectedDay < grid.Length0 && 0 <= selectedPeriod < grid.Length1
      && 1 <= newCourse.span <= |Periods|
    }

    /** The empty timetable: every slot without a course and not a start. */
    constructor()
      ensures Valid() && !dialogOpen
      ensures forall d, k :: 0 <= d < 5 && 0 <= k < 8 ==> grid[d, k] == Empty
      ensures selectedDay == 0 && selectedPeriod == 0 && newCourse == Course("", "", 1)
    {
      grid := new Slot[5, 8]((d, k) => Empty);
      selectedDay := 0;
      selectedPeriod := 0;
      newCourse := Course("", "", 1);
      dialogOpen := false;
      new;
      forall d | 0 <= d < 5
        ensures Tiled(Row(d))
      {
        EmptyRun(Row(d), 0, 8);
      }
    }

    /** Clicking a free cell selects it and opens the add dialog with a blank course of span 1. */
    method CellClick(d: int, k: int)
      requires Valid() && 0 <= d < grid.Length0 && 0 <= k < grid.Length1
      modifies this
      ensures Valid()
      ensures grid[d, k].course.Some? ==>
        && selectedDay == old(selectedDay) && selectedPeriod == old(selectedPeriod)
        && newCourse == old(newCourse) && dialogOpen == old(dialogOpen)
      ensures grid[d, k].course.None? ==>
        && selectedDay == d && selectedPeriod == k
        && newCourse == Course("", "", 1) && dialogOpen
    {
      if grid[d, k].course.Some? {
        return;
      }
      selectedDay := d;
      selectedPeriod := k;
      newCourse := Course("", "", 1);
      dialogOpen := true;
    }

    method SetName(name: string)
      requires Valid()
      modifies this
      ensures Valid() && newCourse == old(newCourse).(name := name)
      ensures selectedDay == old(selectedDay) && selectedPeriod == old(selectedPeriod) && dialogOpen == old(dialogOpen)
    {
      newCourse := newCourse.(name := name);
    }

    method SetLocation(location: string)
      requires Valid()
      modifies this
      ensures Valid() && newCourse == old(newCourse).(location := location)
      ensures selectedDay == old(selectedDay) && selectedPeriod == old(selectedPeriod) && dialogOpen == old(dialogOpen)
    {
      newCourse := newCourse.(location := location);
    }

    /** Typing in the span box stores the clamped value. */
    method SetSpanInput(input: string)
      requires Valid()
      modifies this
      ensures Valid() && newCourse == old(newCourse).(span := ClampSpan(input))
      ensures selectedDay == old(selectedDay) && selectedPeriod == old(selectedPeriod) && dialogOpen == old(dialogOpen)
    {
      newCourse := newCourse.(span := ClampSpan(input));
    }

    /**
      Adds the dialog's course at the selected slot: rejected with an empty
      name, when it runs past the last period, or when a slot it needs is
      taken (checked before any write); otherwise written into the run and the
      dialog closes.
    */
    method AddCourse() returns (outcome: AddOutcome)
      requires Valid()
      modifies this, grid
      ensures Valid()
      ensures outcome == AddResult(old(Row(selectedDay)), selectedPeriod, newCourse)
      ensures forall d, k :: 0 <= d < grid.Length0 && 0 <= k < grid.Length1 ==>
        grid[d, k] == if outcome == Added && d == selectedDay then Place(old(Row(d)), selectedPeriod, newCourse)[k]
                      else old(grid[d, k])
      ensures dialogOpen == (if outcome == Added then false else old(dialogOpen))
      ensures selectedDay == old(selectedDay) && selectedPeriod == old(selectedPeriod) && newCourse == old(newCourse)
    {
      var d, p, c := selectedDay, selectedPeriod, newCourse;
      if c.name == "" {
        return EmptyName;
      }
      if p + c.span > grid.Length1 {
        return NotEnoughPeriods;
      }
      var i := 0;
      while i < c.span
        invariant 0 <= i <= c.span
        invariant forall k :: p <= k < p + i ==> grid[d, k].course.None?
      {
        if grid[d, p + i].course.Some? {
          assert !Free(Row(d), p, c.span) by {
            assert Row(d)[p + i] == grid[d, p + i];
          }
          return Occupied;
        }
        i := i + 1;
      }
      assert Free(Row(d), p, c.span);
      ghost var before := Row(d);
      i := 0;
      while i < c.span
        modifies grid
        invariant 0 <= i <= c.span
        invariant forall d', k :: 0 <= d' < grid.Length0 && 0 <= k < grid.Length1 ==>
          grid[d', k] == if d' == d && p <= k < p + i then Slot(Some(c), k == p) else old(grid[d', k])
      {
        grid[d, p + i] := Slot(Some(c), i == 0);
        i := i + 1;
      }
      dialogOpen := false;
      outcome := Added;
      assert Row(d) == Place(before, p, c);
      PlaceKeepsTiling(before, p, c);
      forall d' | 0 <= d' < grid.Length0
        ensures Tiled(Row(d'))
      {
        if d' != d {
          assert Row(d') == old(Row(d'));
        }
      }
    }

    /**
      Deletes the course whose start cell was clicked: its whole run is
      emptied; a cell without a course changes nothing. Only start cells and
      free cells are drawn, so only they can be clicked.
    */
    method DeleteCourse(d: int, k: int)
      requires Valid() && 0 <= d < grid.Length0 && 0 <= k < grid.Length1
      requires grid[d, k].course.Some? ==> grid[d, k].isStart
      modifies grid
      ensures Valid()
      ensures forall d', k' :: 0 <= d' < grid.Length0 && 0 <= k' < grid.Length1 ==>
        grid[d', k'] == if old(grid[d, k]).course.Some? && d' == d
                        then Clear(old(Row(d)), k, old(grid[d, k]).course.value.span)[k']
                        else old(grid[d', k'])
    {
      var slot := grid[d, k];
      if slot.course.None? {
        return;
      }
      var span := slot.course.value.span;
      ghost var before := Row(d);
      assert before[k] == slot;
      ClearKeepsTiling(before, k);
      var i := 0;
      while i < span
        invariant 0 <= i <= span
        invariant forall d', k' :: 0 <= d' < grid.Length0 && 0 <= k' < grid.Length1 ==>
          grid[d', k'] == if d' == d && k <= k' < k + i then Empty else old(grid[d', k'])
      {
        grid[d, k + i] := Empty;
        i := i + 1;
      }
      assert Row(d) == Clear(before, k, span);
      forall d' | 0 <= d' < grid.Length0
        ensures Tiled(Row(d'))
      {
        if d' != d {
          assert Row(d') == old(Row(d'));
        }
      }
    }
  }

  // ---- properties ----

  /** A slot that no course covers is the end of a whole number of courses from the row's start. */
  lemma {:induction false} Reach(row: seq<Slot>, i: nat, p: nat)
    requires TiledFrom(row, i) && i <= p < |row| && !IsCover(row[p])
    ensures TiledFrom(row, p)
    decreases p - i
  {
    if i < p {
      if row[i] == Empty {
        Reach(row, i + 1, p);
      } else {
        assert !(i < p < i + row[i].course.value.span);
        Reach(row, i + row[i].course.value.span, p);
      }
    }
  }

  /** Changing a row from a boundary on keeps the tiling before that boundary. */
  lemma {:induction false} PrefixSwap(a: seq<Slot>, b: seq<Slot>, i: nat, p: nat)
    requires |a| == |b| && i <= p < |a|
    requires forall k :: 0 <= k < p ==> a[k] == b[k]
    requires TiledFrom(a, i) && !IsCover(a[p]) && TiledFrom(b, p)
    ensures TiledFrom(b, i)
    decreases p - i
  {
    if i < p {
      if a[i] == Empty {
        PrefixSwap(a, b, i + 1, p);
      } else {
        var s := a[i].course.value.span;
        assert !(i < p < i + s);
        PrefixSwap(a, b, i + s, p);
        assert b[i] == a[i];
      }
    }
  }

  /** The tiling of `row[i..]` depends only on `row[i..]`. */
  lemma {:induction false} SuffixSwap(a: seq<Slot>, b: seq<Slot>, i: nat)
    requires |a| == |b| && i <= |a|
    requires forall k :: i <= k < |a| ==> a[k] == b[k]
    requires TiledFrom(a, i)
    ensures TiledFrom(b, i)
    decreases |a| - i
  {
    if i < |a| {
      if a[i] == Empty {
        SuffixSwap(a, b, i + 1);
      } else {
        SuffixSwap(a, b, i + a[i].course.value.span);
      }
    }
  }

  /** In a tiled stretch, slots without a course are empty and can be stepped over. */
  lemma {:induction false} FreeRun(row: seq<Slot>, p: nat, n: nat)
    requires p + n <= |row| && TiledFrom(row, p)
    requires forall k :: p <= k < p + n ==> row[k].course.None?
    ensures TiledFrom(row, p + n)
    ensures forall k :: p <= k < p + n ==> row[k] == Empty
    decreases n
  {
    if n > 0 {
      assert row[p].course.None?;
      FreeRun(row, p + 1, n - 1);
    }
  }

  /** Empty slots in front of a tiled stretch keep it tiled. */
  lemma {:induction false} EmptyRun(row: seq<Slot>, p: nat, n: nat)
    requires p + n <= |row| && TiledFrom(row, p + n)
    requires forall k :: p <= k < p + n ==> row[k] == Empty
    ensures TiledFrom(row, p)
    decreases n
  {
    if n > 0 {
      EmptyRun(row, p + 1, n - 1);
    }
  }

  /** In a tiled row, a slot without a course is not a start either. */
  lemma FreeSlotIsEmpty(row: seq<Slot>, k: nat)
    requires Tiled(row) && k < |row| && row[k].course.None?
    ensures row[k] == Empty
  {
    Reach(row, 0, k);
  }

  /**
    Writing a course over free slots keeps the row tiled; the slots it takes
    were empty.
  */
  lemma PlaceKeepsTiling(row: seq<Slot>, p: nat, c: Course)
    requires Tiled(row) && 1 <= c.span && p + c.span <= |row|
    requires Free(row, p, c.span)
    ensures Tiled(Place(row, p, c))
    ensures forall k :: p <= k < p + c.span ==> row[k] == Empty
  {
    Reach(row, 0, p);
    FreeRun(row, p, c.span);
    var r := Place(row, p, c);
    SuffixSwap(row, r, p + c.span);
    assert TiledFrom(r, p);
    PrefixSwap(row, r, 0, p);
  }

  /**
    Clearing a course from its start keeps the row tiled; the cleared slots
    are exactly the course's run.
  */
  lemma ClearKeepsTiling(row: seq<Slot>, p: nat)
    requires Tiled(row) && p < |row| && row[p].course.Some? && row[p].isStart
    ensures 1 <= row[p].course.value.span && p + row[p].course.value.span <= |row|
    ensures forall k :: p <= k < p + row[p].course.value.span ==> row[k].course == row[p].course
    ensures Tiled(Clear(row, p, row[p].course.value.span))
  {
    var n := row[p].course.value.span;
    Reach(row, 0, p);
    var r := Clear(row, p, n);
    SuffixSwap(row, r, p + n);
    EmptyRun(r, p, n);
    PrefixSwap(row, r, 0, p);
  }

  /** Adding a course and then deleting it at its start gives the row back. */
  lemma AddThenDeleteRestores(row: seq<Slot>, p: nat, c: Course)
    requires Tiled(row) && 1 <= c.span && AddResult(row, p, c) == Added
    ensures p < |row| && Place(row, p, c)[p] == Slot(Some(c), true)
    ensures Clear(Place(row, p, c), p, c.span) == row
  {
    PlaceKeepsTiling(row, p, c);
  }

  /** An add is refused as occupied only when one of the slots it needs holds a course. */
  lemma OccupiedMeansTaken(row: seq<Slot>, p: nat, c: Course)
    requires Tiled(row) && AddResult(row, p, c) == Occupied
    ensures exists k :: p <= k < p + c.span && k < |row| && row[k].course.Some?
  {
  }

  lemma {:induction false} WidthAppend(a: seq<Cell>, b: seq<Cell>)
    ensures Width(a + b) == Width(a) + Width(b)
  {
    if a == [] {
      assert a + b == b;
    } else {
      assert (a + b)[1..] == a[1..] + b;
      WidthAppend(a[1..], b);
    }
  }

  /** Covered slots draw nothing. */
  lemma {:induction false} CoversSkip(row: seq<Slot>, j: nat, e: nat)
    requires j <= e <= |row|
    requires forall k :: j <= k < e ==> IsCover(row[k])
    ensures RenderFrom(row, j) == RenderFrom(row, e)
    decreases e - j
  {
    if j < e {
      CoversSkip(row, j + 1, e);
    }
  }

  lemma {:induction false} RenderWidthFrom(row: seq<Slot>, i: nat)
    requires i <= |row| && TiledFrom(row, i)
    ensures Width(RenderFrom(row, i)) == |row| - i
    decreases |row| - i
  {
    if i < |row| {
      var s := ColSpan(row[i]);
      if row[i] == Empty {
        RenderWidthFrom(row, i + 1);
        WidthAppend([Cell(i, None, 1)], RenderFrom(row, i + 1));
      } else {
        var n := row[i].course.value.span;
        CoversSkip(row, i + 1, i + n);
        RenderWidthFrom(row, i + n);
        WidthAppend([Cell(i, row[i].course, n)], RenderFrom(row, i + 1));
      }
    }
  }

  /** A tiled day draws cells whose widths add up to exactly the 8 periods. */
  lemma RowWidth(row: seq<Slot>)
    requires Tiled(row) && |row| == |Periods|
    ensures Width(RenderRow(row)) == 8
  {
    RenderWidthFrom(row, 0);
  }

  /** A number written in decimal parses back to itself. */
  lemma ParseIntOfNat(n: nat)
    ensures ParseInt(NatToString(n)) == Some(n as int)
  {
    var s := NatToString(n);
    NatToStringRoundTrip(n);
    assert !IsSpace(s[0]);
    TrimStartOfUnspaced(s);
    AllDigitsLeading(s);
  }

  /** A number from 1 to 8 typed in the span box is taken as it is. */
  lemma SpanTakenAsTyped(n: nat)
    requires 1 <= n <= 8
    ensures ClampSpan(NatToString(n)) == n
  {
    ParseIntOfNat(n);
  }

  /** A larger number is cut down to 8. */
  lemma LargeSpanClamped(n: nat)
    requires n > 8
    ensures ClampSpan(NatToString(n)) == 8
  {
    ParseIntOfNat(n);
  }

  /** Text with no number in it, such as the empty box, gives 1. */
  lemma NonNumericSpanIsOne(input: string)
    requires ParseInt(input).None?
    ensures ClampSpan(input) == 1
  {
  }

  /** The empty box gives 1. */
  lemma EmptySpanIsOne()
    ensures ClampSpan("") == 1
  {
    assert ParseInt("") == None;
  }

  lemma {:induction false} AllDigitsLeading(s: string)
    requires AllDigits(s)
    ensures LeadingDigits(s) == s
  {
    if s != [] {
      AllDigitsLeading(s[1..]);
    }
  }
}
