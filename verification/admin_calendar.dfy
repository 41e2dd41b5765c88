/**
  The admin dashboard's month calendar (`_get_calendar_data` and `calendar_page` in
  `src/admin/main.py`): colour per theme from a wrapping 8-colour palette, the first theme
  whose date range covers a day, one cell per day, theme start/end flags marked in place,
  and the cells laid out in 7-wide week rows padded with blanks.
*/
module AdminCalendar {
  import opened Wrappers
  import opened Text
  import opened DateKeys
  import opened MonthKeys
  import opened Records
  import opened Store
  import opened ContentEngine

  // ---------------------------------------------------------------------------
  // Theme colours
  // ---------------------------------------------------------------------------

  const Palette: seq<string> := ["#d29922", "#58a6ff", "#3fb950", "#f85149", "#bc8cff", "#79c0ff", "#e3b341", "#56d364"]

  /** The colour used for a theme missing from the colour map. */
  const DefaultColor: string := "#58a6ff"

  /** The position of the first occurrence of `x` in `s`. */
  function FirstIndex(s: seq<string>, x: string): (r: nat)
    requires x in s
    ensures r < |s| && s[r] == x && x !in s[..r]
  {
    var init := s[..|s| - 1];
    if x in init then
      var r := FirstIndex(init, x);
      assert s[..r] == init[..r];
      r
    else |s| - 1
  }

  /** The distinct names of `names`, in order of first appearance. */
  function DistinctNames(names: seq<string>): (r: seq<string>)
    ensures forall i, j :: 0 <= i < j < |r| ==> r[i] != r[j]
    ensures forall x :: x in r <==> x in names
  {
    if |names| == 0 then []
    else
      var init := names[..|names| - 1];
      var prev := DistinctNames(init);
      var x := names[|names| - 1];
      assert names == init + [x];
      if x in prev then prev else prev + [x]
  }

  /** The distinct names come in the order of their first appearance. */
  lemma {:induction false} DistinctNamesInOrder(names: seq<string>)
    ensures forall i, j :: 0 <= i < j < |DistinctNames(names)| ==>
              FirstIndex(names, DistinctNames(names)[i]) < FirstIndex(names, DistinctNames(names)[j])
  {
    if |names| > 0 {
      var init := names[..|names| - 1];
      DistinctNamesInOrder(init);
      var x := names[|names| - 1];
      assert names == init + [x];
      var prev, r := DistinctNames(init), DistinctNames(names);
      assert r == if x in prev then prev else prev + [x];
      forall i, j | 0 <= i < j < |r|
        ensures FirstIndex(names, r[i]) < FirstIndex(names, r[j])
      {
        assert r[i] == prev[i] && r[i] in init;
        assert FirstIndex(names, r[i]) == FirstIndex(init, r[i]) < |init|;
        if j < |prev| {
          assert r[j] == prev[j] && r[j] in init;
          assert FirstIndex(names, r[j]) == FirstIndex(init, r[j]);
          assert FirstIndex(init, prev[i]) < FirstIndex(init, prev[j]);
        } else {
          assert r[j] == x && x !in init;
          assert FirstIndex(names, x) == |init|;
        }
      }
    }
  }

  /** In a list without repetitions, an element's first occurrence is its position. */
  lemma FirstIndexOfDistinct(s: seq<string>, k: nat)
    requires k < |s| && forall i, j :: 0 <= i < j < |s| ==> s[i] != s[j]
    ensures FirstIndex(s, s[k]) == k
  {
  }

  /** The colour map `_get_calendar_data` builds: the k-th distinct theme name, in order of
      first appearance, gets palette entry k mod 8. */
  function ColorMap(names: seq<string>): (m: map<string, string>)
    ensures forall x :: x in m <==> x in names
    ensures forall k :: 0 <= k < |DistinctNames(names)| ==> m[DistinctNames(names)[k]] == Palette[k % |Palette|]
  {
    var d := DistinctNames(names);
    var m := map x | x in d :: Palette[FirstIndex(d, x) % |Palette|];
    assert forall k :: 0 <= k < |d| ==> FirstIndex(d, d[k]) == k by {
      forall k | 0 <= k < |d| ensures FirstIndex(d, d[k]) == k {
        FirstIndexOfDistinct(d, k);
      }
    }
    m
  }

  /** The eight palette entries are pairwise different. */
  lemma PaletteDistinct(a: nat, b: nat)
    requires a < b < |Palette|
    ensures Palette[a] != Palette[b]
  {
  }

  lemma ModEightDiffer(i: nat, j: nat)
    requires i < j < i + 8
    ensures i % 8 != j % 8
  {
    var a, b := i % 8, j % 8;
    assert i == 8 * (i / 8) + a && j == 8 * (j / 8) + b;
  }

  /** Themes among any eight consecutive distinct names get pairwise different colours. */
  lemma ColorsDistinctWithinEight(names: seq<string>, i: nat, j: nat)
    requires i < j < |DistinctNames(names)| && j - i < |Palette|
    ensures ColorMap(names)[DistinctNames(names)[i]] != ColorMap(names)[DistinctNames(names)[j]]
  {
    var d, m := DistinctNames(names), ColorMap(names);
    var a, b := i % 8, j % 8;
    assert m[d[i]] == Palette[a] && m[d[j]] == Palette[b];
    ModEightDiffer(i, j);
    if a < b {
      PaletteDistinct(a, b);
    } else {
      PaletteDistinct(b, a);
    }
  }

  /** One more name: the distinct names grow by it exactly when it is new. */
  lemma DistinctStep(names: seq<string>, i: nat)
    requires i < |names|
    ensures DistinctNames(names[..i + 1]) ==
      if names[i] in DistinctNames(names[..i]) then DistinctNames(names[..i]) else DistinctNames(names[..i]) + [names[i]]
  {
    assert names[..i + 1][..i] == names[..i];
  }

  /** A map with the colour map's keys and its colour for every distinct name is the colour map. */
  lemma ColorMapUnique(names: seq<string>, m: map<string, string>)
    requires forall x :: x in m <==> x in names
    requires var d := DistinctNames(names); forall k :: 0 <= k < |d| ==> m[d[k]] == Palette[k % |Palette|]
    ensures m == ColorMap(names)
  {
    var d := DistinctNames(names);
    forall x | x in m
      ensures m[x] == ColorMap(names)[x]
    {
      var k :| 0 <= k < |d| && d[k] == x;
    }
  }

  /** `colors` gives exactly the names of `d`, the k-th of them the k-th palette entry (wrapping). */
  ghost predicate ColoursInOrder(colors: map<string, string>, d: seq<string>)
  {
    (forall x :: x in colors <==> x in d)
    && (forall k :: 0 <= k < |d| ==> colors[d[k]] == Palette[k % |Palette|])
  }

  /** One step of the colour loop keeps `ColoursInOrder`. */
  lemma ColourStep(colors: map<string, string>, d: seq<string>, key: string)
    requires ColoursInOrder(colors, d)
    ensures key !in d ==> ColoursInOrder(colors[key := Palette[|d| % |Palette|]], d + [key])
  {
    if key !in d {
      var c, e := colors[key := Palette[|d| % |Palette|]], d + [key];
      forall k | 0 <= k < |e|
        ensures c[e[k]] == Palette[k % |Palette|]
      {
        if k < |d| {
          assert e[k] == d[k] && d[k] != key;
        }
      }
    }
  }

  /** The colour loop of `_get_calendar_data`: a new name takes the next palette entry. */
  method AssignColors(themes: seq<WeeklyTheme>) returns (colors: map<string, string>)
    ensures colors == ColorMap(ThemeNames(themes))
  {
    var names := ThemeNames(themes);
    colors := map[];
    var colorIdx := 0;
    for i := 0 to |themes|
      invariant colorIdx == |DistinctNames(names[..i])|
      invariant ColoursInOrder(colors, DistinctNames(names[..i]))
    {
      var key := themes[i].theme;
      DistinctStep(names, i);
      ColourStep(colors, DistinctNames(names[..i]), key);
      if key !in colors {
        colors := colors[key := Palette[colorIdx % |Palette|]];
        colorIdx := colorIdx + 1;
      }
    }
    assert names[..|themes|] == names;
    ColorMapUnique(names, colors);
  }

  // ---------------------------------------------------------------------------
  // Theme of a day
  // ---------------------------------------------------------------------------

  /** What a cell shows about its theme; `themeId` is None when no theme covers the day. */
  datatype ThemeSlot = ThemeSlot(theme: string, rangeLabel: string, color: string, themeId: Option<nat>)

  const NoTheme: ThemeSlot := ThemeSlot("", "", "", None)

  /** A theme with a date range covers a key when `start_date <= key <= end_date`. */
  predicate Covers(t: WeeklyTheme, key: string)
  {
    t.startDate != "" && t.endDate != "" && LexLe(t.startDate, key) && LexLe(key, t.endDate)
  }

  function SlotOf(t: WeeklyTheme, colors: map<string, string>): ThemeSlot
  {
    ThemeSlot(t.theme, t.startDate + " \U{2192} " + t.endDate,
              if t.theme in colors then colors[t.theme] else DefaultColor, Some(t.id))
  }

  /** The first theme at or after position `i` covering `key`. */
  function FirstCovering(themes: seq<WeeklyTheme>, key: string, i: nat): (r: Option<nat>)
    requires i <= |themes|
    ensures r.None? <==> forall j :: i <= j < |themes| ==> !Covers(themes[j], key)
    ensures r.Some? ==> i <= r.value < |themes| && Covers(themes[r.value], key)
                        && forall j :: i <= j < r.value ==> !Covers(themes[j], key)
    decreases |themes| - i
  {
    if i == |themes| then None
    else if Covers(themes[i], key) then Some(i)
    else FirstCovering(themes, key, i + 1)
  }

  /** `_find_theme_for_date`: the first theme in list order whose range covers the key. */
  function FindThemeForDate(themes: seq<WeeklyTheme>, colors: map<string, string>, key: string): (r: ThemeSlot)
    ensures r.themeId.None? <==> forall j :: 0 <= j < |themes| ==> !Covers(themes[j], key)
    ensures r.themeId.None? ==> r == NoTheme
    ensures r.themeId.Some? ==> exists i :: 0 <= i < |themes| && Covers(themes[i], key) && r == SlotOf(themes[i], colors)
                                             && forall j :: 0 <= j < i ==> !Covers(themes[j], key)
  {
    match FirstCovering(themes, key, 0)
    case None => NoTheme
    case Some(i) => SlotOf(themes[i], colors)
  }

  /** For canonical keys the string test is the calendar test: the theme's first day is not
      after the day and its last day is not before it. */
  lemma CoversChronological(t: WeeklyTheme, s: Date, e: Date, d: Date)
    requires Valid(s) && Valid(e) && Valid(d) && t.startDate == Format(s) && t.endDate == Format(e)
    ensures Covers(t, Format(d)) <==> !Before(d, s) && !Before(e, d)
  {
    FormatLength(s);
    FormatLength(e);
    FormatLe(s, d);
    FormatLe(d, e);
    OrdinalOrder(s, d);
    OrdinalOrder(d, s);
    OrdinalOrder(d, e);
    OrdinalOrder(e, d);
  }

  // ---------------------------------------------------------------------------
  // Day cells and their theme boundaries
  // ---------------------------------------------------------------------------

  datatype Cell = Cell(
    day: int, dateKey: string, isToday: bool, problem: Option<DailyProblem<TestCase>>,
    slot: ThemeSlot, themeStart: bool, themeEnd: bool)

  /** The cell of one day, before its boundary flags are set. */
  function CellFor(year: int, month: int, day: int, window: seq<DailyProblem<TestCase>>,
                   themes: seq<WeeklyTheme>, colors: map<string, string>, todayKey: string): Cell
    requires InCalendar(Date(year, month, day))
  {
    var key := Format(Date(year, month, day));
    Cell(day, key, key == todayKey, Find(window, key), FindThemeForDate(themes, colors, key), false, false)
  }

  /** One cell per day of the month, in order. */
  function MonthCells(year: int, month: int, window: seq<DailyProblem<TestCase>>,
                      themes: seq<WeeklyTheme>, colors: map<string, string>, todayKey: string): (r: seq<Cell>)
    requires year >= 1 && 1 <= month <= 12
    ensures |r| == DaysInMonth(year, month)
    ensures forall i :: 0 <= i < |r| ==> r[i] == CellFor(year, month, i + 1, window, themes, colors, todayKey)
  {
    seq(DaysInMonth(year, month), i requires 0 <= i < DaysInMonth(year, month) =>
      CellFor(year, month, i + 1, window, themes, colors, todayKey))
  }

  /** The cell loop: one cell per day 1..num_days, appended in order. */
  method BuildCells(year: int, month: int, window: seq<DailyProblem<TestCase>>,
                    themes: seq<WeeklyTheme>, colors: map<string, string>, todayKey: string)
    returns (cells: array<Cell>)
    requires year >= 1 && 1 <= month <= 12
    ensures fresh(cells) && cells[..] == MonthCells(year, month, window, themes, colors, todayKey)
  {
    var numDays := DaysInMonth(year, month);
    var all: seq<Cell> := [];
    for day := 1 to numDays + 1
      invariant |all| == day - 1
      invariant forall i :: 0 <= i < |all| ==> all[i] == CellFor(year, month, i + 1, window, themes, colors, todayKey)
    {
      all := all + [CellFor(year, month, day, window, themes, colors, todayKey)];
    }
    cells := new Cell[numDays](i requires 0 <= i < numDays => all[i]);
  }

  /** Each cell is keyed by its own day and flagged as today exactly on today. */
  lemma CellsAreTheMonthsDays(year: int, month: int, window: seq<DailyProblem<TestCase>>,
                              themes: seq<WeeklyTheme>, colors: map<string, string>, today: Date, i: nat)
    requires 1 <= year <= MaxYear && 1 <= month <= 12 && Valid(today)
    requires i < DaysInMonth(year, month)
    ensures var c := MonthCells(year, month, window, themes, colors, Format(today))[i];
      && c.day == i + 1 && c.dateKey == Format(Date(year, month, i + 1))
      && InMonthWindow(c.dateKey, MonthPrefix(year, month))
      && (c.isToday <==> today == Date(year, month, i + 1))
  {
    var d := Date(year, month, i + 1);
    FormatOrder(d, today);
    MonthWindowExact(d, year, month);
  }

  /** The theme names of a row of cells. */
  function SlotThemes(cells: seq<Cell>): (r: seq<string>)
    ensures |r| == |cells| && forall i :: 0 <= i < |r| ==> r[i] == cells[i].slot.theme
  {
    seq(|cells|, i requires 0 <= i < |cells| => cells[i].slot.theme)
  }

  /** A themed cell starts its theme's run when the previous cell (if any) has another theme. */
  predicate StartsRun(names: seq<string>, i: nat)
    requires i < |names|
  {
    names[i] != "" && names[i] != (if i > 0 then names[i - 1] else "")
  }

  /** A themed cell ends its theme's run when the next cell (if any) has another theme. */
  predicate EndsRun(names: seq<string>, i: nat)
    requires i < |names|
  {
    names[i] != "" && names[i] != (if i < |names| - 1 then names[i + 1] else "")
  }

  function Reverse(s: seq<string>): (r: seq<string>)
    ensures |r| == |s| && forall i :: 0 <= i < |s| ==> r[i] == s[|s| - 1 - i]
  {
    seq(|s|, i requires 0 <= i < |s| => s[|s| - 1 - i])
  }

  /** `theme_end` is the mirror image of `theme_start`: read backwards, ends are starts. */
  lemma EndIsMirroredStart(names: seq<string>, i: nat)
    requires i < |names|
    ensures EndsRun(names, i) <==> StartsRun(Reverse(names), |names| - 1 - i)
  {
  }

  /** A run that starts and ends on the same cell has no neighbour with its theme. */
  lemma SingleDayRun(names: seq<string>, i: nat)
    requires i < |names| && StartsRun(names, i) && EndsRun(names, i)
    ensures forall j :: 0 <= j < |names| && (j == i - 1 || j == i + 1) ==> names[j] != names[i]
  {
  }

  /** One cell with its boundary flags set from the themes of the whole row `names`. */
  function Mark(names: seq<string>, cell: Cell, i: nat): Cell
    requires i < |names|
  {
    cell.(themeStart := StartsRun(names, i), themeEnd := EndsRun(names, i))
  }

  /** The cells with their boundary flags set. */
  function MarkAll(cells: seq<Cell>): (r: seq<Cell>)
    ensures |r| == |cells|
    ensures forall i :: 0 <= i < |r| ==> r[i] == Mark(SlotThemes(cells), cells[i], i)
  {
    var names := SlotThemes(cells);
    seq(|cells|, i requires 0 <= i < |cells| => Mark(names, cells[i], i))
  }

  /** The boundary loop, updating each cell in place; themes are read, never written, so the
      already-updated previous cell still shows its theme. */
  method MarkBoundaries(cells: array<Cell>)
    modifies cells
    ensures cells[..] == MarkAll(old(cells[..]))
  {
    ghost var before := cells[..];
    ghost var names := SlotThemes(before);
    for i := 0 to cells.Length
      invariant forall j :: 0 <= j < i ==> cells[j] == Mark(names, before[j], j)
      invariant forall j :: i <= j < cells.Length ==> cells[j] == before[j]
    {
      var cell := cells[i];
      if cell.slot.theme == "" {
        cells[i] := cell.(themeStart := false, themeEnd := false);
      } else {
        var prevTheme := if i > 0 then cells[i - 1].slot.theme else "";
        var nextTheme := if i < cells.Length - 1 then cells[i + 1].slot.theme else "";
        assert prevTheme == (if i > 0 then names[i - 1] else "");
        cells[i] := cell.(themeStart := cell.slot.theme != prevTheme, themeEnd := cell.slot.theme != nextTheme);
      }
    }
    assert cells[..] == MarkAll(before);
  }

  // ---------------------------------------------------------------------------
  // Week rows
  // ---------------------------------------------------------------------------

  function Flatten<T>(rows: seq<seq<T>>): seq<T>
  {
    if |rows| == 0 then [] else Flatten(rows[..|rows| - 1]) + rows[|rows| - 1]
  }

  function Blanks<T>(n: nat): (r: seq<Option<T>>)
    ensures |r| == n && forall i :: 0 <= i < n ==> r[i].None?
  {
    seq(n, _ => None)
  }

  function Somes<T>(s: seq<T>): (r: seq<Option<T>>)
    ensures |r| == |s| && forall i :: 0 <= i < |s| ==> r[i] == Some(s[i])
  {
    seq(|s|, i requires 0 <= i < |s| => Some(s[i]))
  }

  /** The blanks that complete the last row. */
  function Trail(lead: nat, n: nat): (t: nat)
    ensures t < 7 && (lead + n + t) % 7 == 0
  {
    (7 - (lead + n) % 7) % 7
  }

  /** The present entries of a row, blanks removed. */
  function Present<T>(s: seq<Option<T>>): seq<T>
  {
    if |s| == 0 then [] else Present(s[..|s| - 1]) + (if s[|s| - 1].Some? then [s[|s| - 1].value] else [])
  }

  lemma {:induction false} PresentAppend<T>(a: seq<Option<T>>, b: seq<Option<T>>)
    ensures Present(a + b) == Present(a) + Present(b)
    decreases |b|
  {
    if |b| == 0 {
      assert a + b == a;
    } else {
      assert (a + b)[..|a + b| - 1] == a + b[..|b| - 1];
      PresentAppend(a, b[..|b| - 1]);
    }
  }

  lemma {:induction false} PresentBlanks<T>(n: nat)
    ensures Present(Blanks<T>(n)) == []
  {
    if n > 0 {
      assert Blanks<T>(n)[..n - 1] == Blanks<T>(n - 1);
      PresentBlanks<T>(n - 1);
    }
  }

  lemma {:induction false} PresentSomes<T>(s: seq<T>)
    ensures Present(Somes(s)) == s
  {
    if |s| > 0 {
      assert Somes(s)[..|s| - 1] == Somes(s[..|s| - 1]);
      PresentSomes(s[..|s| - 1]);
    }
  }

  /** Removing the blanks from the laid-out month gives back the day cells, in order. */
  lemma PresentOfLayout<T>(lead: nat, cells: seq<T>, trail: nat)
    ensures Present(Blanks<T>(lead) + Somes(cells) + Blanks<T>(trail)) == cells
  {
    PresentAppend(Blanks<T>(lead) + Somes(cells), Blanks<T>(trail));
    PresentAppend(Blanks<T>(lead), Somes(cells));
    PresentBlanks<T>(lead);
    PresentBlanks<T>(trail);
    PresentSomes(cells);
  }

  /** The chunking loops: `lead` blanks, then the cells, cut into rows of 7, the last row
      padded with blanks. */
  method ChunkIntoWeeks<T>(lead: nat, cells: seq<T>) returns (weeks: seq<seq<Option<T>>>)
    requires lead < 7
    ensures forall w :: 0 <= w < |weeks| ==> |weeks[w]| == 7
    ensures Flatten(weeks) == Blanks(lead) + Somes(cells) + Blanks(Trail(lead, |cells|))
    ensures 7 * |weeks| == lead + |cells| + Trail(lead, |cells|)
  {
    var current;
    weeks, current := FillRows(lead, cells);
    ghost var t := Trail(lead, |cells|);
    TrailOfRemainder(lead, |cells|, |weeks|, |current|);
    if |current| > 0 {
      ghost var filled := current;
      while |current| < 7
        invariant |filled| <= |current| <= 7
        invariant current == filled + Blanks(|current| - |filled|)
        decreases 7 - |current|
      {
        current := current + [None];
      }
      assert current == filled + Blanks(t);
      FlattenAppend(weeks, current);
      assert Flatten(weeks) + current == (Flatten(weeks) + filled) + Blanks(t);
      weeks := weeks + [current];
    } else {
      assert Flatten(weeks) + current == Flatten(weeks);
      assert Blanks<T>(t) == [];
    }
  }

  /** The first two chunking loops: the full rows so far and the row being filled. */
  method FillRows<T>(lead: nat, cells: seq<T>) returns (weeks: seq<seq<Option<T>>>, current: seq<Option<T>>)
    requires lead < 7
    ensures forall w :: 0 <= w < |weeks| ==> |weeks[w]| == 7
    ensures |current| < 7 && lead + |cells| == 7 * |weeks| + |current|
    ensures Flatten(weeks) + current == Blanks(lead) + Somes(cells)
  {
    weeks := [];
    current := [];
    for k := 0 to lead
      invariant current == Blanks(k)
    {
      current := current + [None];
    }
    for i := 0 to |cells|
      invariant forall w :: 0 <= w < |weeks| ==> |weeks[w]| == 7
      invariant |current| < 7 && lead + i == 7 * |weeks| + |current|
      invariant Flatten(weeks) + current == Blanks(lead) + Somes(cells[..i])
    {
      SomesStep(cells, i);
      ghost var laid := Flatten(weeks) + current;
      current := current + [Some(cells[i])];
      assert Flatten(weeks) + current == laid + [Some(cells[i])];
      if |current| == 7 {
        FlattenAppend(weeks, current);
        weeks := weeks + [current];
        current := [];
        assert Flatten(weeks) + current == Flatten(weeks);
      }
    }
    assert cells[..|cells|] == cells;
  }

  lemma SomesStep<T>(cells: seq<T>, i: nat)
    requires i < |cells|
    ensures Somes(cells[..i + 1]) == Somes(cells[..i]) + [Some(cells[i])]
  {
    assert Somes(cells[..i + 1]) == Somes(cells[..i]) + [Some(cells[i])];
  }

  /** The trailing blanks complete the last, partly filled, row. */
  lemma TrailOfRemainder(lead: nat, n: nat, q: nat, r: nat)
    requires lead + n == 7 * q + r && r < 7
    ensures Trail(lead, n) == (if r == 0 then 0 else 7 - r)
  {
    Mod7Unique(lead + n, q, r);
    if r > 0 {
      Mod7Unique(7 - r, 0, 7 - r);
    }
  }

  lemma FlattenAppend<T>(rows: seq<seq<T>>, row: seq<T>)
    ensures Flatten(rows + [row]) == Flatten(rows) + row
  {
    assert (rows + [row])[..|rows|] == rows;
  }

  // ---------------------------------------------------------------------------
  // The calendar data and page
  // ---------------------------------------------------------------------------

  const MonthNames: seq<string> := ["", "January", "February", "March", "April", "May", "June",
                                    "July", "August", "September", "October", "November", "December"]

  datatype CalendarData = CalendarData(
    year: int, month: int, monthName: string, weeks: seq<seq<Option<Cell>>>,
    numProblems: nat, numDays: int, buffer: nat, themes: seq<WeeklyTheme>)

  /** Why a calendar page could not be built: `monthrange` rejected the month, `date()` the
      year, or the previous or next month falls outside years 1..9999. */
  datatype PageError = IllegalMonth | YearOutOfRange | Overflow

  /** The problems shown for a month: those whose key lies in the month's string window. */
  function MonthWindow(docs: seq<DailyProblem<TestCase>>, year: nat, month: nat): seq<DailyProblem<TestCase>>
  {
    var prefix := MonthPrefix(year, month);
    FindRange(docs, prefix + "-01", prefix + "-31")
  }

  /** The day cells `_get_calendar_data` lays out, flags set. */
  function CalendarCells(docs: seq<DailyProblem<TestCase>>, themes: seq<WeeklyTheme>, year: int, month: int, todayKey: string): seq<Cell>
    requires year >= 1 && 1 <= month <= 12
  {
    var recent := MostRecent(themes, 20);
    MarkAll(MonthCells(year, month, MonthWindow(docs, year, month), recent, ColorMap(ThemeNames(recent)), todayKey))
  }

  /** A cell shows the stored problem of its day, whether or not the window was consulted. */
  lemma CellProblemIsStored(docs: seq<DailyProblem<TestCase>>, themes: seq<WeeklyTheme>, year: int, month: int, today: Date, i: nat)
    requires UniqueIds(docs) && 1 <= year <= MaxYear && 1 <= month <= 12 && Valid(today)
    requires i < DaysInMonth(year, month)
    ensures CalendarCells(docs, themes, year, month, Format(today))[i].problem == Find(docs, Format(Date(year, month, i + 1)))
  {
    var recent := MostRecent(themes, 20);
    var prefix := MonthPrefix(year, month);
    CellsAreTheMonthsDays(year, month, MonthWindow(docs, year, month), recent, ColorMap(ThemeNames(recent)), today, i);
    FindInRange(docs, prefix + "-01", prefix + "-31", Format(Date(year, month, i + 1)));
  }

  /** Position `i` of the `n` most recent themes is position `|themes| - 1 - i` of the store. */
  lemma RecentPosition(themes: seq<WeeklyTheme>, n: nat, j: int)
    requires 0 <= j < |themes| && |themes| - n <= j
    ensures var i := |themes| - 1 - j; 0 <= i < |MostRecent(themes, n)| && MostRecent(themes, n)[i] == themes[j]
  {
  }

  /** Of the `n` most recent themes, a day shows no theme exactly when none covers it. */
  lemma NoCoveringShown(themes: seq<WeeklyTheme>, colors: map<string, string>, key: string, n: nat)
    ensures FindThemeForDate(MostRecent(themes, n), colors, key).themeId.None? <==>
              forall j :: 0 <= j < |themes| && |themes| - n <= j ==> !Covers(themes[j], key)
  {
    forall j | 0 <= j < |themes| && |themes| - n <= j
      ensures MostRecent(themes, n)[|themes| - 1 - j] == themes[j]
    {
      RecentPosition(themes, n, j);
    }
  }

  /** Of the `n` most recent themes, a day shows the newest one covering it. */
  lemma NewestCoveringShown(themes: seq<WeeklyTheme>, colors: map<string, string>, key: string, n: nat)
    ensures var r := FindThemeForDate(MostRecent(themes, n), colors, key);
      r.themeId.Some? ==>
        exists j :: 0 <= j < |themes| && |themes| - n <= j && Covers(themes[j], key) && r == SlotOf(themes[j], colors)
                    && forall k :: j < k < |themes| ==> !Covers(themes[k], key)
  {
    var rec := MostRecent(themes, n);
    var r := FindThemeForDate(rec, colors, key);
    if r.themeId.Some? {
      var i :| 0 <= i < |rec| && Covers(rec[i], key) && r == SlotOf(rec[i], colors)
               && forall j :: 0 <= j < i ==> !Covers(rec[j], key);
      var j := |themes| - 1 - i;
      assert rec[i] == themes[j];
      forall k | j < k < |themes|
        ensures !Covers(themes[k], key)
      {
        RecentPosition(themes, n, k);
      }
    }
  }

  /** Each day of the calendar shows the newest of the 20 most recent themes whose range
      covers it. */
  lemma CellShowsNewestTheme(docs: seq<DailyProblem<TestCase>>, themes: seq<WeeklyTheme>, year: int, month: int, todayKey: string, i: nat)
    requires year >= 1 && 1 <= month <= 12 && i < DaysInMonth(year, month)
    ensures var c := CalendarCells(docs, themes, year, month, todayKey)[i];
      var key := Format(Date(year, month, i + 1));
      var colors := ColorMap(ThemeNames(MostRecent(themes, 20)));
      && (c.slot.themeId.None? <==> forall j :: 0 <= j < |themes| && |themes| - 20 <= j ==> !Covers(themes[j], key))
      && (c.slot.themeId.Some? ==>
            exists j :: 0 <= j < |themes| && |themes| - 20 <= j && Covers(themes[j], key) && c.slot == SlotOf(themes[j], colors)
                        && forall k :: j < k < |themes| ==> !Covers(themes[k], key))
  {
    var recent := MostRecent(themes, 20);
    var colors := ColorMap(ThemeNames(recent));
    var cells := MonthCells(year, month, MonthWindow(docs, year, month), recent, colors, todayKey);
    assert CalendarCells(docs, themes, year, month, todayKey)[i].slot == cells[i].slot;
    NoCoveringShown(themes, colors, Format(Date(year, month, i + 1)), 20);
    NewestCoveringShown(themes, colors, Format(Date(year, month, i + 1)), 20);
  }

  lemma DistinctNamesOfTwo(x: string, y: string)
    requires x != y
    ensures DistinctNames([x, y]) == [x, y]
  {
    assert [x][..0] == [];
    assert DistinctNames([x]) == [x];
    assert [x, y][..1] == [x];
  }

  /** As written, `find_all(sort=[("-generated_at", -1)], limit=20)` keeps natural order: of
      two themes covering the same day, the older one is shown and takes the first colour. */
  lemma OverlapShowsOlderAsWritten(a: WeeklyTheme, b: WeeklyTheme, key: string)
    requires a.theme != b.theme && Covers(a, key) && Covers(b, key)
    ensures var listed := FirstRecords([a, b], 20);
      var colors := ColorMap(ThemeNames(listed));
      && FindThemeForDate(listed, colors, key) == SlotOf(a, colors)
      && colors[a.theme] == Palette[0]
    ensures var listed := MostRecent([a, b], 20);
      var colors := ColorMap(ThemeNames(listed));
      && FindThemeForDate(listed, colors, key) == SlotOf(b, colors)
      && colors[b.theme] == Palette[0]
  {
    var listed := FirstRecords([a, b], 20);
    assert listed == [a, b];
    assert FirstCovering(listed, key, 0) == Some(0);
    DistinctNamesOfTwo(a.theme, b.theme);
    assert ThemeNames(listed) == [a.theme, b.theme];
    var recent := MostRecent([a, b], 20);
    assert recent == [b, a];
    assert FirstCovering(recent, key, 0) == Some(0);
    DistinctNamesOfTwo(b.theme, a.theme);
    assert ThemeNames(recent) == [b.theme, a.theme];
  }

  /** `_get_calendar_data(year, month)` against the two collections. */
  method GetCalendarData(problems: ProblemCollection<TestCase>, themes: ThemeCollection<WeeklyTheme>,
                         year: int, month: int, today: Date)
    returns (r: Result<CalendarData, PageError>)
    requires problems.Valid() && Valid(today) && year >= 1
    ensures !(1 <= month <= 12) ==> r == Err(IllegalMonth)
    ensures (1 <= month <= 12) <==> r.Ok?
    ensures r.Ok? ==>
      var data := r.value;
      var recent := MostRecent(themes.docs, 20);
      var lead := Weekday(Date(year, month, 1));
      var cells := CalendarCells(problems.docs, themes.docs, year, month, Format(today));
      && data.year == year && data.month == month && data.monthName == MonthNames[month]
      && data.numDays == DaysInMonth(year, month) == |cells|
      && data.numProblems == |MonthWindow(problems.docs, year, month)|
      && data.buffer == BufferDepth(problems.docs, Format(today))
      && data.themes == recent[..if |recent| < 10 then |recent| else 10]
      && (forall w :: 0 <= w < |data.weeks| ==> |data.weeks[w]| == 7)
      && Flatten(data.weeks) == Blanks(lead) + Somes(cells) + Blanks(Trail(lead, |cells|))
  {
    if !(1 <= month <= 12) {
      return Err(IllegalMonth);
    }
    var window := MonthWindow(problems.docs, year, month);
    var recent := MostRecent(themes.docs, 20);
    var colors := AssignColors(recent);
    var todayKey := Format(today);
    var lead := Weekday(Date(year, month, 1));
    var cells := BuildCells(year, month, window, recent, colors, todayKey);
    MarkBoundaries(cells);
    var weeks := ChunkIntoWeeks(lead, cells[..]);
    var buffer := BufferDepth(problems.docs, todayKey);
    var shown := recent[..if |recent| < 10 then |recent| else 10];
    return Ok(CalendarData(year, month, MonthNames[month], weeks, |window|, cells.Length, buffer, shown));
  }

  /** `date(y, m, d) - timedelta(days=1)`, before Python's range check. */
  function PrevDay(d: Date): (r: Date)
    requires InCalendar(d) && (d.year > 1 || d.month > 1 || d.day > 1)
    ensures InCalendar(r)
  {
    if d.day > 1 then Date(d.year, d.month, d.day - 1)
    else if d.month > 1 then Date(d.year, d.month - 1, DaysInMonth(d.year, d.month - 1))
    else Date(d.year - 1, 12, 31)
  }

  /** Going back a day and forward again returns to the same day. */
  lemma NextOfPrevDay(d: Date)
    requires InCalendar(d) && (d.year > 1 || d.month > 1 || d.day > 1)
    ensures NextDay(PrevDay(d)) == d
  {
  }

  /** Four days after the 28th is a day early in the next month. */
  lemma AfterThe28th(year: int, month: int)
    requires year >= 1 && 1 <= month <= 12
    ensures var n := AddDays(Date(year, month, 28), 4);
      1 <= n.day <= 4 && (if month == 12 then n.year == year + 1 && n.month == 1 else n.year == year && n.month == month + 1)
  {
    var d := Date(year, month, 28);
    assert AddDays(d, 1) == NextDay(d);
    assert AddDays(d, 2) == NextDay(AddDays(d, 1));
    assert AddDays(d, 3) == NextDay(AddDays(d, 2));
    assert AddDays(d, 4) == NextDay(AddDays(d, 3));
  }

  /** The previous-month and next-month links of a month page, and when they exist. */
  lemma MonthLinks(y: int, m: int)
    requires 1 <= y <= MaxYear && 1 <= m <= 12
    ensures Date(y, m, 1) != Date(1, 1, 1) ==>
      var prev := PrevDay(Date(y, m, 1));
      if m == 1 then prev.year == y - 1 && prev.month == 12 else prev.year == y && prev.month == m - 1
    ensures var next := AddDays(Date(y, m, 28), 4);
      && (Valid(next) <==> !(y == MaxYear && m == 12))
      && (if m == 12 then next.year == y + 1 && next.month == 1 else next.year == y && next.month == m + 1)
  {
    AfterThe28th(y, m);
  }

  datatype CalendarPage = CalendarPage(data: CalendarData, prevYear: int, prevMonth: int, nextYear: int, nextMonth: int)

  /** `calendar_page`: a missing or zero year or month means the current one; the links go
      to the previous and the next month. */
  method ShowCalendar(problems: ProblemCollection<TestCase>, themes: ThemeCollection<WeeklyTheme>,
                      year: Option<int>, month: Option<int>, today: Date)
    returns (r: Result<CalendarPage, PageError>)
    requires problems.Valid() && Valid(today)
    ensures var y := if year.None? || year.value == 0 then today.year else year.value;
            var m := if month.None? || month.value == 0 then today.month else month.value;
      && (r.Ok? <==> 1 <= m <= 12 && 1 <= y <= MaxYear && !(y == 1 && m == 1) && !(y == MaxYear && m == 12))
      && (r.Ok? ==>
            && r.value.data.year == y && r.value.data.month == m
            && (if m == 1 then r.value.prevYear == y - 1 && r.value.prevMonth == 12
                else r.value.prevYear == y && r.value.prevMonth == m - 1)
            && (if m == 12 then r.value.nextYear == y + 1 && r.value.nextMonth == 1
                else r.value.nextYear == y && r.value.nextMonth == m + 1))
  {
    var y := if year.None? || year.value == 0 then today.year else year.value;
    var m := if month.None? || month.value == 0 then today.month else month.value;
    if !(1 <= m <= 12) {
      return Err(IllegalMonth);
    }
    if !(1 <= y <= MaxYear) {
      return Err(YearOutOfRange);
    }
    var data := GetCalendarData(problems, themes, y, m, today);
    var first := Date(y, m, 1);
    if first == Date(1, 1, 1) {
      return Err(PageError.Overflow);
    }
    var prev := PrevDay(first);
    var next := AddDays(Date(y, m, 28), 4);
    MonthLinks(y, m);
    if !Valid(next) {
      return Err(PageError.Overflow);
    }
    return Ok(CalendarPage(data.value, prev.year, prev.month, next.year, next.month));
  }
}
