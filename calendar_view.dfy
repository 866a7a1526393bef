/** The month calendar (components/CalendarView.js): planned events and
    completed activities indexed by their local date, the day-cell chips, and
    the training-camp, travel and race days. */
module CalendarView {
  import opened Js
  import opened Strings
  import opened Grouping

  datatype Kind = Planned | Actual

  /** An event or activity record. Only the fields the calendar reads are
      named; `{ ...e, kind }` copies the record whole, so a tagged entry wraps
      it unchanged. */
  datatype Entry = Entry(startDateLocal: Text, startDate: Text, name: Text, icuTrainingLoad: Num)

  datatype Tagged = Tagged(kind: Kind, entry: Entry)

  /** `a || b || ''` for text fields. */
  function FirstText(a: Text, b: Text): (s: string)
    ensures TruthyText(a) ==> s == a.value
    ensures !TruthyText(a) && TruthyText(b) ==> s == b.value
    ensures !TruthyText(a) && !TruthyText(b) ==> s == ""
  {
    if TruthyText(a) then a.value else if TruthyText(b) then b.value else ""
  }

  /** The key of a planned event: the date part of `start_date_local`, else of `start_date`. */
  function EventKey(e: Entry): string {
    BeforeT(FirstText(e.startDateLocal, e.startDate))
  }

  /** The key of an activity: the date part of `start_date_local` only. */
  function ActivityKey(a: Entry): string {
    BeforeT(FirstText(a.startDateLocal, None))
  }

  function KeyFn(kind: Kind): Entry -> string {
    if kind.Planned? then EventKey else ActivityKey
  }

  /** The records of a group, tagged with their kind. */
  function Tag(kind: Kind, g: seq<Entry>): (r: seq<Tagged>)
    ensures |r| == |g|
    ensures forall i :: 0 <= i < |g| ==> r[i] == Tagged(kind, g[i])
  {
    if g == [] then [] else Tag(kind, g[..|g| - 1]) + [Tagged(kind, g[|g| - 1])]
  }

  /** `eventsByDate` (kind `Planned`) or `actByDate` (kind `Actual`) after the
      records `xs`, record by record. */
  function Index(kind: Kind, xs: seq<Entry>): map<string, seq<Tagged>> {
    if xs == [] then map[]
    else
      var m := Index(kind, xs[..|xs| - 1]);
      var x := xs[|xs| - 1];
      var d := KeyFn(kind)(x);
      if d == "" then m else m[d := (if d in m then m[d] else []) + [Tagged(kind, x)]]
  }

  /** The indexing loop: records with an empty key are skipped, the others
      are appended to the list of their key. */
  method IndexByDate(kind: Kind, xs: seq<Entry>) returns (byDate: map<string, seq<Tagged>>)
    ensures byDate == Index(kind, xs)
  {
    byDate := map[];
    for i := 0 to |xs|
      invariant byDate == Index(kind, xs[..i])
    {
      assert xs[..i + 1][..i] == xs[..i];
      var x := xs[i];
      var d := KeyFn(kind)(x);
      if d != "" {
        if d !in byDate {
          byDate := byDate[d := []];
        }
        byDate := byDate[d := byDate[d] + [Tagged(kind, x)]];
      }
    }
    assert xs[..|xs|] == xs;
  }

  // ---------------------------------------------------------------------------
  // What the index holds

  lemma TagSnoc(kind: Kind, g: seq<Entry>, x: Entry)
    ensures Tag(kind, g + [x]) == Tag(kind, g) + [Tagged(kind, x)]
  {
    assert (g + [x])[..|g|] == g;
  }

  /** A date has a list exactly when some record has that non-empty key, and
      the list holds those records, in input order, tagged. */
  lemma {:induction false} IndexIsGroups(kind: Kind, xs: seq<Entry>, k: string)
    ensures k in Index(kind, xs) <==> k != "" && Group(xs, KeyFn(kind), k) != []
    ensures k in Index(kind, xs) ==> Index(kind, xs)[k] == Tag(kind, Group(xs, KeyFn(kind), k))
  {
    if xs != [] {
      var init, x := xs[..|xs| - 1], xs[|xs| - 1];
      assert xs == init + [x];
      IndexIsGroups(kind, init, k);
      GroupSnoc(init, x, KeyFn(kind), k);
      if KeyFn(kind)(x) == k && k != "" {
        TagSnoc(kind, Group(init, KeyFn(kind), k), x);
      }
    }
  }

  /** A non-empty group is one that some record's key selects. */
  lemma GroupNonEmpty(xs: seq<Entry>, key: Entry -> string, k: string)
    ensures Group(xs, key, k) != [] <==> exists i :: 0 <= i < |xs| && key(xs[i]) == k
  {
    if exists i :: 0 <= i < |xs| && key(xs[i]) == k {
      var i :| 0 <= i < |xs| && key(xs[i]) == k;
      InGroup(xs, key, i);
    }
  }

  /** The dates that have a list are the non-empty keys of the records. */
  lemma IndexKeys(kind: Kind, xs: seq<Entry>, k: string)
    ensures k in Index(kind, xs) <==> k != "" && exists i :: 0 <= i < |xs| && KeyFn(kind)(xs[i]) == k
  {
    IndexIsGroups(kind, xs, k);
    GroupNonEmpty(xs, KeyFn(kind), k);
  }

  /** Every record with a non-empty key lands in the list of its own key. */
  lemma RecordInOwnList(kind: Kind, xs: seq<Entry>, i: nat)
    requires i < |xs| && KeyFn(kind)(xs[i]) != ""
    ensures KeyFn(kind)(xs[i]) in Index(kind, xs)
    ensures Tagged(kind, xs[i]) in Index(kind, xs)[KeyFn(kind)(xs[i])]
  {
    var d := KeyFn(kind)(xs[i]);
    IndexIsGroups(kind, xs, d);
    InGroup(xs, KeyFn(kind), i);
    var g := Group(xs, KeyFn(kind), d);
    var j :| 0 <= j < |g| && g[j] == xs[i];
    assert Index(kind, xs)[d][j] == Tagged(kind, xs[i]);
  }

  /** No record is in the list of another date; in particular a record with
      an empty key is in no list. */
  lemma RecordInNoOtherList(kind: Kind, xs: seq<Entry>, x: Entry, k: string)
    requires k in Index(kind, xs) && k != KeyFn(kind)(x)
    ensures Tagged(kind, x) !in Index(kind, xs)[k]
  {
    IndexIsGroups(kind, xs, k);
  }

  /** Activities are keyed by `start_date_local` alone: one that only has
      `start_date` is not on the calendar, where an event would be. */
  lemma ActivitiesIgnoreStartDate(e: Entry)
    requires !TruthyText(e.startDateLocal) && TruthyText(e.startDate)
    ensures ActivityKey(e) == ""
    ensures EventKey(e) == BeforeT(e.startDate.value)
  {
  }

  // ---------------------------------------------------------------------------
  // Day cells

  /** `list.slice(0, 2)`: the chips a day cell shows. */
  function Chips(list: seq<Tagged>): (c: seq<Tagged>)
    ensures |c| == if |list| < 2 then |list| else 2
    ensures c == list[..|c|]
  {
    if |list| < 2 then list else list[..2]
  }

  /** `byDate[key] || []`, cut to its chips. */
  function CellChips(byDate: map<string, seq<Tagged>>, key: string): seq<Tagged> {
    Chips(if key in byDate then byDate[key] else [])
  }

  /** A day cell shows the first (at most two) records of that day, in input order. */
  lemma CellShowsFirstTwo(kind: Kind, xs: seq<Entry>, day: string)
    requires day != ""
    ensures var g := Group(xs, KeyFn(kind), day);
            CellChips(Index(kind, xs), day) == Tag(kind, g)[..if |g| < 2 then |g| else 2]
  {
    IndexIsGroups(kind, xs, day);
  }

  // ---------------------------------------------------------------------------
  // Camp, travel and race days, on `yyyy-MM-dd` strings

  predicate IsCalpeDay(d: string) {
    LexLe("2026-02-21", d) && LexLe(d, "2026-03-02")
  }

  predicate IsTravelDay(d: string) {
    d == "2026-02-20" || d == "2026-03-03"
  }

  predicate IsRaceDay(d: string) {
    d == "2026-03-08"
  }

  /** A shared prefix does not decide the order. */
  lemma {:induction false} LexLeCommonPrefix(p: string, a: string, b: string)
    ensures LexLe(p + a, p + b) <==> LexLe(a, b)
  {
    if p != [] {
      assert (p + a)[1..] == p[1..] + a;
      assert (p + b)[1..] == p[1..] + b;
      LexLeCommonPrefix(p[1..], a, b);
    } else {
      assert p + a == a && p + b == b;
    }
  }

  /** Camp days are the days from 2026-02-21 to 2026-03-02, both included. */
  lemma CampBounds()
    ensures IsCalpeDay("2026-02-21") && IsCalpeDay("2026-03-02")
  {
    LexLeReflexive("2026-02-21");
    LexLeReflexive("2026-03-02");
    LexLeCommonPrefix("2026-0", "2-21", "3-02");
  }

  /** No day is two of camp, travel and race day: the travel days sit just
      outside the camp and the race comes after it. */
  lemma DayKindsDisjoint(d: string)
    ensures !(IsCalpeDay(d) && IsTravelDay(d))
    ensures !(IsCalpeDay(d) && IsRaceDay(d))
    ensures !(IsTravelDay(d) && IsRaceDay(d))
  {
    assert "2026-02-21" == "2026-02-2" + "1" && "2026-02-20" == "2026-02-2" + "0";
    LexLeCommonPrefix("2026-02-2", "1", "0");
    assert "2026-03-03" == "2026-03-0" + "3" && "2026-03-02" == "2026-03-0" + "2";
    LexLeCommonPrefix("2026-03-0", "3", "2");
    assert "2026-03-08" == "2026-03-0" + "8";
    LexLeCommonPrefix("2026-03-0", "8", "2");
  }
}
