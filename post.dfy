/** format_hearings_grouped from post.py: the report of hearings grouped
    under their dates.  The first loop fills `by_date`, a dict from each date
    to the rows on it in input order; the second writes each date, in sorted
    order, followed by one bullet per row and a blank line; the lines are
    joined and the trailing whitespace stripped.  The text is returned
    instead of printed. */
module Post {
  import opened Wrappers
  import opened Seqs
  import Text

  /** One row handed to the formatter: `(date_str, committee, title, url, status)`. */
  datatype HearingRow = HearingRow(date: string, committee: Option<string>, title: Option<string>,
                                   url: Option<string>, status: Option<string>)

  /** What `by_date` keeps for a row: `(committee, title, url, status)`. */
  datatype Item = Item(committee: Option<string>, title: Option<string>, url: Option<string>,
                       status: Option<string>)

  function ItemOf(r: HearingRow): Item
  {
    Item(r.committee, r.title, r.url, r.status)
  }

  function Items(rows: seq<HearingRow>): (r: seq<Item>)
    ensures |r| == |rows| && forall k :: 0 <= k < |rows| ==> r[k] == ItemOf(rows[k])
  {
    Map(ItemOf, rows)
  }

  /** A field in an f-string: a NULL column prints as `None`. */
  function Show(v: Option<string>): string
  {
    match v
    case None => "None"
    case Some(s) => s
  }

  /** `• {status}: {committee} | {title}`.  The URL is not part of it. */
  function Bullet(it: Item): (r: string)
    ensures |r| >= 2 + |Show(it.status)| + |Show(it.title)|
    ensures r[..2] == "\U{2022} " && r[2..2 + |Show(it.status)|] == Show(it.status)
    ensures r[|r| - |Show(it.title)|..] == Show(it.title)
  {
    "\U{2022} " + Show(it.status) + ": " + Show(it.committee) + " | " + Show(it.title)
  }

  function Bullets(items: seq<Item>): (r: seq<string>)
    ensures |r| == |items| && forall k :: 0 <= k < |items| ==> r[k] == Bullet(items[k])
  {
    Map(Bullet, items)
  }

  // ─── The first loop: by_date ───────────────────────────────────────────────

  /** The dates the rows carry. */
  function RowDates(rows: seq<HearingRow>): set<string>
  {
    if rows == [] then {} else RowDates(rows[..|rows| - 1]) + {rows[|rows| - 1].date}
  }

  /** The keys of `by_date`, in the order the dict holds them: each date
      where it first occurs. */
  function DatesInOrder(rows: seq<HearingRow>): (r: seq<string>)
    ensures Distinct(r) && Elements(r) == RowDates(rows)
  {
    if rows == [] then []
    else
      var n := |rows| - 1;
      var init := DatesInOrder(rows[..n]);
      if rows[n].date in init then init else init + [rows[n].date]
  }

  /** The rows dated `d`, in input order: what `by_date[d]` is built from. */
  function RowsOn(rows: seq<HearingRow>, d: string): (r: seq<HearingRow>)
    ensures forall k :: 0 <= k < |r| ==> r[k].date == d
    ensures r == [] <==> d !in RowDates(rows)
  {
    if rows == [] then []
    else
      var n := |rows| - 1;
      RowsOn(rows[..n], d) + (if rows[n].date == d then [rows[n]] else [])
  }

  /** `by_date[d]` once every row has been added. */
  function ItemsOn(rows: seq<HearingRow>, d: string): seq<Item>
  {
    Items(RowsOn(rows, d))
  }

  // ─── sorted(by_date) ───────────────────────────────────────────────────────

  /** In the order `sorted` leaves its result: no element below an earlier one. */
  predicate Ascending(s: seq<string>)
  {
    forall i, j :: 0 <= i < j < |s| ==> !Text.Less(s[j], s[i])
  }

  predicate StrictlyAscending(s: seq<string>)
  {
    forall i, j :: 0 <= i < j < |s| ==> Text.Less(s[i], s[j])
  }

  function Insert(d: string, s: seq<string>): (r: seq<string>)
    ensures multiset(r) == multiset(s) + multiset{d}
  {
    if s == [] || Text.Less(d, s[0]) then [d] + s
    else
      assert s == [s[0]] + s[1..];
      [s[0]] + Insert(d, s[1..])
  }

  /** `sorted` on a list of `str`: the same elements, ordered by `<`. */
  function SortDates(ds: seq<string>): (r: seq<string>)
    ensures multiset(r) == multiset(ds)
  {
    if ds == [] then []
    else
      assert ds == [ds[0]] + ds[1..];
      Insert(ds[0], SortDates(ds[1..]))
  }

  lemma {:induction false} InsertAscending(d: string, s: seq<string>)
    requires Ascending(s)
    ensures Ascending(Insert(d, s))
  {
    if s == [] {
    } else if Text.Less(d, s[0]) {
      InsertAtFront(d, s);
    } else {
      InsertAscending(d, s[1..]);
      InsertBehind(d, s, Insert(d, s[1..]));
    }
  }

  /** A date below the head of an ascending list can go first. */
  lemma InsertAtFront(d: string, s: seq<string>)
    requires Ascending(s) && s != [] && Text.Less(d, s[0])
    ensures Ascending([d] + s)
  {
    var r := [d] + s;
    forall i, j | 0 <= i < j < |r| ensures !Text.Less(r[j], r[i]) {
      if i == 0 {
        if j == 1 {
          Text.LessAsymmetric(d, s[0]);
        } else if Text.Less(r[j], d) {
          assert r[j] == s[j - 1];
          Text.LessTransitive(r[j], d, s[0]);
          assert false;
        }
      } else {
        assert r[i] == s[i - 1] && r[j] == s[j - 1];
      }
    }
  }

  /** The head of an ascending list stays in front of `t`, the rest with
      the date added, when the date is not below it. */
  lemma InsertBehind(d: string, s: seq<string>, t: seq<string>)
    requires Ascending(s) && s != [] && !Text.Less(d, s[0])
    requires Ascending(t) && multiset(t) == multiset(s[1..]) + multiset{d}
    ensures Ascending([s[0]] + t)
  {
    var r := [s[0]] + t;
    forall j | 0 < j < |r| ensures !Text.Less(r[j], s[0]) {
      var x := r[j];
      assert x == t[j - 1];
      assert x in multiset(t);
      if x != d {
        assert x in multiset(s[1..]);
        var m :| 0 <= m < |s[1..]| && s[1..][m] == x;
        assert s[m + 1] == x;
      }
    }
    forall i, j | 0 <= i < j < |r| ensures !Text.Less(r[j], r[i]) {
      if i > 0 {
        assert r[i] == t[i - 1] && r[j] == t[j - 1];
      }
    }
  }

  lemma {:induction false} SortDatesAscending(ds: seq<string>)
    ensures Ascending(SortDates(ds))
  {
    if ds != [] {
      SortDatesAscending(ds[1..]);
      InsertAscending(ds[0], SortDates(ds[1..]));
    }
  }

  /** A rearrangement of a list without repeats has no repeats. */
  lemma PermutationKeepsDistinct(s: seq<string>, t: seq<string>)
    requires Distinct(s) && multiset(s) == multiset(t)
    ensures Distinct(t)
  {
    forall i, j | 0 <= i < j < |t| ensures t[i] != t[j] {
      if t[i] == t[j] {
        var x := t[i];
        assert t == t[..j] + t[j..];
        assert x in t[..j] && x in t[j..];
        assert multiset(t)[x] == multiset(t[..j])[x] + multiset(t[j..])[x];
        DistinctOccursOnce(s, x);
        assert false;
      }
    }
  }

  /** Without repeats, an ascending list is strictly ascending. */
  lemma DistinctAscending(s: seq<string>)
    requires Distinct(s) && Ascending(s)
    ensures StrictlyAscending(s)
  {
    forall i, j | 0 <= i < j < |s| ensures Text.Less(s[i], s[j]) {
      Text.LessTotal(s[i], s[j]);
    }
  }

  /** The date headers: every date of the input exactly once, in ascending
      order. */
  lemma SortedHeaders(rows: seq<HearingRow>)
    ensures var ds := SortDates(DatesInOrder(rows));
      StrictlyAscending(ds) && Distinct(ds) && Elements(ds) == RowDates(rows)
  {
    var keys := DatesInOrder(rows);
    var ds := SortDates(keys);
    SortDatesAscending(keys);
    PermutationKeepsDistinct(keys, ds);
    DistinctAscending(ds);
    forall x ensures x in ds <==> x in keys {
      assert x in ds <==> x in multiset(ds);
      assert x in keys <==> x in multiset(keys);
    }
  }

  // ─── The second loop: output ───────────────────────────────────────────────

  /** The lines one date contributes: its header, one bullet per row, and a
      blank line. */
  function Block(d: string, items: seq<Item>): seq<string>
  {
    [d] + Bullets(items) + [""]
  }

  /** `output` once the dates `ds` have been written. */
  function Blocks(rows: seq<HearingRow>, ds: seq<string>): (r: seq<string>)
    ensures |r| >= 2 * |ds|
    ensures ds != [] ==> r[0] == ds[0] && r[|r| - 1] == ""
  {
    if ds == [] then []
    else Blocks(rows, ds[..|ds| - 1]) + Block(ds[|ds| - 1], ItemsOn(rows, ds[|ds| - 1]))
  }

  /** The text format_hearings_grouped prints: it never ends in whitespace,
      and no rows give the empty text. */
  function Grouped(rows: seq<HearingRow>): (r: string)
    ensures r == [] || !Text.IsSpace(r[|r| - 1])
    ensures rows == [] ==> r == []
  {
    Text.RStrip(Text.Join("\n", Blocks(rows, SortDates(DatesInOrder(rows)))))
  }

  /** `by_date` and the order of its keys once the rows `done` are in. */
  ghost predicate ByDate(done: seq<HearingRow>, keys: seq<string>, byDate: map<string, seq<Item>>)
  {
    keys == DatesInOrder(done) && byDate.Keys == RowDates(done) &&
    forall d :: d in byDate ==> byDate[d] == ItemsOn(done, d)
  }

  /** One turn of the first loop: the row is appended to its date's list,
      which is created (and its key added) when the date is new. */
  lemma AddRow(done: seq<HearingRow>, keys: seq<string>, byDate: map<string, seq<Item>>, r: HearingRow)
    requires ByDate(done, keys, byDate)
    ensures var items := if r.date in byDate then byDate[r.date] else [];
      ByDate(done + [r], if r.date in byDate then keys else keys + [r.date], byDate[r.date := items + [ItemOf(r)]])
  {
    AddRowKeys(done, keys, byDate.Keys, r);
    AddRowItems(done, byDate, r);
  }

  lemma AddRowKeys(done: seq<HearingRow>, keys: seq<string>, present: set<string>, r: HearingRow)
    requires keys == DatesInOrder(done) && present == RowDates(done)
    ensures DatesInOrder(done + [r]) == if r.date in present then keys else keys + [r.date]
    ensures RowDates(done + [r]) == present + {r.date}
  {
    assert (done + [r])[..|done|] == done;
  }

  lemma AddRowItems(done: seq<HearingRow>, byDate: map<string, seq<Item>>, r: HearingRow)
    requires byDate.Keys == RowDates(done) && forall d :: d in byDate ==> byDate[d] == ItemsOn(done, d)
    ensures var items := if r.date in byDate then byDate[r.date] else [];
      var byDate' := byDate[r.date := items + [ItemOf(r)]];
      forall d :: d in byDate' ==> byDate'[d] == ItemsOn(done + [r], d)
  {
    var items := if r.date in byDate then byDate[r.date] else [];
    var byDate' := byDate[r.date := items + [ItemOf(r)]];
    var done' := done + [r];
    forall d | d in byDate' ensures byDate'[d] == ItemsOn(done', d) {
      RowsOnSnoc(done, r, d);
      if d == r.date {
        ItemsSnoc(RowsOn(done, d), r);
        assert ItemsOn(done', d) == ItemsOn(done, d) + [ItemOf(r)];
        if d !in byDate {
          assert RowsOn(done, d) == [];
        }
      } else {
        assert RowsOn(done', d) == RowsOn(done, d);
      }
    }
  }

  lemma SliceSnoc(rows: seq<HearingRow>, i: nat)
    requires i < |rows|
    ensures rows[..i + 1] == rows[..i] + [rows[i]]
  {
  }

  lemma ItemsSnoc(rows: seq<HearingRow>, r: HearingRow)
    ensures Items(rows + [r]) == Items(rows) + [ItemOf(r)]
  {
    assert (rows + [r])[..|rows|] == rows;
  }

  /** The first loop of format_hearings_grouped: `by_date` and the order
      of its keys. */
  method GroupByDate(rows: seq<HearingRow>) returns (keys: seq<string>, byDate: map<string, seq<Item>>)
    ensures keys == DatesInOrder(rows) && byDate.Keys == RowDates(rows)
    ensures forall d :: d in byDate ==> byDate[d] == ItemsOn(rows, d)
  {
    keys := [];
    byDate := map[];
    for i := 0 to |rows|
      invariant ByDate(rows[..i], keys, byDate)
    {
      var r := rows[i];
      AddRow(rows[..i], keys, byDate, r);
      SliceSnoc(rows, i);
      var items := if r.date in byDate then byDate[r.date] else [];
      if r.date !in byDate {
        keys := keys + [r.date];
      }
      byDate := byDate[r.date := items + [ItemOf(r)]];
    }
    assert rows[..|rows|] == rows;
  }

  /** `sorted` keeps the keys it is given. */
  lemma SortedKeys(keys: seq<string>)
    ensures forall x :: x in SortDates(keys) ==> x in keys
  {
    forall x | x in SortDates(keys) ensures x in keys {
      assert x in multiset(SortDates(keys));
    }
  }

  lemma BlocksSnoc(rows: seq<HearingRow>, ds: seq<string>, j: nat)
    requires j < |ds|
    ensures Blocks(rows, ds[..j + 1]) == Blocks(rows, ds[..j]) + Block(ds[j], ItemsOn(rows, ds[j]))
  {
    assert ds[..j + 1][..j] == ds[..j];
  }

  lemma AddBullet(head: seq<string>, items: seq<Item>, k: nat)
    requires k < |items|
    ensures head + Bullets(items[..k]) + [Bullet(items[k])] == head + Bullets(items[..k + 1])
  {
    assert items[..k + 1][..k] == items[..k];
  }

  lemma CloseBlock(done: seq<string>, d: string, items: seq<Item>)
    ensures done + [d] + Bullets(items) + [""] == done + Block(d, items)
  {
    var b := Bullets(items);
    AppendAssoc(done, [d], b);
    AppendAssoc(done, [d] + b, [""]);
  }

  /** One turn of the second loop: the date, a bullet per row of that
      date, and the blank line, appended to `output`. */
  method WriteGroup(output: seq<string>, d: string, items: seq<Item>) returns (out: seq<string>)
    ensures out == output + Block(d, items)
  {
    out := output + [d];
    for k := 0 to |items|
      invariant out == output + [d] + Bullets(items[..k])
    {
      AddBullet(output + [d], items, k);
      out := out + [Bullet(items[k])];
    }
    assert items[..|items|] == items;
    CloseBlock(output, d, items);
    out := out + [""];
  }

  /** The second loop of format_hearings_grouped: for each date of `dates`,
      in order, its header, its bullets and a blank line. */
  method WriteGroups(rows: seq<HearingRow>, byDate: map<string, seq<Item>>, dates: seq<string>)
    returns (output: seq<string>)
    requires forall d :: d in dates ==> d in byDate && byDate[d] == ItemsOn(rows, d)
    ensures output == Blocks(rows, dates)
  {
    output := [];
    for j := 0 to |dates|
      invariant output == Blocks(rows, dates[..j])
    {
      BlocksSnoc(rows, dates, j);
      output := WriteGroup(output, dates[j], byDate[dates[j]]);
    }
    assert dates[..|dates|] == dates;
  }

  /** format_hearings_grouped, returning what it prints. */
  method FormatHearingsGrouped(rows: seq<HearingRow>) returns (text: string)
    ensures text == Grouped(rows)
  {
    var keys, byDate := GroupByDate(rows);
    var dates := SortDates(keys);
    SortedKeys(keys);
    var output := WriteGroups(rows, byDate, dates);
    text := Text.RStrip(Text.Join("\n", output));
  }

  // ─── Every row once, under its own date ────────────────────────────────────

  /** The rows in the order their bullets appear under the dates `ds`. */
  function RowsUnder(rows: seq<HearingRow>, ds: seq<string>): seq<HearingRow>
  {
    if ds == [] then [] else RowsUnder(rows, ds[..|ds| - 1]) + RowsOn(rows, ds[|ds| - 1])
  }

  /** Within one date, rows keep their input order: the rows of `a + b` on a
      date are those of `a`, then those of `b`. */
  lemma {:induction false} RowsOnAppend(a: seq<HearingRow>, b: seq<HearingRow>, d: string)
    ensures RowsOn(a + b, d) == RowsOn(a, d) + RowsOn(b, d)
  {
    if b == [] {
      assert a + b == a;
    } else {
      var n := |b| - 1;
      var tail := if b[n].date == d then [b[n]] else [];
      AppendSnoc(a, b);
      RowsOnAppend(a, b[..n], d);
      RowsOnSnoc(a + b[..n], b[n], d);
      RowsOnSnoc(b[..n], b[n], d);
      AppendAssoc(RowsOn(a, d), RowsOn(b[..n], d), tail);
    }
  }

  /** Adding one row extends only its own date's list. */
  lemma RowsOnSnoc(rows: seq<HearingRow>, r: HearingRow, d: string)
    ensures RowsOn(rows + [r], d) == RowsOn(rows, d) + if r.date == d then [r] else []
  {
    assert (rows + [r])[..|rows|] == rows;
  }

  /** `r` once when `present`, otherwise nothing. */
  function Only(r: HearingRow, present: bool): multiset<HearingRow>
  {
    if present then multiset{r} else multiset{}
  }

  lemma {:induction false} RowsUnderSnoc(rows: seq<HearingRow>, r: HearingRow, ds: seq<string>)
    requires Distinct(ds)
    ensures multiset(RowsUnder(rows + [r], ds)) == multiset(RowsUnder(rows, ds)) + Only(r, r.date in ds)
  {
    if ds != [] {
      var n := |ds| - 1;
      var init := ds[..n];
      LastSplit(ds);
      assert Distinct(init) && ds[n] !in init by {
        forall i | 0 <= i < n ensures init[i] == ds[i] {
        }
      }
      var tail := if r.date == ds[n] then [r] else [];
      var x := RowsUnder(rows, init);
      var y := RowsOn(rows, ds[n]);
      var x' := RowsUnder(rows + [r], init);
      assert RowsUnder(rows + [r], ds) == x' + (y + tail) by {
        RowsOnSnoc(rows, r, ds[n]);
      }
      assert RowsUnder(rows, ds) == x + y;
      RowsUnderSnoc(rows, r, init);
      assert Only(r, r.date in init) + multiset(tail) == Only(r, r.date in ds) by {
        assert (r.date in ds) == (r.date in init || r.date == ds[n]);
      }
      Regroup(RowsUnder(rows + [r], ds), RowsUnder(rows, ds), x', x, y, tail,
              Only(r, r.date in init), Only(r, r.date in ds));
    }
  }

  lemma {:induction false} RowsUnderCovers(rows: seq<HearingRow>, ds: seq<string>)
    requires Distinct(ds) && RowDates(rows) <= Elements(ds)
    ensures multiset(RowsUnder(rows, ds)) == multiset(rows)
  {
    if rows == [] {
      RowsUnderEmpty(ds);
    } else {
      var n := |rows| - 1;
      RowsUnderCovers(rows[..n], ds);
      RowsUnderSnoc(rows[..n], rows[n], ds);
      LastSplit(rows);
    }
  }

  lemma {:induction false} RowsUnderEmpty(ds: seq<string>)
    ensures RowsUnder([], ds) == []
  {
    if ds != [] {
      RowsUnderEmpty(ds[..|ds| - 1]);
    }
  }

  /** Every input row gives exactly one bullet, and it sits under the header
      of its own date. */
  lemma EveryRowOnce(rows: seq<HearingRow>)
    ensures var ds := SortDates(DatesInOrder(rows));
      multiset(RowsUnder(rows, ds)) == multiset(rows) &&
      forall j :: 0 <= j < |ds| ==> forall k :: 0 <= k < |RowsOn(rows, ds[j])| ==> RowsOn(rows, ds[j])[k].date == ds[j]
  {
    SortedHeaders(rows);
    RowsUnderCovers(rows, SortDates(DatesInOrder(rows)));
  }

  // ─── The URL is never shown ────────────────────────────────────────────────

  /** Two row lists that differ at most in their URLs. */
  predicate SameButUrls(a: seq<HearingRow>, b: seq<HearingRow>)
  {
    |a| == |b| && forall k :: 0 <= k < |a| ==> b[k] == a[k].(url := b[k].url)
  }

  lemma {:induction false} SameButUrlsDates(a: seq<HearingRow>, b: seq<HearingRow>)
    requires SameButUrls(a, b)
    ensures DatesInOrder(a) == DatesInOrder(b)
  {
    if a != [] {
      var n := |a| - 1;
      SameButUrlsDates(a[..n], b[..n]);
    }
  }

  lemma {:induction false} SameButUrlsRowsOn(a: seq<HearingRow>, b: seq<HearingRow>, d: string)
    requires SameButUrls(a, b)
    ensures SameButUrls(RowsOn(a, d), RowsOn(b, d))
  {
    if a != [] {
      var n := |a| - 1;
      SameButUrlsRowsOn(a[..n], b[..n], d);
    }
  }

  lemma {:induction false} SameButUrlsBlocks(a: seq<HearingRow>, b: seq<HearingRow>, ds: seq<string>)
    requires SameButUrls(a, b)
    ensures Blocks(a, ds) == Blocks(b, ds)
  {
    if ds != [] {
      var n := |ds| - 1;
      SameButUrlsBlocks(a, b, ds[..n]);
      SameButUrlsRowsOn(a, b, ds[n]);
      var x := ItemsOn(a, ds[n]);
      var y := ItemsOn(b, ds[n]);
      assert Bullets(x) == Bullets(y);
    }
  }

  /** The report does not depend on the URLs: no bullet shows one. */
  lemma UrlsNeverShown(a: seq<HearingRow>, b: seq<HearingRow>)
    requires SameButUrls(a, b)
    ensures Grouped(a) == Grouped(b)
  {
    SameButUrlsDates(a, b);
    SameButUrlsBlocks(a, b, SortDates(DatesInOrder(a)));
  }

  // ─── An example ────────────────────────────────────────────────────────────

  /** Two rows on day 2 around one on day 1; the second row of day 2 has no
      committee. */
  function ExampleRows(): seq<HearingRow>
  {
    [HearingRow("2", Some("E"), Some("G"), Some("u"), Some("S")),
     HearingRow("1", Some("F"), Some("B"), None, Some("P")),
     HearingRow("2", None, Some("W"), None, Some("C"))]
  }

  lemma ExampleKeys()
    ensures DatesInOrder(ExampleRows()) == ["2", "1"]
  {
    var rows := ExampleRows();
    assert rows[..1][..0] == [] && rows[..2][..1] == rows[..1] && rows[..3][..2] == rows[..2];
    assert rows[..3] == rows;
    assert DatesInOrder(rows[..1]) == ["2"];
  }

  lemma ExampleSort()
    ensures SortDates(["2", "1"]) == ["1", "2"]
  {
    assert Text.Less("1", "2");
    Text.LessAsymmetric("1", "2");
    assert ["2", "1"][1..] == ["1"];
    assert SortDates(["1"]) == ["1"];
  }

  lemma ExampleRowsOn(d: string)
    ensures var rows := ExampleRows();
      RowsOn(rows, d) == (if d == "1" then [rows[1]] else []) + (if d == "2" then [rows[0], rows[2]] else [])
  {
    var rows := ExampleRows();
    assert rows[..1][..0] == [] && rows[..2][..1] == rows[..1] && rows[..3][..2] == rows[..2];
    assert rows[..3] == rows;
    assert RowsOn(rows[..1], d) == if d == "2" then [rows[0]] else [];
    assert RowsOn(rows[..2], d) == RowsOn(rows[..1], d) + if d == "1" then [rows[1]] else [];
  }

  /** The example's groups: day 1 then day 2, and day 2's rows in input
      order. */
  lemma ExampleGroups()
    ensures SortDates(DatesInOrder(ExampleRows())) == ["1", "2"]
    ensures var rows := ExampleRows(); RowsOn(rows, "1") == [rows[1]] && RowsOn(rows, "2") == [rows[0], rows[2]]
  {
    ExampleKeys();
    ExampleSort();
    ExampleRowsOn("1");
    ExampleRowsOn("2");
  }

  /** The bullet of the third row: its status, `None` for the missing
      committee, its title, and not its URL. */
  lemma ExampleBullet()
    ensures Bullet(ItemOf(ExampleRows()[2]).(url := Some("u"))) == "\U{2022} C: None | W"
  {
  }
}
