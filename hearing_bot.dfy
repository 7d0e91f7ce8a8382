/** The per-run sync of hearing_bot.py: the older `normalize_*` extractors
    and the dedup-and-stage loop of `main`.

    `main` loads the ids already in the store into a seen-set, walks the
    hearing listing followed by the meeting listing, derives an id per
    entry, skips ids already seen, marks the id seen BEFORE fetching its
    detail, and stages one row per new id; the rows are then inserted in one
    `executemany` inside a transaction. */
module HearingBot {
  import opened Wrappers
  import opened Seqs
  import Text
  import opened Extract

  // ─── The older extractors ───────────────────────────────────────────────────

  /** normalize_date: a truthy top-level `date`, else the first `dates`
      entry's `meetingDate` (absent giving "N/A", null giving None), else
      "N/A". */
  function NormalizeDate(d: Detail): (r: Option<string>)
    ensures d.date.Str? && d.date.s != "" ==> r == Some(d.date.s)
    ensures !(d.date.Str? && d.date.s != "") && d.dates == [] ==> r == Some("N/A")
    ensures !(d.date.Str? && d.date.s != "") && d.dates != [] ==>
              r == Get(d.dates[0].meetingDate, Some("N/A"))
    ensures r == None <==> !(d.date.Str? && d.date.s != "") && d.dates != [] && d.dates[0].meetingDate.Null?
  {
    if Truthy(Get(d.date, None)) then Get(d.date, None)
    else if d.dates != [] then Get(d.dates[0].meetingDate, Some("N/A"))
    else Some("N/A")
  }

  /** normalize_title: `detail.get("title" "")` is `detail.get("title")`
      (the two literals concatenate), so a missing title is None, not "". */
  function NormalizeTitle(d: Detail): (r: Option<string>)
    ensures r == None <==> !d.title.Str?
    ensures d.title.Str? ==> r == Some(d.title.s)
  {
    Get(d.title, None)
  }

  /** normalize_committee: a non-empty `committeeName`, else the first
      `committees` entry's `name` (absent giving "N/A", null giving None),
      else "N/A". */
  function NormalizeCommittee(d: Detail): (r: Option<string>)
    ensures d.committeeName.Str? && d.committeeName.s != "" ==> r == Some(d.committeeName.s)
    ensures !(d.committeeName.Str? && d.committeeName.s != "") && d.committees == [] ==> r == Some("N/A")
    ensures !(d.committeeName.Str? && d.committeeName.s != "") && d.committees != [] ==>
              r == Get(d.committees[0].name, Some("N/A"))
  {
    if Truthy(Get(d.committeeName, None)) then Get(d.committeeName, None)
    else if d.committees != [] then Get(d.committees[0].name, Some("N/A"))
    else Some("N/A")
  }

  // ─── Listing entries and ids ────────────────────────────────────────────────

  /** An event id as Python holds it: a string `eventId`, an integer
      `jacketNumber`, or None when neither is there.  No coercion happens,
      so `TextId("60447")` and `NumId(60447)` are different ids. */
  datatype Ident = NoId | TextId(s: string) | NumId(n: int)

  /** One entry of a listing: its `eventId`, its `jacketNumber` and the
      `url` of its detail record. */
  datatype ListingEntry = ListingEntry(eventId: Field, jacketNumber: Option<int>, url: Field)

  /** `event.get("eventId") or event.get("jacketNumber")`. */
  function DeriveId(e: ListingEntry): (r: Ident)
    ensures e.eventId.Str? && e.eventId.s != "" ==> r == TextId(e.eventId.s)
    ensures !(e.eventId.Str? && e.eventId.s != "") ==>
              r == (if e.jacketNumber.Some? then NumId(e.jacketNumber.value) else NoId)
  {
    if Truthy(Get(e.eventId, None)) then TextId(e.eventId.s)
    else if e.jacketNumber.Some? then NumId(e.jacketNumber.value)
    else NoId
  }

  /** The ids a listing carries. */
  function EntryIds(events: seq<ListingEntry>): set<Ident>
  {
    set e | e in events :: DeriveId(e)
  }

  /** fetch_event_detail(event["url"]) for an entry that has a `url`: every
      failure comes back as `{}`, and a null `url` is one (the request
      raises and is caught). */
  function FetchDetail(fetch: string -> Option<Detail>, url: Field): (r: Detail)
    ensures url.Str? && fetch(url.s).Some? ==> r == fetch(url.s).value
    ensures !(url.Str? && fetch(url.s).Some?) ==> r == EmptyDetail
  {
    match url
    case Str(u) => fetch(u).GetOr(EmptyDetail)
    case _ => EmptyDetail
  }

  // ─── Staged rows ───────────────────────────────────────────────────────────

  /** A row staged for the insert: (id, date, title, committee, date_inserted). */
  datatype StagedRow = StagedRow(id: Ident, date: string, title: Option<string>,
                                 committee: Option<string>, inserted: string)

  /** The row staged for a new id whose detail gave `date`.  A date that
      compares (as a string) below today is staged with None title and
      committee; the stored date is always cut to ten characters. */
  function StageRow(id: Ident, date: string, detail: Detail, today: string, now: string): (r: StagedRow)
    ensures r.id == id && r.inserted == now
    ensures r.date == Text.Take(date, 10) && |r.date| <= 10
    ensures Text.Less(date, today) ==> r.title == None && r.committee == None
    ensures !Text.Less(date, today) ==>
              r.title == NormalizeTitle(detail) && r.committee == NormalizeCommittee(detail)
  {
    if Text.Less(date, today) then StagedRow(id, Text.Take(date, 10), None, None, now)
    else StagedRow(id, Text.Take(date, 10), NormalizeTitle(detail), NormalizeCommittee(detail), now)
  }

  /** The ids of the staged rows, in order. */
  function Ids(rows: seq<StagedRow>): (r: seq<Ident>)
    ensures |r| == |rows| && forall k :: 0 <= k < |rows| ==> r[k] == rows[k].id
  {
    Map((x: StagedRow) => x.id, rows)
  }

  // ─── The run, as a fold over the listing ────────────────────────────────────

  /** The loop's state: the seen-set, the staged rows, and the ids whose
      detail was fetched, in fetch order. */
  datatype SyncState = SyncState(seen: set<Ident>, staged: seq<StagedRow>, fetched: seq<Ident>)

  /** A run either finishes its loop, or stops on an error nothing catches,
      so that nothing is inserted: `event["url"]` raising KeyError on an
      entry without a `url`, or `date_obj < today` raising TypeError when
      `normalize_date` gave None. */
  datatype SyncOutcome = Completed(state: SyncState) | Aborted(state: SyncState)

  /** One iteration of the loop at hearing_bot.py:191-212. */
  function Step(s: SyncState, e: ListingEntry, today: string, now: string,
                fetch: string -> Option<Detail>): (o: SyncOutcome)
    ensures DeriveId(e) in s.seen ==> o == Completed(s)
    ensures DeriveId(e) !in s.seen ==> o.state.seen == s.seen + {DeriveId(e)}
    ensures DeriveId(e) !in s.seen ==>
              o.state.fetched == if e.url.Missing? then s.fetched else s.fetched + [DeriveId(e)]
    ensures o.Aborted? <==>
              DeriveId(e) !in s.seen && (e.url.Missing? || NormalizeDate(FetchDetail(fetch, e.url)).None?)
    ensures o.Aborted? ==> o.state.staged == s.staged
    ensures o.Completed? && DeriveId(e) !in s.seen ==>
              var detail := FetchDetail(fetch, e.url);
              o.state.staged == s.staged + [StageRow(DeriveId(e), NormalizeDate(detail).value, detail, today, now)]
  {
    var id := DeriveId(e);
    if id in s.seen then Completed(s)
    else if e.url.Missing? then Aborted(s.(seen := s.seen + {id}))
    else
      var detail := FetchDetail(fetch, e.url);
      var s' := s.(seen := s.seen + {id}, fetched := s.fetched + [id]);
      match NormalizeDate(detail)
      case None => Aborted(s')
      case Some(date) => Completed(s'.(staged := s.staged + [StageRow(id, date, detail, today, now)]))
  }

  /** The whole loop over `events`, starting from the ids in the store.
      `clock(i)` is the `datetime.now()` read while handling entry `i`. */
  function Sync(store: set<Ident>, events: seq<ListingEntry>, today: string,
                clock: nat -> string, fetch: string -> Option<Detail>): (o: SyncOutcome)
    ensures |o.state.staged| <= |o.state.fetched| <= |events|
    ensures o.Completed? ==> |o.state.staged| == |o.state.fetched|
  {
    if events == [] then Completed(SyncState(store, [], []))
    else
      var n := |events| - 1;
      match Sync(store, events[..n], today, clock, fetch)
      case Aborted(s) => Aborted(s)
      case Completed(s) => Step(s, events[n], today, clock(n), fetch)
  }

  /** main's loop.  `storeIds` are the ids `SELECT id FROM hearings`
      returned; the listing is the hearings followed by the meetings. */
  method SyncListing(storeIds: set<Ident>, events: seq<ListingEntry>, today: string,
                     clock: nat -> string, fetch: string -> Option<Detail>)
    returns (outcome: SyncOutcome)
    ensures outcome == Sync(storeIds, events, today, clock, fetch)
    ensures Distinct(outcome.state.fetched) && Elements(outcome.state.fetched) !! storeIds
    ensures outcome.Completed? ==>
              outcome.state.fetched == Ids(outcome.state.staged) &&
              |outcome.state.staged| == |EntryIds(events) - storeIds|
  {
    var seenIds := storeIds;
    var newHearings: seq<StagedRow> := [];
    var fetched: seq<Ident> := [];
    var i := 0;
    while i < |events|
      invariant 0 <= i <= |events|
      invariant Sync(storeIds, events[..i], today, clock, fetch) == Completed(SyncState(seenIds, newHearings, fetched))
    {
      assert events[..i + 1][..i] == events[..i];
      var event := events[i];
      var evId := DeriveId(event);
      if evId in seenIds {
        i := i + 1;
        continue;
      }
      seenIds := seenIds + {evId};
      if event.url.Missing? {
        outcome := Aborted(SyncState(seenIds, newHearings, fetched));
        AbortIsFinal(storeIds, events, i + 1, today, clock, fetch);
        SyncFacts(storeIds, events, today, clock, fetch);
        return;
      }
      var detail := FetchDetail(fetch, event.url);
      fetched := fetched + [evId];
      var dateObj := NormalizeDate(detail);
      var nowStr := clock(i);
      if dateObj.None? {
        outcome := Aborted(SyncState(seenIds, newHearings, fetched));
        AbortIsFinal(storeIds, events, i + 1, today, clock, fetch);
        SyncFacts(storeIds, events, today, clock, fetch);
        return;
      }
      var date := dateObj.value;
      if Text.Less(date, today) {
        newHearings := newHearings + [StagedRow(evId, Text.Take(date, 10), None, None, nowStr)];
        i := i + 1;
        continue;
      }
      var title := NormalizeTitle(detail);
      var committee := NormalizeCommittee(detail);
      newHearings := newHearings + [StagedRow(evId, Text.Take(date, 10), title, committee, nowStr)];
      i := i + 1;
    }
    assert events[..i] == events;
    outcome := Completed(SyncState(seenIds, newHearings, fetched));
    SyncFacts(storeIds, events, today, clock, fetch);
    StagedCount(storeIds, events, today, clock, fetch);
  }

  // ─── What a run guarantees ─────────────────────────────────────────────────

  /** Once the loop has stopped on an uncaught error, later entries change
      nothing. */
  lemma {:induction false} AbortIsFinal(store: set<Ident>, events: seq<ListingEntry>, k: nat, today: string,
                                        clock: nat -> string, fetch: string -> Option<Detail>)
    requires k <= |events| && Sync(store, events[..k], today, clock, fetch).Aborted?
    ensures Sync(store, events, today, clock, fetch) == Sync(store, events[..k], today, clock, fetch)
    decreases |events| - k
  {
    if k < |events| {
      var n := |events| - 1;
      assert events[..n][..k] == events[..k];
      AbortIsFinal(store, events[..n], k, today, clock, fetch);
    } else {
      assert events[..k] == events;
    }
  }

  /** The facts every run keeps, finished or stopped, given the ids `ids`
      of the entries it has handled: the seen-set holds the store and what
      was fetched; no id is fetched twice, none that the store holds is
      fetched at all, and every fetched id comes from the listing; every
      staged date has at most ten characters.  A finished run has seen
      exactly the store and what it fetched, fetched exactly the ids it
      staged, in order, and has seen every id of the listing; a stopped run
      staged a row for every fetched id but perhaps the last. */
  ghost predicate Consistent(store: set<Ident>, ids: set<Ident>, o: SyncOutcome)
  {
    && store + Elements(o.state.fetched) <= o.state.seen
    && Distinct(o.state.fetched)
    && Elements(o.state.fetched) !! store
    && Elements(o.state.fetched) <= ids
    && (forall r :: r in o.state.staged ==> |r.date| <= 10)
    && (o.Completed? ==> o.state.seen == store + Elements(o.state.fetched) &&
                         o.state.fetched == Ids(o.state.staged) && ids <= o.state.seen)
    && (o.Aborted? ==> |o.state.staged| <= |o.state.fetched| <= |o.state.staged| + 1 &&
                       o.state.fetched[..|o.state.staged|] == Ids(o.state.staged))
  }

  lemma StepKeepsConsistent(store: set<Ident>, ids: set<Ident>, s: SyncState, e: ListingEntry,
                            today: string, now: string, fetch: string -> Option<Detail>)
    requires Consistent(store, ids, Completed(s))
    ensures Consistent(store, ids + {DeriveId(e)}, Step(s, e, today, now, fetch))
  {
    var id := DeriveId(e);
    var o := Step(s, e, today, now, fetch);
    if id in s.seen {
      assert o == Completed(s);
      SeenKeepsConsistent(store, ids, s, id);
    } else if e.url.Missing? {
      assert o == Aborted(SyncState(s.seen + {id}, s.staged, s.fetched));
      KeyErrorKeepsConsistent(store, ids, s, id);
    } else if o.Completed? {
      var detail := FetchDetail(fetch, e.url);
      var row := StageRow(id, NormalizeDate(detail).value, detail, today, now);
      assert o == Completed(SyncState(s.seen + {id}, s.staged + [row], s.fetched + [id]));
      StagedKeepsConsistent(store, ids, s, row);
    } else {
      assert o == Aborted(SyncState(s.seen + {id}, s.staged, s.fetched + [id]));
      AbortKeepsConsistent(store, ids, s, id);
    }
  }

  lemma SeenKeepsConsistent(store: set<Ident>, ids: set<Ident>, s: SyncState, id: Ident)
    requires Consistent(store, ids, Completed(s)) && id in s.seen
    ensures Consistent(store, ids + {id}, Completed(s))
  {
  }

  lemma StagedKeepsConsistent(store: set<Ident>, ids: set<Ident>, s: SyncState, row: StagedRow)
    requires Consistent(store, ids, Completed(s)) && row.id !in s.seen && |row.date| <= 10
    ensures Consistent(store, ids + {row.id},
                       Completed(SyncState(s.seen + {row.id}, s.staged + [row], s.fetched + [row.id])))
  {
    DistinctSnoc(s.fetched, row.id);
    StagedSnoc(s.staged, row);
  }

  lemma AbortKeepsConsistent(store: set<Ident>, ids: set<Ident>, s: SyncState, id: Ident)
    requires Consistent(store, ids, Completed(s)) && id !in s.seen
    ensures Consistent(store, ids + {id}, Aborted(SyncState(s.seen + {id}, s.staged, s.fetched + [id])))
  {
    DistinctSnoc(s.fetched, id);
    assert (s.fetched + [id])[..|s.staged|] == s.fetched;
  }

  lemma KeyErrorKeepsConsistent(store: set<Ident>, ids: set<Ident>, s: SyncState, id: Ident)
    requires Consistent(store, ids, Completed(s)) && id !in s.seen
    ensures Consistent(store, ids + {id}, Aborted(SyncState(s.seen + {id}, s.staged, s.fetched)))
  {
    assert s.fetched[..|s.staged|] == s.fetched;
  }

  /** Staging one more row extends the ids by its id and keeps every date
      within ten characters. */
  lemma StagedSnoc(rows: seq<StagedRow>, r: StagedRow)
    requires forall x :: x in rows ==> |x.date| <= 10
    requires |r.date| <= 10
    ensures Ids(rows + [r]) == Ids(rows) + [r.id]
    ensures forall x :: x in rows + [r] ==> |x.date| <= 10
  {
    IdsSnoc(rows, r);
  }

  lemma {:induction false} SyncFacts(store: set<Ident>, events: seq<ListingEntry>, today: string,
                                     clock: nat -> string, fetch: string -> Option<Detail>)
    ensures Consistent(store, EntryIds(events), Sync(store, events, today, clock, fetch))
  {
    if events != [] {
      var n := |events| - 1;
      var prefix := events[..n];
      SyncFacts(store, prefix, today, clock, fetch);
      assert events == prefix + [events[n]];
      assert EntryIds(events) == EntryIds(prefix) + {DeriveId(events[n])};
      match Sync(store, prefix, today, clock, fetch)
      case Aborted(s) =>
      case Completed(s) =>
        StepKeepsConsistent(store, EntryIds(prefix), s, events[n], today, clock(n), fetch);
    }
  }

  /** A finished run stages one row per distinct listing id the store does
      not hold. */
  lemma StagedCount(store: set<Ident>, events: seq<ListingEntry>, today: string,
                    clock: nat -> string, fetch: string -> Option<Detail>)
    requires Sync(store, events, today, clock, fetch).Completed?
    ensures |Sync(store, events, today, clock, fetch).state.staged| == |EntryIds(events) - store|
  {
    var s := Sync(store, events, today, clock, fetch).state;
    SyncFacts(store, events, today, clock, fetch);
    DistinctCard(s.fetched);
    assert Elements(s.fetched) == EntryIds(events) - store;
  }

  /** Each id is fetched at most once per run, even when it is listed both
      as a hearing and as a meeting; a new id in a finished run is fetched,
      and staged, exactly once. */
  lemma FetchedAtMostOnce(store: set<Ident>, hearings: seq<ListingEntry>, meetings: seq<ListingEntry>,
                          x: Ident, today: string, clock: nat -> string, fetch: string -> Option<Detail>)
    ensures var o := Sync(store, hearings + meetings, today, clock, fetch);
      multiset(o.state.fetched)[x] <= 1 &&
      (o.Completed? && x in EntryIds(hearings + meetings) && x !in store ==>
         multiset(o.state.fetched)[x] == 1 && multiset(Ids(o.state.staged))[x] == 1)
  {
    var events := hearings + meetings;
    var o := Sync(store, events, today, clock, fetch);
    SyncFacts(store, events, today, clock, fetch);
    DistinctOccursOnce(o.state.fetched, x);
  }

  /** With every listing id already stored, a run fetches nothing and stages
      nothing. */
  lemma {:induction false} RerunStagesNothing(store: set<Ident>, events: seq<ListingEntry>, today: string,
                                              clock: nat -> string, fetch: string -> Option<Detail>)
    requires EntryIds(events) <= store
    ensures Sync(store, events, today, clock, fetch) == Completed(SyncState(store, [], []))
  {
    if events != [] {
      var n := |events| - 1;
      assert events[n] in events;
      assert EntryIds(events[..n]) <= EntryIds(events) by {
        forall e | e in events[..n] ensures e in events { }
      }
      RerunStagesNothing(store, events[..n], today, clock, fetch);
    }
  }

  // ─── The insert ────────────────────────────────────────────────────────────

  /** `str(n)` for a natural number: its decimal digits, most significant
      first. */
  function Decimal(n: nat): (r: string)
    ensures r != [] && AllDigits(r)
  {
    if n < 10 then [DigitChar(n)] else Decimal(n / 10) + [DigitChar(n % 10)]
  }

  /** Reading the digits back gives the number. */
  lemma {:induction false} DecimalValue(n: nat)
    ensures DigitsValue(Decimal(n)) == n
  {
    var r := Decimal(n);
    if n >= 10 {
      DecimalValue(n / 10);
      assert r[..|r| - 1] == Decimal(n / 10);
    }
  }

  /** The key a row is stored under.  The `id` column holds strings, so an
      integer id goes in, and comes back from `SELECT id`, as its decimal
      text; a string id and None are stored as they are. */
  function StoredKey(id: Ident): (r: Ident)
    ensures !r.NumId?
    ensures !id.NumId? ==> r == id
    ensures id.NumId? ==> r.TextId? && r != id
  {
    match id
    case NumId(n) => TextId(if n < 0 then "-" + Decimal(-n) else Decimal(n))
    case _ => id
  }

  /** The row as the table holds it. */
  function Stored(r: StagedRow): StagedRow
  {
    r.(id := StoredKey(r.id))
  }

  /** The keys the staged rows are stored under, in order. */
  function StoredKeys(rows: seq<StagedRow>): (r: seq<Ident>)
    ensures |r| == |rows| && forall k :: 0 <= k < |rows| ==> r[k] == StoredKey(rows[k].id)
  {
    Map((x: StagedRow) => StoredKey(x.id), rows)
  }

  /** `executemany` of the staged rows inside `with conn:`: a primary-key
      clash rolls the whole batch back (None).  When it goes through, the
      table holds exactly its old keys and the rows' stored keys, and no row
      that was there changes. */
  function InsertAll(table: map<Ident, StagedRow>, rows: seq<StagedRow>): (r: Option<map<Ident, StagedRow>>)
    ensures r.Some? ==> r.value.Keys == table.Keys + Elements(StoredKeys(rows))
    ensures r.Some? ==> forall k :: k in table ==> r.value[k] == table[k]
  {
    if rows == [] then Some(table)
    else
      var n := |rows| - 1;
      assert StoredKeys(rows) == StoredKeys(rows[..n]) + [StoredKey(rows[n].id)];
      match InsertAll(table, rows[..n])
      case None => None
      case Some(t) =>
        var key := StoredKey(rows[n].id);
        if key in t then None else Some(t[key := Stored(rows[n])])
  }

  /** Rows with distinct stored keys the table does not hold all go in,
      each under its own key. */
  lemma {:induction false} InsertFresh(table: map<Ident, StagedRow>, rows: seq<StagedRow>)
    requires Distinct(StoredKeys(rows)) && Elements(StoredKeys(rows)) !! table.Keys
    ensures InsertAll(table, rows).Some?
    ensures forall j :: 0 <= j < |rows| ==> InsertAll(table, rows).value[StoredKey(rows[j].id)] == Stored(rows[j])
  {
    if rows != [] {
      var n := |rows| - 1;
      var init := rows[..n];
      var last := rows[n];
      LastSplit(rows);
      assert StoredKeys(rows) == StoredKeys(init) + [StoredKey(last.id)];
      DistinctUnsnoc(StoredKeys(init), StoredKey(last.id));
      InsertFresh(table, init);
      var t0 := InsertAll(table, init).value;
      InsertLast(table, rows);
      forall j | 0 <= j < n
        ensures StoredKey(rows[j].id) != StoredKey(last.id) && t0[StoredKey(rows[j].id)] == Stored(rows[j])
      {
        assert init[j] == rows[j] && StoredKeys(init)[j] == StoredKey(rows[j].id);
      }
    }
  }

  /** Staging one more row extends the ids by its id. */
  lemma IdsSnoc(rows: seq<StagedRow>, r: StagedRow)
    ensures Ids(rows + [r]) == Ids(rows) + [r.id]
  {
  }

  /** The insert of the last row, once the others are in. */
  lemma InsertLast(table: map<Ident, StagedRow>, rows: seq<StagedRow>)
    requires rows != [] && InsertAll(table, rows[..|rows| - 1]).Some?
    requires StoredKey(rows[|rows| - 1].id) !in InsertAll(table, rows[..|rows| - 1]).value
    ensures InsertAll(table, rows) ==
            Some(InsertAll(table, rows[..|rows| - 1]).value[StoredKey(rows[|rows| - 1].id) := Stored(rows[|rows| - 1])])
  {
  }

  /** A row whose key the table already holds makes the whole insert fail. */
  lemma {:induction false} InsertClash(table: map<Ident, StagedRow>, rows: seq<StagedRow>, j: nat)
    requires j < |rows| && StoredKey(rows[j].id) in table
    ensures InsertAll(table, rows) == None
  {
    var n := |rows| - 1;
    if j < n {
      assert rows[..n][j] == rows[j];
      InsertClash(table, rows[..n], j);
    }
  }

  /** For rows whose ids are text, the stored keys are the ids themselves. */
  lemma TextKeys(rows: seq<StagedRow>)
    requires forall j :: 0 <= j < |rows| ==> !rows[j].id.NumId?
    ensures StoredKeys(rows) == Ids(rows)
  {
  }

  /** For a listing whose ids are all text (or None), a finished run's rows
      always insert, and the next run over the same listing, against the
      table they went into, stages nothing, whatever the date, the clock or
      the fetched details are then. */
  lemma RunThenRerunStagesNothing(table: map<Ident, StagedRow>, events: seq<ListingEntry>,
                                  today: string, clock: nat -> string, fetch: string -> Option<Detail>,
                                  today': string, clock': nat -> string, fetch': string -> Option<Detail>)
    requires forall e :: e in events ==> !DeriveId(e).NumId?
    requires Sync(table.Keys, events, today, clock, fetch).Completed?
    ensures var s := Sync(table.Keys, events, today, clock, fetch).state;
      InsertAll(table, s.staged).Some? &&
      var keys := InsertAll(table, s.staged).value.Keys;
      Sync(keys, events, today', clock', fetch') == Completed(SyncState(keys, [], []))
  {
    var s := Sync(table.Keys, events, today, clock, fetch).state;
    SyncFacts(table.Keys, events, today, clock, fetch);
    forall j | 0 <= j < |s.staged| ensures !s.staged[j].id.NumId? {
      assert Ids(s.staged)[j] in Elements(s.fetched);
    }
    TextKeys(s.staged);
    InsertFresh(table, s.staged);
    RerunStagesNothing(InsertAll(table, s.staged).value.Keys, events, today', clock', fetch');
  }

  /** An entry known only by its integer `jacketNumber` is never recognised
      again: the store gives its id back as text, so the next run over the
      same listing fetches and stages it anew, and that run's insert clashes
      on the primary key and rolls back every row it staged. */
  lemma NumericIdRestaged(table: map<Ident, StagedRow>, events: seq<ListingEntry>, n: int,
                          today: string, clock: nat -> string, fetch: string -> Option<Detail>,
                          today': string, clock': nat -> string, fetch': string -> Option<Detail>)
    requires NumId(n) in EntryIds(events) && NumId(n) !in table
    requires Sync(table.Keys, events, today, clock, fetch).Completed?
    requires InsertAll(table, Sync(table.Keys, events, today, clock, fetch).state.staged).Some?
    ensures var t := InsertAll(table, Sync(table.Keys, events, today, clock, fetch).state.staged).value;
      var o := Sync(t.Keys, events, today', clock', fetch');
      && NumId(n) !in t
      && (o.Completed? ==> NumId(n) in Ids(o.state.staged) && InsertAll(t, o.state.staged) == None)
  {
    var s := Sync(table.Keys, events, today, clock, fetch).state;
    var t := InsertAll(table, s.staged).value;
    var i := NewIdStaged(table.Keys, events, NumId(n), today, clock, fetch);
    assert StoredKeys(s.staged)[i] == StoredKey(NumId(n));
    var o := Sync(t.Keys, events, today', clock', fetch');
    if o.Completed? {
      var j := NewIdStaged(t.Keys, events, NumId(n), today', clock', fetch');
      InsertClash(t, o.state.staged, j);
    }
  }

  /** A finished run stages a row for every listing id the store lacks. */
  lemma NewIdStaged(store: set<Ident>, events: seq<ListingEntry>, x: Ident,
                    today: string, clock: nat -> string, fetch: string -> Option<Detail>)
    returns (j: nat)
    requires x in EntryIds(events) && x !in store
    requires Sync(store, events, today, clock, fetch).Completed?
    ensures j < |Sync(store, events, today, clock, fetch).state.staged|
    ensures Sync(store, events, today, clock, fetch).state.staged[j].id == x
  {
    var s := Sync(store, events, today, clock, fetch).state;
    SyncFacts(store, events, today, clock, fetch);
    assert x in Ids(s.staged);
    j :| 0 <= j < |s.staged| && Ids(s.staged)[j] == x;
  }

  // ─── The rows as written at hearing_bot.py:206 and 212 ─────────────────────

  /** A value bound to one column of the insert. */
  datatype Cell = IdCell(id: Ident) | TextCell(s: string) | NullCell | TimeCell(t: string)

  function OptionCell(v: Option<string>): Cell
  {
    match v
    case None => NullCell
    case Some(s) => TextCell(s)
  }

  /** What `new_hearings` holds for one new id, as written: the tuple of
      line 206 for a meeting before today, and for any other the set literal
      of line 212, whose values lose their order. */
  datatype Params = TupleParams(row: StagedRow) | SetParams(cells: set<Cell>)

  /** The entry written for the staged row `r`. */
  function AsWritten(r: StagedRow, today: string): (p: Params)
    ensures p.TupleParams? <==> Text.Less(r.date, today)
    ensures p.TupleParams? ==> p.row == r
    ensures p.SetParams? ==> IdCell(r.id) in p.cells && TextCell(r.date) in p.cells && TimeCell(r.inserted) in p.cells
  {
    if Text.Less(r.date, today) then TupleParams(r)
    else SetParams({IdCell(r.id), TextCell(r.date), OptionCell(r.title), OptionCell(r.committee), TimeCell(r.inserted)})
  }

  /** The loop picks the branch on the whole date, the entry above on the
      stored ten characters; against today's ten-character date the two
      agree. */
  lemma AsWrittenBranch(id: Ident, date: string, detail: Detail, today: string, now: string)
    requires |today| == 10
    ensures var p := AsWritten(StageRow(id, date, detail, today, now), today);
      && (Text.Less(date, today) ==> p == TupleParams(StagedRow(id, Text.Take(date, 10), None, None, now)))
      && (!Text.Less(date, today) ==>
            p == SetParams({IdCell(id), TextCell(Text.Take(date, 10)), OptionCell(NormalizeTitle(detail)),
                            OptionCell(NormalizeCommittee(detail)), TimeCell(now)}))
  {
    Text.LessTake(date, today, 10);
  }

  /** `executemany` over the entries as written, inside `with conn:`.
      sqlite3 binds a row's parameters only from a sequence or a mapping, so
      a set raises ProgrammingError; a key clash raises IntegrityError;
      either error rolls every row back (None). */
  function ExecuteManyAsWritten(table: map<Ident, StagedRow>, ps: seq<Params>): Option<map<Ident, StagedRow>>
  {
    if ps == [] then Some(table)
    else
      var n := |ps| - 1;
      match ExecuteManyAsWritten(table, ps[..n])
      case None => None
      case Some(t) =>
        match ps[n]
        case SetParams(_) => None
        case TupleParams(r) => if StoredKey(r.id) in t then None else Some(t[StoredKey(r.id) := Stored(r)])
  }

  /** The entries written for the staged rows, in order. */
  function AllAsWritten(rows: seq<StagedRow>, today: string): (ps: seq<Params>)
    ensures |ps| == |rows| && forall j :: 0 <= j < |rows| ==> ps[j] == AsWritten(rows[j], today)
  {
    Map((r: StagedRow) => AsWritten(r, today), rows)
  }

  /** One set among the entries and nothing is inserted. */
  lemma {:induction false} SetEntryFails(table: map<Ident, StagedRow>, ps: seq<Params>, j: nat)
    requires j < |ps| && ps[j].SetParams?
    ensures ExecuteManyAsWritten(table, ps) == None
  {
    var n := |ps| - 1;
    if j < n {
      assert ps[..n][j] == ps[j];
      SetEntryFails(table, ps[..n], j);
    }
  }

  /** As written, a run that stages any meeting on or after today inserts
      nothing at all. */
  lemma AsWrittenInsertFails(table: map<Ident, StagedRow>, rows: seq<StagedRow>, today: string, j: nat)
    requires j < |rows| && !Text.Less(rows[j].date, today)
    ensures ExecuteManyAsWritten(table, AllAsWritten(rows, today)) == None
  {
    SetEntryFails(table, AllAsWritten(rows, today), j);
  }

  /** Had every entry been a tuple, the insert would be the one of the
      staged rows. */
  lemma {:induction false} TuplesInsertAll(table: map<Ident, StagedRow>, rows: seq<StagedRow>)
    ensures ExecuteManyAsWritten(table, Map((r: StagedRow) => TupleParams(r), rows)) == InsertAll(table, rows)
  {
    if rows != [] {
      var n := |rows| - 1;
      assert Map((r: StagedRow) => TupleParams(r), rows)[..n] == Map((r: StagedRow) => TupleParams(r), rows[..n]);
      TuplesInsertAll(table, rows[..n]);
    }
  }

  /** The meeting date of the example lies on or after the day of the run. */
  lemma JulyNotBeforeJune()
    ensures !Text.Less("2025-07-01", "2025-06-18")
  {
    assert "2025-07-01"[0] == "2025-06-18"[0];
    assert "2025-07-01"[1..][0] == "2025-06-18"[1..][0];
    assert "2025-07-01"[1..][1..][0] == "2025-06-18"[1..][1..][0];
    assert "2025-07-01"[1..][1..][1..][0] == "2025-06-18"[1..][1..][1..][0];
    assert "2025-07-01"[1..][1..][1..][1..][0] == "2025-06-18"[1..][1..][1..][1..][0];
    assert "2025-07-01"[1..][1..][1..][1..][1..][0] == "2025-06-18"[1..][1..][1..][1..][1..][0];
    assert "2025-07-01"[1..][1..][1..][1..][1..][1..][0] > "2025-06-18"[1..][1..][1..][1..][1..][1..][0];
  }

  /** A meeting on 1 July staged on 18 June into an empty table: the row
      goes in as a tuple, but as written it is a set and the insert fails. */
  lemma UpcomingMeetingInsertsNothing()
    ensures var d := Detail(Str("2025-07-01"), [], Str("Markup"), Str("Rules"), [], [], []);
      var row := StageRow(TextId("115538"), "2025-07-01", d, "2025-06-18", "2025-06-18 09:00:00");
      && row == StagedRow(TextId("115538"), "2025-07-01", Some("Markup"), Some("Rules"), "2025-06-18 09:00:00")
      && AsWritten(row, "2025-06-18").SetParams?
      && ExecuteManyAsWritten(map[], AllAsWritten([row], "2025-06-18")) == None
      && InsertAll(map[], [row]) == Some(map[TextId("115538") := row])
  {
    var d := Detail(Str("2025-07-01"), [], Str("Markup"), Str("Rules"), [], [], []);
    JulyNotBeforeJune();
    var row := StageRow(TextId("115538"), "2025-07-01", d, "2025-06-18", "2025-06-18 09:00:00");
    assert row == StagedRow(TextId("115538"), "2025-07-01", Some("Markup"), Some("Rules"), "2025-06-18 09:00:00");
    AsWrittenInsertFails(map[], [row], "2025-06-18", 0);
    assert [row][..0] == [];
  }
}
