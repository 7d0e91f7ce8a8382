/** The refresh passes of backfill.py over the stored `hearings` table.

    `check_status` re-fetches every upcoming row's detail and, when the
    status differs, writes the new status and then, only then, re-checks the
    date.  `backfill_missing_urls` re-fetches every upcoming row that has no
    URL and tries to write one.  A row that fails is skipped; the others go
    on. */
module Backfill {
  import opened Wrappers
  import opened Seqs
  import Text
  import opened Extract

  /** A stored row (the primary key `id` is the table's key). */
  datatype Row = Row(date: string, title: Option<string>, committee: Option<string>, url: Option<string>,
                     apiCall: Option<string>, status: Option<string>, dateInserted: Option<string>)

  /** `date(date) >= date('now')`: the stored date is a calendar date in
      `YYYY-MM-DD` form (SQLite's `date` gives NULL otherwise, and NULL
      compares as false) that does not compare below today. */
  predicate Upcoming(date: string, today: string)
    ensures Upcoming(date, today) <==> |date| == 10 && ParseDate(date).Ok? && !Text.Less(date, today)
  {
    StrptimeBare(date).Some? && !Text.Less(date, today)
  }

  /** fetch_event_detail on the stored `API_call`.  None stands for `{}`: any
      failure, including a NULL `API_call`, comes back empty. */
  function FetchDetail(fetch: string -> Option<Detail>, apiCall: Option<string>): Option<Detail>
  {
    match apiCall
    case None => None
    case Some(u) => fetch(u)
  }

  // ─── check_status ──────────────────────────────────────────────────────────

  /** `parse_date(get_date(detail)).date().isoformat()`, or None when that
      raises (a missing date raises too). */
  function RefreshedDate(d: Detail): (r: Option<string>)
    ensures r.Some? ==> |r.value| == 10 && ParseDate(r.value).Ok?
    ensures r.Some? <==> GetDate(d).Some? && ParseDate(GetDate(d).value).Ok?
    ensures r.Some? ==> r.value == GetDate(d).value[..10]
  {
    match GetDate(d)
    case None => None
    case Some(s) =>
      match ParseDate(s)
      case Err(_) => None
      case Ok(t) =>
        ParseIsoDate(t);
        ParsedDatePrefix(s);
        Some(IsoDate(t))
  }

  /** One row of check_status, given the fetched detail and `get_status`
      (None when it raises).  Only the `status` and `date` columns change; an
      empty detail or an unchanged status changes nothing; a changed status
      is written, and then the date too if it parses to a different day.  A
      date that fails to parse leaves the written status in place. */
  function RefreshRow(row: Row, detail: Option<Detail>, getStatus: Detail -> Option<string>): (r: Row)
    ensures r.title == row.title && r.committee == row.committee && r.url == row.url
    ensures r.apiCall == row.apiCall && r.dateInserted == row.dateInserted
    ensures detail.None? ==> r == row
    ensures r.status != row.status <==>
              detail.Some? && getStatus(detail.value).Some? && Some(getStatus(detail.value).value) != row.status
    ensures r.status != row.status ==>
              r.status == getStatus(detail.value) &&
              r.date == RefreshedDate(detail.value).GetOr(row.date)
    ensures r.status == row.status ==> r == row
  {
    match detail
    case None => row
    case Some(d) =>
      match getStatus(d)
      case None => row
      case Some(newStatus) =>
        if Some(newStatus) == row.status then row
        else
          var updated := row.(status := Some(newStatus));
          match RefreshedDate(d)
          case None => updated
          case Some(newDate) => if row.date != newDate then updated.(date := newDate) else updated
  }

  /** The table after check_status: every upcoming row refreshed, every
      other row as it was. */
  function RefreshedTable(rows: map<string, Row>, today: string, fetch: string -> Option<Detail>,
                          getStatus: Detail -> Option<string>): (r: map<string, Row>)
    ensures r.Keys == rows.Keys
    ensures forall id :: id in rows && !Upcoming(rows[id].date, today) ==> r[id] == rows[id]
    ensures forall id :: id in rows ==>
              r[id].title == rows[id].title && r[id].committee == rows[id].committee &&
              r[id].url == rows[id].url && r[id].apiCall == rows[id].apiCall &&
              r[id].dateInserted == rows[id].dateInserted
  {
    map id | id in rows :: if Upcoming(rows[id].date, today)
                          then RefreshRow(rows[id], FetchDetail(fetch, rows[id].apiCall), getStatus)
                          else rows[id]
  }

  /** The ids whose status check_status changes. */
  function ChangedIds(rows: map<string, Row>, today: string, fetch: string -> Option<Detail>,
                      getStatus: Detail -> Option<string>): set<string>
  {
    set id | id in rows && Upcoming(rows[id].date, today) &&
             RefreshRow(rows[id], FetchDetail(fetch, rows[id].apiCall), getStatus).status != rows[id].status
  }

  /** The notice printed for a status change. */
  datatype StatusChange = StatusChange(id: string, title: Option<string>, date: string,
                                       before: Option<string>, after: string)

  function ChangeIds(changes: seq<StatusChange>): (r: seq<string>)
    ensures |r| == |changes| && forall k :: 0 <= k < |changes| ==> r[k] == changes[k].id
  {
    Map((c: StatusChange) => c.id, changes)
  }

  function OutcomeIds(log: seq<UrlOutcome>): (r: seq<string>)
    ensures |r| == |log| && forall k :: 0 <= k < |log| ==> r[k] == log[k].id
  {
    Map((o: UrlOutcome) => o.id, log)
  }

  // ─── backfill_missing_urls ─────────────────────────────────────────────────

  predicate MissingUrl(row: Row)
    ensures MissingUrl(row) <==> row.url.GetOr("") == ""
  {
    row.url == None || row.url == Some("")
  }

  /** An `UPDATE hearings SET <columns> WHERE id = ?` statement.  The one at
      backfill.py:33-37 ends its SET list with a comma, which SQLite rejects
      as a syntax error. */
  datatype UpdateStatement = UpdateStatement(columns: seq<string>, trailingComma: bool)

  const UrlUpdateAsWritten := UpdateStatement(["url"], true)
  const UrlUpdateCorrected := UpdateStatement(["url"], false)

  predicate Accepted(stmt: UpdateStatement)
  {
    stmt.columns != [] && !stmt.trailingComma
  }

  /** What backfill_missing_urls does with one row. */
  datatype UrlOutcome =
    | StillMissing(id: string)             // get_URL gave nothing truthy
    | Failed(id: string)                   // get_URL raised
    | UpdateRejected(id: string, url: string)  // the UPDATE raised
    | Filled(id: string, url: string)

  function UrlOutcomeOf(id: string, row: Row, fetch: string -> Option<Detail>, stmt: UpdateStatement): (r: UrlOutcome)
    ensures r.id == id
    ensures r.Filled? || r.UpdateRejected? <==>
              GetUrl(FetchDetail(fetch, row.apiCall).GetOr(EmptyDetail)).Ok? &&
              Truthy(GetUrl(FetchDetail(fetch, row.apiCall).GetOr(EmptyDetail)).value)
    ensures r.Filled? ==> Accepted(stmt) && r.url != ""
    ensures r.UpdateRejected? ==> !Accepted(stmt)
  {
    match GetUrl(FetchDetail(fetch, row.apiCall).GetOr(EmptyDetail))
    case Err(_) => Failed(id)
    case Ok(url) =>
      if !Truthy(url) then StillMissing(id)
      else if Accepted(stmt) then Filled(id, url.value)
      else UpdateRejected(id, url.value)
  }

  predicate UrlCandidate(row: Row, today: string)
  {
    MissingUrl(row) && Upcoming(row.date, today)
  }

  /** The table after backfill_missing_urls run with `stmt`. */
  function UrlPass(rows: map<string, Row>, today: string, fetch: string -> Option<Detail>,
                   stmt: UpdateStatement): (r: map<string, Row>)
    ensures r.Keys == rows.Keys
    ensures forall id :: id in rows ==> r[id].(url := rows[id].url) == rows[id]
  {
    map id | id in rows ::
      if UrlCandidate(rows[id], today) && UrlOutcomeOf(id, rows[id], fetch, stmt).Filled?
      then rows[id].(url := Some(UrlOutcomeOf(id, rows[id], fetch, stmt).url))
      else rows[id]
  }

  /** As written, the pass never changes the table: every URL it finds is
      lost to the rejected UPDATE. */
  lemma AsWrittenUpdateNeverFills(rows: map<string, Row>, today: string, fetch: string -> Option<Detail>)
    ensures UrlPass(rows, today, fetch, UrlUpdateAsWritten) == rows
  {
    var r := UrlPass(rows, today, fetch, UrlUpdateAsWritten);
    forall id | id in rows ensures r[id] == rows[id] {
      assert !UrlOutcomeOf(id, rows[id], fetch, UrlUpdateAsWritten).Filled?;
    }
  }

  /** A detail whose first meeting document links to a PDF. */
  function DocumentDetail(u: string): Option<Detail>
  {
    Some(EmptyDetail.(meetingDocuments := [Document(Str("https://x.gov/d.pdf"))]))
  }

  lemma CalendarExample()
    ensures StrptimeBare("2099-01-01") == Some(DateTime(2099, 1, 1, 0, 0, 0))
  {
    var t := DateTime(2099, 1, 1, 0, 0, 0);
    assert Padded(2099, 4) == "2099" && Padded(1, 2) == "01";
    assert IsoDate(t) == "2099-01-01";
    ParseIsoDate(t);
    assert StrptimeTimestamp("2099-01-01").None?;
  }

  lemma UpcomingExample()
    ensures Upcoming("2099-01-01", "2025-06-18")
  {
    CalendarExample();
    assert "2099-01-01"[0] == "2025-06-18"[0];
    assert "2099-01-01"[1..][0] == "2025-06-18"[1..][0];
    assert "2099-01-01"[1..][1..][0] > "2025-06-18"[1..][1..][0];
  }

  /** A concrete case: an upcoming row without a URL whose detail has one
      gets the UPDATE rejected and keeps no URL. */
  lemma AsWrittenLeavesUrlMissing()
    ensures var row := Row("2099-01-01", Some("T"), Some("C"), None, Some("u"), Some("Scheduled"), None);
      && UrlCandidate(row, "2025-06-18")
      && UrlOutcomeOf("1", row, DocumentDetail, UrlUpdateAsWritten) == UpdateRejected("1", "https://x.gov/d.pdf")
      && UrlPass(map["1" := row], "2025-06-18", DocumentDetail, UrlUpdateAsWritten)["1"].url == None
  {
    var row := Row("2099-01-01", Some("T"), Some("C"), None, Some("u"), Some("Scheduled"), None);
    assert UrlCandidate(row, "2025-06-18") by {
      UpcomingExample();
    }
    assert GetUrl(EmptyDetail.(meetingDocuments := [Document(Str("https://x.gov/d.pdf"))])) == Ok(Some("https://x.gov/d.pdf"));
    AsWrittenUpdateNeverFills(map["1" := row], "2025-06-18", DocumentDetail);
  }

  /** With the comma removed, every upcoming row missing a URL whose detail
      yields one gets exactly that URL, and nothing else changes. */
  lemma CorrectedUpdateFillsUrls(rows: map<string, Row>, today: string, fetch: string -> Option<Detail>)
    ensures var r := UrlPass(rows, today, fetch, UrlUpdateCorrected);
      forall id :: id in rows ==>
        var found := GetUrl(FetchDetail(fetch, rows[id].apiCall).GetOr(EmptyDetail));
        r[id] == if UrlCandidate(rows[id], today) && found.Ok? && Truthy(found.value)
                 then rows[id].(url := found.value)
                 else rows[id]
  {
  }

  // ─── The table ─────────────────────────────────────────────────────────────

  /** The `hearings` table, keyed by id, updated row by row. */
  class HearingTable {
    var rows: map<string, Row>

    constructor (initial: map<string, Row>)
      ensures rows == initial
    {
      rows := initial;
    }

    /** `UPDATE hearings SET status = ? WHERE id = ?`. */
    method SetStatus(id: string, status: string)
      modifies this
      ensures rows == if id in old(rows) then old(rows)[id := old(rows)[id].(status := Some(status))] else old(rows)
    {
      if id in rows {
        rows := rows[id := rows[id].(status := Some(status))];
      }
    }

    /** `UPDATE hearings SET date = ? WHERE id = ?`. */
    method SetDate(id: string, date: string)
      modifies this
      ensures rows == if id in old(rows) then old(rows)[id := old(rows)[id].(date := date)] else old(rows)
    {
      if id in rows {
        rows := rows[id := rows[id].(date := date)];
      }
    }

    /** Executes `stmt` to set one row's URL; a statement SQLite rejects
        raises and changes nothing. */
    method ExecuteUrlUpdate(stmt: UpdateStatement, id: string, url: string) returns (ok: bool)
      modifies this
      ensures ok == Accepted(stmt)
      ensures rows == if ok && id in old(rows) then old(rows)[id := old(rows)[id].(url := Some(url))] else old(rows)
    {
      ok := Accepted(stmt);
      if ok && id in rows {
        rows := rows[id := rows[id].(url := Some(url))];
      }
    }

    /** One iteration of check_status's loop, for the row `id`. */
    method CheckRow(id: string, fetch: string -> Option<Detail>, getStatus: Detail -> Option<string>)
      returns (change: Option<StatusChange>)
      requires id in rows
      modifies this
      ensures rows == old(rows)[id := RefreshRow(old(rows)[id], FetchDetail(fetch, old(rows)[id].apiCall), getStatus)]
      ensures change.Some? <==> rows[id].status != old(rows)[id].status
      ensures change.Some? ==>
                change.value == StatusChange(id, old(rows)[id].title, old(rows)[id].date,
                                             old(rows)[id].status, rows[id].status.value)
    {
      var row := rows[id];
      var detail := FetchDetail(fetch, row.apiCall);
      change := None;
      if detail.None? {
        return;
      }
      var newStatus := getStatus(detail.value);
      if newStatus.None? {
        return;
      }
      if Some(newStatus.value) == row.status {
        return;
      }
      change := Some(StatusChange(id, row.title, row.date, row.status, newStatus.value));
      SetStatus(id, newStatus.value);
      var newDate := RefreshedDate(detail.value);
      if newDate.None? {
        return;
      }
      if row.date != newDate.value {
        SetDate(id, newDate.value);
      }
    }

    /** check_status.  The upcoming rows are visited in no particular order
        (the SELECT has no ORDER BY); one notice is returned per row whose
        status changed. */
    method CheckStatus(today: string, fetch: string -> Option<Detail>, getStatus: Detail -> Option<string>)
      returns (changes: seq<StatusChange>)
      modifies this
      ensures rows == RefreshedTable(old(rows), today, fetch, getStatus)
      ensures Distinct(ChangeIds(changes))
      ensures Elements(ChangeIds(changes)) == ChangedIds(old(rows), today, fetch, getStatus)
      ensures forall k :: 0 <= k < |changes| ==>
                changes[k].id in old(rows) &&
                changes[k].title == old(rows)[changes[k].id].title &&
                changes[k].date == old(rows)[changes[k].id].date &&
                changes[k].before == old(rows)[changes[k].id].status &&
                Some(changes[k].after) == rows[changes[k].id].status
    {
      ghost var before := rows;
      var pending := set id | id in rows && Upcoming(rows[id].date, today);
      ghost var selected := pending;
      ghost var done: set<string> := {};
      changes := [];
      while pending != {}
        invariant done !! pending && done + pending == selected
        invariant rows == PartlyRefreshed(before, done, fetch, getStatus)
        invariant Notices(before, changes, fetch, getStatus)
        invariant Elements(ChangeIds(changes)) == ChangedIds(before, today, fetch, getStatus) * done
        decreases pending
      {
        var id :| id in pending;
        MoveOne(done, pending, selected, id);
        pending := pending - {id};
        RefreshStep(before, done, id, fetch, getStatus);
        var change := CheckRow(id, fetch, getStatus);
        ChangedStep(before, today, done, id, fetch, getStatus);
        done := done + {id};
        if change.Some? {
          AppendNotice(before, changes, change.value, fetch, getStatus);
          changes := changes + [change.value];
        }
      }
      RefreshAllDone(before, today, selected, fetch, getStatus);
      NoticesHold(before, today, changes, fetch, getStatus);
    }

    /** One iteration of backfill_missing_urls's loop, for the row `id`. */
    method BackfillRow(id: string, fetch: string -> Option<Detail>, stmt: UpdateStatement)
      returns (outcome: UrlOutcome)
      requires id in rows
      modifies this
      ensures outcome == UrlOutcomeOf(id, old(rows)[id], fetch, stmt)
      ensures rows == if outcome.Filled? then old(rows)[id := old(rows)[id].(url := Some(outcome.url))] else old(rows)
    {
      var row := rows[id];
      outcome := UrlOutcomeOf(id, row, fetch, stmt);
      var found := GetUrl(FetchDetail(fetch, row.apiCall).GetOr(EmptyDetail));
      if found.Err? || !Truthy(found.value) {
        return;
      }
      var ok := ExecuteUrlUpdate(stmt, id, found.value.value);
    }

    /** backfill_missing_urls, executing `stmt` for each URL found; as
        written `stmt` is `UrlUpdateAsWritten`.  Every upcoming row missing a
        URL is tried once, in no particular order, and gets one log entry. */
    method BackfillMissingUrls(today: string, fetch: string -> Option<Detail>, stmt: UpdateStatement)
      returns (log: seq<UrlOutcome>)
      modifies this
      ensures rows == UrlPass(old(rows), today, fetch, stmt)
      ensures Distinct(OutcomeIds(log))
      ensures Elements(OutcomeIds(log)) == set id | id in old(rows) && UrlCandidate(old(rows)[id], today)
      ensures forall k :: 0 <= k < |log| ==>
                log[k].id in old(rows) && log[k] == UrlOutcomeOf(log[k].id, old(rows)[log[k].id], fetch, stmt)
    {
      ghost var before := rows;
      var pending := set id | id in rows && UrlCandidate(rows[id], today);
      ghost var selected := pending;
      ghost var done: set<string> := {};
      log := [];
      while pending != {}
        invariant done !! pending && done + pending == selected
        invariant rows == PartlyFilled(before, done, fetch, stmt)
        invariant UrlLog(before, log, fetch, stmt) && Elements(OutcomeIds(log)) == done
        decreases pending
      {
        var id :| id in pending;
        MoveOne(done, pending, selected, id);
        pending := pending - {id};
        FillStep(before, done, id, fetch, stmt);
        var outcome := BackfillRow(id, fetch, stmt);
        done := done + {id};
        AppendOutcome(before, log, outcome, fetch, stmt);
        log := log + [outcome];
      }
      FillAllDone(before, today, selected, fetch, stmt);
    }
  }

  /** The table once the rows in `done` have been refreshed. */
  ghost function PartlyRefreshed(rows: map<string, Row>, done: set<string>, fetch: string -> Option<Detail>,
                                 getStatus: Detail -> Option<string>): map<string, Row>
  {
    map id | id in rows :: if id in done
                          then RefreshRow(rows[id], FetchDetail(fetch, rows[id].apiCall), getStatus)
                          else rows[id]
  }

  /** `c` is the notice for a row of `rows` whose status changed. */
  ghost predicate NoticeFor(rows: map<string, Row>, c: StatusChange, fetch: string -> Option<Detail>,
                            getStatus: Detail -> Option<string>)
  {
    c.id in rows && c.title == rows[c.id].title && c.date == rows[c.id].date && c.before == rows[c.id].status &&
    Some(c.after) == RefreshRow(rows[c.id], FetchDetail(fetch, rows[c.id].apiCall), getStatus).status
  }

  /** `changes` are notices for rows of `rows`, at most one per row. */
  ghost predicate Notices(rows: map<string, Row>, changes: seq<StatusChange>, fetch: string -> Option<Detail>,
                          getStatus: Detail -> Option<string>)
  {
    Distinct(ChangeIds(changes)) && forall k :: 0 <= k < |changes| ==> NoticeFor(rows, changes[k], fetch, getStatus)
  }

  lemma AppendNotice(rows: map<string, Row>, changes: seq<StatusChange>, c: StatusChange,
                     fetch: string -> Option<Detail>, getStatus: Detail -> Option<string>)
    requires Notices(rows, changes, fetch, getStatus) && NoticeFor(rows, c, fetch, getStatus)
    requires c.id !in Elements(ChangeIds(changes))
    ensures Notices(rows, changes + [c], fetch, getStatus)
    ensures Elements(ChangeIds(changes + [c])) == Elements(ChangeIds(changes)) + {c.id}
  {
    assert ChangeIds(changes + [c]) == ChangeIds(changes) + [c.id];
  }

  lemma RefreshStep(rows: map<string, Row>, done: set<string>, id: string, fetch: string -> Option<Detail>,
                    getStatus: Detail -> Option<string>)
    requires id in rows && id !in done
    ensures PartlyRefreshed(rows, done, fetch, getStatus)[id] == rows[id]
    ensures PartlyRefreshed(rows, done + {id}, fetch, getStatus) ==
            PartlyRefreshed(rows, done, fetch, getStatus)[id := RefreshRow(rows[id], FetchDetail(fetch, rows[id].apiCall), getStatus)]
  {
  }

  lemma ChangedStep(rows: map<string, Row>, today: string, done: set<string>, id: string,
                    fetch: string -> Option<Detail>, getStatus: Detail -> Option<string>)
    requires id in rows && Upcoming(rows[id].date, today)
    ensures ChangedIds(rows, today, fetch, getStatus) * (done + {id}) ==
            ChangedIds(rows, today, fetch, getStatus) * done +
            (if RefreshRow(rows[id], FetchDetail(fetch, rows[id].apiCall), getStatus).status != rows[id].status
             then {id} else {})
  {
  }

  /** Moving one row from the pending set to the done set. */
  lemma MoveOne(done: set<string>, pending: set<string>, selected: set<string>, id: string)
    requires done !! pending && done + pending == selected && id in pending
    ensures (done + {id}) !! (pending - {id}) && (done + {id}) + (pending - {id}) == selected
    ensures pending - {id} < pending
  {
  }

  /** Once every change is logged, each logged status is the one now stored. */
  lemma NoticesHold(rows: map<string, Row>, today: string, changes: seq<StatusChange>,
                    fetch: string -> Option<Detail>, getStatus: Detail -> Option<string>)
    requires Notices(rows, changes, fetch, getStatus)
    requires Elements(ChangeIds(changes)) == ChangedIds(rows, today, fetch, getStatus)
    ensures forall k :: 0 <= k < |changes| ==>
              changes[k].id in rows && changes[k].title == rows[changes[k].id].title &&
              changes[k].date == rows[changes[k].id].date && changes[k].before == rows[changes[k].id].status &&
              Some(changes[k].after) == RefreshedTable(rows, today, fetch, getStatus)[changes[k].id].status
  {
    forall k | 0 <= k < |changes|
      ensures Some(changes[k].after) == RefreshedTable(rows, today, fetch, getStatus)[changes[k].id].status
    {
      assert changes[k].id in Elements(ChangeIds(changes));
    }
  }

  lemma RefreshAllDone(rows: map<string, Row>, today: string, selected: set<string>,
                       fetch: string -> Option<Detail>, getStatus: Detail -> Option<string>)
    requires selected == set id | id in rows && Upcoming(rows[id].date, today)
    ensures PartlyRefreshed(rows, selected, fetch, getStatus) == RefreshedTable(rows, today, fetch, getStatus)
    ensures ChangedIds(rows, today, fetch, getStatus) * selected == ChangedIds(rows, today, fetch, getStatus)
  {
  }

  /** `log` holds, at most once per row, what the pass did with rows of `rows`. */
  ghost predicate UrlLog(rows: map<string, Row>, log: seq<UrlOutcome>, fetch: string -> Option<Detail>,
                         stmt: UpdateStatement)
  {
    Distinct(OutcomeIds(log)) &&
    forall k :: 0 <= k < |log| ==> log[k].id in rows && log[k] == UrlOutcomeOf(log[k].id, rows[log[k].id], fetch, stmt)
  }

  lemma AppendOutcome(rows: map<string, Row>, log: seq<UrlOutcome>, o: UrlOutcome,
                      fetch: string -> Option<Detail>, stmt: UpdateStatement)
    requires UrlLog(rows, log, fetch, stmt) && o.id in rows && o == UrlOutcomeOf(o.id, rows[o.id], fetch, stmt)
    requires o.id !in Elements(OutcomeIds(log))
    ensures UrlLog(rows, log + [o], fetch, stmt)
    ensures Elements(OutcomeIds(log + [o])) == Elements(OutcomeIds(log)) + {o.id}
  {
    assert OutcomeIds(log + [o]) == OutcomeIds(log) + [o.id];
  }

  lemma FillStep(rows: map<string, Row>, done: set<string>, id: string, fetch: string -> Option<Detail>,
                 stmt: UpdateStatement)
    requires id in rows && id !in done
    ensures PartlyFilled(rows, done, fetch, stmt)[id] == rows[id]
    ensures var o := UrlOutcomeOf(id, rows[id], fetch, stmt);
      PartlyFilled(rows, done + {id}, fetch, stmt) ==
      if o.Filled? then PartlyFilled(rows, done, fetch, stmt)[id := rows[id].(url := Some(o.url))]
      else PartlyFilled(rows, done, fetch, stmt)
  {
  }

  lemma FillAllDone(rows: map<string, Row>, today: string, selected: set<string>,
                    fetch: string -> Option<Detail>, stmt: UpdateStatement)
    requires selected == set id | id in rows && UrlCandidate(rows[id], today)
    ensures PartlyFilled(rows, selected, fetch, stmt) == UrlPass(rows, today, fetch, stmt)
  {
  }

  /** The table once the rows in `done` have had their URL tried. */
  ghost function PartlyFilled(rows: map<string, Row>, done: set<string>, fetch: string -> Option<Detail>,
                              stmt: UpdateStatement): map<string, Row>
  {
    map id | id in rows :: if id in done && UrlOutcomeOf(id, rows[id], fetch, stmt).Filled?
                          then rows[id].(url := Some(UrlOutcomeOf(id, rows[id], fetch, stmt).url))
                          else rows[id]
  }
}
