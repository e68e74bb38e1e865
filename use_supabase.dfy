/**
 * The data hooks of the admin portal: the generic table query with its
 * loading and error state, the real-time reducers that apply the
 * backend's INSERT, UPDATE and DELETE events to the cached bike and alert
 * lists, and the local update after an alert is resolved.
 */
module UseSupabase {
  import opened Util
  import opened Seqs

  // ---------------------------------------------------------------
  // Rows and change events

  /** A `bikes` row; the reducers read only its id, the other columns are carried along. */
  datatype Bike = Bike(id: string, columns: map<string, string>)

  /** A `system_alerts` row; `is_resolved` is the column `resolveAlert` sets. */
  datatype Alert = Alert(id: string, isResolved: bool, columns: map<string, string>)

  /** A change event of the real-time channel: the new row, or the old row's id for a delete. */
  datatype Change<R> = Insert(row: R) | Update(row: R) | Delete(oldId: string)

  function BikeId(b: Bike): string { b.id }

  function AlertId(a: Alert): string { a.id }

  /**
   * One event applied to a cached list whose rows have ids `id`: an insert
   * goes in front, an update replaces every row with the new row's id, a
   * delete drops every row with the old id.
   */
  function ApplyChange<R>(rows: seq<R>, c: Change<R>, id: R -> string): (r: seq<R>)
    ensures c.Insert? ==> |r| == |rows| + 1
    ensures c.Update? ==> |r| == |rows|
    ensures c.Delete? ==> |r| <= |rows|
  {
    match c
    case Insert(n) => [n] + rows
    case Update(n) => MapWhere(rows, (x: R) => id(x) == id(n), (x: R) => n)
    case Delete(k) => Filter(rows, (x: R) => id(x) != k)
  }

  /** The bike channel's handler: every event kind changes the list. */
  function ApplyBikeChange(bikes: seq<Bike>, c: Change<Bike>): (r: seq<Bike>)
    ensures c.Delete? ==> forall i :: 0 <= i < |r| ==> r[i].id != c.oldId
  {
    ApplyChange(bikes, c, BikeId)
  }

  /** The alert channel's handler has no DELETE branch. */
  function ApplyAlertChange(alerts: seq<Alert>, c: Change<Alert>): (r: seq<Alert>)
    ensures c.Delete? ==> r == alerts
  {
    if c.Delete? then alerts else ApplyChange(alerts, c, AlertId)
  }

  // ---------------------------------------------------------------
  // What each event does to the list

  /** INSERT puts the new row first and keeps the old list behind it. */
  lemma InsertPrepends<R>(rows: seq<R>, n: R, id: R -> string)
    ensures var r := ApplyChange(rows, Insert(n), id);
      |r| == |rows| + 1 && r[0] == n && r[1..] == rows
  {
  }

  /**
   * UPDATE puts the new row at every position whose id matches and leaves
   * every other position as it was.
   */
  lemma UpdateReplaces<R>(rows: seq<R>, n: R, id: R -> string, i: int)
    requires 0 <= i < |rows|
    ensures var r := ApplyChange(rows, Update(n), id);
      |r| == |rows| && (if id(rows[i]) == id(n) then r[i] == n else r[i] == rows[i])
  {
  }

  /** An UPDATE for an id that is not in the list changes nothing. */
  lemma UpdateAbsent<R>(rows: seq<R>, n: R, id: R -> string)
    requires forall i :: 0 <= i < |rows| ==> id(rows[i]) != id(n)
    ensures ApplyChange(rows, Update(n), id) == rows
  {
    MapWhereNone(rows, (x: R) => id(x) == id(n), (x: R) => n);
  }

  /** Receiving the same UPDATE twice is receiving it once. */
  lemma UpdateTwice<R>(rows: seq<R>, n: R, id: R -> string)
    ensures ApplyChange(ApplyChange(rows, Update(n), id), Update(n), id) == ApplyChange(rows, Update(n), id)
  {
    var once := ApplyChange(rows, Update(n), id);
    var twice := ApplyChange(once, Update(n), id);
    assert forall i :: 0 <= i < |once| ==> twice[i] == once[i];
  }

  /** DELETE keeps exactly the rows with another id, in their order. */
  lemma DeleteRemoves<R>(rows: seq<R>, k: string, id: R -> string, x: R)
    ensures x in ApplyChange(rows, Delete(k), id) <==> x in rows && id(x) != k
    ensures IsSubsequence(ApplyChange(rows, Delete(k), id), rows)
  {
    FilterMembership(rows, (x: R) => id(x) != k, x);
    FilterIsSubsequence(rows, (x: R) => id(x) != k);
  }

  /** A DELETE for an id that is not in the list changes nothing. */
  lemma DeleteAbsent<R>(rows: seq<R>, k: string, id: R -> string)
    requires forall i :: 0 <= i < |rows| ==> id(rows[i]) != k
    ensures ApplyChange(rows, Delete(k), id) == rows
  {
    FilterAll(rows, (x: R) => id(x) != k);
  }

  /** Deleting the row just inserted gives the list the delete alone would give. */
  lemma InsertThenDelete<R>(rows: seq<R>, n: R, id: R -> string)
    ensures ApplyChange(ApplyChange(rows, Insert(n), id), Delete(id(n)), id) == ApplyChange(rows, Delete(id(n)), id)
  {
    var p := (x: R) => id(x) != id(n);
    FilterAppend([n], rows, p);
  }

  /** On DELETE an alert stays in the alert list, where the bike channel's handling would drop it. */
  lemma AlertsKeepDeleted(alerts: seq<Alert>, a: Alert)
    requires a in alerts
    ensures a in ApplyAlertChange(alerts, Delete(a.id))
    ensures a !in ApplyChange(alerts, Delete(a.id), AlertId)
  {
    DeleteRemoves(alerts, a.id, AlertId, a);
  }

  // ---------------------------------------------------------------
  // Resolving an alert

  /** The local update after a resolve: `is_resolved` set on the alerts with that id. */
  function MarkResolved(alerts: seq<Alert>, id: string): (r: seq<Alert>)
    ensures |r| == |alerts|
  {
    MapWhere(alerts, (a: Alert) => a.id == id, (a: Alert) => a.(isResolved := true))
  }

  /** Only the alerts with the id become resolved; ids and other columns stay; no alert becomes unresolved. */
  lemma MarkResolvedExactly(alerts: seq<Alert>, id: string, i: int)
    requires 0 <= i < |alerts|
    ensures var r := MarkResolved(alerts, id);
      r[i].id == alerts[i].id && r[i].columns == alerts[i].columns
      && r[i].isResolved == (alerts[i].isResolved || alerts[i].id == id)
  {
  }

  /** Resolving twice is resolving once. */
  lemma MarkResolvedTwice(alerts: seq<Alert>, id: string)
    ensures MarkResolved(MarkResolved(alerts, id), id) == MarkResolved(alerts, id)
  {
    var once := MarkResolved(alerts, id);
    var twice := MarkResolved(once, id);
    assert forall i :: 0 <= i < |once| ==> twice[i] == once[i];
  }

  // ---------------------------------------------------------------
  // The generic query

  /** `orderBy`: a column and an optional direction. */
  datatype OrderBy = OrderBy(column: string, ascending: Option<bool>)

  /**
   * The options of `useSupabaseQuery`. The filter is the list of
   * `Object.entries`; `None` is an absent filter, `Some([])` an empty object.
   */
  datatype QueryOptions = QueryOptions(
    select: Option<string>, filter: Option<seq<(string, string)>>, orderBy: Option<OrderBy>, limit: Option<int>)

  /** The query the builder calls describe: the columns, the equality conditions, the ordering and the limit. */
  datatype Query = Query(table: string, select: string, eqs: seq<(string, string)>, order: Option<(string, bool)>, limit: Option<int>)

  /** `options?.limit` is truthy: present and not 0. */
  predicate LimitSet(limit: Option<int>)
  {
    limit.Some? && limit.value != 0
  }

  /** The query the effect sends, built one call at a time as the source does. */
  method BuildQuery(table: string, options: Option<QueryOptions>) returns (q: Query)
    ensures q.table == table
    ensures q.select == (if options.Some? && options.value.select.Some? && options.value.select.value != ""
      then options.value.select.value else "*")
    ensures options.None? || options.value.filter.None? ==> q.eqs == []
    ensures options.Some? && options.value.filter.Some? ==> q.eqs == options.value.filter.value
    ensures q.order.Some? <==> options.Some? && options.value.orderBy.Some?
    ensures q.order.Some? ==> q.order.value.0 == options.value.orderBy.value.column
    ensures q.order.Some? ==> q.order.value.1 == options.value.orderBy.value.ascending.GetOr(false)
    ensures q.limit.Some? <==> options.Some? && LimitSet(options.value.limit)
    ensures q.limit.Some? ==> q.limit == options.value.limit
  {
    var select := "*";
    if options.Some? && options.value.select.Some? && options.value.select.value != "" {
      select := options.value.select.value;
    }
    q := Query(table, select, [], None, None);
    if options.Some? && options.value.filter.Some? {
      var entries := options.value.filter.value;
      var i := 0;
      while i < |entries|
        invariant 0 <= i <= |entries|
        invariant q == Query(table, select, entries[..i], None, None)
      {
        q := q.(eqs := q.eqs + [entries[i]]);
        i := i + 1;
      }
      assert entries[..|entries|] == entries;
    }
    if options.Some? && options.value.orderBy.Some? {
      var ob := options.value.orderBy.value;
      q := q.(order := Some((ob.column, ob.ascending.GetOr(false))));
    }
    if options.Some? && LimitSet(options.value.limit) {
      q := q.(limit := options.value.limit);
    }
  }

  /** What the awaited query gives: rows (`None` for a null result) or an error. */
  datatype QueryResult<T> = Rows(rows: Option<seq<T>>) | Failed(message: Option<string>)

  /** The error text the hook stores: the error's message, or a generic one for a thrown non-`Error`. */
  function ErrorText(message: Option<string>): (e: string)
    ensures message.None? ==> e == "An error occurred"
    ensures message.Some? ==> e == message.value
  {
    message.GetOr("An error occurred")
  }

  /** The state of one `useSupabaseQuery` call. */
  class QueryHook<T> {
    var data: seq<T>
    var loading: bool
    var error: Option<string>

    constructor ()
      ensures data == [] && loading && error == None
    {
      data := [];
      loading := true;
      error := None;
    }

    /**
     * One run of the effect's `fetchData`: rows replace the data (a null
     * result gives the empty list), a failure sets the error and keeps the
     * data, and loading ends either way. A success does not clear an
     * earlier error.
     */
    method FetchData(result: QueryResult<T>)
      modifies this
      ensures !loading
      ensures result.Rows? ==> data == result.rows.GetOr([]) && error == old(error)
      ensures result.Failed? ==> data == old(data) && error == Some(ErrorText(result.message))
    {
      loading := true;
      match result {
        case Rows(rows) =>
          data := rows.GetOr([]);
        case Failed(message) =>
          error := Some(ErrorText(message));
      }
      loading := false;
    }

    /** `refetch`: sets loading and nothing else; the effect does not depend on loading, so no query runs. */
    method Refetch()
      modifies this`loading
      ensures loading
    {
      loading := true;
    }
  }

  // ---------------------------------------------------------------
  // The real-time hooks

  /** `useBikeStatus`: the cached bikes, filled by the first fetch and kept current by the channel. */
  class BikeStatusHook {
    var bikes: seq<Bike>
    var loading: bool

    constructor ()
      ensures bikes == [] && loading
    {
      bikes := [];
      loading := true;
    }

    /** The first fetch's rows replace the list, whatever events arrived before it. */
    method InitialFetch(rows: seq<Bike>)
      modifies this
      ensures bikes == rows && !loading
    {
      bikes := rows;
      loading := false;
    }

    /** A change event from the channel. */
    method OnChange(c: Change<Bike>)
      modifies this`bikes
      ensures bikes == ApplyBikeChange(old(bikes), c)
    {
      bikes := ApplyBikeChange(bikes, c);
    }
  }

  /** `useSystemAlerts`. */
  class SystemAlertsHook {
    var alerts: seq<Alert>
    var loading: bool

    constructor ()
      ensures alerts == [] && loading
    {
      alerts := [];
      loading := true;
    }

    /** The first fetch, of the unresolved alerts. */
    method InitialFetch(rows: seq<Alert>)
      modifies this
      ensures alerts == rows && !loading
    {
      alerts := rows;
      loading := false;
    }

    /** A change event from the channel. */
    method OnChange(c: Change<Alert>)
      modifies this`alerts
      ensures alerts == ApplyAlertChange(old(alerts), c)
    {
      alerts := ApplyAlertChange(alerts, c);
    }

    /**
     * `resolveAlert`: the local list changes only after the remote call
     * succeeds; a failure is only logged.
     */
    method ResolveAlert(id: string, remoteFails: bool)
      modifies this`alerts
      ensures remoteFails ==> alerts == old(alerts)
      ensures !remoteFails ==> alerts == MarkResolved(old(alerts), id)
    {
      if remoteFails {
        return;
      }
      alerts := MarkResolved(alerts, id);
    }
  }
}
