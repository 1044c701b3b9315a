/**
 * The audit trail: the `fpse_events` table, to which every recorded event
 * appends one row, and the queries that read it back newest first. The
 * table is a field of the recorder; a row's id comes from an
 * auto-increment counter. Whether the insert succeeds, the clock reading
 * stored as `created_at` and `sanitize_text_field` are parameters.
 */
module Events {
  import opened Php
  import StateGroupSeeder

  /** One row of the events table; `metadata` is kept as the value before JSON encoding. */
  datatype EventRow = EventRow(id: nat, userId: nat, event: string, perfil: string, estado: string, metadata: Value,
                               createdAt: string)

  /** Row ids grow with insertion order, so a later row is a newer row. */
  predicate IdsIncreasing(rows: seq<EventRow>)
  {
    forall i, j :: 0 <= i < j < |rows| ==> rows[i].id < rows[j].id
  }

  /** The rows satisfying `keep`, newest first (`WHERE … ORDER BY created_at DESC`). */
  function Matching(rows: seq<EventRow>, keep: EventRow -> bool): (r: seq<EventRow>)
    ensures |r| <= |rows|
    ensures forall x :: x in r <==> x in rows && keep(x)
  {
    if rows == [] then []
    else
      var last := rows[|rows| - 1];
      var rest := Matching(rows[..|rows| - 1], keep);
      assert rows == rows[..|rows| - 1] + [last];
      if keep(last) then [last] + rest else rest
  }

  /** Ids strictly decrease along the listing. */
  predicate NewestFirst(r: seq<EventRow>)
  {
    forall i, j :: 0 <= i < j < |r| ==> r[i].id > r[j].id
  }

  /** A result listing every matching row exactly once, strictly newest first. */
  predicate NewestFirstMatches(r: seq<EventRow>, rows: seq<EventRow>, keep: EventRow -> bool)
  {
    (forall x :: x in r ==> x in rows && keep(x))
    && (forall x :: x in rows && keep(x) ==> x in r)
    && NewestFirst(r)
  }

  /** `Matching` lists the matching rows strictly newest first. */
  lemma MatchingNewestFirst(rows: seq<EventRow>, keep: EventRow -> bool)
    requires IdsIncreasing(rows)
    ensures NewestFirstMatches(Matching(rows, keep), rows, keep)
  {
    MatchingOrder(rows, keep);
  }

  lemma {:induction false} MatchingOrder(rows: seq<EventRow>, keep: EventRow -> bool)
    requires IdsIncreasing(rows)
    ensures NewestFirst(Matching(rows, keep))
  {
    if rows != [] {
      var init := rows[..|rows| - 1];
      var last := rows[|rows| - 1];
      assert IdsIncreasing(init);
      MatchingOrder(init, keep);
      var rest := Matching(init, keep);
      forall x | x in rest
        ensures x.id < last.id
      {
        var k :| 0 <= k < |init| && init[k] == x;
        assert rows[k] == x;
      }
      if keep(last) {
        PrependNewer(last, rest);
      }
    }
  }

  /** A row newer than every row of a newest-first listing may go in front of it. */
  lemma PrependNewer(x: EventRow, rest: seq<EventRow>)
    requires NewestFirst(rest)
    requires forall y :: y in rest ==> y.id < x.id
    ensures NewestFirst([x] + rest)
  {
    var r := [x] + rest;
    forall i, j | 0 <= i < j < |r|
      ensures r[i].id > r[j].id
    {
      assert r[j] == rest[j - 1];
      if i > 0 {
        assert r[i] == rest[i - 1];
      }
    }
  }

  /** `Matching` lists the matching rows strictly newest first whenever ids grow with insertion order. */
  lemma MatchingOrdered(rows: seq<EventRow>, keep: EventRow -> bool)
    ensures IdsIncreasing(rows) ==> NewestFirstMatches(Matching(rows, keep), rows, keep)
  {
    if IdsIncreasing(rows) {
      MatchingNewestFirst(rows, keep);
    }
  }

  /** `… LIMIT n`: the first `limit` rows of the newest-first listing. */
  function Newest(rows: seq<EventRow>, keep: EventRow -> bool, limit: nat): (r: seq<EventRow>)
    ensures |r| <= limit
    ensures forall x :: x in r ==> x in rows && keep(x)
  {
    var m := Matching(rows, keep);
    if limit < |m| then m[..limit] else m
  }

  /**
   * A result of at most `limit` matching rows, strictly newest first, such
   * that a matching row is left out only when the result is full of newer
   * ones.
   */
  predicate NewestMatches(r: seq<EventRow>, rows: seq<EventRow>, keep: EventRow -> bool, limit: nat)
  {
    |r| <= limit
    && (forall i, j :: 0 <= i < j < |r| ==> r[i].id > r[j].id)
    && (forall x :: x in r ==> x in rows && keep(x))
    && (forall x :: x in rows && keep(x) && x !in r ==> |r| == limit && forall y :: y in r ==> y.id > x.id)
  }

  /** `Newest` returns the `limit` newest matching rows, newest first. */
  lemma NewestIsNewestMatches(rows: seq<EventRow>, keep: EventRow -> bool, limit: nat)
    ensures IdsIncreasing(rows) ==> NewestMatches(Newest(rows, keep, limit), rows, keep, limit)
  {
    if IdsIncreasing(rows) {
      NewestFromIncreasing(rows, keep, limit);
    }
  }

  lemma NewestFromIncreasing(rows: seq<EventRow>, keep: EventRow -> bool, limit: nat)
    requires IdsIncreasing(rows)
    ensures NewestMatches(Newest(rows, keep, limit), rows, keep, limit)
  {
    var m := Matching(rows, keep);
    var r := Newest(rows, keep, limit);
    MatchingNewestFirst(rows, keep);
    forall x | x in rows && keep(x) && x !in r
      ensures |r| == limit && forall y :: y in r ==> y.id > x.id
    {
      var j :| 0 <= j < |m| && m[j] == x;
      assert limit <= j;
      forall y | y in r
        ensures y.id > x.id
      {
        var i :| 0 <= i < |r| && r[i] == y;
        assert m[i] == y;
      }
    }
  }

  /** The rows of one user. */
  function ForUser(userId: nat): EventRow -> bool
  {
    (row: EventRow) => row.userId == userId
  }

  /**
   * The key by which the table's text columns are compared: the table is
   * created with the site's default collation, which ignores letter case
   * and trailing spaces (only ASCII letters are folded here).
   */
  function CollationKey(s: string): string
  {
    ToLower(TrimRight(s, {' '}))
  }

  /** `column = %s` on a text column. */
  predicate Collates(column: string, value: string)
  {
    CollationKey(column) == CollationKey(value)
  }

  /** Texts that differ only in letter case or trailing spaces compare equal; texts of different letters do not. */
  lemma CollatesExactly(a: string, b: string)
    ensures Collates(a, b) <==> (|TrimRight(a, {' '})| == |TrimRight(b, {' '})|
                                 && forall i :: 0 <= i < |TrimRight(a, {' '})| ==> LowerChar(a[i]) == LowerChar(b[i]))
  {
    var ta, tb := TrimRight(a, {' '}), TrimRight(b, {' '});
    if Collates(a, b) {
      forall i | 0 <= i < |ta|
        ensures LowerChar(a[i]) == LowerChar(b[i])
      {
        assert ToLower(ta)[i] == ToLower(tb)[i];
      }
    }
  }

  /** A state asked for in lower case finds the rows stored in upper case. */
  lemma CollatesIgnoresCase()
    ensures Collates("SP", "sp") && Collates("registered ", "REGISTERED") && !Collates("SP", "RJ")
  {
    assert CollationKey("SP") == "sp";
    assert CollationKey("registered ") == "registered" == CollationKey("REGISTERED");
    assert CollationKey("RJ") == "rj";
  }

  /** The rows of one event name (`WHERE event = %s`). */
  function OfEvent(event: string): EventRow -> bool
  {
    (row: EventRow) => Collates(row.event, event)
  }

  /** The rows of one state (`WHERE estado = %s`). */
  function InState(estado: string): EventRow -> bool
  {
    (row: EventRow) => Collates(row.estado, estado)
  }

  /** The row `recordEvent` inserts. */
  function NewRow(id: nat, userId: int, event: string, perfil: string, estado: string, metadata: Value,
                  sanitize: string -> string, now: string): (row: EventRow)
    ensures row.id == id && row.userId == AbsInt(userId)
    ensures row.event == sanitize(event) && row.perfil == sanitize(perfil) && row.estado == sanitize(estado)
    ensures row.metadata == metadata && row.createdAt == now
  {
    EventRow(id, AbsInt(userId), sanitize(event), sanitize(perfil), sanitize(estado), metadata, now)
  }

  /** The metadata `recordGroupAssigned` stores: the state's group slug. */
  function GroupMetadata(estado: string): (m: Value)
    ensures m.Arr? && Keys(m.entries) == ["group_slug"]
    ensures Get(m.entries, "group_slug") == Str("estado-" + ToLower(estado))
  {
    Arr([("group_slug", Str("estado-" + ToLower(estado)))])
  }

  /**
   * For a state code without surrounding blanks, in any letter case, the
   * logged slug is the slug of the group the state-group seeder creates
   * for that state.
   */
  lemma GroupMetadataNamesStateGroup(estado: string)
    requires Trim(estado) == estado
    ensures Get(GroupMetadata(estado).entries, "group_slug") == Str(StateGroupSeeder.GroupSlug(estado))
  {
    LowerOfUpper(estado);
  }

  /** The metadata `recordValidationError` stores: the errors under `errors`. */
  function ErrorsMetadata(errors: Value): (m: Value)
    ensures m.Arr? && Keys(m.entries) == ["errors"] && Get(m.entries, "errors") == errors
  {
    Arr([("errors", errors)])
  }

  /** `$estado ?? ''`. */
  function StateOrEmpty(estado: Option<string>): (s: string)
    ensures estado.None? ==> s == ""
    ensures estado.Some? ==> s == estado.value
  {
    match estado case Some(e) => e case None => ""
  }

  class EventRecorder {
    /** The events table, oldest row first. */
    var rows: seq<EventRow>
    /** The id the next inserted row receives. */
    var nextId: nat

    /** Ids are positive, grow with insertion order and stay below the next id. */
    predicate Valid()
      reads this
    {
      IdsIncreasing(rows) && nextId > 0 && forall i :: 0 <= i < |rows| ==> 0 < rows[i].id < nextId
    }

    constructor()
      ensures Valid() && rows == [] && nextId == 1
    {
      rows := [];
      nextId := 1;
    }

    /**
     * `recordEvent`: on a successful insert, exactly one row is appended
     * and its new id returned; on a failed insert nothing changes and the
     * answer is false (`None`).
     */
    method RecordEvent(userId: int, event: string, perfil: string, estado: string, metadata: Value,
                       sanitize: string -> string, now: string, insertOk: bool) returns (id: Option<nat>)
      requires Valid()
      modifies this
      ensures Valid()
      ensures insertOk ==> (id == Some(old(nextId)) && nextId == old(nextId) + 1
                             && rows == old(rows) + [NewRow(old(nextId), userId, event, perfil, estado, metadata, sanitize, now)])
      ensures !insertOk ==> id.None? && rows == old(rows) && nextId == old(nextId)
    {
      if !insertOk {
        return None;
      }
      var row := NewRow(nextId, userId, event, perfil, estado, metadata, sanitize, now);
      rows := rows + [row];
      id := Some(nextId);
      nextId := nextId + 1;
    }

    /** `recordRegistration`: one 'registered' row. */
    method RecordRegistration(userId: int, perfil: string, estado: string, metadata: Value,
                              sanitize: string -> string, now: string, insertOk: bool) returns (id: Option<nat>)
      requires Valid()
      modifies this
      ensures Valid()
      ensures rows == old(rows) + if insertOk then [NewRow(old(nextId), userId, "registered", perfil, estado, metadata, sanitize, now)] else []
      ensures nextId == old(nextId) + if insertOk then 1 else 0
      ensures id.Some? <==> insertOk
    {
      id := RecordEvent(userId, "registered", perfil, estado, metadata, sanitize, now, insertOk);
    }

    /** `recordUpdate`: one 'user_updated' row. */
    method RecordUpdate(userId: int, perfil: string, estado: string, metadata: Value,
                        sanitize: string -> string, now: string, insertOk: bool) returns (id: Option<nat>)
      requires Valid()
      modifies this
      ensures Valid()
      ensures rows == old(rows) + if insertOk then [NewRow(old(nextId), userId, "user_updated", perfil, estado, metadata, sanitize, now)] else []
      ensures nextId == old(nextId) + if insertOk then 1 else 0
      ensures id.Some? <==> insertOk
    {
      id := RecordEvent(userId, "user_updated", perfil, estado, metadata, sanitize, now, insertOk);
    }

    /** `recordProfileAssigned`: one 'profile_assigned' row with empty metadata. */
    method RecordProfileAssigned(userId: int, perfil: string, estado: string,
                                 sanitize: string -> string, now: string, insertOk: bool) returns (id: Option<nat>)
      requires Valid()
      modifies this
      ensures Valid()
      ensures rows == old(rows) + if insertOk then [NewRow(old(nextId), userId, "profile_assigned", perfil, estado, Arr([]), sanitize, now)] else []
      ensures nextId == old(nextId) + if insertOk then 1 else 0
      ensures id.Some? <==> insertOk
    {
      id := RecordEvent(userId, "profile_assigned", perfil, estado, Arr([]), sanitize, now, insertOk);
    }

    /** `recordStateAssigned`: one 'state_assigned' row with empty metadata. */
    method RecordStateAssigned(userId: int, perfil: string, estado: string,
                               sanitize: string -> string, now: string, insertOk: bool) returns (id: Option<nat>)
      requires Valid()
      modifies this
      ensures Valid()
      ensures rows == old(rows) + if insertOk then [NewRow(old(nextId), userId, "state_assigned", perfil, estado, Arr([]), sanitize, now)] else []
      ensures nextId == old(nextId) + if insertOk then 1 else 0
      ensures id.Some? <==> insertOk
    {
      id := RecordEvent(userId, "state_assigned", perfil, estado, Arr([]), sanitize, now, insertOk);
    }

    /**
     * `recordGroupAssigned` (state before profile in its parameters): one
     * 'group_assigned' row whose metadata names the state's group slug,
     * built from the state code as given.
     */
    method RecordGroupAssigned(userId: int, estado: string, perfil: string,
                               sanitize: string -> string, now: string, insertOk: bool) returns (id: Option<nat>)
      requires Valid()
      modifies this
      ensures Valid()
      ensures rows == old(rows) + if insertOk then [NewRow(old(nextId), userId, "group_assigned", perfil, estado, GroupMetadata(estado), sanitize, now)] else []
      ensures nextId == old(nextId) + if insertOk then 1 else 0
      ensures id.Some? <==> insertOk
    {
      id := RecordEvent(userId, "group_assigned", perfil, estado, GroupMetadata(estado), sanitize, now, insertOk);
    }

    /** `recordValidationError`: one anonymous (user 0) 'validation_error' row carrying the errors. */
    method RecordValidationError(perfil: string, estado: string, errors: Value,
                                 sanitize: string -> string, now: string, insertOk: bool) returns (id: Option<nat>)
      requires Valid()
      modifies this
      ensures Valid()
      ensures rows == old(rows) + if insertOk then [NewRow(old(nextId), 0, "validation_error", perfil, estado, ErrorsMetadata(errors), sanitize, now)] else []
      ensures nextId == old(nextId) + if insertOk then 1 else 0
      ensures id.Some? <==> insertOk
    {
      id := RecordEvent(0, "validation_error", perfil, estado, ErrorsMetadata(errors), sanitize, now, insertOk);
    }

    /** `recordMemberTypeAssigned`: one 'member_type_assigned' row; a missing state is stored as ''. */
    method RecordMemberTypeAssigned(userId: int, perfil: string, estado: Option<string>, metadata: Value,
                                    sanitize: string -> string, now: string, insertOk: bool) returns (id: Option<nat>)
      requires Valid()
      modifies this
      ensures Valid()
      ensures rows == old(rows) + if insertOk then [NewRow(old(nextId), userId, "member_type_assigned", perfil, StateOrEmpty(estado), metadata, sanitize, now)] else []
      ensures nextId == old(nextId) + if insertOk then 1 else 0
      ensures id.Some? <==> insertOk
    {
      id := RecordEvent(userId, "member_type_assigned", perfil, StateOrEmpty(estado), metadata, sanitize, now, insertOk);
    }

    /** `getUserEvents`: the newest `absint($limit)` rows of the user `absint($userId)`. */
    function UserEvents(userId: int, limit: int): (r: seq<EventRow>)
      reads this
      ensures Valid() ==> NewestMatches(r, rows, ForUser(AbsInt(userId)), AbsInt(limit))
    {
      NewestIsNewestMatches(rows, ForUser(AbsInt(userId)), AbsInt(limit));
      Newest(rows, ForUser(AbsInt(userId)), AbsInt(limit))
    }

    /** `getEventsByType`: the newest `absint($limit)` rows of the sanitised event name. */
    function EventsByType(event: string, limit: int, sanitize: string -> string): (r: seq<EventRow>)
      reads this
      ensures Valid() ==> NewestMatches(r, rows, OfEvent(sanitize(event)), AbsInt(limit))
    {
      NewestIsNewestMatches(rows, OfEvent(sanitize(event)), AbsInt(limit));
      Newest(rows, OfEvent(sanitize(event)), AbsInt(limit))
    }

    /** `getEventsByState`: the newest `absint($limit)` rows of the sanitised state code. */
    function EventsByState(estado: string, limit: int, sanitize: string -> string): (r: seq<EventRow>)
      reads this
      ensures Valid() ==> NewestMatches(r, rows, InState(sanitize(estado)), AbsInt(limit))
    {
      NewestIsNewestMatches(rows, InState(sanitize(estado)), AbsInt(limit));
      Newest(rows, InState(sanitize(estado)), AbsInt(limit))
    }
  }

  /**
   * A newly appended row is the newest: any query whose filter it matches
   * lists it first.
   */
  lemma NewRowComesFirst(rows: seq<EventRow>, row: EventRow, keep: EventRow -> bool, limit: nat)
    requires keep(row) && limit > 0
    ensures Newest(rows + [row], keep, limit)[0] == row
  {
    assert (rows + [row])[..|rows + [row]| - 1] == rows;
  }
}
