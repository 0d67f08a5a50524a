/** Versioned snapshots of the knowledge base: two writers, which compute the next version in
    different ways, keep one chain of versions per entity. */
module Snapshots {
  import opened Containers

  type Id = int
  type Entity = int
  type Instant = int
  /** The profile, scores, guidance and the other columns that are copied from a report. */
  type Payload = int

  datatype Snapshot = Snapshot(
    id: Id,
    entity: Entity,
    version: int,
    validFrom: Instant,
    validTo: Option<Instant>,
    isCurrent: bool,
    supersededBy: Option<Id>,
    payload: Payload
  )

  // ----- Queries ---------------------------------------------------------------------------

  predicate IsCurrentOf(s: Snapshot, entity: Entity) {
    s.entity == entity && s.isCurrent
  }

  /** The first row that is the current snapshot of entity. */
  function CurrentSnapshot(rows: seq<Snapshot>, entity: Entity): (r: Option<Snapshot>)
    ensures r.Some? ==> r.value in rows && IsCurrentOf(r.value, entity)
    ensures r.None? ==> forall s :: s in rows ==> !IsCurrentOf(s, entity)
  {
    if rows == [] then None
    else if IsCurrentOf(rows[0], entity) then Some(rows[0])
    else CurrentSnapshot(rows[1..], entity)
  }

  /** The row of entity with the highest version. */
  function LatestSnapshot(rows: seq<Snapshot>, entity: Entity): (r: Option<Snapshot>)
    ensures r.Some? ==> r.value in rows && r.value.entity == entity
    ensures r.Some? ==> forall s :: s in rows && s.entity == entity ==> s.version <= r.value.version
    ensures r.None? ==> forall s :: s in rows ==> s.entity != entity
  {
    if rows == [] then None
    else
      var rest := LatestSnapshot(rows[1..], entity);
      if rows[0].entity == entity && (rest.None? || rows[0].version >= rest.value.version) then Some(rows[0])
      else rest
  }

  // ----- The two writers -------------------------------------------------------------------

  function Retired(s: Snapshot, now: Instant, successor: Id): Snapshot {
    s.(isCurrent := false, validTo := Some(now), supersededBy := Some(successor))
  }

  /** Retires the rows whose id is old. */
  function RetireRows(rows: seq<Snapshot>, target: Id, now: Instant, successor: Id): (r: seq<Snapshot>) {
    if rows == [] then []
    else
      RetireRows(Front(rows), target, now, successor)
      + [if Last(rows).id == target then Retired(Last(rows), now, successor) else Last(rows)]
  }

  /** A write of either kind: Create takes its version from the current row before it retires it,
      Backfill from the highest version after that. */
  datatype Kind = Create | Backfill

  datatype Write = Write(kind: Kind, entity: Entity, id: Id, now: Instant, validFrom: Instant, payload: Payload)

  function RetireCurrent(rows: seq<Snapshot>, w: Write): seq<Snapshot> {
    var current := CurrentSnapshot(rows, w.entity);
    if current.None? then rows else RetireRows(rows, current.value.id, w.now, w.id)
  }

  function NextAfterCurrent(rows: seq<Snapshot>, entity: Entity): int {
    var current := CurrentSnapshot(rows, entity);
    if current.None? then 1 else current.value.version + 1
  }

  function NextAfterLatest(rows: seq<Snapshot>, entity: Entity): int {
    var latest := LatestSnapshot(rows, entity);
    if latest.None? then 1 else latest.value.version + 1
  }

  function NewRow(w: Write, version: int): Snapshot {
    Snapshot(w.id, w.entity, version, w.validFrom, None, true, None, w.payload)
  }

  /** The table after one write that completes. */
  function Written(rows: seq<Snapshot>, w: Write): seq<Snapshot> {
    var retired := RetireCurrent(rows, w);
    var version := if w.kind.Create? then NextAfterCurrent(rows, w.entity) else NextAfterLatest(retired, w.entity);
    retired + [NewRow(w, version)]
  }

  function WrittenAll(rows: seq<Snapshot>, writes: seq<Write>): seq<Snapshot> {
    if writes == [] then rows else Written(WrittenAll(rows, Front(writes)), Last(writes))
  }

  // ----- The successor key -----------------------------------------------------------------

  /** Whether the table checks, at every update, that superseded_by names one of its rows. */
  datatype SuccessorKey = Checked | Unchecked

  predicate HasId(rows: seq<Snapshot>, id: Id) {
    exists s :: s in rows && s.id == id
  }

  /** A write completes unless its update is checked and names a row that is not there; both writers
      update the old row before they insert the new one. */
  predicate Completes(key: SuccessorKey, rows: seq<Snapshot>, w: Write) {
    key.Unchecked? || CurrentSnapshot(rows, w.entity).None? || HasId(rows, w.id)
  }

  /** The table after a write that may raise: a rejected update changes nothing. */
  function Attempted(key: SuccessorKey, rows: seq<Snapshot>, w: Write): seq<Snapshot> {
    if Completes(key, rows, w) then Written(rows, w) else rows
  }

  function AttemptedAll(key: SuccessorKey, rows: seq<Snapshot>, writes: seq<Write>): seq<Snapshot> {
    if writes == [] then rows else Attempted(key, AttemptedAll(key, rows, Front(writes)), Last(writes))
  }

  lemma NothingWritten(rows: seq<Snapshot>, writes: seq<Write>)
    ensures WrittenAll(rows, writes[..0]) == rows
  {
  }

  lemma OneMoreWritten(rows: seq<Snapshot>, writes: seq<Write>, i: nat)
    requires i < |writes|
    ensures WrittenAll(rows, writes[..i + 1]) == Written(WrittenAll(rows, writes[..i]), writes[i])
  {
    assert Front(writes[..i + 1]) == writes[..i] && Last(writes[..i + 1]) == writes[i];
  }

  /** A report that has no entity yet, with the entity its normalised niche and place stand for. */
  datatype Report = Report(entity: Entity, createdAt: Instant, payload: Payload)

  function BackfillWrite(report: Report, id: Id, now: Instant): Write {
    Write(Backfill, report.entity, id, now, report.createdAt, report.payload)
  }

  function BackfillWrites(reports: seq<Report>, ids: seq<Id>, now: seq<Instant>): (w: seq<Write>)
    requires |ids| == |now| == |reports|
  {
    seq(|reports|, i requires 0 <= i < |reports| => BackfillWrite(reports[i], ids[i], now[i]))
  }

  // ----- What one write leaves -------------------------------------------------------------

  /** The row that is current for the entity, the first one if there are several. */
  ghost predicate FirstCurrent(rows: seq<Snapshot>, entity: Entity, current: Option<Snapshot>) {
    match current
    case None => forall s :: s in rows ==> !(s.entity == entity && s.isCurrent)
    case Some(c) =>
      exists i :: 0 <= i < |rows| && rows[i] == c && c.entity == entity && c.isCurrent
        && forall j :: 0 <= j < i ==> !(rows[j].entity == entity && rows[j].isCurrent)
  }

  /** The row is the same, except that it ended at now, is no longer current and has a successor. */
  ghost predicate Ended(before: Snapshot, after: Snapshot, now: Instant, successor: Id) {
    && after.id == before.id && after.entity == before.entity && after.version == before.version
    && after.validFrom == before.validFrom && after.payload == before.payload
    && after.validTo == Some(now) && !after.isCurrent && after.supersededBy == Some(successor)
  }

  /** One row more than before, and of the others only those with the current row's id have ended. */
  ghost predicate Supersedes(
      before: seq<Snapshot>, after: seq<Snapshot>, current: Option<Snapshot>, now: Instant, successor: Id)
  {
    && |after| == |before| + 1
    && forall i :: 0 <= i < |before| ==>
         if current.Some? && current.value.id == before[i].id then Ended(before[i], after[i], now, successor)
         else after[i] == before[i]
  }

  /** A row that is current, open and has no successor. */
  ghost predicate IsOpen(s: Snapshot, id: Id, entity: Entity, validFrom: Instant, payload: Payload) {
    && s.id == id && s.entity == entity && s.validFrom == validFrom && s.payload == payload
    && s.isCurrent && s.validTo == None && s.supersededBy == None
  }

  /** The version is one more than the highest of the entity's rows, or one if it has none. */
  ghost predicate FollowsAll(rows: seq<Snapshot>, entity: Entity, version: int) {
    && (forall s :: s in rows && s.entity == entity ==> s.version < version)
    && ((exists s :: s in rows && s.entity == entity && s.version == version - 1)
        || (version == 1 && forall s :: s in rows ==> s.entity != entity))
  }

  ghost predicate VersionOf(w: Write, rows: seq<Snapshot>, current: Option<Snapshot>, version: int) {
    match w.kind
    case Create => version == (if current.Some? then current.value.version + 1 else 1)
    case Backfill => FollowsAll(rows, w.entity, version)
  }

  /** The write ended the entity's current row at its own time and appended a row that is valid from the
      given instant, with the version its kind of writer takes. */
  ghost predicate Replaces(before: seq<Snapshot>, after: seq<Snapshot>, w: Write) {
    exists current ::
      && FirstCurrent(before, w.entity, current) && Supersedes(before, after, current, w.now, w.id)
      && IsOpen(Last(after), w.id, w.entity, w.validFrom, w.payload)
      && VersionOf(w, before, current, Last(after).version)
  }

  lemma {:induction false} CurrentIsFirst(rows: seq<Snapshot>, entity: Entity)
    ensures FirstCurrent(rows, entity, CurrentSnapshot(rows, entity))
  {
    if rows != [] && !IsCurrentOf(rows[0], entity) {
      CurrentIsFirst(rows[1..], entity);
      var current := CurrentSnapshot(rows, entity);
      if current.Some? {
        var i :| 0 <= i < |rows[1..]| && rows[1..][i] == current.value
          && forall j :: 0 <= j < i ==> !(rows[1..][j].entity == entity && rows[1..][j].isCurrent);
        assert rows[i + 1] == rows[1..][i];
        forall j | 0 <= j < i + 1 ensures !(rows[j].entity == entity && rows[j].isCurrent) {
          if j > 0 {
            assert rows[j] == rows[1..][j - 1];
          }
        }
      }
    }
  }

  lemma {:induction false} RetiredRows(rows: seq<Snapshot>, target: Id, now: Instant, successor: Id)
    ensures var after := RetireRows(rows, target, now, successor);
            && |after| == |rows|
            && forall i :: 0 <= i < |rows| ==>
                 if target == rows[i].id then Ended(rows[i], after[i], now, successor) else after[i] == rows[i]
  {
    if rows != [] {
      RetiredRows(Front(rows), target, now, successor);
    }
  }

  lemma RetiredCurrent(rows: seq<Snapshot>, w: Write)
    ensures FirstCurrent(rows, w.entity, CurrentSnapshot(rows, w.entity))
    ensures forall s :: Supersedes(rows, RetireCurrent(rows, w) + [s], CurrentSnapshot(rows, w.entity), w.now, w.id)
  {
    hide Ended, FirstCurrent;
    CurrentIsFirst(rows, w.entity);
    var current := CurrentSnapshot(rows, w.entity);
    if current.Some? {
      RetiredRows(rows, current.value.id, w.now, w.id);
    }
  }

  /** Retiring rows changes no version, so what follows the highest one afterwards did so before. */
  lemma LatestFollows(rows: seq<Snapshot>, w: Write)
    ensures FollowsAll(rows, w.entity, NextAfterLatest(RetireCurrent(rows, w), w.entity))
  {
    hide RetireCurrent, LatestSnapshot, FirstCurrent;
    RetiredCurrent(rows, w);
    var after := RetireCurrent(rows, w);
    var s := NewRow(w, 0);
    assert Supersedes(rows, after + [s], CurrentSnapshot(rows, w.entity), w.now, w.id);
    forall i | 0 <= i < |rows| ensures after[i].entity == rows[i].entity && after[i].version == rows[i].version {
      assert (after + [s])[i] == after[i];
    }
    var latest := LatestSnapshot(after, w.entity);
    forall t | t in rows && t.entity == w.entity
      ensures latest.Some? && t.version <= latest.value.version
    {
      var i :| 0 <= i < |rows| && rows[i] == t;
      assert after[i] in after;
    }
    if latest.Some? {
      var i :| 0 <= i < |after| && after[i] == latest.value;
      assert rows[i] in rows;
    }
  }

  /** Every write that completes replaces the entity's current row. */
  lemma WriteReplaces(rows: seq<Snapshot>, w: Write)
    ensures Replaces(rows, Written(rows, w), w)
  {
    hide RetireCurrent, FirstCurrent, Supersedes, FollowsAll, LatestSnapshot;
    RetiredCurrent(rows, w);
    LatestFollows(rows, w);
    var current := CurrentSnapshot(rows, w.entity);
    assert VersionOf(w, rows, current, Last(Written(rows, w)).version);
  }

  class SnapshotTable {
    const key: SuccessorKey
    var rows: seq<Snapshot>

    constructor (key: SuccessorKey)
      ensures this.key == key && rows == []
    {
      this.key := key;
      rows := [];
    }

    /** The update of the row that is superseded. */
    method Supersede(target: Id, now: Instant, successor: Id) returns (ok: bool)
      modifies this
      ensures ok <==> key.Unchecked? || HasId(old(rows), successor)
      ensures rows == if ok then RetireRows(old(rows), target, now, successor) else old(rows)
    {
      ok := key.Unchecked? || HasId(rows, successor);
      if ok {
        rows := RetireRows(rows, target, now, successor);
      }
    }

    method CreateSnapshot(entity: Entity, id: Id, now: Instant, payload: Payload) returns (r: Result<Id>)
      modifies this
      ensures var w := Write(Create, entity, id, now, now, payload);
              && rows == Attempted(key, old(rows), w)
              && (r.Ok? <==> Completes(key, old(rows), w))
      ensures r.Ok? ==> r.value == id && Replaces(old(rows), rows, Write(Create, entity, id, now, now, payload))
      ensures r.Raised? ==> rows == old(rows)
    {
      hide Replaces;
      WriteReplaces(rows, Write(Create, entity, id, now, now, payload));
      var previous := CurrentSnapshot(rows, entity);
      var nextVersion := if previous.None? then 1 else previous.value.version + 1;
      var row := Snapshot(id, entity, nextVersion, now, None, true, None, payload);
      if previous.Some? {
        var ok := Supersede(previous.value.id, now, id);
        if !ok { return Raised("superseded_by names no snapshot"); }
      }
      rows := rows + [row];
      r := Ok(id);
    }

    method BackfillReport(report: Report, id: Id, now: Instant) returns (ok: bool)
      modifies this
      ensures rows == Attempted(key, old(rows), BackfillWrite(report, id, now))
      ensures ok <==> Completes(key, old(rows), BackfillWrite(report, id, now))
      ensures ok ==>
        Replaces(old(rows), rows, Write(Backfill, report.entity, id, now, report.createdAt, report.payload))
      ensures !ok ==> rows == old(rows)
    {
      hide Replaces;
      WriteReplaces(rows, BackfillWrite(report, id, now));
      var existing := CurrentSnapshot(rows, report.entity);
      if existing.Some? {
        ok := Supersede(existing.value.id, now, id);
        if !ok { return; }
      }
      var latest := LatestSnapshot(rows, report.entity);
      var nextVersion := if latest.None? then 1 else latest.value.version + 1;
      rows := rows + [Snapshot(id, report.entity, nextVersion, report.createdAt, None, true, None, report.payload)];
      ok := true;
    }

    /** Gives the reports their snapshots and links, in order, up to the first one whose write raises. */
    method BackfillReports(reports: seq<Report>, ids: seq<Id>, now: seq<Instant>) returns (links: seq<(Entity, Id)>)
      requires |ids| == |now| == |reports|
      modifies this
      ensures var writes, n := BackfillWrites(reports, ids, now), |links|;
              && n <= |reports|
              && rows == WrittenAll(old(rows), writes[..n])
              && (forall i :: 0 <= i < n ==> Completes(key, WrittenAll(old(rows), writes[..i]), writes[i]))
              && (n < |reports| ==> !Completes(key, rows, writes[n]))
      ensures forall i :: 0 <= i < |links| ==> links[i] == (reports[i].entity, ids[i])
    {
      hide Written, Completes, WrittenAll, BackfillWrite;
      NothingWritten(rows, BackfillWrites(reports, ids, now));
      links := [];
      ghost var writes := BackfillWrites(reports, ids, now);
      for i := 0 to |reports|
        invariant |links| == i && forall j :: 0 <= j < i ==> links[j] == (reports[j].entity, ids[j])
        invariant rows == WrittenAll(old(rows), writes[..i])
        invariant forall j :: 0 <= j < i ==> Completes(key, WrittenAll(old(rows), writes[..j]), writes[j])
      {
        var ok := BackfillReport(reports[i], ids[i], now[i]);
        if !ok { return; }
        links := links + [(reports[i].entity, ids[i])];
        OneMoreWritten(old(rows), writes, i);
      }
      assert writes[..|reports|] == writes;
    }
  }

  // ----- The chain of an entity ------------------------------------------------------------

  function RowOf(entity: Entity): Snapshot -> bool {
    (s: Snapshot) => s.entity == entity
  }

  function WriteFor(entity: Entity): Write -> bool {
    (w: Write) => w.entity == entity
  }

  function History(rows: seq<Snapshot>, entity: Entity): seq<Snapshot> {
    Filter(RowOf(entity), rows)
  }

  function WritesFor(writes: seq<Write>, entity: Entity): seq<Write> {
    Filter(WriteFor(entity), writes)
  }

  function Link(writes: seq<Write>, i: nat): Snapshot
    requires i < |writes|
  {
    var w, last := writes[i], i == |writes| - 1;
    Snapshot(
      w.id, w.entity, i + 1, w.validFrom,
      if last then None else Some(writes[i + 1].now),
      last,
      if last then None else Some(writes[i + 1].id),
      w.payload)
  }

  /** The history that the writes of one entity should leave: versions count from one, each
      version is superseded by the next, and only the last one is current. */
  function Chain(writes: seq<Write>): (c: seq<Snapshot>)
    ensures |c| == |writes|
  {
    seq(|writes|, i requires 0 <= i < |writes| => Link(writes, i))
  }

  ghost predicate DistinctIds(rows: seq<Snapshot>) {
    forall i, j :: 0 <= i < j < |rows| ==> rows[i].id != rows[j].id
  }

  /** The table holds, for every entity, exactly the chain of the writes made for it. */
  ghost predicate Tracks(rows: seq<Snapshot>, writes: seq<Write>) {
    && DistinctIds(rows)
    && (forall s :: s in rows ==> exists w :: w in writes && w.id == s.id)
    && (forall entity :: History(rows, entity) == Chain(WritesFor(writes, entity)))
  }

  lemma HistorySnoc(rows: seq<Snapshot>, s: Snapshot, entity: Entity)
    ensures History(rows + [s], entity)
         == if s.entity == entity then History(rows, entity) + [s] else History(rows, entity)
  {
    FilterSnoc(RowOf(entity), rows, s);
  }

  lemma WritesForSnoc(writes: seq<Write>, w: Write, entity: Entity)
    ensures WritesFor(writes + [w], entity) ==
      if w.entity == entity then WritesFor(writes, entity) + [w] else WritesFor(writes, entity)
  {
    FilterSnoc(WriteFor(entity), writes, w);
  }

  lemma HistoryMember(rows: seq<Snapshot>, entity: Entity, s: Snapshot)
    ensures s in History(rows, entity) <==> s in rows && s.entity == entity
  {
    FilterMember(RowOf(entity), rows, s);
  }

  /** The current row of an entity is the last of its chain. */
  lemma CurrentIsLast(rows: seq<Snapshot>, entity: Entity, ws: seq<Write>)
    requires History(rows, entity) == Chain(ws)
    ensures CurrentSnapshot(rows, entity) == if ws == [] then None else Some(Link(ws, |ws| - 1))
  {
    var current := CurrentSnapshot(rows, entity);
    if current.Some? {
      HistoryMember(rows, entity, current.value);
      assert current.value in Chain(ws);
    } else if ws != [] {
      var last := Link(ws, |ws| - 1);
      assert Chain(ws)[|ws| - 1] == last;
      HistoryMember(rows, entity, last);
    }
  }

  /** The highest version of a history numbered from one is its length. */
  lemma LatestCounts(rows: seq<Snapshot>, entity: Entity)
    requires forall i :: 0 <= i < |History(rows, entity)| ==> History(rows, entity)[i].version == i + 1
    ensures NextAfterLatest(rows, entity) == |History(rows, entity)| + 1
  {
    var h := History(rows, entity);
    var latest := LatestSnapshot(rows, entity);
    if h != [] {
      HistoryMember(rows, entity, Last(h));
      HistoryMember(rows, entity, latest.value);
    } else if latest.Some? {
      HistoryMember(rows, entity, latest.value);
    }
  }

  // ----- Retiring rows ---------------------------------------------------------------------

  function MaybeRetired(s: Snapshot, target: Id, now: Instant, successor: Id): Snapshot {
    if s.id == target then Retired(s, now, successor) else s
  }

  lemma RetireSnoc(rows: seq<Snapshot>, s: Snapshot, target: Id, now: Instant, successor: Id)
    ensures RetireRows(rows + [s], target, now, successor)
         == RetireRows(rows, target, now, successor) + [MaybeRetired(s, target, now, successor)]
  {
    assert Front(rows + [s]) == rows;
  }

  lemma {:induction false} RetireHistory(rows: seq<Snapshot>, target: Id, now: Instant, successor: Id, entity: Entity)
    ensures History(RetireRows(rows, target, now, successor), entity)
         == RetireRows(History(rows, entity), target, now, successor)
  {
    if rows == [] {
      assert RetireRows(rows, target, now, successor) == [] && History(rows, entity) == [];
    } else {
      var rest, s := Front(rows), Last(rows);
      assert rows == rest + [s];
      hide RetireRows, Filter;
      RetireHistory(rest, target, now, successor, entity);
      RetireSnoc(rest, s, target, now, successor);
      HistorySnoc(RetireRows(rest, target, now, successor), MaybeRetired(s, target, now, successor), entity);
      HistorySnoc(rest, s, entity);
      RetireSnoc(History(rest, entity), s, target, now, successor);
    }
  }

  lemma {:induction false} RetireAt(rows: seq<Snapshot>, target: Id, now: Instant, successor: Id)
    ensures |RetireRows(rows, target, now, successor)| == |rows|
    ensures forall i :: 0 <= i < |rows| ==>
      RetireRows(rows, target, now, successor)[i]
      == if rows[i].id == target then Retired(rows[i], now, successor) else rows[i]
  {
    if rows != [] {
      RetireAt(Front(rows), target, now, successor);
    }
  }

  lemma {:induction false} HistoryIds(rows: seq<Snapshot>, entity: Entity)
    requires DistinctIds(rows)
    ensures DistinctIds(History(rows, entity))
  {
    if rows != [] {
      HistoryIds(Front(rows), entity);
      var h := History(Front(rows), entity);
      forall i | 0 <= i < |h| ensures h[i].id != Last(rows).id {
        HistoryMember(Front(rows), entity, h[i]);
      }
    }
  }

  /** Retiring the last row of a chain of its own ids leaves the rest alone. */
  lemma RetireLast(h: seq<Snapshot>, now: Instant, successor: Id)
    requires h != [] && DistinctIds(h)
    ensures RetireRows(h, Last(h).id, now, successor) == Front(h) + [Retired(Last(h), now, successor)]
  {
    RetireAt(h, Last(h).id, now, successor);
  }

  lemma RetireOther(h: seq<Snapshot>, target: Id, now: Instant, successor: Id)
    requires forall i :: 0 <= i < |h| ==> h[i].id != target
    ensures RetireRows(h, target, now, successor) == h
  {
    RetireAt(h, target, now, successor);
  }

  // ----- One write -------------------------------------------------------------------------

  lemma IdsIdentify(rows: seq<Snapshot>, s: Snapshot, t: Snapshot)
    requires DistinctIds(rows) && s in rows && t in rows && s.id == t.id
    ensures s == t
  {
  }

  /** The history of the entity written to, after its current row is retired. */
  lemma RetiredHistory(rows: seq<Snapshot>, writes: seq<Write>, w: Write, entity: Entity)
    requires Tracks(rows, writes)
    ensures var h := History(rows, entity);
      History(RetireCurrent(rows, w), entity) ==
        if entity != w.entity || h == [] then h else Front(h) + [Retired(Last(h), w.now, w.id)]
  {
    hide RetireRows, Filter, CurrentSnapshot, Link;
    var h := History(rows, entity);
    CurrentIsLast(rows, w.entity, WritesFor(writes, w.entity));
    var current := CurrentSnapshot(rows, w.entity);
    if current.Some? {
      RetireHistory(rows, current.value.id, w.now, w.id, entity);
      HistoryIds(rows, entity);
      if entity == w.entity {
        assert Last(h) == current.value;
        RetireLast(h, w.now, w.id);
      } else {
        forall i | 0 <= i < |h| ensures h[i].id != current.value.id {
          HistoryMember(rows, entity, h[i]);
          if h[i].id == current.value.id {
            IdsIdentify(rows, h[i], current.value);
          }
        }
        RetireOther(h, current.value.id, w.now, w.id);
      }
    }
  }

  /** Both rules number the next version after the length of the chain. */
  lemma RulesAgree(rows: seq<Snapshot>, writes: seq<Write>, w: Write)
    requires Tracks(rows, writes)
    ensures NextAfterCurrent(rows, w.entity) == |WritesFor(writes, w.entity)| + 1
    ensures NextAfterLatest(RetireCurrent(rows, w), w.entity) == |WritesFor(writes, w.entity)| + 1
    ensures NextAfterLatest(rows, w.entity) == |WritesFor(writes, w.entity)| + 1
  {
    hide RetireRows, Filter, CurrentSnapshot, RetireCurrent, LatestSnapshot, NextAfterLatest;
    CurrentIsLast(rows, w.entity, WritesFor(writes, w.entity));
    RetiredHistory(rows, writes, w, w.entity);
    LatestCounts(rows, w.entity);
    LatestCounts(RetireCurrent(rows, w), w.entity);
  }

  lemma RetireCurrentIds(rows: seq<Snapshot>, w: Write)
    ensures |RetireCurrent(rows, w)| == |rows|
    ensures forall i :: 0 <= i < |rows| ==> RetireCurrent(rows, w)[i].id == rows[i].id
  {
    var current := CurrentSnapshot(rows, w.entity);
    if current.Some? {
      RetireAt(rows, current.value.id, w.now, w.id);
    }
  }

  /** One more write extends the chain of its entity and touches no other chain. */
  lemma ChainExtends(ws: seq<Write>, w: Write)
    ensures Chain(ws + [w]) ==
      (if ws == [] then [] else Front(Chain(ws)) + [Retired(Last(Chain(ws)), w.now, w.id)]) + [NewRow(w, |ws| + 1)]
  {
  }

  /** A write with a new id keeps the table in step with the writes. */
  lemma WriteKeepsTrack(rows: seq<Snapshot>, writes: seq<Write>, w: Write)
    requires Tracks(rows, writes) && forall v :: v in writes ==> v.id != w.id
    ensures Tracks(Written(rows, w), writes + [w])
  {
    hide RetireRows, Filter, CurrentSnapshot, LatestSnapshot, RetireCurrent, NextAfterCurrent, NextAfterLatest, Chain;
    RulesAgree(rows, writes, w);
    RetireCurrentIds(rows, w);
    var retired := RetireCurrent(rows, w);
    var row := NewRow(w, |WritesFor(writes, w.entity)| + 1);
    assert Written(rows, w) == retired + [row];
    forall i | 0 <= i < |retired| ensures exists v :: v in writes && v.id == retired[i].id {
      assert rows[i] in rows;
    }
    forall entity ensures History(retired + [row], entity) == Chain(WritesFor(writes + [w], entity)) {
      RetiredHistory(rows, writes, w, entity);
      HistorySnoc(retired, row, entity);
      WritesForSnoc(writes, w, entity);
      if entity == w.entity {
        ChainExtends(WritesFor(writes, entity), w);
      }
    }
  }

  // ----- Whole runs ------------------------------------------------------------------------

  ghost predicate NewIds(writes: seq<Write>) {
    forall i, j :: 0 <= i < j < |writes| ==> writes[i].id != writes[j].id
  }

  lemma LastIdIsNew(front: seq<Write>, last: Write)
    requires NewIds(front + [last])
    ensures NewIds(front) && forall v :: v in front ==> v.id != last.id
  {
    var writes := front + [last];
    forall i, j | 0 <= i < j < |front| ensures front[i].id != front[j].id {
      assert writes[i].id != writes[j].id;
    }
    forall i | 0 <= i < |front| ensures front[i].id != last.id {
      assert writes[i].id != writes[|front|].id;
    }
  }

  lemma NothingTracked()
    ensures Tracks([], [])
  {
  }

  /** Any sequence of writes of both kinds that complete, each with an id of its own, leaves for
      every entity exactly the chain of its writes. */
  lemma {:induction false} RunsKeepChains(writes: seq<Write>)
    requires NewIds(writes)
    ensures Tracks(WrittenAll([], writes), writes)
  {
    if writes == [] {
      NothingTracked();
    } else {
      hide Tracks, Written, NewIds;
      var front, last := Front(writes), Last(writes);
      assert front + [last] == writes;
      LastIdIsNew(front, last);
      RunsKeepChains(front);
      WriteKeepsTrack(WrittenAll([], front), front, last);
    }
  }

  lemma SameRetirement(rows: seq<Snapshot>, w: Write, v: Write)
    requires w.(kind := v.kind) == v
    ensures RetireCurrent(rows, w) == RetireCurrent(rows, v)
  {
  }

  /** Two runs that differ only in which writer made each write end in the same table. */
  lemma {:induction false} WritersInterchangeable(writes: seq<Write>, others: seq<Write>)
    requires NewIds(writes) && |writes| == |others|
    requires forall i :: 0 <= i < |writes| ==> others[i] == writes[i].(kind := others[i].kind)
    ensures WrittenAll([], writes) == WrittenAll([], others)
  {
    if writes != [] {
      var before := WrittenAll([], Front(writes));
      WritersInterchangeable(Front(writes), Front(others));
      RunsKeepChains(Front(writes));
      RulesAgree(before, Front(writes), Last(writes));
      SameRetirement(before, Last(writes), Last(others));
    }
  }

  /** In the table of a run: versions 1 to n, exactly version n current, version v superseded by the
      id of version v + 1, and validity without a gap wherever the later write starts when it is made. */
  lemma ChainFacts(writes: seq<Write>, entity: Entity, i: nat)
    requires NewIds(writes) && i < |WritesFor(writes, entity)|
    ensures var h, ws := History(WrittenAll([], writes), entity), WritesFor(writes, entity);
      && |h| == |ws|
      && h[i].version == i + 1
      && h[i].id == ws[i].id && h[i].payload == ws[i].payload
      && (h[i].isCurrent <==> i + 1 == |h|)
      && (i + 1 < |h| ==> h[i].supersededBy == Some(h[i + 1].id))
      && (i + 1 < |h| ==> (h[i].validTo == Some(h[i + 1].validFrom) <==> ws[i + 1].now == ws[i + 1].validFrom))
      && (i + 1 == |h| ==> h[i].supersededBy == None && h[i].validTo == None)
  {
    hide WrittenAll, Filter;
    RunsKeepChains(writes);
    var h, ws := History(WrittenAll([], writes), entity), WritesFor(writes, entity);
    assert h == Chain(ws);
    assert h[i] == Link(ws, i);
    if i + 1 < |ws| {
      assert h[i + 1] == Link(ws, i + 1);
    }
  }

  /** A write that stops between its two steps parts the rules: the next version is 1 again for one
      writer, while the other goes on counting. */
  lemma InterruptedWritePartsRules(writes: seq<Write>, w: Write)
    requires NewIds(writes) && WritesFor(writes, w.entity) != []
    ensures var rows := RetireCurrent(WrittenAll([], writes), w);
      && NextAfterCurrent(rows, w.entity) == 1
      && NextAfterLatest(rows, w.entity) == |WritesFor(writes, w.entity)| + 1
  {
    hide WrittenAll, Filter, CurrentSnapshot, LatestSnapshot, RetireCurrent, NextAfterLatest;
    RunsKeepChains(writes);
    var before := WrittenAll([], writes);
    RulesAgree(before, writes, w);
    RetiredHistory(before, writes, w, w.entity);
    var rows := RetireCurrent(before, w);
    var current := CurrentSnapshot(rows, w.entity);
    if current.Some? {
      HistoryMember(rows, w.entity, current.value);
    }
  }

  // ----- Runs on a table that checks its successor key -------------------------------------

  /** The first write of each entity. */
  function FirstWrites(writes: seq<Write>): seq<Write> {
    if writes == [] then []
    else
      var kept := FirstWrites(Front(writes));
      if WritesFor(kept, Last(writes).entity) == [] then kept + [Last(writes)] else kept
  }

  lemma {:induction false} FirstWritesWithin(writes: seq<Write>)
    ensures forall w :: w in FirstWrites(writes) ==> w in writes
  {
    if writes != [] {
      FirstWritesWithin(Front(writes));
    }
  }

  lemma {:induction false} FirstWritesFor(writes: seq<Write>, entity: Entity)
    ensures var ws := WritesFor(writes, entity);
            WritesFor(FirstWrites(writes), entity) == if ws == [] then [] else [ws[0]]
  {
    if writes == [] {
      assert WritesFor(writes, entity) == [];
    } else {
      hide Filter;
      var front, last := Front(writes), Last(writes);
      assert writes == front + [last];
      FirstWritesFor(front, entity);
      WritesForSnoc(front, last, entity);
      WritesForSnoc(FirstWrites(front), last, entity);
    }
  }

  lemma NoSuchId(rows: seq<Snapshot>, writes: seq<Write>, w: Write)
    requires Tracks(rows, writes) && forall v :: v in writes ==> v.id != w.id
    ensures !HasId(rows, w.id)
  {
  }

  /** Where the key is checked, a write with a new id completes exactly when its entity has no
      current row. */
  lemma CheckedWriteCompletesIff(rows: seq<Snapshot>, w: Write)
    requires !HasId(rows, w.id)
    ensures Completes(Checked, rows, w) <==> forall s :: s in rows ==> !IsCurrentOf(s, w.entity)
    ensures !Completes(Checked, rows, w) ==> Attempted(Checked, rows, w) == rows
  {
  }

  lemma TrackedHistory(rows: seq<Snapshot>, writes: seq<Write>, entity: Entity)
    requires Tracks(rows, writes)
    ensures History(rows, entity) == Chain(WritesFor(writes, entity))
  {
  }

  /** Where the key is checked, only the first write of each entity ever leaves a trace. */
  lemma {:induction false} CheckedRuns(writes: seq<Write>)
    requires NewIds(writes)
    ensures Tracks(AttemptedAll(Checked, [], writes), FirstWrites(writes))
  {
    if writes != [] {
      var front, last := Front(writes), Last(writes);
      var rows := AttemptedAll(Checked, [], front);
      CheckedRuns(front);
      hide Tracks, Filter, Written, CurrentSnapshot, Link;
      FirstWritesWithin(front);
      assert forall v :: v in front ==> v.id != last.id;
      NoSuchId(rows, FirstWrites(front), last);
      TrackedHistory(rows, FirstWrites(front), last.entity);
      CurrentIsLast(rows, last.entity, WritesFor(FirstWrites(front), last.entity));
      if WritesFor(FirstWrites(front), last.entity) == [] {
        WriteKeepsTrack(rows, FirstWrites(front), last);
      }
    }
  }

  /** Where the key is checked, no entity ever has a second version: its history is its first write,
      still current, and every later write for it raises. */
  lemma CheckedHistories(writes: seq<Write>, entity: Entity)
    requires NewIds(writes)
    ensures var ws := WritesFor(writes, entity);
            History(AttemptedAll(Checked, [], writes), entity) == if ws == [] then [] else [NewRow(ws[0], 1)]
  {
    hide Tracks, Filter, AttemptedAll, FirstWrites;
    CheckedRuns(writes);
    TrackedHistory(AttemptedAll(Checked, [], writes), FirstWrites(writes), entity);
    FirstWritesFor(writes, entity);
  }

  lemma CheckedNextWrite(writes: seq<Write>, w: Write)
    requires NewIds(writes + [w])
    ensures Completes(Checked, AttemptedAll(Checked, [], writes), w) <==> WritesFor(writes, w.entity) == []
  {
    hide Filter, AttemptedAll, FirstWrites, CurrentSnapshot, Link;
    var rows := AttemptedAll(Checked, [], writes);
    LastIdIsNew(writes, w);
    CheckedRuns(writes);
    FirstWritesWithin(writes);
    NoSuchId(rows, FirstWrites(writes), w);
    FirstWritesFor(writes, w.entity);
    CurrentIsLast(rows, w.entity, WritesFor(FirstWrites(writes), w.entity));
  }

  /** Without the check every write completes, so that runs of attempts are runs of writes. */
  lemma {:induction false} UncheckedRuns(rows: seq<Snapshot>, writes: seq<Write>)
    ensures AttemptedAll(Unchecked, rows, writes) == WrittenAll(rows, writes)
  {
    if writes != [] {
      UncheckedRuns(rows, Front(writes));
    }
  }
}
