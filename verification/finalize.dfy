/**
  The output of a finished measurement: one record per completed row, in
  table order, with the segment geometry, the Start/Stop coordinate texts and
  the four stored lengths.
*/
module Finalize {
  import opened Optional
  import opened Geo
  import opened Table

  /** One output feature: Line_ID, geometry endpoints, Start, Stop and the four lengths. */
  datatype Record = Record(
    lineId: nat,
    p1: Point,
    p2: Point,
    start: string,
    stop: string,
    lengthM: Option<real>,
    lengthNm: Option<real>,
    cumLengthM: Option<real>,
    cumLengthNm: Option<real>)

  /** The rows that have an end point, in table order. */
  function CompleteRows(rows: seq<Row>): (done: seq<Row>)
    ensures |done| <= |rows|
    ensures forall i :: 0 <= i < |done| ==> done[i].p2.Some?
    ensures forall r :: r in done <==> r in rows && r.p2.Some?
    ensures (forall i :: 0 <= i < |rows| ==> rows[i].p2.Some?) ==> done == rows
  {
    if |rows| == 0 then []
    else (if rows[0].p2.Some? then [rows[0]] else []) + CompleteRows(rows[1..])
  }

  /** Filtering distributes over concatenation: kept rows stay in table order, each once. */
  lemma {:induction false} CompleteRowsAppend(a: seq<Row>, b: seq<Row>)
    ensures CompleteRows(a + b) == CompleteRows(a) + CompleteRows(b)
    decreases |a|
  {
    if |a| == 0 {
      assert a + b == b;
    } else {
      assert (a + b)[1..] == a[1..] + b;
      CompleteRowsAppend(a[1..], b);
    }
  }

  /** On a chained table the complete rows are exactly all rows but the open last one. */
  lemma {:induction false} CompleteRowsOfChain(rows: seq<Row>)
    requires Chained(rows)
    ensures CompleteRows(rows) == if |rows| == 0 then [] else rows[..|rows| - 1]
  {
    if |rows| > 0 {
      forall i | 0 <= i < |rows| - 1
        ensures rows[i].p2.Some?
      {
        assert rows[i].p2 == Some(rows[i + 1].p1);
      }
      AllButLastComplete(rows);
    }
  }

  lemma {:induction false} AllButLastComplete(rows: seq<Row>)
    requires |rows| > 0
    requires forall i :: 0 <= i < |rows| - 1 ==> rows[i].p2.Some?
    requires rows[|rows| - 1].p2.None?
    ensures CompleteRows(rows) == rows[..|rows| - 1]
  {
    if |rows| == 1 {
      assert CompleteRows(rows[1..]) == [];
    } else {
      var tail := rows[1..];
      forall i | 0 <= i < |tail| - 1
        ensures tail[i].p2.Some?
      {
        assert tail[i] == rows[i + 1];
      }
      assert tail[|tail| - 1] == rows[|rows| - 1];
      AllButLastComplete(tail);
      assert rows[0].p2.Some?;
      assert CompleteRows(rows) == [rows[0]] + CompleteRows(tail);
      assert rows[..|rows| - 1] == [rows[0]] + tail[..|tail| - 1];
    }
  }

  /** The Start/Stop text of a stored point, latitude first, in longitude/latitude. */
  function CoordinateText(svc: Services, crs: Crs, p: Point): string
  {
    LatLonText(svc, ToGeographic(svc, crs, p))
  }

  /**
    The record of one completed row under the canvas CRS `crs`: the id, the
    endpoints and the four stored lengths are copied unchanged; Start and
    Stop describe the endpoints in longitude/latitude.
  */
  function RecordOf(svc: Services, crs: Crs, r: Row): (rec: Record)
    requires r.p2.Some?
    ensures rec.lineId == r.lineId && rec.p1 == r.p1 && Some(rec.p2) == r.p2
    ensures rec.lengthM == r.lengthM && rec.lengthNm == r.lengthNm
    ensures rec.cumLengthM == r.cumLengthM && rec.cumLengthNm == r.cumLengthNm
    ensures rec.start == CoordinateText(svc, crs, r.p1) && rec.stop == CoordinateText(svc, crs, r.p2.value)
  {
    Record(r.lineId, r.p1, r.p2.value,
           CoordinateText(svc, crs, r.p1), CoordinateText(svc, crs, r.p2.value),
           r.lengthM, r.lengthNm, r.cumLengthM, r.cumLengthNm)
  }

  /** One record per completed row, in table order. */
  function BuildRecords(svc: Services, crs: Crs, rows: seq<Row>): (recs: seq<Record>)
    requires forall i :: 0 <= i < |rows| ==> rows[i].p2.Some?
    ensures |recs| == |rows|
    ensures forall i :: 0 <= i < |rows| ==> recs[i] == RecordOf(svc, crs, rows[i])
  {
    seq(|rows|, i requires 0 <= i < |rows| => RecordOf(svc, crs, rows[i]))
  }

  /**
    In a geographic CRS the Start and Stop texts are the stored coordinates
    themselves, latitude (y) first, with no transformation.
  */
  lemma GeographicPassThrough(svc: Services, crs: Crs, rows: seq<Row>)
    requires crs.geographic
    requires forall i :: 0 <= i < |rows| ==> rows[i].p2.Some?
    ensures forall i :: 0 <= i < |rows| ==>
      && BuildRecords(svc, crs, rows)[i].start == svc.fmt4(rows[i].p1.y) + ", " + svc.fmt4(rows[i].p1.x)
      && BuildRecords(svc, crs, rows)[i].stop == svc.fmt4(rows[i].p2.value.y) + ", " + svc.fmt4(rows[i].p2.value.x)
  {
  }

  /** Record `i` of a table of k+1 rows whose raw lengths are `raws`. */
  ghost predicate AccountedRecord(svc: Services, crs: Crs, rows: seq<Row>, raws: seq<real>, rec: Record, i: nat)
    requires i < |raws| && |rows| == |raws| + 1
  {
    && rec.lineId == i + 1
    && rec.p1 == rows[i].p1 && rec.p2 == rows[i + 1].p1
    && StoredAs(svc, rec, raws[i], Sum(raws[..i + 1]))
    && rec.start == CoordinateText(svc, crs, rows[i].p1)
    && rec.stop == CoordinateText(svc, crs, rows[i + 1].p1)
  }

  /** A record carries the rounded raw length `raw` and the rounded running total `cum`. */
  predicate StoredAs(svc: Services, rec: Record, raw: real, cum: real)
  {
    RoundedLengths(svc, raw, cum, rec.lengthM, rec.lengthNm, rec.cumLengthM, rec.cumLengthNm)
  }

  /**
    The records of a table of k+1 rows whose raw lengths are `raws`: k
    records with Line_IDs 1..k in table order, each spanning its row,
    copying its rounded length and the rounded running total of the raw
    lengths through it, its Stop text equal to the next record's Start.
  */
  ghost predicate AccountedRecords(svc: Services, crs: Crs, rows: seq<Row>, raws: seq<real>, recs: seq<Record>)
    requires |rows| == |raws| + 1
  {
    && |recs| == |raws|
    && (forall i :: 0 <= i < |recs| ==> AccountedRecord(svc, crs, rows, raws, recs[i], i))
    && (forall i :: 0 <= i < |recs| - 1 ==> recs[i].stop == recs[i + 1].start)
  }

  /** The record of a completed row that stores raw length `raw` and running total `cum`. */
  lemma RecordOfStoredRow(svc: Services, crs: Crs, row: Row, next: Row, raw: real, cum: real)
    requires row.p2 == Some(next.p1) && StoredLengths(svc, row, raw, cum)
    ensures RecordOf(svc, crs, row).p2 == next.p1
    ensures StoredAs(svc, RecordOf(svc, crs, row), raw, cum)
    ensures RecordOf(svc, crs, row).stop == CoordinateText(svc, crs, next.p1)
  {
  }

  /**
    The records built from the completed rows of a chained table whose rows
    store the rounded raw lengths `raws` and their rounded running totals.
  */
  lemma RecordsOfAccountedChain(svc: Services, crs: Crs, rows: seq<Row>, raws: seq<real>, done: seq<Row>)
    requires |rows| == |raws| + 1 && done == rows[..|raws|]
    requires forall i :: 0 <= i < |rows| ==> rows[i].lineId == i + 1
    requires forall i :: 0 <= i < |raws| ==> rows[i].p2 == Some(rows[i + 1].p1)
    requires forall i :: 0 <= i < |raws| ==> StoredLengths(svc, rows[i], raws[i], Sum(raws[..i + 1]))
    ensures forall i :: 0 <= i < |done| ==> done[i].p2.Some?
    ensures AccountedRecords(svc, crs, rows, raws, BuildRecords(svc, crs, done))
  {
    forall i | 0 <= i < |done|
      ensures done[i] == rows[i] && done[i].p2.Some?
    {
      assert rows[i].p2 == Some(rows[i + 1].p1);
    }
    var recs := BuildRecords(svc, crs, done);
    forall i | 0 <= i < |recs|
      ensures AccountedRecord(svc, crs, rows, raws, recs[i], i)
    {
      RecordOfStoredRow(svc, crs, rows[i], rows[i + 1], raws[i], Sum(raws[..i + 1]));
    }
  }
}
