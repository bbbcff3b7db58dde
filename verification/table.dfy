/**
  The in-memory segment table of a measuring session: one row per accepted
  click, each row a segment whose end and lengths stay unset until the next
  click completes it.
*/
module Table {
  import opened Optional
  import opened Geo

  /**
    One table row. `p2` and the four lengths are unset (None) while the row is
    the open segment; lengths are stored rounded (metres to one decimal,
    nautical miles to two).
  */
  datatype Row = Row(
    lineId: nat,
    p1: Point,
    p2: Option<Point>,
    lengthM: Option<real>,
    lengthNm: Option<real>,
    cumLengthM: Option<real>,
    cumLengthNm: Option<real>)

  /** A row whose end and lengths are all still unset. */
  predicate Open(r: Row)
  {
    r.p2.None? && r.lengthM.None? && r.lengthNm.None? && r.cumLengthM.None? && r.cumLengthNm.None?
  }

  /** The row a click opens: it starts at the rounded click point and has nothing else. */
  function OpenRow(svc: Services, lineId: nat, pt: Point): (r: Row)
    ensures Open(r)
    ensures r.lineId == lineId && r.p1 == Round6(svc, pt)
  {
    Row(lineId, Round6(svc, pt), None, None, None, None, None)
  }

  /**
    The shape of the table after any click: ids run 1, 2, 3, ... in table
    order, every row but the last ends where the next one starts, and the
    last row is the open segment.
  */
  predicate Chained(rows: seq<Row>)
  {
    && (forall i :: 0 <= i < |rows| ==> rows[i].lineId == i + 1)
    && (forall i :: 0 <= i < |rows| - 1 ==> rows[i].p2 == Some(rows[i + 1].p1))
    && (|rows| > 0 ==> Open(rows[|rows| - 1]))
  }

  /** The sum of a sequence of lengths, accumulated front to back. */
  function Sum(xs: seq<real>): real
  {
    if |xs| == 0 then 0.0 else Sum(xs[..|xs| - 1]) + xs[|xs| - 1]
  }

  lemma SumAppend(xs: seq<real>, x: real)
    ensures Sum(xs + [x]) == Sum(xs) + x
  {
    assert (xs + [x])[..|xs|] == xs;
  }

  /** The raw (unrounded) length of a completed row, measured with calculator `da`. */
  function SegmentLength(svc: Services, da: DistanceArea, r: Row): real
    requires r.p2.Some?
  {
    svc.measureLength(da, r.p1, r.p2.value)
  }

  /** `raw` is the length of the completed row `r` as the calculator configured from host state `env` measures it. */
  predicate MeasuredIn(svc: Services, env: Env, r: Row, raw: real)
    requires r.p2.Some?
  {
    raw == SegmentLength(svc, Calculator(env), r)
  }

  /** `raw` is the length of row `r` as a calculator configured from some host state measured it. */
  ghost predicate Measured(svc: Services, r: Row, raw: real)
  {
    r.p2.Some? && exists env :: MeasuredIn(svc, env, r, raw)
  }

  /**
    The four lengths a completed row stores, from its raw length and the raw
    running total through it: each is the rounded value, nautical miles
    being metres divided by 1852.
  */
  predicate StoredLengths(svc: Services, r: Row, raw: real, cum: real)
  {
    RoundedLengths(svc, raw, cum, r.lengthM, r.lengthNm, r.cumLengthM, r.cumLengthNm)
  }

  /**
    The four stored length fields, shared by rows and output records, hold
    `raw` and `cum` rounded: metres to 1 decimal, nautical miles to 2.
  */
  predicate RoundedLengths(svc: Services, raw: real, cum: real,
                           lengthM: Option<real>, lengthNm: Option<real>,
                           cumLengthM: Option<real>, cumLengthNm: Option<real>)
  {
    && lengthM == Some(svc.round(raw, 1))
    && lengthNm == Some(svc.round(raw / MetresPerNauticalMile, 2))
    && cumLengthM == Some(svc.round(cum, 1))
    && cumLengthNm == Some(svc.round(cum / MetresPerNauticalMile, 2))
  }

  /** Row `r` was measured as `raw` and stores it, with the running total `cum`, rounded. */
  ghost predicate RowAccounted(svc: Services, r: Row, raw: real, cum: real)
  {
    Measured(svc, r, raw) && StoredLengths(svc, r, raw, cum)
  }

  /**
    `raws` are the raw lengths of the completed rows (all rows but the open
    last one): each was measured between that row's stored endpoints, the
    accumulator `acc` is their sum, and each row stores its rounded length
    and the rounded running total through it.
  */
  ghost predicate Accounted(svc: Services, rows: seq<Row>, acc: real, raws: seq<real>)
  {
    && |raws| == (if |rows| == 0 then 0 else |rows| - 1)
    && acc == Sum(raws)
    && forall i :: 0 <= i < |raws| ==> RowAccounted(svc, rows[i], raws[i], Sum(raws[..i + 1]))
  }

  /** Completing the open row and opening the next one keeps the table chained. */
  lemma ChainedExtend(rows: seq<Row>, done: Row, next: Row)
    requires Chained(rows) && |rows| > 0
    requires done.lineId == |rows| && done.p1 == rows[|rows| - 1].p1 && done.p2 == Some(next.p1)
    requires next.lineId == |rows| + 1 && Open(next)
    ensures Chained(rows[..|rows| - 1] + [done, next])
  {
    var m := |rows| - 1;
    var t := rows[..m] + [done, next];
    assert forall i :: 0 <= i < m ==> t[i] == rows[i];
    assert t[m] == done && t[m + 1] == next;
  }

  /** Rows and raw lengths carried over unchanged into a longer table stay accounted. */
  lemma PrefixAccounted(svc: Services, rows: seq<Row>, raws: seq<real>, t: seq<Row>, raws': seq<real>)
    requires |raws| <= |rows| && |raws| <= |t| && |raws| <= |raws'|
    requires t[..|raws|] == rows[..|raws|] && raws'[..|raws|] == raws
    requires forall i :: 0 <= i < |raws| ==> RowAccounted(svc, rows[i], raws[i], Sum(raws[..i + 1]))
    ensures forall i :: 0 <= i < |raws| ==> RowAccounted(svc, t[i], raws'[i], Sum(raws'[..i + 1]))
  {
    forall i | 0 <= i < |raws|
      ensures RowAccounted(svc, t[i], raws'[i], Sum(raws'[..i + 1]))
    {
      assert t[i] == t[..|raws|][i] == rows[i];
      assert raws'[..i + 1] == raws[..i + 1];
    }
  }

  /** Completing the open row as `done`, measured as `raw`, and opening `next` keeps every completed row accounted. */
  lemma RowsAccountedExtend(svc: Services, rows: seq<Row>, raws: seq<real>, done: Row, raw: real, next: Row)
    requires |rows| == |raws| + 1
    requires forall i :: 0 <= i < |raws| ==> RowAccounted(svc, rows[i], raws[i], Sum(raws[..i + 1]))
    requires RowAccounted(svc, done, raw, Sum(raws + [raw]))
    ensures var t := rows[..|raws|] + [done, next]; var raws' := raws + [raw];
      forall i :: 0 <= i < |raws'| ==> RowAccounted(svc, t[i], raws'[i], Sum(raws'[..i + 1]))
  {
    var m := |raws|;
    var t := rows[..m] + [done, next];
    var raws' := raws + [raw];
    assert t[..m] == rows[..m] && raws'[..m] == raws;
    PrefixAccounted(svc, rows, raws, t, raws');
    assert t[m] == done && raws'[m] == raw && raws'[..m + 1] == raws';
    forall i | 0 <= i < |raws'|
      ensures RowAccounted(svc, t[i], raws'[i], Sum(raws'[..i + 1]))
    {
      if i == m {
        assert RowAccounted(svc, done, raw, Sum(raws'));
      }
    }
  }

  /**
    Completing the open row with raw length `raw`, added to the accumulator,
    and opening the next row keeps the lengths accounted, with `raw` appended.
  */
  lemma AccountedExtend(svc: Services, rows: seq<Row>, acc: real, raws: seq<real>, done: Row, raw: real, next: Row)
    requires Accounted(svc, rows, acc, raws) && |rows| > 0
    requires Measured(svc, done, raw) && StoredLengths(svc, done, raw, acc + raw)
    ensures Accounted(svc, rows[..|rows| - 1] + [done, next], acc + raw, raws + [raw])
  {
    SumAppend(raws, raw);
    assert RowAccounted(svc, done, raw, Sum(raws + [raw]));
    RowsAccountedExtend(svc, rows, raws, done, raw, next);
  }
}
