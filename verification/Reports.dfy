/** The parsed aggregate report, as the rest of the service sees it
    (parser/internal/report/report.go). Counts are signed: the XML decoder
    accepts a negative count and nothing downstream rejects it. */
module Reports {
  datatype Option<+T> = None | Some(value: T)

  /** Some element of a set. */
  ghost function Pick<T>(s: set<T>): (x: T)
    requires s != {}
    ensures x in s
  {
    var x :| x in s; x
  }

  type Byte = n: int | 0 <= n < 256

  /** How a writing database call can end: as reported, without effect and with an
      error, or with its effect although the caller sees an error. */
  datatype Commit = Applied | NotApplied | Unacked

  datatype Align = Pass | Fail | Unknown

  datatype Disposition = NoAction | Quarantine | Reject | Other

  datatype AuthResult = AuthResult(domain: string, selector: string, result: string)

  /** ip4 is the packed big-endian address, ip6 the 16 raw bytes; a record whose
      address did not parse has neither. */
  datatype Record = Record(
    ip4: Option<int>,
    ip6: Option<seq<Byte>>,
    count: int,
    disposition: Option<Disposition>,
    spfAlign: Align,
    dkimAlign: Align,
    dkimAll: seq<AuthResult>)

  /** The dedup key: unique (domain, reportid). */
  datatype Key = Key(domain: string, reportId: string)

  datatype Report = Report(key: Key, begin: int, end: int, records: seq<Record>)

  /** One row of table `report` together with its `rptrecord` rows. */
  datatype Row = Row(serial: int, report: Report)

  predicate Aligned(rec: Record) {
    rec.dkimAlign == Pass || rec.spfAlign == Pass
  }

  predicate NonNegative(rep: Report) {
    forall k :: 0 <= k < |rep.records| ==> 0 <= rep.records[k].count
  }

  /** The unique index on (domain, reportid) and the primary key on serial. */
  ghost predicate DistinctRows(rows: seq<Row>) {
    && (forall i, j :: 0 <= i < j < |rows| ==> rows[i].report.key != rows[j].report.key)
    && (forall i, j :: 0 <= i < j < |rows| ==> rows[i].serial != rows[j].serial)
  }
}
