/**
 * Reading progress of the reader (src/App.jsx): the percentage shown for the current
 * page, the record saved for each document, and the decision taken when a document
 * is opened again.
 */
module Progress {
  import opened Common

  /**
   * `Math.round(((c + 1) / n) * 100)`, or 0 for a page without sentences, in exact
   * integer arithmetic: round half up is `floor((200 * (c + 1) + n) / (2 * n))`.
   */
  function Percent(c: int, n: nat): (r: int)
    ensures n == 0 ==> r == 0
    ensures n > 0 ==> 2 * n * r <= 200 * (c + 1) + n < 2 * n * (r + 1)
  {
    if n == 0 then 0 else (200 * (c + 1) + n) / (2 * n)
  }

  lemma MulMonotone(d: int, a: int, b: int)
    requires d > 0 && a <= b
    ensures d * a <= d * b
  {
  }

  /** The integer `r` with `d * r <= a < d * (r + 1)` is unique. */
  lemma QuotientUnique(a: int, d: int, r: int, q: int)
    requires d > 0
    requires d * r <= a < d * (r + 1)
    requires d * q <= a < d * (q + 1)
    ensures r == q
  {
    if r < q {
      MulMonotone(d, r + 1, q);
      assert false;
    } else if q < r {
      MulMonotone(d, q + 1, r);
      assert false;
    }
  }

  /** From nothing played to the last sentence played, the percentage runs from 0 to 100. */
  lemma PercentInRange(c: int, n: nat)
    requires -1 <= c < n
    ensures 0 <= Percent(c, n) <= 100
    ensures c == -1 ==> Percent(c, n) == 0
    ensures n > 0 && c == n - 1 ==> Percent(c, n) == 100
  {
    if n > 0 {
      var r := Percent(c, n);
      var a := 200 * (c + 1) + n;
      assert 2 * n * r <= a < 2 * n * (r + 1);
      if r < 0 {
        MulMonotone(2 * n, r + 1, 0);
        assert false;
      }
      if r > 100 {
        MulMonotone(2 * n, 101, r);
        assert false;
      }
      if c == -1 {
        QuotientUnique(a, 2 * n, r, 0);
      }
      if c == n - 1 {
        assert a == 201 * n;
        assert 2 * n * 100 <= a < 2 * n * 101;
        QuotientUnique(a, 2 * n, r, 100);
        assert r == 100;
      }
    }
  }

  /** Moving the cursor forward never lowers the percentage. */
  lemma PercentMonotone(c: int, c': int, n: nat)
    requires c <= c'
    ensures Percent(c, n) <= Percent(c', n)
  {
    if n > 0 {
      var r, r' := Percent(c, n), Percent(c', n);
      if r' < r {
        MulMonotone(2 * n, r' + 1, r);
        assert false;
      }
    }
  }

  /** Seven days in milliseconds, the age beyond which a saved position is ignored. */
  const WeekMs: int := 7 * 24 * 60 * 60 * 1000

  /** The `{page, sentenceIndex, timestamp}` record kept per document. */
  datatype Record = Record(page: int, sentenceIndex: int, timestamp: int)

  /**
   * The record written when the file name, page or cursor changes, if one is written:
   * only while a document is open and the page is positive.
   */
  function RecordOnChange(fileName: string, page: int, cursor: int, now: int): (r: Option<Record>)
    ensures r.Some? <==> fileName != "" && page > 0
    ensures r.Some? ==> r.value.page == page && r.value.sentenceIndex == cursor && r.value.timestamp == now
  {
    if fileName != "" && page > 0 then Some(Record(page, cursor, now)) else None
  }

  /**
   * `loadReadingProgress`: `stored` is the parsed record, `None` when the key is absent
   * or the stored text cannot be parsed. A record is returned only while it is fresh.
   */
  function LoadProgress(stored: Option<Record>, now: int): (r: Option<Record>)
    ensures r.Some? <==> stored.Some? && now - stored.value.timestamp < WeekMs
    ensures r.Some? ==> r == stored
  {
    match stored
    case Some(rec) => if now - rec.timestamp < WeekMs then stored else None
    case None => None
  }

  /** What opening a document does with its saved position. */
  datatype Restore =
    | Resume(page: int, sentenceIndex: int)   // go to `page`; later put the cursor back if >= 0
    | StartOver                               // page 1, cursor -1

  /** The restore branch of `handleFileUpload` for a document with `numPages` pages. */
  function RestoreDecision(stored: Option<Record>, now: int, numPages: int): (d: Restore)
    ensures d.Resume? <==>
      stored.Some? && now - stored.value.timestamp < WeekMs && stored.value.page <= numPages
    ensures d.Resume? ==> d.page == stored.value.page && d.sentenceIndex == stored.value.sentenceIndex
  {
    match LoadProgress(stored, now)
    case Some(rec) => if rec.page <= numPages then Resume(rec.page, rec.sentenceIndex) else StartOver
    case None => StartOver
  }

  /** The deferred restore of the cursor: only a non-negative saved index is put back. */
  function RestoredCursor(saved: int, cursor: int): (r: int)
    ensures saved >= 0 ==> r == saved
    ensures saved < 0 ==> r == cursor
  {
    if saved >= 0 then saved else cursor
  }

  /**
   * A position saved while reading comes back when the document is reopened within a
   * week, provided the document still has that page.
   */
  lemma SavedPositionResumes(fileName: string, page: int, cursor: int, savedAt: int, now: int, numPages: int)
    requires fileName != "" && 0 < page <= numPages
    requires 0 <= now - savedAt < WeekMs
    ensures RestoreDecision(RecordOnChange(fileName, page, cursor, savedAt), now, numPages) == Resume(page, cursor)
  {
  }

  /** A position saved eight days ago is ignored: the document starts on page 1. */
  lemma StalePositionIgnored(fileName: string, page: int, cursor: int, savedAt: int, numPages: int)
    requires fileName != "" && page > 0
    ensures RestoreDecision(RecordOnChange(fileName, page, cursor, savedAt), savedAt + 8 * 24 * 60 * 60 * 1000, numPages) == StartOver
  {
  }
}
