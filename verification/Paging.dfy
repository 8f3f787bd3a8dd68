/** Offset paging against the Google APIs: Search Console detail rows, capped
    per day, and GA4 reports, read to their end. */
module Paging {
  import opened Text

  /** The page of a listing at an offset: full unless the listing ends in it. */
  function Page<T>(s: seq<T>, offset: nat, size: nat): seq<T> {
    if offset + size <= |s| then s[offset..offset + size] else if offset <= |s| then s[offset..] else []
  }

  // ----- Search Console details -----

  const PAGE_SIZE: nat := 25000
  const DETAIL_CAP: nat := 50000

  function Take<T>(s: seq<T>, n: nat): seq<T> {
    if |s| <= n then s else s[..n]
  }

  /** A call that succeeds answers from a fixed listing per day; any call may fail. */
  ghost predicate ServesDays<T(!new)>(serve: (nat, nat) -> Option<seq<T>>, listing: nat -> seq<T>) {
    forall day: nat, offset: nat :: serve(day, offset).Some? ==>
      serve(day, offset).value == Page(listing(day), offset, PAGE_SIZE)
  }

  /** Calls a complete transfer of one day makes: one per page that can be reached. */
  predicate DayAnswers<T>(serve: (nat, nat) -> Option<seq<T>>, listing: nat -> seq<T>, day: nat) {
    serve(day, 0).Some? && (|listing(day)| >= PAGE_SIZE ==> serve(day, PAGE_SIZE).Some?)
  }

  /** The days from start, before end, oldest first: the first `cap` rows of each. */
  function DayByDay<T>(listing: nat -> seq<T>, start: nat, end: nat, cap: nat): seq<T>
    decreases end
  {
    if end <= start then [] else DayByDay(listing, start, end - 1, cap) + Take(listing(end - 1), cap)
  }

  /** The inner loop: pages of one day until a short one or the cap. */
  method FetchDay<T(!new)>(serve: (nat, nat) -> Option<seq<T>>, ghost listing: nat -> seq<T>, day: nat)
    returns (ok: bool, rows: seq<T>, complete: bool)
    requires ServesDays(serve, listing)
    ensures ok <==> DayAnswers(serve, listing, day)
    ensures ok <==> serve(day, 0).Some? && (|listing(day)| >= 25000 ==> serve(day, 25000).Some?)
    ensures ok ==> rows <= listing(day) && |rows| == (if |listing(day)| < 50000 then |listing(day)| else 50000)
    ensures ok ==> rows == Take(listing(day), DETAIL_CAP) && (complete <==> |listing(day)| < 50000)
  {
    rows, complete := [], false;
    var offset := 0;
    while offset < DETAIL_CAP
      invariant offset % PAGE_SIZE == 0 && offset <= |listing(day)|
      invariant offset <= DETAIL_CAP && rows == listing(day)[..offset]
      invariant forall o: nat :: o < offset && o % PAGE_SIZE == 0 ==> serve(day, o).Some?
      decreases DETAIL_CAP - offset
    {
      var page := serve(day, offset);
      if page.None? { return false, [], false; }
      rows := rows + page.value;
      if |page.value| < PAGE_SIZE {
        assert rows == listing(day);
        return true, rows, true;
      }
      assert rows == listing(day)[..offset + PAGE_SIZE];
      offset := offset + PAGE_SIZE;
    }
    ok := true;
  }

  /** fetchDetails over the days from start to end, both included. */
  method FetchDetails<T(!new)>(serve: (nat, nat) -> Option<seq<T>>, ghost listing: nat -> seq<T>, start: nat, end: nat)
    returns (ok: bool, rows: seq<T>, partial: bool)
    requires ServesDays(serve, listing)
    ensures ok <==> forall day :: start <= day <= end ==> DayAnswers(serve, listing, day)
    ensures ok ==> rows == DayByDay(listing, start, end + 1, DETAIL_CAP)
    ensures ok ==> (partial <==> exists day :: start <= day <= end && |listing(day)| >= 50000)
    ensures !ok ==> rows == [] && !partial
  {
    ok, rows, partial := true, [], false;
    var date := start;
    while date <= end
      invariant start <= date && (start <= end ==> date <= end + 1) && (start > end ==> date == start)
      invariant ok && forall day :: start <= day < date ==> DayAnswers(serve, listing, day)
      invariant rows == DayByDay(listing, start, date, DETAIL_CAP)
      invariant partial <==> exists day :: start <= day < date && |listing(day)| >= DETAIL_CAP
    {
      var answered, more, complete := FetchDay(serve, listing, date);
      if !answered { return false, [], false; }
      rows := rows + more;
      if !complete { partial := true; }
      date := date + 1;
    }
  }

  /** The oldest day comes first. */
  lemma {:induction false} OldestFirst<T>(listing: nat -> seq<T>, start: nat, end: nat, cap: nat)
    requires start < end
    ensures DayByDay(listing, start, end, cap) ==
            (if |listing(start)| <= cap then listing(start) else listing(start)[..cap]) + DayByDay(listing, start + 1, end, cap)
    decreases end
  {
    if start + 1 < end { OldestFirst(listing, start, end - 1, cap); }
  }

  function AllRows<T>(listing: nat -> seq<T>, start: nat, end: nat): seq<T>
    decreases end
  {
    if end <= start then [] else AllRows(listing, start, end - 1) + listing(end - 1)
  }

  lemma {:induction false} CapOnlyShortens<T>(listing: nat -> seq<T>, start: nat, end: nat, cap: nat)
    ensures |DayByDay(listing, start, end, cap)| <= |AllRows(listing, start, end)|
    ensures |DayByDay(listing, start, end, cap)| == |AllRows(listing, start, end)|
            ==> forall day :: start <= day < end ==> |listing(day)| <= cap
    decreases end
  {
    if start < end { CapOnlyShortens(listing, start, end - 1, cap); }
  }

  /** Rows are dropped exactly when some day has more rows than the cap. So
      partial = false means nothing was dropped, and the one false alarm is a
      day of exactly `cap` rows. */
  lemma {:induction false} DroppedIffOverCap<T>(listing: nat -> seq<T>, start: nat, end: nat, cap: nat)
    ensures DayByDay(listing, start, end, cap) == AllRows(listing, start, end)
            <==> forall day :: start <= day < end ==> |listing(day)| <= cap
    decreases end
  {
    CapOnlyShortens(listing, start, end, cap);
    if start < end { DroppedIffOverCap(listing, start, end - 1, cap); }
  }

  // ----- GA4 reports -----

  const REPORT_PAGE: nat := 100000

  datatype Meta = Meta(thresholding: bool, dataLoss: bool, sampling: seq<string>, emptyReason: string)

  datatype Response<T> = Response(rows: seq<T>, rowCount: int, meta: Option<Meta>)

  /** The metadata object the pages are merged into. */
  class Metadata {
    var thresholding: bool
    var dataLoss: bool
    var sampling: seq<string>
    var emptyReason: string

    function Content(): Meta reads this { Meta(thresholding, dataLoss, sampling, emptyReason) }

    constructor ()
      ensures Content() == Meta(false, false, [], "")
    {
      thresholding, dataLoss, sampling, emptyReason := false, false, [], "";
    }

    /** mergeMetadata on an existing object: updated in place, field by field. */
    method Merge(b: Option<Meta>)
      modifies this
      ensures Content() == Joined(old(Content()), b)
    {
      if b.None? { return; }
      thresholding := thresholding || b.value.thresholding;
      dataLoss := dataLoss || b.value.dataLoss;
      sampling := sampling + b.value.sampling;
      if emptyReason == "" { emptyReason := b.value.emptyReason; }
    }
  }

  function Joined(a: Meta, b: Option<Meta>): Meta {
    if b.None? then a
    else Meta(a.thresholding || b.value.thresholding, a.dataLoss || b.value.dataLoss,
              a.sampling + b.value.sampling, if a.emptyReason == "" then b.value.emptyReason else a.emptyReason)
  }

  function JoinedAll(metas: seq<Option<Meta>>): Meta
    decreases |metas|
  {
    if metas == [] then Meta(false, false, [], "") else Joined(JoinedAll(metas[..|metas| - 1]), metas[|metas| - 1])
  }

  /** A call that succeeds serves a fixed report in full pages; any call may fail. */
  ghost predicate ServesReport<T(!new)>(serve: nat -> Option<Response<T>>, report: seq<T>) {
    forall offset: nat :: serve(offset).Some? ==>
      serve(offset).value.rows == Page(report, offset, REPORT_PAGE) && serve(offset).value.rowCount == |report|
  }

  /** max(1, ceil(total / page)). */
  function PageCount(total: nat): nat {
    if total == 0 then 1 else (total + REPORT_PAGE - 1) / REPORT_PAGE
  }

  /** One page for an empty report, and otherwise as many as rows of 100000 fit it in. */
  lemma PagesNeeded(total: nat)
    ensures if total == 0 then PageCount(total) == 1 else (PageCount(total) - 1) * 100000 < total <= PageCount(total) * 100000
  {
  }

  /** The answer to the call for page k. */
  function PageAt<T>(serve: nat -> Option<Response<T>>, k: nat): Option<Response<T>> {
    serve(k * REPORT_PAGE)
  }

  /** The pages at these numbers all answered, with this metadata. */
  ghost predicate Answered<T>(serve: nat -> Option<Response<T>>, metas: seq<Option<Meta>>) {
    forall k :: 0 <= k < |metas| ==> PageAt(serve, k).Some? && PageAt(serve, k).value.meta == metas[k]
  }

  /** Page k either ends the report, and is the last of PageCount, or is full. */
  lemma PageByPage<T>(report: seq<T>, k: nat)
    requires k < PageCount(|report|) && k * REPORT_PAGE <= |report|
    ensures var page := Page(report, k * REPORT_PAGE, REPORT_PAGE);
            if k + 1 == PageCount(|report|)
            then k * REPORT_PAGE + |page| >= |report| && report[..k * REPORT_PAGE] + page == report
            else && k * REPORT_PAGE + |page| < |report| && page != [] && (k + 1) * REPORT_PAGE <= |report|
                 && report[..k * REPORT_PAGE] + page == report[..(k + 1) * REPORT_PAGE]
  {
    PagesNeeded(|report|);
  }

  /** mergeMetadata: a new object for the first page, updated in place after it. */
  method MergeMetadata(a: Metadata?, b: Option<Meta>, ghost metas: seq<Option<Meta>>) returns (r: Metadata)
    requires a == null <==> metas == []
    requires a != null ==> a.Content() == JoinedAll(metas)
    modifies a
    ensures if a == null then fresh(r) else r == a
    ensures r.Content() == JoinedAll(metas + [b])
  {
    if a == null { r := new Metadata(); } else { r := a; }
    assert (metas + [b])[..|metas|] == metas;
    r.Merge(b);
  }

  /** runPagedReport: it ends after exactly PageCount pages with the whole
      report, or at the first page that fails. */
  method RunPagedReport<T(!new)>(serve: nat -> Option<Response<T>>, ghost report: seq<T>)
    returns (ok: bool, rows: seq<T>, metadata: Metadata?, ghost metas: seq<Option<Meta>>)
    requires ServesReport(serve, report)
    ensures ok <==> forall k: nat :: k < PageCount(|report|) ==> PageAt(serve, k).Some?
    ensures rows == if ok then report else []
    ensures Answered(serve, metas)
    ensures if ok then |metas| == PageCount(|report|)
            else |metas| < PageCount(|report|) && PageAt(serve, |metas|).None?
    ensures metadata == null <==> metas == []
    ensures metadata != null ==> fresh(metadata) && metadata.Content() == JoinedAll(metas)
  {
    rows, metadata, metas := [], null, [];
    var offset := 0;
    while true
      invariant offset == |metas| * REPORT_PAGE && |metas| < PageCount(|report|)
      invariant offset <= |report| && rows == report[..offset] && Answered(serve, metas)
      invariant metadata == null <==> metas == []
      invariant metadata != null ==> fresh(metadata) && metadata.Content() == JoinedAll(metas)
      decreases |report| - offset
    {
      var response := serve(offset);
      assert response == PageAt(serve, |metas|);
      if response.None? { return false, [], metadata, metas; }
      var page := response.value;
      PageByPage(report, |metas|);
      rows := rows + page.rows;
      metadata := MergeMetadata(metadata, page.meta, metas);
      metas := metas + [page.meta];
      if offset + |page.rows| >= page.rowCount || |page.rows| == 0 { break; }
      offset := offset + REPORT_PAGE;
    }
    ok := true;
  }

  /** What merging the pages leaves: the flags are the OR over all pages, and
      the reason is the first one given. */
  lemma {:induction false} FlagsAreOred(metas: seq<Option<Meta>>)
    ensures JoinedAll(metas).thresholding <==> exists k :: 0 <= k < |metas| && metas[k].Some? && metas[k].value.thresholding
    ensures JoinedAll(metas).dataLoss <==> exists k :: 0 <= k < |metas| && metas[k].Some? && metas[k].value.dataLoss
    ensures JoinedAll(metas).sampling != [] <==> exists k :: 0 <= k < |metas| && metas[k].Some? && metas[k].value.sampling != []
    decreases |metas|
  {
    if metas != [] {
      FlagsAreOred(metas[..|metas| - 1]);
      assert forall k :: 0 <= k < |metas| - 1 ==> metas[..|metas| - 1][k] == metas[k];
    }
  }

  function AllSampling(metas: seq<Option<Meta>>): seq<string> {
    if metas == [] then [] else (if metas[0].Some? then metas[0].value.sampling else []) + AllSampling(metas[1..])
  }

  lemma {:induction false} SamplingAppends(metas: seq<Option<Meta>>, last: Option<Meta>)
    ensures AllSampling(metas + [last]) == AllSampling(metas) + (if last.Some? then last.value.sampling else [])
  {
    if metas == [] {
      assert metas + [last] == [last] && [last][1..] == [];
    } else {
      SamplingAppends(metas[1..], last);
      assert (metas + [last])[1..] == metas[1..] + [last];
    }
  }

  /** The sampling notes are those of all pages, in order. */
  lemma {:induction false} SamplingIsKept(metas: seq<Option<Meta>>)
    ensures JoinedAll(metas).sampling == AllSampling(metas)
    decreases |metas|
  {
    if metas != [] {
      var n := |metas| - 1;
      SamplingIsKept(metas[..n]);
      SamplingAppends(metas[..n], metas[n]);
      assert metas == metas[..n] + [metas[n]];
    }
  }

  predicate Explains(meta: Option<Meta>) {
    meta.Some? && meta.value.emptyReason != ""
  }

  lemma {:induction false} FirstReasonWins(metas: seq<Option<Meta>>, k: nat)
    requires k <= |metas| && (k < |metas| ==> Explains(metas[k]))
    requires forall i :: 0 <= i < k ==> !Explains(metas[i])
    ensures JoinedAll(metas).emptyReason == if k < |metas| then metas[k].value.emptyReason else ""
    decreases |metas|
  {
    if metas != [] {
      var n := |metas| - 1;
      FirstReasonWins(metas[..n], if k < n then k else n);
    }
  }
}
