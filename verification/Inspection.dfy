/** URL inspection in batches: one run inspects a window of the sitemap and
    leaves a cursor; the next run resumes from it. */
module Inspection {
  import opened Text
  import opened RunTable
  import opened Reports

  // ----- The sitemap -----

  predicate Distinct(s: seq<string>) {
    forall i, j :: 0 <= i < j < |s| ==> s[i] != s[j]
  }

  /** The located URLs, each at its first mention. */
  function FirstMentions(locations: seq<Option<string>>): seq<string>
    decreases |locations|
  {
    if locations == [] then []
    else
      var n := |locations| - 1;
      var before := FirstMentions(locations[..n]);
      if locations[n].None? || locations[n].value in before then before else before + [locations[n].value]
  }

  lemma {:induction false} FirstMentionsAreDistinct(locations: seq<Option<string>>)
    ensures Distinct(FirstMentions(locations))
    ensures forall u :: u in FirstMentions(locations) <==> Some(u) in locations
    decreases |locations|
  {
    if locations != [] {
      var n := |locations| - 1;
      FirstMentionsAreDistinct(locations[..n]);
      assert forall u :: Some(u) in locations <==> Some(u) in locations[..n] || locations[n] == Some(u) by {
        assert locations == locations[..n] + [locations[n]];
      }
    }
  }

  /** The list keeps the order of first mention: an earlier URL was mentioned
      before any mention of a later one. */
  lemma {:induction false} FirstMentionsInOrder(locations: seq<Option<string>>, i: nat, j: nat) returns (p: nat)
    requires i < j < |FirstMentions(locations)|
    ensures p < |locations| && locations[p] == Some(FirstMentions(locations)[i])
    ensures forall q :: 0 <= q < |locations| && locations[q] == Some(FirstMentions(locations)[j]) ==> p < q
    decreases |locations|
  {
    var n := |locations| - 1;
    var before, all := FirstMentions(locations[..n]), FirstMentions(locations);
    FirstMentionsAreDistinct(locations[..n]);
    if j < |before| {
      p := FirstMentionsInOrder(locations[..n], i, j);
    } else {
      assert Some(before[i]) in locations[..n];
      p :| 0 <= p < n && locations[..n][p] == Some(before[i]);
      assert Some(all[j]) !in locations[..n];
      assert forall q :: 0 <= q < n ==> locations[..n][q] == locations[q];
    }
  }

  /** The loop of sitemapURLs over normalised locations; None is an entry that
      does not parse or belongs to another host. */
  method SitemapURLs(locations: seq<Option<string>>) returns (urls: seq<string>, noData: bool)
    ensures urls == FirstMentions(locations) && Distinct(urls)
    ensures noData <==> forall i :: 0 <= i < |locations| ==> locations[i].None?
  {
    var seen: set<string> := {};
    urls := [];
    for i := 0 to |locations|
      invariant urls == FirstMentions(locations[..i])
      invariant forall u :: u in seen <==> u in urls
      invariant urls == [] <==> forall k :: 0 <= k < i ==> locations[k].None?
    {
      assert locations[..i + 1][..i] == locations[..i];
      if locations[i].Some? && locations[i].value !in seen {
        seen := seen + {locations[i].value};
        urls := urls + [locations[i].value];
      }
    }
    assert locations[..|locations|] == locations;
    FirstMentionsAreDistinct(locations);
    noData := urls == [];
  }

  // ----- One run -----

  datatype Verdict = Indexed(status: string) | NoStatus | Error(code: Code)

  datatype Sink = Sink(writeOk: bool, checkpointOk: bool)

  /** What a run wrote, checkpointed and returned; failure is its error, if any. */
  datatype Report = Report(written: seq<Input>, checkpoint: Option<string>, rows: int, cursor: string, failure: Option<Code>)

  /** The rows of the URLs that have an index status. */
  function RowsOf(urls: seq<string>, inspect: string -> Verdict): seq<Input>
    decreases |urls|
  {
    if urls == [] then []
    else
      var n := |urls| - 1;
      RowsOf(urls[..n], inspect) +
      (if inspect(urls[n]).Indexed? then [Input(urls[n], inspect(urls[n]).status, true)] else [])
  }

  /** How many URLs precede the first failing call. */
  function Successes(urls: seq<string>, inspect: string -> Verdict): (n: nat)
    ensures n <= |urls| && (n < |urls| ==> inspect(urls[n]).Error?)
    ensures forall i :: 0 <= i < n ==> !inspect(urls[i]).Error?
  {
    if urls == [] || inspect(urls[0]).Error? then 0 else 1 + Successes(urls[1..], inspect)
  }

  function Offset(cursor: string, n: nat): Option<nat> {
    if cursor == "" then Some(0)
    else
      match Atoi(cursor)
      case None => None
      case Some(k) => if 0 <= k <= n then Some(k) else None
  }

  /** Exactly which cursors are read: none at all is zero; otherwise an optionally
      signed numeral of at most the number of URLs. */
  lemma CursorAccepted(sign: string, digits: string, n: nat)
    requires sign in {"", "+", "-"} && digits != [] && AllDigits(digits) && n <= MAX_INT
    ensures Offset("", n) == Some(0)
    ensures var k := Value(digits);
            Offset(sign + digits, n) == if k <= n && (sign == "-" ==> k == 0) then Some(k) else None
  {
    AtoiReads(sign, digits);
  }

  lemma OnlyNumeralsAreCursors(cursor: string, n: nat)
    requires cursor != "" && Offset(cursor, n).Some?
    ensures AllDigits(cursor) || (cursor[0] in {'+', '-'} && |cursor| > 1 && AllDigits(cursor[1..]))
  {
    AtoiReadsOnlyNumerals(cursor);
  }

  function End(offset: nat, batch: nat, n: nat): nat {
    if offset + batch < n then offset + batch else n
  }

  /** How a run ends: at its first failure, at the end of the sitemap, or
      PARTIAL at the end of its batch. */
  function Conclude(offset: nat, end: nat, n: nat, rows: seq<Input>, failure: Option<Code>, sink: Sink): Report {
    var reached := Itoa(offset + |rows|);
    if failure.Some? then
      Report(if sink.writeOk then rows else [],
             if rows != [] && sink.checkpointOk then Some(reached) else None, |rows|, reached, failure)
    else if rows != [] && !sink.writeOk then Report([], None, 0, "", Some(Internal))
    else if end == n then Report(rows, None, |rows|, "", None)
    else if !sink.checkpointOk then Report(rows, None, 0, "", Some(Internal))
    else Report(rows, Some(Itoa(end)), |rows|, Itoa(end), Some(PartialError))
  }

  /** What one run writes and reports. */
  function Inspect(urls: seq<string>, cursor: string, batch: nat, inspect: string -> Verdict, sink: Sink): Report {
    match Offset(cursor, |urls|)
    case None => Report([], None, 0, "", Some(Internal))
    case Some(offset) =>
      var end := End(offset, batch, |urls|);
      var window := urls[offset..end];
      var good := Successes(window, inspect);
      Conclude(offset, end, |urls|, RowsOf(window[..good], inspect),
               if good < |window| then Some(inspect(window[good]).code) else None, sink)
  }

  /** The URLs one run passes to the provider: up to and including a failing one. */
  function Inspected(urls: seq<string>, cursor: string, batch: nat, inspect: string -> Verdict): seq<string> {
    match Offset(cursor, |urls|)
    case None => []
    case Some(offset) => Tried(urls[offset..End(offset, batch, |urls|)], inspect)
  }

  function Tried(window: seq<string>, inspect: string -> Verdict): seq<string> {
    var good := Successes(window, inspect);
    window[..if good < |window| then good + 1 else good]
  }

  lemma {:induction false} RowsAreFewer(urls: seq<string>, inspect: string -> Verdict)
    ensures |RowsOf(urls, inspect)| <= |urls|
    decreases |urls|
  {
    if urls != [] { RowsAreFewer(urls[..|urls| - 1], inspect); }
  }

  lemma {:induction false} SuccessesAre(urls: seq<string>, inspect: string -> Verdict, n: nat)
    requires n <= |urls| && (n < |urls| ==> inspect(urls[n]).Error?)
    requires forall i :: 0 <= i < n ==> !inspect(urls[i]).Error?
    ensures Successes(urls, inspect) == n
  {
    if n > 0 {
      assert urls[1..][..] == urls[1..] && forall i :: 0 <= i < n - 1 ==> urls[1..][i] == urls[i + 1];
      SuccessesAre(urls[1..], inspect, n - 1);
    }
  }

  /** The inspection loop: rows grow until the first failing call. */
  method InspectWindow(window: seq<string>, inspect: string -> Verdict)
    returns (rows: seq<Input>, failure: Option<Code>, calls: seq<string>)
    ensures var good := Successes(window, inspect);
            && rows == RowsOf(window[..good], inspect)
            && failure == (if good < |window| then Some(inspect(window[good]).code) else None)
            && calls == Tried(window, inspect)
  {
    rows, calls := [], [];
    for i := 0 to |window|
      invariant rows == RowsOf(window[..i], inspect) && calls == window[..i]
      invariant forall k :: 0 <= k < i ==> !inspect(window[k]).Error?
    {
      calls := calls + [window[i]];
      var answer := inspect(window[i]);
      if answer.Error? {
        SuccessesAre(window, inspect, i);
        return rows, Some(answer.code), calls;
      }
      assert window[..i + 1][..i] == window[..i];
      if answer.Indexed? { rows := rows + [Input(window[i], answer.status, true)]; }
    }
    SuccessesAre(window, inspect, |window|);
    failure := None;
  }

  /** syncURLInspection: resume at the cursor, inspect one batch, write, checkpoint. */
  method SyncURLInspection(urls: seq<string>, cursor: string, batch: nat, inspect: string -> Verdict, sink: Sink)
    returns (report: Report, calls: seq<string>)
    ensures report == Inspect(urls, cursor, batch, inspect, sink) && calls == Inspected(urls, cursor, batch, inspect)
    ensures Offset(cursor, |urls|).None? ==> report == Report([], None, 0, "", Some(Internal)) && calls == []
  {
    var start := Offset(cursor, |urls|);
    if start.None? { return Report([], None, 0, "", Some(Internal)), []; }
    var offset := start.value;
    var end := End(offset, batch, |urls|);
    var rows, failure;
    rows, failure, calls := InspectWindow(urls[offset..end], inspect);
    report := StoreBatch(offset, end, |urls|, rows, failure, sink);
  }

  method StoreBatch(offset: nat, end: nat, n: nat, rows: seq<Input>, failure: Option<Code>, sink: Sink)
    returns (report: Report)
    requires end <= n
    ensures report == Conclude(offset, end, n, rows, failure, sink)
  {
    var written: seq<Input>, checkpoint := [], None;
    if failure.Some? {
      var reached := Itoa(offset + |rows|);
      if |rows| > 0 {
        if sink.writeOk { written := rows; }
        if sink.checkpointOk { checkpoint := Some(reached); }
      }
      return Report(written, checkpoint, |rows|, reached, failure);
    }
    if |rows| > 0 {
      if !sink.writeOk { return Report([], None, 0, "", Some(Internal)); }
      written := rows;
    }
    if end < n {
      var cursor := Itoa(end);
      if !sink.checkpointOk { return Report(written, None, 0, "", Some(Internal)); }
      return Report(written, Some(cursor), |rows|, cursor, Some(PartialError));
    }
    report := Report(written, None, |rows|, "", None);
  }

  /** When no call of its batch fails, a run succeeds iff its rows were stored and
      the sitemap is done, and is PARTIAL iff they were stored, more remains and
      the checkpoint was too; either way nothing of the batch is missing, and the
      next run can start right after it. Anything else is an error from zero. */
  lemma CompletedBatchIsStored(urls: seq<string>, cursor: string, batch: nat, inspect: string -> Verdict, sink: Sink)
    requires |urls| <= MAX_INT && Offset(cursor, |urls|).Some?
    requires var o := Offset(cursor, |urls|).value;
             forall i :: o <= i < End(o, batch, |urls|) ==> !inspect(urls[i]).Error?
    ensures var o := Offset(cursor, |urls|).value;
            var end, report := End(o, batch, |urls|), Inspect(urls, cursor, batch, inspect, sink);
            var rows := RowsOf(urls[o..end], inspect);
            var stored := rows == [] || sink.writeOk;
            && (report.failure.None? <==> stored && end == |urls|)
            && (report.failure == Some(PartialError) <==> stored && end < |urls| && sink.checkpointOk)
            && (report.failure.None? || report.failure == Some(PartialError) ==> report.written == rows && report.rows == |rows|)
            && (report.failure == Some(PartialError) ==>
                  report.checkpoint == Some(report.cursor) && Offset(report.cursor, |urls|) == Some(end))
            && (report.failure.Some? && report.failure != Some(PartialError) ==>
                  && report.failure == Some(Internal) && report.rows == 0 && report.cursor == "" && report.checkpoint.None?
                  && report.written == (if stored then rows else []))
  {
    var o := Offset(cursor, |urls|).value;
    var end := End(o, batch, |urls|);
    var window := urls[o..end];
    SuccessesAre(window, inspect, |window|);
    assert window[..|window|] == window;
    CursorRoundTrip(end);
  }

  /** The first failing call of a batch. */
  predicate FailsAt(urls: seq<string>, cursor: string, batch: nat, inspect: string -> Verdict, f: nat) {
    && Offset(cursor, |urls|).Some?
    && var o := Offset(cursor, |urls|).value;
       && o <= f < End(o, batch, |urls|) && inspect(urls[f]).Error?
       && forall i :: o <= i < f ==> !inspect(urls[i]).Error?
  }

  lemma SliceOfSlice(s: seq<string>, a: nat, b: nat, c: nat)
    requires a <= b < c <= |s|
    ensures s[a..c][..b - a] == s[a..b] && s[a..c][b - a] == s[b]
  {
  }

  lemma FirstFailure(urls: seq<string>, o: nat, f: nat, end: nat, inspect: string -> Verdict)
    requires o <= f < end <= |urls| && inspect(urls[f]).Error?
    requires forall i :: o <= i < f ==> !inspect(urls[i]).Error?
    ensures Successes(urls[o..end], inspect) == f - o
  {
    SuccessesAre(urls[o..end], inspect, f - o);
  }

  lemma FailingReport(urls: seq<string>, cursor: string, batch: nat, inspect: string -> Verdict, sink: Sink, f: nat)
    requires FailsAt(urls, cursor, batch, inspect, f)
    ensures var o := Offset(cursor, |urls|).value;
            Inspect(urls, cursor, batch, inspect, sink) ==
              Conclude(o, End(o, batch, |urls|), |urls|, RowsOf(urls[o..f], inspect), Some(inspect(urls[f]).code), sink)
  {
    var o := Offset(cursor, |urls|).value;
    FirstFailure(urls, o, f, End(o, batch, |urls|), inspect);
    SliceOfSlice(urls, o, f, End(o, batch, |urls|));
  }

  /** A run whose first failing call is at f: it returns that error, and its count
      and cursor are those of the rows before it; those rows are written, and the
      cursor checkpointed if there are any, as far as the sink works. */
  lemma FailingRunReports(urls: seq<string>, cursor: string, batch: nat, inspect: string -> Verdict, sink: Sink, f: nat)
    requires |urls| <= MAX_INT && FailsAt(urls, cursor, batch, inspect, f)
    ensures var o := Offset(cursor, |urls|).value;
            var report, rows := Inspect(urls, cursor, batch, inspect, sink), RowsOf(urls[o..f], inspect);
            && report.failure == Some(inspect(urls[f]).code) && report.rows == |rows|
            && report.written == (if sink.writeOk then rows else [])
            && report.checkpoint == (if rows != [] && sink.checkpointOk then Some(report.cursor) else None)
            && Offset(report.cursor, |urls|) == Some(o + |rows|) && |rows| <= f - o
  {
    var o := Offset(cursor, |urls|).value;
    FailingReport(urls, cursor, batch, inspect, sink, f);
    RowsAreFewer(urls[o..f], inspect);
    FailingEnd(o, End(o, batch, |urls|), |urls|, RowsOf(urls[o..f], inspect), inspect(urls[f]).code, sink);
  }

  lemma FailingEnd(offset: nat, end: nat, n: nat, rows: seq<Input>, code: Code, sink: Sink)
    requires offset + |rows| <= n <= MAX_INT
    ensures var report := Conclude(offset, end, n, rows, Some(code), sink);
            && report.failure == Some(code) && report.rows == |rows|
            && report.written == (if sink.writeOk then rows else [])
            && report.checkpoint == (if rows != [] && sink.checkpointOk then Some(report.cursor) else None)
            && Offset(report.cursor, n) == Some(offset + |rows|)
  {
    CursorRoundTrip(offset + |rows|);
  }

  /** It calls the provider for every URL up to and including the failing one. */
  lemma FailingRunCalls(urls: seq<string>, cursor: string, batch: nat, inspect: string -> Verdict, f: nat)
    requires FailsAt(urls, cursor, batch, inspect, f)
    ensures Inspected(urls, cursor, batch, inspect) == urls[Offset(cursor, |urls|).value..f + 1]
  {
    var o := Offset(cursor, |urls|).value;
    var end := End(o, batch, |urls|);
    FirstFailure(urls, o, f, end, inspect);
    WindowPrefix(urls, o, f + 1, end);
  }

  lemma WindowPrefix(s: seq<string>, a: nat, b: nat, c: nat)
    requires a <= b <= c <= |s|
    ensures s[a..c][..b - a] == s[a..b]
  {
  }

  /** A failing call: the cursor stays at or before the failing URL. */
  lemma CursorNeverPassesFailure(urls: seq<string>, cursor: string, batch: nat, inspect: string -> Verdict, sink: Sink, f: nat)
    requires |urls| <= MAX_INT && FailsAt(urls, cursor, batch, inspect, f)
    ensures var report := Inspect(urls, cursor, batch, inspect, sink);
            && report.failure == Some(inspect(urls[f]).code)
            && Offset(report.cursor, |urls|).Some?
            && Offset(cursor, |urls|).value <= Offset(report.cursor, |urls|).value <= f
  {
    FailingRunReports(urls, cursor, batch, inspect, sink, f);
  }
}
