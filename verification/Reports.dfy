/** The report_rows table: batches that land whole or not at all, and pages of a
    listing that stays complete while batches keep landing. */
module Reports {
  import opened Text

  datatype RowId = RowId(site: string, dataset: string, key: string)

  datatype Stored = Stored(data: string, updatedAt: string)

  type Rows = map<RowId, Stored>

  /** A row handed to the sink: its "_key" ("" when missing or not a string), its
      JSON text, and whether it could be encoded. */
  datatype Input = Input(key: string, data: string, encodable: bool)

  predicate Good(row: Input) {
    row.key != "" && row.encodable
  }

  /** Keyed updates, left to right. */
  function Apply(t: Rows, site: string, dataset: string, batch: seq<Input>, now: string): Rows
    decreases |batch|
  {
    if batch == [] then t
    else
      var n := |batch| - 1;
      Apply(t, site, dataset, batch[..n], now)[RowId(site, dataset, batch[n].key) := Stored(batch[n].data, now)]
  }

  /** The last row of the batch with this key. */
  function LastWith(batch: seq<Input>, key: string): Option<Input>
    decreases |batch|
  {
    if batch == [] then None
    else if batch[|batch| - 1].key == key then Some(batch[|batch| - 1])
    else LastWith(batch[..|batch| - 1], key)
  }

  predicate Accepted(sites: set<string>, site: string, dataset: string, batch: seq<Input>) {
    && site != "" && dataset != ""
    && (forall i :: 0 <= i < |batch| ==> Good(batch[i]))
    && (batch != [] ==> site in sites)
  }

  /** A batch writes, for each of its keys, the last row with that key; every
      other row of every site and dataset is untouched. */
  lemma {:induction false} LastDuplicateWins(t: Rows, site: string, dataset: string, batch: seq<Input>, now: string, id: RowId)
    ensures var u, last := Apply(t, site, dataset, batch, now), LastWith(batch, id.key);
            if id.site == site && id.dataset == dataset && last.Some?
            then id in u && u[id] == Stored(last.value.data, now)
            else (id in u <==> id in t) && (id in t ==> u[id] == t[id])
    decreases |batch|
  {
    if batch != [] {
      LastDuplicateWins(t, site, dataset, batch[..|batch| - 1], now, id);
    }
  }

  /** In the batch's own terms: the row at i is stored if no later one has its key. */
  lemma LastOccurrenceIsStored(t: Rows, site: string, dataset: string, batch: seq<Input>, now: string, i: nat)
    requires i < |batch| && forall j :: i < j < |batch| ==> batch[j].key != batch[i].key
    ensures var u, id := Apply(t, site, dataset, batch, now), RowId(site, dataset, batch[i].key);
            id in u && u[id] == Stored(batch[i].data, now)
  {
    LastDuplicateWins(t, site, dataset, batch, now, RowId(site, dataset, batch[i].key));
    LastWithIsLast(batch, i);
  }

  lemma {:induction false} LastWithIsLast(batch: seq<Input>, i: nat)
    requires i < |batch| && forall j :: i < j < |batch| ==> batch[j].key != batch[i].key
    ensures LastWith(batch, batch[i].key) == Some(batch[i])
    decreases |batch|
  {
    if i < |batch| - 1 { LastWithIsLast(batch[..|batch| - 1], i); }
  }

  /** Rows whose site, dataset or key is not in the batch are untouched. */
  lemma OthersAreUntouched(t: Rows, site: string, dataset: string, batch: seq<Input>, now: string, id: RowId)
    requires id.site != site || id.dataset != dataset || forall i :: 0 <= i < |batch| ==> batch[i].key != id.key
    ensures var u := Apply(t, site, dataset, batch, now);
            (id in u <==> id in t) && (id in t ==> u[id] == t[id])
  {
    LastDuplicateWins(t, site, dataset, batch, now, id);
    if LastWith(batch, id.key).Some? { LastWithOccurs(batch, id.key); }
  }

  lemma {:induction false} LastWithOccurs(batch: seq<Input>, key: string)
    requires LastWith(batch, key).Some?
    ensures exists i :: 0 <= i < |batch| && batch[i].key == key
    decreases |batch|
  {
    if batch[|batch| - 1].key != key { LastWithOccurs(batch[..|batch| - 1], key); }
  }

  /** Replaying a batch, at any later time and after any table, is the same as
      having applied it once at that time. */
  lemma ReplayChangesNothing(t: Rows, site: string, dataset: string, batch: seq<Input>, first: string, again: string)
    ensures Apply(Apply(t, site, dataset, batch, first), site, dataset, batch, again)
            == Apply(t, site, dataset, batch, again)
  {
    var once := Apply(t, site, dataset, batch, first);
    var twice, direct := Apply(once, site, dataset, batch, again), Apply(t, site, dataset, batch, again);
    forall id ensures (id in twice <==> id in direct) && (id in twice ==> twice[id] == direct[id]) {
      LastDuplicateWins(t, site, dataset, batch, first, id);
      LastDuplicateWins(once, site, dataset, batch, again, id);
      LastDuplicateWins(t, site, dataset, batch, again, id);
    }
    assert twice.Keys == direct.Keys;
  }

  // ----- Listing -----

  datatype Listed = Listed(key: string, data: string)

  /** One dataset of one site, by row key. */
  function Slice(t: Rows, site: string, dataset: string): map<string, string> {
    map id | id in t && id.site == site && id.dataset == dataset :: id.key := t[id].data
  }

  function Clamp(limit: int): nat {
    if limit <= 0 || limit > 1000 then 100 else limit
  }

  predicate Below(after: string, key: string) {
    after == "" || Less(key, after)
  }

  predicate Descending(page: seq<Listed>) {
    forall i, j :: 0 <= i < j < |page| ==> Less(page[j].key, page[i].key)
  }

  predicate Drawn(t: map<string, string>, after: string, page: seq<Listed>) {
    forall i :: 0 <= i < |page| ==>
      page[i].key in t && t[page[i].key] == page[i].data && Below(after, page[i].key)
  }

  predicate Shows(page: seq<Listed>, key: string) {
    exists i :: 0 <= i < |page| && page[i].key == key
  }

  /** ORDER BY row_key DESC LIMIT n below a cursor: the n greatest keys. */
  ghost predicate Selected(t: map<string, string>, after: string, n: nat, page: seq<Listed>) {
    && |page| <= n && Descending(page) && Drawn(t, after, page)
    && forall key :: key in t && Below(after, key) && !Shows(page, key) ==>
         |page| == n && forall i :: 0 <= i < |page| ==> Less(key, page[i].key)
  }

  /** A page and its cursor: the greatest keys below `after`; the cursor is empty
      exactly when nothing is left, and otherwise splits shown from unshown. */
  ghost predicate IsPage(t: map<string, string>, after: string, limit: nat, page: seq<Listed>, next: string) {
    && Selected(t, after, limit, page)
    && (next == "" <==> forall key :: key in t && Below(after, key) ==> Shows(page, key))
    && (next != "" ==> |page| == limit > 0 && next == page[limit - 1].key)
  }

  class Store {
    var sites: set<string>
    var rows: Rows

    ghost predicate Valid() reads this { forall id :: id in rows ==> id.key != "" }

    /** A transaction over a copy: committed whole, or dropped. */
    method UpsertReportRows(site: string, dataset: string, batch: seq<Input>, now: string) returns (ok: bool)
      requires Valid()
      modifies this`rows
      ensures Valid()
      ensures ok <==> Accepted(sites, site, dataset, batch)
      ensures ok <==>
                && site != "" && dataset != "" && (batch == [] || site in sites)
                && forall i :: 0 <= i < |batch| ==> batch[i].key != "" && batch[i].encodable
      ensures rows == if ok then Apply(old(rows), site, dataset, batch, now) else old(rows)
    {
      if site == "" || dataset == "" { return false; }
      var tx := rows;
      for i := 0 to |batch|
        invariant rows == old(rows)
        invariant tx == Apply(rows, site, dataset, batch[..i], now)
        invariant forall k :: 0 <= k < i ==> Good(batch[k])
        invariant i > 0 ==> site in sites
        invariant forall id :: id in tx ==> id.key != ""
      {
        if batch[i].key == "" || !batch[i].encodable || site !in sites { return false; }
        assert batch[..i + 1][..i] == batch[..i];
        tx := tx[RowId(site, dataset, batch[i].key) := Stored(batch[i].data, now)];
      }
      assert batch[..|batch|] == batch;
      rows := tx;
      ok := true;
    }

    /** `fetched` is what the database returns for limit + 1 rows. */
    method ListReportRowsPage(site: string, dataset: string, limit: int, after: string, fetched: seq<Listed>)
      returns (ok: bool, page: seq<Listed>, next: string)
      requires Valid() && Selected(Slice(rows, site, dataset), after, Clamp(limit) + 1, fetched)
      ensures ok <==> !IsBlank(dataset)
      ensures ok ==> IsPage(Slice(rows, site, dataset), after, Clamp(limit), page, next)
      ensures ok ==> |page| <= (if 1 <= limit <= 1000 then limit else 100)
      ensures ok && next != "" ==> |page| == (if 1 <= limit <= 1000 then limit else 100) && next == page[|page| - 1].key
      ensures ok ==> forall i :: 0 <= i < |page| ==>
                RowId(site, dataset, page[i].key) in rows && rows[RowId(site, dataset, page[i].key)].data == page[i].data
    {
      var n := Clamp(limit);
      ok, page, next := !IsBlank(dataset), [], "";
      if !ok { return; }
      for i := 0 to |fetched|
        invariant page == fetched[..i]
      {
        page := page + [fetched[i]];
      }
      assert page == fetched;
      if |page| > n {
        next := page[n - 1].key;
        page := page[..n];
        TrimmedPage(Slice(rows, site, dataset), after, n, fetched);
      }
    }
  }

  lemma TrimmedPage(t: map<string, string>, after: string, n: nat, fetched: seq<Listed>)
    requires n > 0 && |fetched| == n + 1 && Selected(t, after, n + 1, fetched)
    requires forall key :: key in t ==> key != ""
    ensures IsPage(t, after, n, fetched[..n], fetched[n - 1].key)
  {
    var page := fetched[..n];
    assert fetched[n].key in t && Below(after, fetched[n].key);
    assert forall i :: 0 <= i < n ==> page[i] == fetched[i];
    forall i | 0 <= i < n ensures Shows(page, fetched[i].key) { assert page[i].key == fetched[i].key; }
    forall key | key in t && Below(after, key) && !Shows(page, key)
      ensures forall i :: 0 <= i < n ==> Less(key, page[i].key)
    {
      if Shows(fetched, key) {
        var i :| 0 <= i < |fetched| && fetched[i].key == key;
        assert i == n;
      }
    }
    forall i | 0 <= i < n ensures page[i].key != fetched[n].key {
      assert Less(fetched[n].key, fetched[i].key);
      LessIsStrictTotalOrder(fetched[n].key, fetched[i].key);
    }
    assert !Shows(page, fetched[n].key);
  }

  // ----- Following the cursor -----

  /** Pages taken one after the other, each from the table of its moment, the
      next one after the cursor of the one before, until the cursor is empty. */
  ghost predicate IsScan(tables: seq<map<string, string>>, limits: seq<nat>, after: string, pages: seq<seq<Listed>>)
    decreases |pages|
  {
    && |tables| == |limits| == |pages| && pages != []
    && exists next :: IsPage(tables[0], after, limits[0], pages[0], next) &&
         if next == "" then |pages| == 1 else IsScan(tables[1..], limits[1..], next, pages[1..])
  }

  /** Batches only add rows and rewrite data, and every key is non-empty. */
  ghost predicate Growing(tables: seq<map<string, string>>) {
    && (forall i, j :: 0 <= i < j < |tables| ==> tables[i].Keys <= tables[j].Keys)
    && (forall i, key :: 0 <= i < |tables| && key in tables[i] ==> key != "")
  }

  function Concat(pages: seq<seq<Listed>>): seq<Listed> {
    if pages == [] then [] else pages[0] + Concat(pages[1..])
  }

  /** A batch never removes a key. */
  lemma BatchesGrow(t: Rows, site: string, dataset: string, batch: seq<Input>, now: string, s: string, d: string)
    ensures Slice(t, s, d).Keys <= Slice(Apply(t, site, dataset, batch, now), s, d).Keys
  {
    var u := Apply(t, site, dataset, batch, now);
    forall key | key in Slice(t, s, d) ensures key in Slice(u, s, d) {
      LastDuplicateWins(t, site, dataset, batch, now, RowId(s, d, key));
      assert RowId(s, d, key) in u;
    }
  }

  lemma JoinDescending(a: seq<Listed>, b: seq<Listed>)
    requires Descending(a) && Descending(b)
    requires forall i, j :: 0 <= i < |a| && 0 <= j < |b| ==> Less(b[j].key, a[i].key)
    ensures Descending(a + b)
  {
  }

  /** The first page, cut at its cursor, precedes everything that follows. */
  lemma CursorSplits(t: map<string, string>, after: string, limit: nat, page: seq<Listed>, next: string, key: string)
    requires IsPage(t, after, limit, page, next) && next != "" && Less(key, next)
    ensures forall i :: 0 <= i < |page| ==> Less(key, page[i].key)
    ensures Below(after, key)
  {
    forall i | 0 <= i < |page| ensures Less(key, page[i].key) {
      if i < limit - 1 { LessTransitive(key, next, page[i].key); }
    }
    if after != "" { LessTransitive(key, next, after); }
  }

  /** Whatever lands between the pages, a finished scan lists strictly
      descending keys, and every key that was there at the start. */
  lemma {:induction false} ScanIsComplete(tables: seq<map<string, string>>, limits: seq<nat>, after: string, pages: seq<seq<Listed>>)
    requires IsScan(tables, limits, after, pages) && Growing(tables)
    ensures Descending(Concat(pages))
    ensures forall i :: 0 <= i < |Concat(pages)| ==> Below(after, Concat(pages)[i].key)
    ensures forall key :: key in tables[0] && Below(after, key) ==> Shows(Concat(pages), key)
    decreases |pages|
  {
    var next :| IsPage(tables[0], after, limits[0], pages[0], next) &&
      if next == "" then |pages| == 1 else IsScan(tables[1..], limits[1..], next, pages[1..]);
    var page, rest := pages[0], Concat(pages[1..]);
    if next == "" {
      assert Concat(pages) == page;
    } else {
      ScanIsComplete(tables[1..], limits[1..], next, pages[1..]);
      assert forall j :: 0 <= j < |rest| ==> Less(rest[j].key, next);
      forall j | 0 <= j < |rest|
        ensures Below(after, rest[j].key) && forall i :: 0 <= i < |page| ==> Less(rest[j].key, page[i].key)
      {
        CursorSplits(tables[0], after, limits[0], page, next, rest[j].key);
      }
      JoinDescending(page, rest);
      forall key | key in tables[0] && Below(after, key) ensures Shows(page + rest, key) {
        FoundInPart(tables, after, limits, page, next, rest, key);
      }
    }
  }

  lemma FoundInPart(tables: seq<map<string, string>>, after: string, limits: seq<nat>, page: seq<Listed>, next: string,
                    rest: seq<Listed>, key: string)
    requires |tables| == |limits| > 1 && Growing(tables) && IsPage(tables[0], after, limits[0], page, next) && next != ""
    requires forall k :: k in tables[1] && Below(next, k) ==> Shows(rest, k)
    requires key in tables[0] && Below(after, key)
    ensures Shows(page + rest, key)
  {
    if Shows(page, key) {
      var i :| 0 <= i < |page| && page[i].key == key;
      assert (page + rest)[i].key == key;
    } else {
      assert Less(key, page[limits[0] - 1].key) && key in tables[1];
      var j :| 0 <= j < |rest| && rest[j].key == key;
      assert (page + rest)[|page| + j].key == key;
    }
  }

  /** So no row is listed twice. */
  lemma ScanListsOnce(tables: seq<map<string, string>>, limits: seq<nat>, after: string, pages: seq<seq<Listed>>, i: nat, j: nat)
    requires IsScan(tables, limits, after, pages) && Growing(tables) && i < j < |Concat(pages)|
    ensures Concat(pages)[i].key != Concat(pages)[j].key
  {
    ScanIsComplete(tables, limits, after, pages);
    LessIsStrictTotalOrder(Concat(pages)[i].key, Concat(pages)[j].key);
  }

  // ----- Listing while batches land -----

  /** One UpsertReportRows call, and the sites known when it is made. */
  datatype Batch = Batch(sites: set<string>, site: string, dataset: string, rows: seq<Input>, now: string)

  function Land(t: Rows, b: Batch): Rows {
    if Accepted(b.sites, b.site, b.dataset, b.rows) then Apply(t, b.site, b.dataset, b.rows, b.now) else t
  }

  function LandAll(t: Rows, batches: seq<Batch>): Rows
    decreases |batches|
  {
    if batches == [] then t else LandAll(Land(t, batches[0]), batches[1..])
  }

  ghost predicate Keyed(t: Rows) {
    forall id :: id in t ==> id.key != ""
  }

  lemma {:induction false} GoodRowsAreKeyed(t: Rows, site: string, dataset: string, batch: seq<Input>, now: string)
    requires Keyed(t) && forall i :: 0 <= i < |batch| ==> Good(batch[i])
    ensures Keyed(Apply(t, site, dataset, batch, now))
    decreases |batch|
  {
    if batch != [] { GoodRowsAreKeyed(t, site, dataset, batch[..|batch| - 1], now); }
  }

  lemma {:induction false} LandingGrows(t: Rows, batches: seq<Batch>, site: string, dataset: string)
    requires Keyed(t)
    ensures Keyed(LandAll(t, batches)) && Slice(t, site, dataset).Keys <= Slice(LandAll(t, batches), site, dataset).Keys
    decreases |batches|
  {
    if batches != [] {
      var b := batches[0];
      if Accepted(b.sites, b.site, b.dataset, b.rows) {
        GoodRowsAreKeyed(t, b.site, b.dataset, b.rows, b.now);
        BatchesGrow(t, b.site, b.dataset, b.rows, b.now, site, dataset);
      }
      LandingGrows(Land(t, b), batches[1..], site, dataset);
    }
  }

  /** The listing before each page: between[i] lands after page i. */
  function Snapshots(t: Rows, between: seq<seq<Batch>>, site: string, dataset: string): (slices: seq<map<string, string>>)
    ensures |slices| == |between| + 1 && slices[0] == Slice(t, site, dataset)
    decreases |between|
  {
    [Slice(t, site, dataset)] +
    if between == [] then [] else Snapshots(LandAll(t, between[0]), between[1..], site, dataset)
  }

  lemma {:induction false} SnapshotsGrow(t: Rows, between: seq<seq<Batch>>, site: string, dataset: string)
    requires Keyed(t)
    ensures Growing(Snapshots(t, between, site, dataset))
    decreases |between|
  {
    if between != [] {
      var u := LandAll(t, between[0]);
      LandingGrows(t, between[0], site, dataset);
      SnapshotsGrow(u, between[1..], site, dataset);
      GrowingFrom(Slice(t, site, dataset), Snapshots(u, between[1..], site, dataset));
    } else {
      GrowingFrom(Slice(t, site, dataset), []);
    }
  }

  lemma GrowingFrom(first: map<string, string>, rest: seq<map<string, string>>)
    requires Growing(rest) && (rest != [] ==> first.Keys <= rest[0].Keys) && forall key :: key in first ==> key != ""
    ensures Growing([first] + rest)
  {
    var all := [first] + rest;
    forall i, j | 0 <= i < j < |all| ensures all[i].Keys <= all[j].Keys {
      if i > 0 { assert rest[i - 1].Keys <= rest[j - 1].Keys; }
      else if j > 1 { assert rest[0].Keys <= rest[j - 1].Keys; }
    }
  }

  /** Following next_cursor from the first page to the empty one, with any limits
      and any upserts between the pages: the keys are strictly descending, so none
      is listed twice, and every row present at the start is listed. */
  lemma ListingIsComplete(t: Rows, between: seq<seq<Batch>>, site: string, dataset: string, limits: seq<nat>, pages: seq<seq<Listed>>)
    requires Keyed(t) && IsScan(Snapshots(t, between, site, dataset), limits, "", pages)
    ensures Descending(Concat(pages))
    ensures forall i, j :: 0 <= i < j < |Concat(pages)| ==> Concat(pages)[i].key != Concat(pages)[j].key
    ensures forall id :: id in t && id.site == site && id.dataset == dataset ==> Shows(Concat(pages), id.key)
  {
    var slices, listed := Snapshots(t, between, site, dataset), Concat(pages);
    SnapshotsGrow(t, between, site, dataset);
    ScanIsComplete(slices, limits, "", pages);
    forall i, j | 0 <= i < j < |listed| ensures listed[i].key != listed[j].key {
      LessIsStrictTotalOrder(listed[i].key, listed[j].key);
    }
    forall id | id in t && id.site == site && id.dataset == dataset ensures Shows(listed, id.key) {
      assert id.key in slices[0] && Below("", id.key);
    }
  }
}
