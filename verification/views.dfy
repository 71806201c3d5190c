/**
 * The stateful part of backend/equipment/views.py: the dataset table that
 * `UploadCSVView.post` adds to and trims back to five records, the newest-first
 * listing of `HistoryView.get`, and the lookup of `download_report`.
 */
module Views {
  import opened Wrappers
  import opened Analysis
  import opened Datasets
  import Sorting
  import Canvas
  import Report

  /** The number of datasets kept. */
  const Capacity := 5

  function Min(a: int, b: int): int {
    if a <= b then a else b
  }

  /** Upload times strictly increase along the sequence. */
  predicate Chronological(rs: seq<Dataset>) {
    forall i, j :: 0 <= i < j < |rs| ==> rs[i].uploadedAt < rs[j].uploadedAt
  }

  // ---------------------------------------------------------------------
  // Eviction: order_by("uploaded_at").first().delete()
  // ---------------------------------------------------------------------

  /** The position of the earliest upload; of equal times, the first stored. */
  function OldestIndex(rs: seq<Dataset>): (k: nat)
    requires rs != []
    ensures k < |rs|
    ensures forall j :: 0 <= j < |rs| ==> rs[k].uploadedAt <= rs[j].uploadedAt
    ensures forall j :: 0 <= j < k ==> rs[j].uploadedAt > rs[k].uploadedAt
  {
    if |rs| == 1 then 0
    else
      var k := OldestIndex(rs[1..]) + 1;
      if rs[0].uploadedAt <= rs[k].uploadedAt then 0 else k
  }

  /** The table after the count check: above capacity, the earliest upload is deleted. */
  function Retain(rs: seq<Dataset>): (r: seq<Dataset>)
    ensures |rs| <= Capacity ==> r == rs
    ensures |rs| > Capacity ==>
              && |r| == |rs| - 1
              && exists k :: 0 <= k < |rs| && r == rs[..k] + rs[k + 1..]
                             && forall j :: 0 <= j < |rs| ==> rs[k].uploadedAt <= rs[j].uploadedAt
  {
    if |rs| <= Capacity then rs
    else
      var k := OldestIndex(rs);
      rs[..k] + rs[k + 1..]
  }

  /** The last min(|u|, 5) elements of u. */
  function Newest(u: seq<Dataset>): (r: seq<Dataset>)
    ensures |r| == Min(|u|, Capacity)
  {
    u[|u| - Min(|u|, Capacity)..]
  }

  lemma NewestAppend(u: seq<Dataset>, d: Dataset)
    ensures Newest(u + [d]) == Newest(u) + [d] || (|Newest(u)| == Capacity && Newest(u + [d]) == Newest(u)[1..] + [d])
    ensures |Newest(u)| < Capacity ==> Newest(u + [d]) == Newest(u) + [d]
    ensures Newest(u) + [d] == (u + [d])[|u| - Min(|u|, Capacity)..]
  {
    var n := |u|;
    if n >= Capacity {
      assert (u + [d])[n + 1 - Capacity..] == u[n + 1 - Capacity..] + [d];
      assert u[n - Capacity..][1..] == u[n + 1 - Capacity..];
    } else {
      assert Newest(u) == u;
    }
  }

  /** In a table stored in upload order, the earliest upload is the first one. */
  lemma OldestOfChronological(rs: seq<Dataset>)
    requires rs != [] && Chronological(rs)
    ensures OldestIndex(rs) == 0
  {
  }

  /**
   * Inserting a dataset newer than all others and then evicting keeps exactly
   * the five newest: the record deleted is the earliest of the six, every
   * other record stays as it was.
   */
  lemma InsertKeepsNewest(u: seq<Dataset>, d: Dataset)
    requires Chronological(u + [d])
    ensures Retain(Newest(u) + [d]) == Newest(u + [d])
    ensures |Newest(u)| == Capacity ==> Retain(Newest(u) + [d]) == Newest(u)[1..] + [d]
    ensures |Newest(u)| < Capacity ==> Retain(Newest(u) + [d]) == Newest(u) + [d]
  {
    var rs := Newest(u) + [d];
    NewestAppend(u, d);
    if |rs| > Capacity {
      assert Chronological(rs);
      OldestOfChronological(rs);
      assert Retain(rs) == rs[1..];
      assert rs[1..] == Newest(u)[1..] + [d];
    }
  }

  // ---------------------------------------------------------------------
  // History: order_by("-uploaded_at")[:5]
  // ---------------------------------------------------------------------

  function UploadTime(d: Dataset): int {
    d.uploadedAt
  }

  /** `order_by("-uploaded_at")[:5]`: the first five of the table sorted newest first. */
  function Recent(rs: seq<Dataset>): (r: seq<Dataset>)
    ensures |r| == Min(|rs|, Capacity)
    ensures multiset(r) <= multiset(rs)
  {
    var sorted := Sorting.SortDesc(rs, UploadTime);
    var m := Min(|sorted|, Capacity);
    assert sorted == sorted[..m] + sorted[m..];
    sorted[..m]
  }

  /**
   * The listing holds at most five records of the table, newest first, and
   * all of them when there are at most five.
   */
  lemma RecentIsNewestFirst(rs: seq<Dataset>)
    ensures |Recent(rs)| == Min(|rs|, Capacity)
    ensures forall i, j :: 0 <= i < j < |Recent(rs)| ==> Recent(rs)[i].uploadedAt >= Recent(rs)[j].uploadedAt
    ensures forall i :: 0 <= i < |Recent(rs)| ==> Recent(rs)[i] in rs
    ensures multiset(Recent(rs)) <= multiset(rs)
    ensures |rs| <= Capacity ==> multiset(Recent(rs)) == multiset(rs)
  {
    var sorted := Sorting.SortDesc(rs, UploadTime);
    Sorting.SortDescOrdered(rs, UploadTime);
    var r := Recent(rs);
    var m := Min(|sorted|, Capacity);
    assert r == sorted[..m];
    forall i | 0 <= i < |r| ensures r[i] in rs {
      assert r[i] in multiset(sorted);
    }
    if |rs| <= Capacity {
      assert r == sorted;
    }
  }

  /** No record the listing leaves out is newer than one it lists. */
  lemma RecentOmitsOnlyOlder(rs: seq<Dataset>)
    ensures forall x, i :: x in rs && x !in Recent(rs) && 0 <= i < |Recent(rs)| ==> x.uploadedAt <= Recent(rs)[i].uploadedAt
  {
    var sorted := Sorting.SortDesc(rs, UploadTime);
    Sorting.SortDescOrdered(rs, UploadTime);
    var r := Recent(rs);
    assert r == sorted[..Min(|sorted|, Capacity)];
    forall x, i | x in rs && x !in r && 0 <= i < |r| ensures x.uploadedAt <= r[i].uploadedAt {
      assert x in multiset(sorted);
      var j :| 0 <= j < |sorted| && sorted[j] == x;
      assert UploadTime(sorted[i]) >= UploadTime(sorted[j]);
    }
  }

  function Reverse(rs: seq<Dataset>): (r: seq<Dataset>)
    ensures |r| == |rs|
    ensures forall i :: 0 <= i < |rs| ==> r[i] == rs[|rs| - 1 - i]
  {
    if rs == [] then [] else Reverse(rs[1..]) + [rs[0]]
  }

  lemma {:induction false} InsertOlderGoesLast(x: Dataset, s: seq<Dataset>)
    requires forall i :: 0 <= i < |s| ==> s[i].uploadedAt > x.uploadedAt
    ensures Sorting.Insert(x, s, UploadTime) == s + [x]
  {
    if s != [] {
      InsertOlderGoesLast(x, s[1..]);
      assert s == [s[0]] + s[1..];
    }
  }

  /** A table stored in upload order is listed in exactly the reverse order. */
  lemma {:induction false} SortChronological(rs: seq<Dataset>)
    requires Chronological(rs)
    ensures Sorting.SortDesc(rs, UploadTime) == Reverse(rs)
  {
    if rs != [] {
      SortChronological(rs[1..]);
      InsertOlderGoesLast(rs[0], Reverse(rs[1..]));
    }
  }

  /** Stamped with their positions, the kept uploads are in upload order. */
  lemma NewestChronological(u: seq<Dataset>)
    requires forall i :: 0 <= i < |u| ==> u[i].uploadedAt == i
    ensures Chronological(Newest(u))
  {
    var r := Newest(u);
    var k := |u| - |r|;
    assert forall i :: 0 <= i < |r| ==> r[i] == u[k + i];
  }

  /** Reversed, a chronological sequence is strictly newest first. */
  lemma ReverseChronological(rs: seq<Dataset>)
    requires Chronological(rs)
    ensures forall i, j :: 0 <= i < j < |rs| ==> Reverse(rs)[i].uploadedAt > Reverse(rs)[j].uploadedAt
  {
  }

  // ---------------------------------------------------------------------
  // Lookup: EquipmentDataset.objects.get(id=dataset_id)
  // ---------------------------------------------------------------------

  function Find(rs: seq<Dataset>, id: int): (r: Option<Dataset>)
    ensures r.Some? ==> r.value in rs && r.value.id == id
    ensures r.None? <==> forall i :: 0 <= i < |rs| ==> rs[i].id != id
  {
    if rs == [] then None
    else if rs[0].id == id then Some(rs[0])
    else Find(rs[1..], id)
  }

  // ---------------------------------------------------------------------
  // Responses
  // ---------------------------------------------------------------------

  /** Why an upload was answered with 400. */
  datatype Rejection = InvalidForm | Unanalyzable(error: AnalysisError)

  datatype UploadResponse = Created(summary: Summary, data: seq<Record>) | BadRequest(reason: Rejection)

  /** 404, or the report as an attachment named after the requested id. */
  datatype ReportResponse = NotFound | Attachment(id: int, lines: seq<Canvas.Line>, breaks: nat)

  /** The dataset table, with the id sequence and the clock that stamps uploads. */
  class Store {
    var records: seq<Dataset>
    var nextId: nat
    var clock: nat
    /** Every dataset ever created, in creation order. */
    ghost var uploads: seq<Dataset>

    ghost predicate Valid()
      reads this
    {
      && nextId == |uploads| + 1
      && clock == |uploads|
      && (forall i :: 0 <= i < |uploads| ==> uploads[i].id == i + 1 && uploads[i].uploadedAt == i)
      && records == Newest(uploads)
    }

    constructor ()
      ensures Valid() && records == [] && uploads == []
    {
      records := [];
      nextId := 1;
      clock := 0;
      uploads := [];
    }

    /** `order_by("uploaded_at").first()`: the position of the earliest upload. */
    method Oldest() returns (k: nat)
      requires records != []
      ensures k < |records|
      ensures forall j :: 0 <= j < |records| ==> records[k].uploadedAt <= records[j].uploadedAt
      ensures forall j :: 0 <= j < k ==> records[j].uploadedAt > records[k].uploadedAt
    {
      k := 0;
      var i := 1;
      while i < |records|
        invariant 1 <= i <= |records| && k < i
        invariant forall j :: 0 <= j < i ==> records[k].uploadedAt <= records[j].uploadedAt
        invariant forall j :: 0 <= j < k ==> records[j].uploadedAt > records[k].uploadedAt
      {
        if records[i].uploadedAt < records[k].uploadedAt {
          k := i;
        }
        i := i + 1;
      }
    }

    /**
     * `EquipmentDataset.objects.create` followed by the count check: the new
     * dataset gets the next id and the current time, and above five datasets
     * the earliest one is deleted.
     */
    method Insert(filename: string, summary: Summary)
      requires Valid()
      modifies this
      ensures Valid()
      ensures var d := Dataset(old(nextId), filename, old(clock), summary);
              && uploads == old(uploads) + [d]
              && records == Retain(old(records) + [d])
              && (|old(records)| < Capacity ==> records == old(records) + [d])
              && (|old(records)| == Capacity ==> records == old(records)[1..] + [d])
    {
      var d := Dataset(nextId, filename, clock, summary);
      assert Chronological(uploads + [d]);
      InsertKeepsNewest(uploads, d);
      records := records + [d];
      uploads := uploads + [d];
      nextId := nextId + 1;
      clock := clock + 1;
      if |records| > Capacity {
        var k := Oldest();
        assert k == OldestIndex(records);
        records := records[..k] + records[k + 1..];
      }
    }

    /**
     * `UploadCSVView.post`: a rejected form or a table analyze_csv refuses
     * leaves the store as it was and answers 400; otherwise the dataset is
     * inserted and the summary and records are answered with 201.
     */
    method Upload(formValid: bool, filename: string, header: seq<string>, rows: seq<seq<Cell>>)
      returns (resp: UploadResponse)
      requires Valid()
      requires Rectangular(header, rows)
      modifies this
      ensures Valid()
      ensures !formValid ==> resp == BadRequest(InvalidForm) && unchanged(this)
      ensures formValid && Analyze(header, rows).Err? ==>
                resp == BadRequest(Unanalyzable(Analyze(header, rows).error)) && unchanged(this)
      ensures formValid && Analyze(header, rows).Ok? ==>
                var a := Analyze(header, rows).value;
                var d := Dataset(old(nextId), filename, old(clock), a.summary);
                && resp == Created(a.summary, a.data)
                && uploads == old(uploads) + [d]
                && records == Retain(old(records) + [d])
    {
      if !formValid {
        return BadRequest(InvalidForm);
      }
      var result := Analyze(header, rows);
      if result.Err? {
        return BadRequest(Unanalyzable(result.error));
      }
      Insert(filename, result.value.summary);
      resp := Created(result.value.summary, result.value.data);
    }

    /** `HistoryView.get`: the stored datasets, newest first. */
    function History(): (r: seq<Dataset>)
      reads this
      requires Valid()
      ensures r == Reverse(records)
      ensures |r| <= Capacity
      ensures forall i, j :: 0 <= i < j < |r| ==> r[i].uploadedAt > r[j].uploadedAt
    {
      NewestChronological(uploads);
      SortChronological(records);
      ReverseChronological(records);
      Recent(records)
    }

    /** `download_report`: 404 for an id not in the table, else the report of that dataset. */
    method DownloadReport(id: int) returns (resp: ReportResponse)
      requires Valid()
      ensures resp.NotFound? <==> forall i :: 0 <= i < |records| ==> records[i].id != id
      ensures resp.Attachment? ==> resp.id == id
      ensures resp.Attachment? ==> exists i :: 0 <= i < |records| && records[i].id == id
                                               && resp.lines == Report.ReportLines(records[i])
                                               && resp.breaks == 0
    {
      match Find(records, id)
      case None =>
        resp := NotFound;
      case Some(d) =>
        var lines, breaks := Report.RenderReport(d);
        Report.ReportLayout(d);
        resp := Attachment(id, lines, breaks);
    }
  }
}
