/** The index as the rule engine reads it: documents in id order, fetched page
    by page with a cursor mark. */
module Paging {
  import opened StringOrder
  import opened RuleModel

  const QUERY_BLOCK_SIZE: nat := 100

  /** The cursor mark: the start mark, or the sort value of the last document seen. */
  datatype Cursor = CursorStart | CursorAfter(id: Path)

  predicate SortedById(docs: seq<Document>)
  {
    forall i, j :: 0 <= i < j < |docs| ==> Before(docs[i].id, docs[j].id)
  }

  predicate Passed(c: Cursor, d: Document)
  {
    c.CursorAfter? && !Before(c.id, d.id)
  }

  function Later(docs: seq<Document>, c: Cursor): seq<Document>
  {
    if docs == [] then []
    else (if Passed(c, docs[0]) then [] else [docs[0]]) + Later(docs[1..], c)
  }

  function Page(index: seq<Document>, c: Cursor): seq<Document>
  {
    var later := Later(index, c);
    if |later| <= QUERY_BLOCK_SIZE then later else later[..QUERY_BLOCK_SIZE]
  }

  function NextCursor(page: seq<Document>, c: Cursor): Cursor
  {
    if page == [] then c else CursorAfter(page[|page| - 1].id)
  }

  /** The cursor once the first `k` documents have been seen. */
  function CursorAt(index: seq<Document>, k: nat): Cursor
    requires k <= |index|
  {
    if k == 0 then CursorStart else CursorAfter(index[k - 1].id)
  }

  lemma {:induction false} LaterThanAll(docs: seq<Document>, c: Cursor)
    requires forall i :: 0 <= i < |docs| ==> !Passed(c, docs[i])
    ensures Later(docs, c) == docs
  {
    if docs != [] {
      LaterThanAll(docs[1..], c);
    }
  }

  lemma {:induction false} LaterSplit(a: seq<Document>, b: seq<Document>, c: Cursor)
    requires forall i :: 0 <= i < |a| ==> Passed(c, a[i])
    ensures Later(a + b, c) == Later(b, c)
  {
    if a == [] {
      assert a + b == b;
    } else {
      assert (a + b)[1..] == a[1..] + b;
      LaterSplit(a[1..], b, c);
    }
  }

  lemma PassedAt(index: seq<Document>, k: nat, i: nat)
    requires SortedById(index) && k <= |index| && i < |index|
    ensures Passed(CursorAt(index, k), index[i]) <==> i < k
  {
    if i + 1 == k {
      BeforeIrreflexive(index[i].id);
    } else if i + 1 < k {
      BeforeAsymmetric(index[i].id, index[k - 1].id);
    }
  }

  lemma LaterAt(index: seq<Document>, k: nat)
    requires SortedById(index) && k <= |index|
    ensures Later(index, CursorAt(index, k)) == index[k..]
  {
    var c := CursorAt(index, k);
    var a, b := index[..k], index[k..];
    forall i | 0 <= i < |a|
      ensures Passed(c, a[i])
    {
      PassedAt(index, k, i);
    }
    forall i | 0 <= i < |b|
      ensures !Passed(c, b[i])
    {
      PassedAt(index, k, k + i);
    }
    assert index == a + b;
    LaterSplit(a, b, c);
    LaterThanAll(b, c);
  }

  lemma PageEnd(n: nat, pages: nat)
    requires pages < PageCount(n)
    ensures
      var k, end := Delivered(n, pages), Delivered(n, pages + 1);
      && k <= end <= n
      && end == (if n - k <= QUERY_BLOCK_SIZE then n else k + QUERY_BLOCK_SIZE)
      && (k == end <==> pages + 1 == PageCount(n))
  {}

  lemma PageAt(index: seq<Document>, k: nat, end: nat)
    requires SortedById(index) && k <= end <= |index|
    requires end == if |index| - k <= QUERY_BLOCK_SIZE then |index| else k + QUERY_BLOCK_SIZE
    ensures Page(index, CursorAt(index, k)) == index[k..end]
  {
    LaterAt(index, k);
  }

  lemma CursorMoves(index: seq<Document>, k: nat, end: nat)
    requires SortedById(index) && k <= end <= |index|
    ensures NextCursor(index[k..end], CursorAt(index, k)) == CursorAt(index, end)
    ensures CursorAt(index, end) == CursorAt(index, k) <==> k == end
  {
    if 0 < k < end {
      BeforeAsymmetric(index[k - 1].id, index[end - 1].id);
    }
  }

  /** A page resumes exactly where the previous one stopped, and the cursor
      repeats exactly when nothing is left. */
  lemma PageResumes(index: seq<Document>, pages: nat)
    requires SortedById(index) && pages < PageCount(|index|)
    ensures
      var k, end := Delivered(|index|, pages), Delivered(|index|, pages + 1);
      var c := CursorAt(index, k);
      && k <= end
      && (end == |index| || end == k + 100) && end <= k + 100
      && Page(index, c) == index[k..end]
      && NextCursor(Page(index, c), c) == CursorAt(index, end)
      && (CursorAt(index, end) == c <==> pages + 1 == PageCount(|index|))
      && (c == CursorStart && k == end <==> index == [])
  {
    var k, end := Delivered(|index|, pages), Delivered(|index|, pages + 1);
    PageEnd(|index|, pages);
    PageAt(index, k, end);
    CursorMoves(index, k, end);
  }

  /** How many queries a complete reading takes: the last one comes back empty. */
  function PageCount(n: nat): nat
  {
    (n + QUERY_BLOCK_SIZE - 1) / QUERY_BLOCK_SIZE + 1
  }

  /** How many documents the first `pages` queries deliver. */
  function Delivered(n: nat, pages: nat): nat
  {
    if pages * QUERY_BLOCK_SIZE <= n then pages * QUERY_BLOCK_SIZE else n
  }

  /** How the query for a page ends. */
  datatype Fetching = FetchDone | FetchThrew(hasCause: bool)

  /** The first query from `from` on that throws, or `total` if none of them does. */
  function FirstFault(fetch: nat -> Fetching, from: nat, total: nat): (k: nat)
    requires from <= total
    ensures from <= k <= total
    ensures forall i: nat :: from <= i < k ==> fetch(i) == FetchDone
    ensures k < total ==> fetch(k).FetchThrew?
    decreases total - from
  {
    if from == total || fetch(from).FetchThrew? then from else FirstFault(fetch, from + 1, total)
  }

  /** The state after so many pages. An index without a match counts as a
      success as soon as its empty first page is in. */
  function Progress(t: Task, index: seq<Document>, pages: nat, disks: Path -> Disk, job: Job): Task
  {
    var processed := ProcessAll(t, index[..Delivered(|index|, pages)], disks, job);
    if index == [] && pages > 0 then processed.(success := true) else processed
  }

  lemma PageProgress(t: Task, index: seq<Document>, pages: nat, disks: Path -> Disk, job: Job)
    requires SortedById(index) && pages < PageCount(|index|)
    ensures
      var page := index[Delivered(|index|, pages)..Delivered(|index|, pages + 1)];
      Progress(t, index, pages + 1, disks, job)
      == if index == [] then t.(success := true)
         else ProcessAll(Progress(t, index, pages, disks, job), page, disks, job)
  {
    var k, end := Delivered(|index|, pages), Delivered(|index|, pages + 1);
    assert index[..k] + index[k..end] == index[..end];
    ProcessAllConcat(t, index[..k], index[k..end], disks, job);
  }
}
