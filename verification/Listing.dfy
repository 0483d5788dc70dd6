/** The paged listing of a set's versions: which rows, in which order, and what page arithmetic does to them. */
module Listing {
  import opened Wrappers
  import opened Platform
  import opened Store
  import opened Lifecycle
  import opened Invariants
  import Counting

  /** Go's int on a 64-bit machine. */
  const MAX_INT: int := 0x7fff_ffff_ffff_ffff

  predicate GoInt(x: int) {
    -MAX_INT - 1 <= x <= MAX_INT
  }

  function Wrapped(x: int): int {
    (x + MAX_INT + 1) % (2 * MAX_INT + 2) - MAX_INT - 1
  }

  datatype Page = Page(items: seq<RuleVersion>, total: nat, page: int, pageSize: int)

  function PageNumber(page: int): int {
    if page < 1 then 1 else page
  }

  function PageSize(pageSize: int): (size: int)
    ensures 1 <= size <= 200
  {
    if pageSize < 1 then 20 else if pageSize > 200 then 200 else pageSize
  }

  function Offset(page: int, pageSize: int): int {
    Wrapped((PageNumber(page) - 1) * PageSize(pageSize))
  }

  /******* Which rows, in which order *******/

  function StatusText(status: VersionStatus): string {
    match status
    case Draft => "draft"
    case Published => "published"
  }

  function SelectedIds(db: Db, scope: Scope, setId: Id, status: string): set<Id> {
    set id | id in db.versions && Belongs(db.versions[id], scope, setId)
             && (status == "" || StatusText(db.versions[id].status) == status)
  }

  ghost predicate IsTop(db: Db, ids: set<Id>, top: Id)
    requires ids <= db.versions.Keys
  {
    top in ids && forall id :: id in ids ==> db.versions[id].number <= db.versions[top].number
  }

  lemma {:induction false} HasTop(db: Db, ids: set<Id>)
    requires ids <= db.versions.Keys && ids != {}
    ensures exists top :: IsTop(db, ids, top)
    decreases ids
  {
    var id := Pick(ids);
    if ids == {id} {
      assert IsTop(db, ids, id);
    } else {
      HasTop(db, ids - {id});
      var top :| IsTop(db, ids - {id}, top);
      assert IsTop(db, ids, if db.versions[top].number < db.versions[id].number then id else top);
    }
  }

  /** ORDER BY version_number DESC */
  ghost function Ordered(db: Db, ids: set<Id>): (rows: seq<RuleVersion>)
    requires ids <= db.versions.Keys
    ensures |rows| == |ids|
    decreases ids
  {
    if ids == {} then []
    else
      HasTop(db, ids);
      var top :| IsTop(db, ids, top);
      [db.versions[top]] + Ordered(db, ids - {top})
  }

  ghost function Versions(db: Db, scope: Scope, setId: Id, status: string): seq<RuleVersion> {
    Ordered(db, SelectedIds(db, scope, setId, status))
  }

  /** LIMIT and OFFSET */
  function Window(rows: seq<RuleVersion>, limit: nat, offset: nat): seq<RuleVersion> {
    if offset >= |rows| then []
    else if offset + limit >= |rows| then rows[offset..]
    else rows[offset..offset + limit]
  }

  /** The numbers of the rows are pairwise distinct. */
  ghost predicate Distinct(db: Db, ids: set<Id>)
    requires ids <= db.versions.Keys
  {
    forall a, b | a in ids && b in ids && db.versions[a].number == db.versions[b].number :: a == b
  }

  ghost predicate Descending(rows: seq<RuleVersion>) {
    forall i, j :: 0 <= i < j < |rows| ==> rows[i].number > rows[j].number
  }

  lemma {:induction false} OrderedRows(db: Db, ids: set<Id>, row: RuleVersion)
    requires ids <= db.versions.Keys
    ensures row in Ordered(db, ids) <==> exists id :: id in ids && db.versions[id] == row
    decreases ids
  {
    if ids != {} {
      HasTop(db, ids);
      var top :| IsTop(db, ids, top) && Ordered(db, ids) == [db.versions[top]] + Ordered(db, ids - {top});
      OrderedRows(db, ids - {top}, row);
      assert forall id :: id in ids <==> id == top || id in ids - {top};
    }
  }

  /** The highest number first. */
  lemma {:induction false} OrderedDescends(db: Db, ids: set<Id>)
    requires ids <= db.versions.Keys && Distinct(db, ids)
    ensures Descending(Ordered(db, ids))
    decreases ids
  {
    if ids != {} {
      HasTop(db, ids);
      var top :| IsTop(db, ids, top) && Ordered(db, ids) == [db.versions[top]] + Ordered(db, ids - {top});
      var rest := Ordered(db, ids - {top});
      OrderedDescends(db, ids - {top});
      hide Ordered, Descending;
      forall row | row in rest ensures row.number < db.versions[top].number {
        OrderedRows(db, ids - {top}, row);
      }
      Prepend(db.versions[top], rest);
    }
  }

  lemma Prepend(row: RuleVersion, rest: seq<RuleVersion>)
    requires Descending(rest) && forall r :: r in rest ==> r.number < row.number
    ensures Descending([row] + rest)
  {}

  lemma SelectedDistinct(db: Db, scope: Scope, setId: Id, status: string)
    requires Numbered(db)
    ensures Distinct(db, SelectedIds(db, scope, setId, status))
  {}

  /** The sorting loop: what is left to place lies below everything placed. */
  lemma TopFirst(db: Db, ids: set<Id>, top: Id)
    requires ids <= db.versions.Keys && Distinct(db, ids) && IsTop(db, ids, top)
    ensures top in ids && Distinct(db, ids - {top})
    ensures Ordered(db, ids) == [db.versions[top]] + Ordered(db, ids - {top})
  {
    HasTop(db, ids);
    forall other | IsTop(db, ids, other) ensures other == top {}
  }

  lemma NothingLeft(db: Db)
    ensures Ordered(db, {}) == []
  {}

  /******* Pages *******/

  /** One call of ListRuleVersions. */
  ghost function Listed(db: Db, scope: Scope, setId: Id, status: string, page: int, pageSize: int): Result<Page, Code> {
    if scope.application == "" then Failure(Invalid)
    else if Offset(page, pageSize) < 0 then Failure(Internal)
    else
      var rows := Versions(db, scope, setId, status);
      Success(Page(Window(rows, PageSize(pageSize), Offset(page, pageSize)), |rows|,
                   PageNumber(page), PageSize(pageSize)))
  }

  lemma WrappedSame(x: int)
    ensures GoInt(x) <==> Wrapped(x) == x
  {}

  /** The rows of pages 1 to `count`, one page after another. */
  ghost function FirstPages(db: Db, scope: Scope, setId: Id, status: string, pageSize: int, count: nat)
    : Option<seq<RuleVersion>>
  {
    if count == 0 then Some([])
    else
      var before := FirstPages(db, scope, setId, status, pageSize, count - 1);
      var last := Listed(db, scope, setId, status, count, pageSize);
      if before.None? || last.Failure? then None else Some(before.value + last.value.items)
  }

  /** While the page before is not past the end, each page continues where it stopped. */
  lemma {:induction false} PagesPrefix(db: Db, scope: Scope, setId: Id, status: string, pageSize: int, count: nat)
    requires scope.application != ""
    requires count > 0 ==> (count - 1) * PageSize(pageSize) <= MAX_INT
    ensures var rows, end := Versions(db, scope, setId, status), count * PageSize(pageSize);
      FirstPages(db, scope, setId, status, pageSize, count) == Some(if end < |rows| then rows[..end] else rows)
  {
    if count > 0 {
      hide Versions, PageSize, PageNumber, Wrapped, Offset, Window;
      var size, rows := PageSize(pageSize), Versions(db, scope, setId, status);
      var start := (count - 1) * size;
      Multiples(size, count);
      PagesPrefix(db, scope, setId, status, pageSize, count - 1);
      OffsetInRange(count, pageSize);
      NextWindow(rows, size, start);
    }
  }

  lemma Multiples(size: int, count: nat)
    requires size >= 1 && count > 0
    ensures count * size == (count - 1) * size + size
    ensures (count - 1) * size >= 0
    ensures count > 1 ==> (count - 2) * size <= (count - 1) * size
  {}

  lemma OffsetInRange(page: int, pageSize: int)
    requires page >= 1 && 0 <= (page - 1) * PageSize(pageSize) <= MAX_INT
    ensures PageNumber(page) == page && Offset(page, pageSize) == (page - 1) * PageSize(pageSize)
  {
    hide PageSize;
    WrappedSame((page - 1) * PageSize(pageSize));
  }

  lemma NextWindow(rows: seq<RuleVersion>, limit: nat, offset: nat)
    ensures (if offset < |rows| then rows[..offset] else rows) + Window(rows, limit, offset)
         == if offset + limit < |rows| then rows[..offset + limit] else rows
  {}

  /** ceil(total / pageSize) */
  function PageCount(total: nat, pageSize: int): nat {
    (total + PageSize(pageSize) - 1) / PageSize(pageSize)
  }

  lemma PageCountIs(total: nat, pageSize: int)
    ensures var count := PageCount(total, pageSize);
      && count * PageSize(pageSize) >= total
      && (count > 0 ==> (count - 1) * PageSize(pageSize) < total)
  {
    var size := PageSize(pageSize);
    var count := PageCount(total, pageSize);
    assert total + size - 1 == count * size + (total + size - 1) % size;
    assert (count - 1) * size == count * size - size;
  }

  /** Whatever page size is asked for, the pages there are cover the listing: each row once, and in order. */
  lemma PagesPartition(w: Platform, db: Db, scope: Scope, setId: Id, status: string, pageSize: int)
    requires Consistent(w, db) && scope.application != "" && |Versions(db, scope, setId, status)| <= MAX_INT
    ensures var rows := Versions(db, scope, setId, status);
      && FirstPages(db, scope, setId, status, pageSize, PageCount(|rows|, pageSize)) == Some(rows)
      && |rows| == |SelectedIds(db, scope, setId, status)| && Descending(rows)
      && forall row :: row in rows <==>
           exists id :: id in SelectedIds(db, scope, setId, status) && db.versions[id] == row
  {
    hide Keyed, CodesUnique, KeysUnique, AllShaped, Pointed, OutboxFaithful, PageSize, Numbered, Ordered;
    var rows := Versions(db, scope, setId, status);
    PageCountIs(|rows|, pageSize);
    PagesPrefix(db, scope, setId, status, pageSize, PageCount(|rows|, pageSize));
    SelectedDistinct(db, scope, setId, status);
    OrderedDescends(db, SelectedIds(db, scope, setId, status));
    forall row ensures row in rows <==>
       exists id :: id in SelectedIds(db, scope, setId, status) && db.versions[id] == row {
      OrderedRows(db, SelectedIds(db, scope, setId, status), row);
    }
  }

  /** The rows a page would hold if its offset could not wrap around. */
  ghost function Meant(db: Db, scope: Scope, setId: Id, status: string, page: int, pageSize: int): seq<RuleVersion> {
    Window(Versions(db, scope, setId, status), PageSize(pageSize), (PageNumber(page) - 1) * PageSize(pageSize))
  }

  /** Exactly which page numbers give the rows they mean, however far out they are. */
  lemma PageExact(db: Db, scope: Scope, setId: Id, status: string, page: int, pageSize: int)
    requires scope.application != "" && |Versions(db, scope, setId, status)| <= MAX_INT
    ensures var r := Listed(db, scope, setId, status, page, pageSize);
      (r.Success? && r.value.items == Meant(db, scope, setId, status, page, pageSize))
      <==> var offset := Offset(page, pageSize);
           || GoInt((PageNumber(page) - 1) * PageSize(pageSize))
           || offset >= |Versions(db, scope, setId, status)|
  {
    hide PageSize, PageNumber;
    SizeInRange(pageSize, page);
    WrappedSame((PageNumber(page) - 1) * PageSize(pageSize));
  }

  lemma SizeInRange(pageSize: int, page: int)
    ensures 1 <= PageSize(pageSize) <= 200 && PageNumber(page) >= 1
    ensures (PageNumber(page) - 1) * PageSize(pageSize) >= 0
  {}

  /** Page 2^62 + 1 of four rows each is page 1 again. */
  lemma FarPageRepeatsTheFirst(db: Db, scope: Scope, setId: Id, status: string)
    requires scope.application != "" && Versions(db, scope, setId, status) != []
    ensures GoInt(0x4000_0000_0000_0001)
    ensures var near := Listed(db, scope, setId, status, 1, 4);
      var far := Listed(db, scope, setId, status, 0x4000_0000_0000_0001, 4);
      near.Success? && far.Success? && far.value.items == near.value.items != []
  {
    assert Offset(0x4000_0000_0000_0001, 4) == 0;
    assert Offset(1, 4) == 0;
  }

  predicate OfStatus(row: RuleVersion, status: string) {
    || status == ""
    || (status == "draft" && row.status.Draft?)
    || (status == "published" && row.status.Published?)
  }

  /** Which rows a listing holds, in which order: of the set, and of the status unless that is empty. */
  lemma VersionsExact(w: Platform, db: Db, scope: Scope, setId: Id, status: string)
    requires Consistent(w, db)
    ensures var rows := Versions(db, scope, setId, status);
      && (forall i, j :: 0 <= i < j < |rows| ==> rows[i].number > rows[j].number)
      && forall row :: row in rows <==>
           && row in db.versions.Values && row.scope == scope && row.setId == setId
           && OfStatus(row, status)
  {
    hide Keyed, CodesUnique, KeysUnique, AllShaped, Pointed, OutboxFaithful, Ordered;
    SelectedDistinct(db, scope, setId, status);
    hide Numbered;
    var ids := SelectedIds(db, scope, setId, status);
    OrderedDescends(db, ids);
    forall row ensures row in Versions(db, scope, setId, status) <==>
        && row in db.versions.Values && row.scope == scope && row.setId == setId
        && OfStatus(row, status) {
      OrderedRows(db, ids, row);
      if row in db.versions.Values {
        var id :| id in db.versions && db.versions[id] == row;
        assert id in ids <==> Belongs(row, scope, setId) && (status == "" || StatusText(row.status) == status);
      }
    }
  }

  lemma WrappedExact(x: int, o: int)
    requires GoInt(o) && (x - o) % 0x1_0000_0000_0000_0000 == 0
    ensures Wrapped(x) == o
  {}

  /** What one call answers, `o` being the offset in 64-bit arithmetic. */
  lemma ListedExact(db: Db, scope: Scope, setId: Id, status: string, page: int, pageSize: int, o: int)
    requires GoInt(o)
    requires var p := if page < 1 then 1 else page;
      var size := if pageSize < 1 then 20 else if pageSize <= 200 then pageSize else 200;
      ((p - 1) * size - o) % 0x1_0000_0000_0000_0000 == 0
    ensures var p := if page < 1 then 1 else page;
      var size := if pageSize < 1 then 20 else if pageSize <= 200 then pageSize else 200;
      var rows, r := Versions(db, scope, setId, status), Listed(db, scope, setId, status, page, pageSize);
      if scope.application == "" then r == Failure(Invalid)
      else if o < 0 then r == Failure(Internal)
      else
        && r.Success? && r.value.total == |rows| && r.value.page == p && r.value.pageSize == size
        && |r.value.items| == (if o >= |rows| then 0 else if |rows| - o < size then |rows| - o else size)
        && forall i :: 0 <= i < |r.value.items| ==> r.value.items[i] == rows[o + i]
  {
    hide Versions, Wrapped;
    WrappedExact((PageNumber(page) - 1) * PageSize(pageSize), o);
  }

  /******* Dense numbering *******/

  lemma {:induction false} CountsDown(rows: seq<RuleVersion>, n: nat)
    requires Descending(rows) && |rows| == n
    requires forall row :: row in rows ==> 1 <= row.number <= n
    ensures forall i :: 0 <= i < n ==> rows[i].number == n - i
  {
    if n > 0 {
      Bounded(rows, n, 0);
      forall row | row in rows[1..] ensures 1 <= row.number <= n - 1 {
        var i :| 1 <= i < n && rows[i] == row;
        assert rows[0] in rows;
      }
      CountsDown(rows[1..], n - 1);
      forall i | 0 <= i < n ensures rows[i].number == n - i {
        if i > 0 {
          assert rows[i] == rows[1..][i - 1];
        }
      }
    }
  }

  lemma {:induction false} Bounded(rows: seq<RuleVersion>, n: nat, i: nat)
    requires Descending(rows) && |rows| == n && i < n
    requires forall row :: row in rows ==> 1 <= row.number <= n
    ensures rows[i].number >= n - i
    decreases n - i
  {
    assert rows[i] in rows;
    if i + 1 < n {
      Bounded(rows, n, i + 1);
    }
  }

  /** Unfiltered, page p of s rows holds the numbers n - (p - 1)s down to max(1, n - ps + 1). */
  lemma DensePages(w: Platform, db: Db, setId: Id, page: int, pageSize: int)
    requires Consistent(w, db) && setId in db.sets && db.sets[setId].scope.application != ""
    requires GoInt((PageNumber(page) - 1) * PageSize(pageSize))
    ensures var n := |Counting.VersionIds(db, setId)|;
      var skipped := (PageNumber(page) - 1) * PageSize(pageSize);
      var r := Listed(db, db.sets[setId].scope, setId, "", page, pageSize);
      && r.Success? && r.value.total == n
      && |r.value.items| == (if n <= skipped then 0 else if n - skipped < PageSize(pageSize) then n - skipped
                             else PageSize(pageSize))
      && forall i :: 0 <= i < |r.value.items| ==> r.value.items[i].number == n - skipped - i
  {
    hide CodesUnique, KeysUnique, AllShaped, Pointed, OutboxFaithful, PageSize, PageNumber, Ordered;
    var scope := db.sets[setId].scope;
    var ids := SelectedIds(db, scope, setId, "");
    var rows := Versions(db, scope, setId, "");
    assert ids == Counting.VersionIds(db, setId);
    SelectedDistinct(db, scope, setId, "");
    OrderedDescends(db, ids);
    AllNumbered(w, db, setId);
    forall row | row in rows ensures 1 <= row.number <= |ids| {
      OrderedRows(db, ids, row);
    }
    CountsDown(rows, |ids|);
    SizeInRange(pageSize, page);
    WrappedSame((PageNumber(page) - 1) * PageSize(pageSize));
  }

  lemma AllNumbered(w: Platform, db: Db, setId: Id)
    requires Consistent(w, db) && setId in db.sets
    ensures forall id :: id in Counting.VersionIds(db, setId) ==>
      1 <= db.versions[id].number <= |Counting.VersionIds(db, setId)|
  {
    hide CodesUnique, KeysUnique, AllShaped, Pointed, OutboxFaithful, Counting.Interval, Numbered;
    var scope := db.sets[setId].scope;
    Counting.NumbersAreDense(w, db, setId);
    Counting.IntervalIs(|Counting.VersionIds(db, setId)|);
    forall id | id in Counting.VersionIds(db, setId) ensures db.versions[id].number in Numbers(db, scope, setId) {
      assert Belongs(db.versions[id], scope, setId);
    }
  }
}
