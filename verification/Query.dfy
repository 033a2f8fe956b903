/** Pagination of a collection (api/handler/query.go, parse/collection.go). */
module Query {
  import opened Text

  /** One object of a collection: its ID (the empty string if it has none) and the rest. */
  datatype Row = Row(id: string, body: string)

  const DEFAULT_LIMIT := 1000
  const MAX_LIMIT := 10000
  const MAX_INT64 := 0x7fff_ffff_ffff_ffff
  const TWO64 := 0x1_0000_0000_0000_0000

  newtype int64 = x: int | -0x8000_0000_0000_0000 <= x <= 0x7fff_ffff_ffff_ffff

  /** Addition as the machine does it. */
  function Plus(a: int64, b: int64): int64 {
    var x := a as int + b as int;
    (if x > MAX_INT64 then x - TWO64 else if x < -MAX_INT64 - 1 then x + TWO64 else x) as int64
  }

  function Minus(a: int64, b: int64): int64 {
    var x := a as int - b as int;
    (if x > MAX_INT64 then x - TWO64 else if x < -MAX_INT64 - 1 then x + TWO64 else x) as int64
  }

  /** The limit parameter of a request: not there, not an int64, or a number. */
  datatype LimitText = Absent | Malformed | Number(n: int)

  function ParseLimit(t: LimitText): (r: int)
    ensures 0 <= r <= MAX_LIMIT
  {
    match t
    case Absent => DEFAULT_LIMIT
    case Malformed => DEFAULT_LIMIT
    case Number(n) => if n > MAX_LIMIT || n == -1 then MAX_LIMIT else if n >= 0 then n else DEFAULT_LIMIT
  }

  /** What a request gets: the default without a usable number, the maximum for -1 or more than that, or what
      it asked for. */
  lemma LimitAsAsked(n: int)
    ensures ParseLimit(Absent) == 1000 && ParseLimit(Malformed) == 1000
    ensures 0 <= n <= 10000 ==> ParseLimit(Number(n)) == n
    ensures n > 10000 || n == -1 ==> ParseLimit(Number(n)) == 10000
    ensures n < -1 ==> ParseLimit(Number(n)) == 1000
  {
  }

  // -------------------------------------------------------------------- one page

  /** Where the marker points: its first occurrence, or the beginning. */
  function Start(data: seq<Row>, marker: string): (r: nat)
    ensures data != [] ==> r < |data|
  {
    if marker == "" then 0 else Occurs(data, marker, 0)
  }

  function Occurs(data: seq<Row>, marker: string, from: nat): (r: nat)
    requires from <= |data|
    ensures r == 0 || (r < |data| && data[r].id == marker && forall j :: from <= j < r ==> data[j].id != marker)
    ensures (exists j :: from <= j < |data| && data[j].id == marker) ==> from <= r < |data| && data[r].id == marker
    decreases |data| - from
  {
    if from == |data| then 0 else if data[from].id == marker then from else Occurs(data, marker, from + 1)
  }

  function Min(a: int, b: int): int { if a < b then a else b }

  function Max(a: int, b: int): int { if a < b then b else a }

  /** The page that begins at s, and the markers it gives to its neighbours. */
  function PageAt(data: seq<Row>, s: nat, limit: nat): seq<Row>
    requires s <= |data|
  {
    data[s..Min(s + limit, |data|)]
  }

  function NextMarker(data: seq<Row>, s: nat, limit: nat): string {
    if s < s + limit < |data| then data[s + limit].id else ""
  }

  function PreviousMarker(data: seq<Row>, s: nat, limit: nat): string {
    var p := Max(s - limit, 0);
    if p < s < |data| then data[p].id else ""
  }

  /** The marker of the last page; without a page before the end, what was there. */
  function LastMarker(data: seq<Row>, limit: nat, was: string): string {
    if 0 < limit < |data| then data[|data| - limit].id else was
  }

  /** The end of the page is beyond int64, so that it wraps to a negative index. */
  predicate Overflows(data: seq<Row>, marker: string, limit: int) {
    data != [] && Start(data, marker) + Max(limit, 0) > MAX_INT64
  }

  /** The limit of a request never gets there, whatever was asked. */
  lemma ParsedNeverOverflows(data: seq<Row>, marker: string, t: LimitText)
    requires |data| <= MAX_INT64 - MAX_LIMIT
    ensures !Overflows(data, marker, ParseLimit(t))
  {
    if data != [] { assert Start(data, marker) < |data|; }
  }

  class Pagination {
    var limit: Option<int64>
    var marker: string
    var next: string
    var previous: string
    var first: string
    var last: string
    var partial: bool
    var total: int64

    constructor (limit: Option<int64>, marker: string)
      ensures this.limit == limit && this.marker == marker && last == ""
    {
      this.limit, this.marker := limit, marker;
      next, previous, first, last, partial, total := "", "", "", "", false, 0;
    }

    ghost predicate Filled(data: seq<Row>, page: seq<Row>, n: nat, wasLast: string)
      requires data != []
      reads this
    {
      var s := Start(data, marker);
      && page == PageAt(data, s, n)
      && next == NextMarker(data, s, n)
      && previous == PreviousMarker(data, s, n)
      && (partial <==> |page| < |data|)
      && first == (if partial then data[0].id else "")
      && last == if partial then LastMarker(data, n, wasLast) else wasLast
    }

    /** ApplyPagination in int64 arithmetic; a negative limit counts as zero. None is the panic of a slice
        whose end wrapped around, which happens exactly when start and limit add up beyond int64. */
    method Apply(data: seq<Row>) returns (page: Option<seq<Row>>)
      requires |data| <= MAX_INT64
      modifies this
      ensures limit == old(limit) && marker == old(marker)
      ensures limit.None? ==> page == Some(data) && unchanged(this)
      ensures limit.Some? ==> total as int == |data| && (page.None? <==> Overflows(data, marker, limit.value as int))
      ensures limit.Some? && data == [] ==> page == Some([]) && next == "" && previous == "" && !partial
      ensures limit.Some? && data != [] && page.Some? ==>
                Filled(data, page.value, Max(limit.value as int, 0), old(last))
    {
      if limit.None? { return Some(data); }
      var n := if limit.value < 0 then 0 else limit.value;
      var length := |data| as int64;
      next, previous, partial, total, first := "", "", false, length, "";
      if data == [] { return Some(data); }
      var start := FindStart(data, marker);
      page := Fill(data, start as int64, n);
    }

    /** The second half of it: the indices, the markers and the page. */
    method Fill(data: seq<Row>, start: int64, n: int64) returns (page: Option<seq<Row>>)
      requires 0 < |data| <= MAX_INT64 && start as int == Start(data, marker) && n >= 0
      requires next == "" && previous == "" && first == "" && !partial
      modifies this`next, this`previous, this`first, this`last, this`partial
      ensures page.None? <==> start as int + n as int > MAX_INT64
      ensures page.Some? ==> Filled(data, page.value, n as nat, old(last))
    {
      var length := |data| as int64;
      var previousIndex := Minus(start, n);
      if previousIndex <= 0 { previousIndex := 0; }
      var nextIndex := Plus(start, n);
      if nextIndex > length { nextIndex := length; }
      assert previousIndex as int == Max(start as int - n as int, 0);
      assert start as int + n as int <= MAX_INT64 ==> nextIndex as int == Min(start as int + n as int, |data|);
      if previousIndex < start { previous := data[previousIndex].id; }
      if nextIndex > start && nextIndex < length { next := data[nextIndex].id; }
      if start > 0 || nextIndex < length { partial := true; }
      if partial {
        first := data[0].id;
        var lastIndex := Minus(length, n);
        if 0 < lastIndex < length { last := data[lastIndex].id; }
      }
      if nextIndex < start { return None; }
      page := Some(data[start..nextIndex]);
    }
  }

  /** The search for the marker. */
  method FindStart(data: seq<Row>, marker: string) returns (start: nat)
    requires data != []
    ensures start == Start(data, marker)
  {
    if marker == "" { return 0; }
    for i := 0 to |data|
      invariant Occurs(data, marker, i) == Occurs(data, marker, 0)
    {
      if data[i].id == marker { return i; }
    }
    return 0;
  }

  // ------------------------------------------------------------- following markers

  /** The ID of row i can serve as its marker: it has one, and no earlier row has the same. */
  ghost predicate Marks(data: seq<Row>, i: nat) {
    i < |data| && data[i].id != "" && forall j :: 0 <= j < i ==> data[j].id != data[i].id
  }

  lemma MarkerFinds(data: seq<Row>, i: nat)
    requires 0 < i < |data|
    ensures Start(data, data[i].id) == i <==> Marks(data, i)
    ensures Start(data, data[i].id) <= i
  {
    var id := data[i].id;
    if id != "" {
      var r := Occurs(data, id, 0);
      assert data[i].id == id;
    }
  }

  /** Where the k-th page begins when one follows the next markers from the first page. */
  ghost function PageStart(data: seq<Row>, limit: nat, k: nat): nat
    requires data != []
  {
    if k == 0 then 0 else Start(data, NextMarker(data, PageStart(data, limit, k - 1), limit))
  }

  /** Where it should begin. */
  function Bound(limit: nat, k: nat): nat { if k == 0 then 0 else Bound(limit, k - 1) + limit }

  ghost function Gathered(data: seq<Row>, limit: nat, k: nat): seq<Row>
    requires data != []
  {
    if k == 0 then [] else Gathered(data, limit, k - 1) + PageAt(data, PageStart(data, limit, k - 1), limit)
  }

  ghost predicate HasNext(data: seq<Row>, limit: nat, k: nat)
    requires data != []
  {
    NextMarker(data, PageStart(data, limit, k), limit) != ""
  }

  ghost predicate AllHaveNext(data: seq<Row>, limit: nat, n: nat)
    requires data != []
  {
    n > 0 ==> HasNext(data, limit, n - 1) && AllHaveNext(data, limit, n - 1)
  }

  /** The first n pages are those up to the one without a next marker; it ends where the list ends, and
      together they are the list. */
  ghost predicate Complete(data: seq<Row>, limit: nat, n: nat)
    requires data != []
  {
    && n > 0
    && AllHaveNext(data, limit, n - 1)
    && !HasNext(data, limit, n - 1) && PageStart(data, limit, n - 1) + limit >= |data|
    && Gathered(data, limit, n) == data
  }

  /** Every row at which a page begins can be found by its ID. */
  ghost predicate Markable(data: seq<Row>, limit: nat) {
    forall k: nat :: k > 0 ==> PageMarks(data, limit, k)
  }

  ghost predicate PageMarks(data: seq<Row>, limit: nat, k: nat) {
    Bound(limit, k) < |data| ==> Marks(data, Bound(limit, k))
  }

  lemma {:induction false} BoundGrows(limit: nat, k: nat, m: nat)
    requires k < m
    ensures Bound(limit, k) + limit <= Bound(limit, m)
    decreases m
  {
    if k < m - 1 { BoundGrows(limit, k, m - 1); }
  }

  lemma OnePageOn(data: seq<Row>, limit: nat, b: nat)
    requires limit > 0 && Marks(data, b + limit)
    ensures Start(data, NextMarker(data, b, limit)) == b + limit && NextMarker(data, b, limit) != ""
    ensures data[..b] + PageAt(data, b, limit) == data[..b + limit]
  {
    MarkerFinds(data, b + limit);
  }

  lemma LastPage(data: seq<Row>, limit: nat, b: nat)
    requires b < |data| <= b + limit
    ensures NextMarker(data, b, limit) == "" && data[..b] + PageAt(data, b, limit) == data
  {
  }

  lemma {:induction false} OnTrack(data: seq<Row>, limit: nat, k: nat)
    requires data != [] && limit > 0 && Markable(data, limit) && Bound(limit, k) < |data|
    ensures PageStart(data, limit, k) == Bound(limit, k)
    ensures Gathered(data, limit, k) == data[..Bound(limit, k)]
    decreases k
  {
    if k > 0 {
      OnTrack(data, limit, k - 1);
      assert PageMarks(data, limit, k);
      OnePageOn(data, limit, Bound(limit, k - 1));
    }
  }

  /** How many pages there are. */
  function Pages(total: nat, limit: nat, k: nat): (n: nat)
    requires limit > 0 && Bound(limit, k) < total
    ensures n > k && Bound(limit, n - 1) < total <= Bound(limit, n)
    decreases total - Bound(limit, k)
  {
    if Bound(limit, k + 1) >= total then k + 1 else Pages(total, limit, k + 1)
  }

  lemma NextOnTrack(data: seq<Row>, limit: nat, k: nat)
    requires data != [] && limit > 0 && Markable(data, limit) && Bound(limit, k + 1) < |data|
    ensures HasNext(data, limit, k)
  {
    OnTrack(data, limit, k);
    assert PageMarks(data, limit, k + 1);
    OnePageOn(data, limit, Bound(limit, k));
  }

  lemma {:induction false} OnTrackHasAll(data: seq<Row>, limit: nat, k: nat)
    requires data != [] && limit > 0 && Markable(data, limit) && Bound(limit, k) < |data|
    ensures AllHaveNext(data, limit, k)
    decreases k
  {
    if k > 0 {
      NextOnTrack(data, limit, k - 1);
      OnTrackHasAll(data, limit, k - 1);
    }
  }

  lemma OnTrackToTheEnd(data: seq<Row>, limit: nat, k: nat)
    requires data != [] && limit > 0 && Markable(data, limit) && Bound(limit, k) < |data| <= Bound(limit, k + 1)
    ensures !HasNext(data, limit, k) && PageStart(data, limit, k) + limit >= |data|
    ensures Gathered(data, limit, k + 1) == data
  {
    OnTrack(data, limit, k);
    LastPage(data, limit, Bound(limit, k));
  }

  lemma WalkIsComplete(data: seq<Row>, limit: nat)
    requires data != [] && limit > 0 && Markable(data, limit)
    ensures Complete(data, limit, Pages(|data|, limit, 0))
  {
    var n := Pages(|data|, limit, 0);
    OnTrackHasAll(data, limit, n - 1);
    OnTrackToTheEnd(data, limit, n - 1);
  }

  lemma OneStepOn(data: seq<Row>, limit: nat, k: nat)
    requires data != [] && limit > 0 && k > 0 && HasNext(data, limit, k - 1)
    ensures PageStart(data, limit, k - 1) + limit < |data|
    ensures PageStart(data, limit, k) <= PageStart(data, limit, k - 1) + limit
  {
    MarkerFinds(data, PageStart(data, limit, k - 1) + limit);
  }

  /** No page begins later than it should. */
  lemma {:induction false} NeverAhead(data: seq<Row>, limit: nat, k: nat)
    requires data != [] && limit > 0
    requires AllHaveNext(data, limit, k)
    ensures PageStart(data, limit, k) <= Bound(limit, k)
    decreases k
  {
    if k > 0 {
      NeverAhead(data, limit, k - 1);
      OneStepOn(data, limit, k);
    }
  }

  /** While there is a next page the pages are full. */
  lemma {:induction false} FullPages(data: seq<Row>, limit: nat, k: nat)
    requires data != [] && limit > 0
    requires AllHaveNext(data, limit, k)
    ensures |Gathered(data, limit, k)| == Bound(limit, k)
    decreases k
  {
    if k > 0 {
      FullPages(data, limit, k - 1);
      OneStepOn(data, limit, k);
    }
  }

  lemma OneStepBack(data: seq<Row>, limit: nat, k: nat)
    requires data != [] && limit > 0 && k > 0 && HasNext(data, limit, k - 1)
    requires PageStart(data, limit, k - 1) <= Bound(limit, k - 1)
    requires PageStart(data, limit, k) == Bound(limit, k)
    ensures PageStart(data, limit, k - 1) == Bound(limit, k - 1) && Marks(data, Bound(limit, k))
  {
    MarkerFinds(data, PageStart(data, limit, k - 1) + limit);
  }

  /** A walk that is where it should be at page k was so at every page before. */
  lemma {:induction false} NeverBehind(data: seq<Row>, limit: nat, k: nat, j: nat)
    requires data != [] && limit > 0 && 0 < j <= k && AllHaveNext(data, limit, k)
    requires PageStart(data, limit, k) == Bound(limit, k)
    ensures Marks(data, Bound(limit, j))
    decreases k
  {
    NeverAhead(data, limit, k - 1);
    OneStepBack(data, limit, k);
    if j < k { NeverBehind(data, limit, k - 1, j); }
  }

  /** Pages that add up to the list do not overlap. */
  lemma EndsOnTrack(data: seq<Row>, limit: nat, n: nat)
    requires data != [] && limit > 0 && Complete(data, limit, n)
    ensures PageStart(data, limit, n - 1) == Bound(limit, n - 1) && |data| <= Bound(limit, n)
  {
    NeverAhead(data, limit, n - 1);
    FullPages(data, limit, n - 1);
  }

  lemma CompleteIsMarkable(data: seq<Row>, limit: nat, n: nat)
    requires data != [] && limit > 0 && Complete(data, limit, n)
    ensures Markable(data, limit)
  {
    EndsOnTrack(data, limit, n);
    forall k: nat | k > 0
      ensures PageMarks(data, limit, k)
    {
      if k < n { NeverBehind(data, limit, n - 1, k); }
      else if k > n { BoundGrows(limit, n, k); }
    }
  }

  /**
   Following the next markers shows the whole list, each row once, and stops, exactly when every row
   that begins a page has an ID that no earlier row has.
   */
  lemma PagesCoverTheList(data: seq<Row>, limit: nat)
    requires data != [] && limit > 0
    ensures (exists n :: Complete(data, limit, n)) <==> Markable(data, limit)
  {
    if n :| Complete(data, limit, n) {
      CompleteIsMarkable(data, limit, n);
    } else if Markable(data, limit) {
      WalkIsComplete(data, limit);
      assert false;
    }
  }

  /** With distinct IDs every limit does. */
  lemma DistinctIsMarkable(data: seq<Row>, limit: nat)
    requires forall i :: 0 <= i < |data| ==> data[i].id != ""
    requires forall i, j :: 0 <= i < j < |data| ==> data[i].id != data[j].id
    ensures Markable(data, limit)
  {
    forall k: nat | k > 0
      ensures PageMarks(data, limit, k)
    {
    }
  }

  /** A limit of zero shows nothing and offers nothing. */
  lemma ZeroShowsNothing(data: seq<Row>, n: nat)
    requires data != []
    ensures !Complete(data, 0, n)
  {
    NothingGathered(data, n);
  }

  lemma {:induction false} NothingGathered(data: seq<Row>, n: nat)
    requires data != []
    ensures Gathered(data, 0, n) == []
  {
    if n > 0 { NothingGathered(data, n - 1); }
  }

  /** The last marker leads to the page that ends the list, which has no next page. */
  lemma LastLeadsToTheEnd(data: seq<Row>, limit: nat, was: string)
    requires 0 < limit < |data| && Marks(data, |data| - limit)
    ensures var s := Start(data, LastMarker(data, limit, was));
            PageAt(data, s, limit) == data[|data| - limit..] && NextMarker(data, s, limit) == ""
  {
    MarkerFinds(data, |data| - limit);
  }

  /** The previous marker leads one page back; the next marker of that page leads here again exactly when
      a whole page lies before, or the row there happens to have this row's ID. */
  lemma PreviousLeadsBack(data: seq<Row>, s: nat, limit: nat)
    requires 0 < s < |data| && limit > 0
    requires Marks(data, s) && (s > limit ==> Marks(data, s - limit))
    ensures var p := Start(data, PreviousMarker(data, s, limit));
            && p == Max(s - limit, 0)
            && (Start(data, NextMarker(data, p, limit)) == s <==>
                s >= limit || (limit < |data| && data[limit].id == data[s].id))
  {
    var p := Max(s - limit, 0);
    if p > 0 { MarkerFinds(data, p); }
    MarkerFinds(data, s);
    if s < limit < |data| {
      var r := Start(data, data[limit].id);
      MarkerFinds(data, limit);
      assert r == s ==> data[r].id == data[limit].id;
    }
  }
}
