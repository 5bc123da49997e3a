/** The listing query `Event.find().sort({ date: 1 }).skip(skip).limit(limit)` with its
    `countDocuments()`, and the page arithmetic both listing handlers do around it. */
module Pagination {
  import opened Common
  import opened EventSchema
  import opened EventStore

  /** `parseInt(req.query.page)` and `parseInt(req.query.limit)`: a number, or `None` for `NaN`
      (the parameter is missing or does not start with digits). */
  datatype Query = Query(page: Option<int>, limit: Option<int>)

  /** The queries this model covers: no negative page or limit, which the handlers would pass
      on unclamped to the database. */
  predicate NonNegative(q: Query) {
    && (q.page.None? || q.page.value >= 0)
    && (q.limit.None? || q.limit.value >= 0)
  }

  /** `parseInt(x) || fallback`: `NaN` and `0` are falsy and give way to the fallback. */
  function OrElse(v: Option<int>, fallback: int): (r: int)
    ensures v.Some? && v.value != 0 ==> r == v.value
    ensures v.None? || v.value == 0 ==> r == fallback
  {
    match v
    case Some(n) => if n != 0 then n else fallback
    case None => fallback
  }

  /** `(page - 1) * limit`: how many records the pages before `page` hold. */
  function Skip(page: int, limit: int): (s: nat)
    requires page >= 1 && limit >= 1
  {
    MulMonotone(0, page - 1, limit);
    (page - 1) * limit
  }

  function Min(a: int, b: int): int {
    if a <= b then a else b
  }

  /** `n` pages of `limit` hold `total` records, and `n - 1` pages would not. */
  predicate FewestPages(n: nat, total: nat, limit: nat) {
    n * limit >= total && (n == 0 || (n - 1) * limit < total)
  }

  /** `Math.ceil(total / limit)` for a positive limit: the fewest pages of `limit` that hold `total`. */
  function CeilDiv(total: nat, limit: nat): (n: nat)
    requires limit > 0
    ensures FewestPages(n, total, limit)
  {
    var n := (total + limit - 1) / limit;
    assert n * limit + (total + limit - 1) % limit == total + limit - 1;
    n
  }

  /** One listed record with its identifier. */
  datatype Entry = Entry(id: EventId, event: Event)

  /** Every identifier of `t` is below `bound`. */
  predicate Bounded(t: Table, bound: nat) {
    forall id :: id in t ==> id < bound
  }

  function KeysBelow(t: Table, n: nat): set<EventId> {
    set id | id in t && id < n
  }

  /** The records of `t` with identifiers below `n`, in identifier (insertion) order. */
  function EntriesBelow(t: Table, n: nat): (es: seq<Entry>)
    ensures forall i :: 0 <= i < |es| ==> es[i].id < n && es[i].id in t && t[es[i].id] == es[i].event
    ensures forall id :: id in t && id < n ==> Entry(id, t[id]) in es
  {
    if n == 0 then []
    else
      var prev := EntriesBelow(t, n - 1);
      var es := prev + (if n - 1 in t then [Entry(n - 1, t[n - 1])] else []);
      assert forall i :: 0 <= i < |prev| ==> es[i] == prev[i];
      assert forall x :: x in prev ==> x in es;
      es
  }

  /** There is one entry per identifier below `n`. */
  lemma {:induction false} EntriesBelowCount(t: Table, n: nat)
    ensures |EntriesBelow(t, n)| == |KeysBelow(t, n)|
  {
    if n > 0 {
      EntriesBelowCount(t, n - 1);
      var prev := KeysBelow(t, n - 1);
      if n - 1 in t {
        assert KeysBelow(t, n) == prev + {n - 1};
        assert n - 1 !in prev;
        assert |EntriesBelow(t, n)| == |EntriesBelow(t, n - 1)| + 1;
      } else {
        assert KeysBelow(t, n) == prev;
        assert |EntriesBelow(t, n)| == |EntriesBelow(t, n - 1)|;
      }
    }
  }

  /** Non-decreasing by date: the order `sort({ date: 1 })` returns. */
  predicate DateOrdered(es: seq<Entry>) {
    forall i, j :: 0 <= i < j < |es| ==> es[i].event.date <= es[j].event.date
  }

  /** An entry dated no later than the first of a date-ordered sequence can go in front of it. */
  lemma ConsDateOrdered(y: Entry, rest: seq<Entry>)
    requires DateOrdered(rest) && (rest == [] || y.event.date <= rest[0].event.date)
    ensures DateOrdered([y] + rest)
  {
    var r := [y] + rest;
    forall i, j | 0 <= i < j < |r| ensures r[i].event.date <= r[j].event.date {
      assert r[j] == rest[j - 1];
      if i > 0 {
        assert r[i] == rest[i - 1];
      } else if j > 1 {
        assert rest[0].event.date <= rest[j - 1].event.date;
      }
    }
  }

  /** Puts `x` after every entry of `es` dated no later than it. */
  function InsertByDate(x: Entry, es: seq<Entry>): (r: seq<Entry>)
    requires DateOrdered(es)
    ensures DateOrdered(r)
    ensures multiset(r) == multiset(es) + multiset{x}
    ensures r[0] == x || (es != [] && r[0] == es[0])
  {
    if es == [] || x.event.date < es[0].event.date then
      ConsDateOrdered(x, es);
      [x] + es
    else
      var rest := InsertByDate(x, es[1..]);
      assert es == [es[0]] + es[1..];
      ConsDateOrdered(es[0], rest);
      [es[0]] + rest
  }

  /** Insertion sort by date; entries with equal dates keep their relative order. */
  function SortByDate(es: seq<Entry>): (r: seq<Entry>)
    ensures DateOrdered(r)
    ensures multiset(r) == multiset(es)
  {
    if es == [] then []
    else
      var n := |es| - 1;
      assert es == es[..n] + [es[n]];
      InsertByDate(es[n], SortByDate(es[..n]))
  }

  /** All records of the collection, in the order the listing query returns them. */
  function ByDate(t: Table, bound: nat): (r: seq<Entry>)
    requires Bounded(t, bound)
    ensures |r| == |t|
    ensures DateOrdered(r)
  {
    var es := EntriesBelow(t, bound);
    var r := SortByDate(es);
    EntriesBelowCount(t, bound);
    assert KeysBelow(t, bound) == t.Keys;
    assert |r| == |multiset(r)| == |es|;
    r
  }

  /** The date order lists exactly the stored records, each with its own identifier. */
  lemma ByDateHoldsTable(t: Table, bound: nat)
    requires Bounded(t, bound)
    ensures forall e :: e in ByDate(t, bound) <==> e.id in t && t[e.id] == e.event
  {
    var es := EntriesBelow(t, bound);
    var r := ByDate(t, bound);
    forall e ensures e in r <==> e in es {
      assert e in r <==> e in multiset(r);
      assert e in es <==> e in multiset(es);
    }
  }

  /** `page` is what `.skip(skip).limit(limit)` returns from `sorted`: at most `limit`
      entries, the ones at positions `skip` onwards, as many as there are up to `limit`. */
  predicate IsPage(page: seq<Entry>, sorted: seq<Entry>, skip: nat, limit: nat) {
    && |page| == (if skip < |sorted| then Min(limit, |sorted| - skip) else 0)
    && forall k :: 0 <= k < |page| ==> skip + k < |sorted| && page[k] == sorted[skip + k]
  }

  function PageOf(sorted: seq<Entry>, skip: nat, limit: nat): (page: seq<Entry>)
    requires limit > 0
    ensures IsPage(page, sorted, skip, limit)
  {
    if skip < |sorted| then sorted[skip..Min(skip + limit, |sorted|)] else []
  }

  /** A date-ordered sequence stays date-ordered in every slice of it. */
  lemma PageDateOrdered(sorted: seq<Entry>, skip: nat, limit: nat)
    requires limit > 0 && DateOrdered(sorted)
    ensures DateOrdered(PageOf(sorted, skip, limit))
  {
    var page := PageOf(sorted, skip, limit);
    forall i, j | 0 <= i < j < |page| ensures page[i].event.date <= page[j].event.date {
      assert page[i] == sorted[skip + i] && page[j] == sorted[skip + j];
    }
  }

  /** Every entry lies on exactly the page the arithmetic predicts: entry `i` is at position
      `i % limit` of page `i / limit + 1`, and that page is no later than the last page. */
  lemma PageHolds(sorted: seq<Entry>, limit: nat, i: nat)
    requires limit > 0 && i < |sorted|
    ensures var p := i / limit + 1;
      && 1 <= p <= CeilDiv(|sorted|, limit)
      && i % limit < |PageOf(sorted, Skip(p, limit), limit)|
      && PageOf(sorted, Skip(p, limit), limit)[i % limit] == sorted[i]
  {
    var p := i / limit + 1;
    var n := CeilDiv(|sorted|, limit);
    assert (p - 1) * limit + i % limit == i;
    if n < p {
      MulMonotone(n, p - 1, limit);
    }
  }

  lemma MulMonotone(a: nat, b: nat, c: nat)
    requires a <= b
    ensures a * c <= b * c
  {
  }

  /** Pages after the last one are empty. */
  lemma PastLastPageEmpty(sorted: seq<Entry>, limit: nat, p: int)
    requires limit > 0 && p > CeilDiv(|sorted|, limit)
    ensures PageOf(sorted, Skip(p, limit), limit) == []
  {
    var n := CeilDiv(|sorted|, limit);
    MulMonotone(n, p - 1, limit);
  }

  /** The JSON the listing handlers send: the page of events, the page number as requested,
      the number of pages and the number of records. */
  datatype Listing = Listing(events: seq<Entry>, currentPage: int, totalPages: int, totalEvents: int)
}
