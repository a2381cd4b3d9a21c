/** The paging loop of the Srovname adapter (integrations/stores/srovname_api.py): pages are asked
    for one after the other until one is short, empty or known to be the last. */
module Paging {
  import opened Prelude

  // A decoded answer: the products of the page, and the total when the server reports one.
  datatype Page<T> = Page(products: seq<T>, total: Option<int>)

  // What the server answers to each page number at the page size asked for.
  type Server<!T> = int -> Page<T>

  predicate IsLastPage(total: Option<int>, page: int, size: int) {
    total.Some? && page * size >= total.value
  }

  predicate Stops<T>(answer: Page<T>, page: int, size: int) {
    answer.products == [] || |answer.products| < size || IsLastPage(answer.total, page, size)
  }

  function Stopping<T(!new)>(size: int): (Page<T>, int) -> bool {
    (answer: Page<T>, page: int) => Stops(answer, page, size)
  }

  // The answers received from a page on, with at most `cap` requests.
  function AnswersUntil<T>(server: Server<T>, stops: (Page<T>, int) -> bool, page: int, cap: int): seq<Page<T>>
    decreases cap
  {
    if cap <= 0 then []
    else if stops(server(page), page) then [server(page)]
    else [server(page)] + AnswersUntil(server, stops, page + 1, cap - 1)
  }

  function Answers<T(!new)>(server: Server<T>, page: int, size: int, cap: int): seq<Page<T>> {
    AnswersUntil(server, Stopping(size), page, cap)
  }

  function Joined<T>(answers: seq<Page<T>>): seq<T> {
    if answers == [] then [] else answers[0].products + Joined(answers[1..])
  }

  lemma {:induction false} JoinedLast<T>(answers: seq<Page<T>>, last: Page<T>)
    ensures Joined(answers + [last]) == Joined(answers) + last.products
  {
    if answers == [] {
      assert [last][1..] == [] && last.products + [] == last.products;
    } else {
      JoinedLast(answers[1..], last);
      assert (answers + [last])[1..] == answers[1..] + [last];
    }
  }

  method FetchRecords<T(==,!new)>(server: Server<T>, start: int, size: int, maxPages: int)
    returns (records: seq<T>, ghost answers: seq<Page<T>>)
    ensures records == Joined(Answers(server, start, size, maxPages))
    ensures answers == Answers(server, start, size, maxPages)
  {
    records, answers := [], [];
    var page, i := start, 0;
    while i < maxPages
      invariant 0 <= i && (i <= maxPages || i == 0)
      invariant page == start + i
      invariant records == Joined(answers)
      invariant Answers(server, start, size, maxPages) == answers + Answers(server, page, size, maxPages - i)
    {
      var answer := server(page);
      ghost var before := answers;
      JoinedLast(before, answer);
      answers := answers + [answer];
      if answer.products == [] {
        assert records == Joined(answers) by { assert records + [] == records; }
        break;
      }
      records := records + answer.products;
      if |answer.products| < size || IsLastPage(answer.total, page, size) {
        break;
      }
      ConcatAssociative(before, [answer], Answers(server, page + 1, size, maxPages - i - 1));
      page, i := page + 1, i + 1;
    }
    assert answers == Answers(server, start, size, maxPages);
  }

  // ---- a faithful server ----

  function Least(a: int, b: int): int { if a <= b then a else b }

  function Greatest(a: int, b: int): int { if a >= b then a else b }

  function First<T>(s: seq<T>, n: int): seq<T>
    requires n >= 0
  {
    s[..Least(|s|, n)]
  }

  function Drop<T>(s: seq<T>, n: int): seq<T>
    requires n >= 0
  {
    s[Least(|s|, n)..]
  }

  // The items from a page on, pages being counted from 1: one page is dropped for each before it.
  function From<T>(items: seq<T>, page: int, size: int): seq<T>
    requires size >= 1
  {
    if page <= 1 then items else Drop(From(items, page - 1, size), size)
  }

  // What that many pages hold.
  function Room(cap: nat, size: nat): nat { if cap == 0 then 0 else Room(cap - 1, size) + size }

  lemma {:induction false} RoomIsProduct(cap: nat, size: nat)
    ensures Room(cap, size) == cap * size
  {
    if cap > 0 {
      RoomIsProduct(cap - 1, size);
      assert cap * size == (cap - 1) * size + size;
    } else {
      assert cap * size == 0;
    }
  }

  lemma {:induction false} FromLength<T>(items: seq<T>, page: int, size: int)
    requires size >= 1 && page >= 1
    ensures |From(items, page, size)| == Greatest(0, |items| - Room(page - 1, size))
  {
    if page > 1 {
      FromLength(items, page - 1, size);
    }
  }

  function Faithful<T>(items: seq<T>, size: int, reports: bool): Server<T>
    requires size >= 1
  {
    (page: int) => Page(First(From(items, page, size), size), if reports then Some(|items|) else None)
  }

  // The server's total is reached exactly when at most one page of items remains.
  lemma LastPageIff<T>(items: seq<T>, page: int, size: int)
    requires size >= 1 && page >= 1
    ensures IsLastPage(Some(|items|), page, size) <==> |From(items, page, size)| <= size
  {
    FromLength(items, page, size);
    RoomIsProduct(page, size);
  }

  lemma QuotientStep(n: nat, d: nat)
    requires d >= 1
    ensures n >= d ==> n / d == (n - d) / d + 1
    ensures n < d ==> n / d == 0
  {
    if n >= d {
      var q := (n - d) / d;
      assert d * q <= n - d < d * (q + 1);
      assert d * (q + 1) == d * q + d && d * (q + 2) == d * (q + 1) + d;
      QuotientIs(n, d, q + 1);
    } else {
      QuotientIs(n, d, 0);
    }
  }

  // The pages a list of n items fills: ceil(n / size).
  function PagesOf(n: nat, size: nat): nat
    requires size >= 1
  {
    (n + size - 1) / size
  }

  predicate Ends(left: nat, size: nat, reports: bool) { left < size || (reports && left == size) }

  // Requests made when `left` items remain to be read: ceil(left / size), but at least one, when
  // the server reports its total, and left / size + 1 when it does not; never more than allowed.
  function RequestsFor(left: nat, size: nat, cap: nat, reports: bool): int
    requires size >= 1
  {
    if cap == 0 then 0
    else Least(cap, if reports then Greatest(1, PagesOf(left, size)) else left / size + 1)
  }

  // The same, counted page by page.
  function Requests(left: nat, size: nat, cap: nat, reports: bool): nat
    decreases cap
  {
    if cap == 0 then 0
    else if Ends(left, size, reports) then 1
    else 1 + Requests(left - size, size, cap - 1, reports)
  }

  lemma PagesStep(n: nat, size: nat)
    requires size >= 1
    ensures n <= size ==> PagesOf(n, size) <= 1
    ensures n > size ==> PagesOf(n, size) == PagesOf(n - size, size) + 1 && PagesOf(n - size, size) >= 1
  {
    QuotientStep(n + size - 1, size);
    if n > size {
      QuotientStep(n - 1, size);
    } else if n >= 1 {
      QuotientStep(n - 1, size);
    }
  }

  lemma {:induction false} RequestsCounted(left: nat, size: nat, cap: nat, reports: bool)
    requires size >= 1
    ensures Requests(left, size, cap, reports) == RequestsFor(left, size, cap, reports)
    decreases cap
  {
    if cap > 0 {
      if reports {
        PagesStep(left, size);
      } else {
        QuotientStep(left, size);
      }
      if !Ends(left, size, reports) {
        RequestsCounted(left - size, size, cap - 1, reports);
      }
    }
  }

  lemma FirstOfAll<T>(rest: seq<T>, n: nat)
    requires |rest| <= n
    ensures First(rest, n) == rest
  {}

  lemma FirstSplit<T>(rest: seq<T>, size: nat, room: nat)
    requires |rest| >= size
    ensures First(rest, room + size) == First(rest, size) + First(Drop(rest, size), room)
  {}

  lemma JoinedOne<T>(answer: Page<T>)
    ensures Joined([answer]) == answer.products
  {
    assert [answer][1..] == [] && answer.products + [] == answer.products;
  }

  lemma JoinedCons<T>(answer: Page<T>, later: seq<Page<T>>)
    ensures Joined([answer] + later) == answer.products + Joined(later)
  {
    assert ([answer] + later)[1..] == later;
  }

  lemma StopsAtTheEnd<T>(items: seq<T>, page: int, size: nat, reports: bool)
    requires page >= 1 && size >= 1
    ensures Stops(Faithful(items, size, reports)(page), page, size)
      <==> Ends(|From(items, page, size)|, size, reports)
  {
    LastPageIff(items, page, size);
  }

  // The server and the stopping rule, seen through the items that remain at each page.
  ghost predicate ServesPage<T(!new)>(
    rest: int -> seq<T>, size: nat, reports: bool, server: Server<T>, stops: (Page<T>, int) -> bool, page: int)
  {
    && server(page).products == First(rest(page), size)
    && stops(server(page), page) == Ends(|rest(page)|, size, reports)
    && rest(page + 1) == Drop(rest(page), size)
  }

  ghost predicate Serves<T(!new)>(
    rest: int -> seq<T>, size: nat, reports: bool, server: Server<T>, stops: (Page<T>, int) -> bool)
  {
    forall page: int | page >= 1 :: ServesPage(rest, size, reports, server, stops, page)
  }

  function Remaining<T>(items: seq<T>, size: nat): int -> seq<T>
    requires size >= 1
  {
    (page: int) => From(items, page, size)
  }

  lemma FaithfulPage<T>(items: seq<T>, size: nat, reports: bool, page: int)
    requires size >= 1 && page >= 1
    ensures Faithful(items, size, reports)(page).products == First(Remaining(items, size)(page), size)
  {}

  lemma PageDropped<T>(items: seq<T>, size: nat, page: int)
    requires size >= 1 && page >= 1
    ensures Remaining(items, size)(page + 1) == Drop(Remaining(items, size)(page), size)
  {}

  lemma FaithfulEnd<T(!new)>(items: seq<T>, size: nat, reports: bool, page: int)
    requires size >= 1 && page >= 1
    ensures Stopping(size)(Faithful(items, size, reports)(page), page)
      == Ends(|Remaining(items, size)(page)|, size, reports)
  {
    StopsAtTheEnd(items, page, size, reports);
  }

  lemma PageServed<T(!new)>(
    rest: int -> seq<T>, size: nat, reports: bool, server: Server<T>, stops: (Page<T>, int) -> bool, page: int)
    requires server(page).products == First(rest(page), size)
    requires stops(server(page), page) == Ends(|rest(page)|, size, reports)
    requires rest(page + 1) == Drop(rest(page), size)
    ensures ServesPage(rest, size, reports, server, stops, page)
  {}

  lemma FaithfulServes<T(!new)>(items: seq<T>, size: nat, reports: bool)
    requires size >= 1
    ensures Serves(Remaining(items, size), size, reports, Faithful(items, size, reports), Stopping(size))
  {
    forall page: int | page >= 1
      ensures ServesPage(Remaining(items, size), size, reports, Faithful(items, size, reports), Stopping(size), page)
    {
      FaithfulPage(items, size, reports, page);
      PageDropped(items, size, page);
      FaithfulEnd(items, size, reports, page);
      PageServed(Remaining(items, size), size, reports, Faithful(items, size, reports), Stopping(size), page);
    }
  }

  lemma {:induction false} ReadsInOrder<T(!new)>(
    rest: int -> seq<T>, size: nat, reports: bool, server: Server<T>, stops: (Page<T>, int) -> bool, page: int, cap: nat)
    requires size >= 1 && page >= 1 && Serves(rest, size, reports, server, stops)
    ensures Joined(AnswersUntil(server, stops, page, cap)) == First(rest(page), Room(cap, size))
    ensures |AnswersUntil(server, stops, page, cap)| == Requests(|rest(page)|, size, cap, reports)
    decreases cap
  {
    if cap > 0 {
      var answer := server(page);
      assert ServesPage(rest, size, reports, server, stops, page);
      if stops(answer, page) {
        FirstOfAll(rest(page), size);
        FirstOfAll(rest(page), Room(cap, size));
        JoinedOne(answer);
      } else {
        ReadsInOrder(rest, size, reports, server, stops, page + 1, cap - 1);
        FirstSplit(rest(page), size, Room(cap - 1, size));
        JoinedCons(answer, AnswersUntil(server, stops, page + 1, cap - 1));
      }
    }
  }

  // Against a faithful server the loop reads exactly the next items in order, as many as the pages
  // allowed can hold, with the fewest requests the server's answers allow.
  lemma PagingIsExact<T(!new)>(items: seq<T>, start: int, size: nat, cap: nat, reports: bool)
    requires start >= 1 && size >= 1
    ensures Joined(Answers(Faithful(items, size, reports), start, size, cap))
      == First(From(items, start, size), Room(cap, size))
    ensures |Answers(Faithful(items, size, reports), start, size, cap)|
      == RequestsFor(|From(items, start, size)|, size, cap, reports)
  {
    FaithfulServes(items, size, reports);
    RequestsCounted(|From(items, start, size)|, size, cap, reports);
    ReadsInOrder(Remaining(items, size), size, reports, Faithful(items, size, reports), Stopping(size), start, cap);
  }

  // From the first page on: the first min(T, cap * size) of T items, and nothing is missed exactly
  // when the pages allowed can hold every item.
  lemma FirstPagesAreRead<T(!new)>(items: seq<T>, size: nat, cap: nat, reports: bool)
    requires size >= 1
    ensures cap * size >= 0
    ensures Joined(Answers(Faithful(items, size, reports), 1, size, cap)) == First(items, cap * size)
    ensures Joined(Answers(Faithful(items, size, reports), 1, size, cap)) == items <==> |items| <= cap * size
    ensures |Answers(Faithful(items, size, reports), 1, size, cap)| == RequestsFor(|items|, size, cap, reports)
  {
    PagingIsExact(items, 1, size, cap, reports);
    RoomIsProduct(cap, size);
    assert |First(items, Room(cap, size))| == Least(|items|, Room(cap, size));
  }

  // ---- a server with a page limit of its own ----

  // A server that cuts every page to its own limit, and pages by that limit.
  function Limited<T>(items: seq<T>, size: int, limit: int, reports: bool): Server<T>
    requires size >= 1 && limit >= 1
  {
    Faithful(items, Least(size, limit), reports)
  }

  // Every page such a server sends looks short when its limit is below the size asked for, so the
  // loop stops after one request, even when the reported total says that items remain.
  lemma LimitedServerIsReadIff<T(!new)>(items: seq<T>, size: nat, limit: nat, cap: nat, reports: bool)
    requires size >= 1 && limit >= 1 && cap >= 1
    ensures limit < size
      ==> |Answers(Limited(items, size, limit, reports), 1, size, cap)| == 1
    ensures Joined(Answers(Limited(items, size, limit, reports), 1, size, cap)) == items
      <==> |items| <= if limit < size then limit else cap * size
  {
    if limit < size {
      var server := Limited(items, size, limit, reports);
      assert server(1).products == First(items, limit);
      assert [server(1)][1..] == [] && server(1).products + [] == server(1).products;
      assert |First(items, limit)| == Least(|items|, limit);
    } else {
      FirstPagesAreRead(items, size, cap, reports);
    }
  }
}
