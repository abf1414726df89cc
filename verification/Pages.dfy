// Reading a list page by page, one after another or several at once (readPages
// in internal/forge/forge.go). The host does not change while it is read.
module Pages {
  import opened Basics

  /** One page: its items and the last page, -1 for an unnamed later page, 0 for none. */
  datatype Answer<T> = Page(items: seq<T>, last: int) | Broken(error: string)

  datatype Listed<T> = Listed(items: seq<T>, more: bool) | Stopped(error: string)

  type Host<!T> = int -> Answer<T>

  // --- the reference: pages k to n, one by one

  function OneByOne<T>(read: Host<T>, k: int, n: int): Listed<T>
    decreases n + 1 - k
  {
    if k > n then Listed([], false)
    else match read(k)
      case Broken(e) => Stopped(e)
      case Page(items, _) => Before(items, OneByOne(read, k + 1, n))
  }

  function Before<T>(items: seq<T>, rest: Listed<T>): Listed<T> {
    match rest
    case Stopped(e) => Stopped(e)
    case Listed(more, _) => Listed(items + more, false)
  }

  /** The last page that is asked for when one is asked for after another. */
  function LastAsked<T>(read: Host<T>, last: int, page: int, limit: int): int
    decreases limit + 1 - page
  {
    if last >= 0 || page > limit then page - 1
    else match read(page)
      case Broken(_) => page
      case Page(_, next) => LastAsked(read, next, page + 1, limit)
  }

  /** The last page that is asked for: the one the host names, or the one it stops at, and none over the limit. */
  function PagesAsked<T>(read: Host<T>, limit: int): int {
    match read(1)
    case Broken(_) => 1
    case Page(_, last) => if last > 1 then Min(last, limit) else LastAsked(read, last, 2, limit)
  }

  function Min(a: int, b: int): int {
    if a < b then a else b
  }

  /** The pages from 2 to n, in the order in which their readers are done. */
  ghost predicate Order(order: seq<int>, n: int) {
    && (forall p :: 2 <= p <= n ==> p in order)
    && (forall k :: 0 <= k < |order| ==> 2 <= order[k] <= n)
  }

  /**
   * The list, or the error of the first page that fails, is that of reading page
   * after page, in whatever order the readers of the other pages are done.
   */
  method ReadPages<T>(size: nat, most: nat, all: bool, read: Host<T>, order: seq<int>) returns (r: Listed<T>)
    requires 0 < size <= most
    requires Order(order, PagesAsked(read, most / size))
    ensures all ==> r == OneByOne(read, 1, PagesAsked(read, most / size))
    ensures !all ==> match read(1)
      case Broken(e) => r == Stopped(e)
      case Page(items, last) => r == Listed(items, last != 0)
  {
    var first := read(1);
    if first.Broken? { return Stopped(first.error); }
    if !all { return Listed(first.items, first.last != 0); }
    var limit := most / size;
    AsksSome(read, limit);
    OneMore(read, 1, PagesAsked(read, limit));
    if first.last > 1 {
      r := Parallel(read, first.items, Min(first.last, limit), order);
    } else {
      r := OneAfterAnother(read, first.items, first.last, limit);
    }
  }

  lemma OneMore<T>(read: Host<T>, k: int, n: int)
    requires k <= n && read(k).Page?
    ensures OneByOne(read, k, n) == Before(read(k).items, OneByOne(read, k + 1, n))
  {
  }

  /** What is in the two slices before, or after, a page is read. */
  ghost predicate Filled<T>(read: Host<T>, items: seq<T>, error: Option<string>, p: int, done: bool) {
    if !done then items == [] && error == None
    else match read(p)
      case Broken(e) => error == Some(e)
      case Page(found, _) => items == found && error == None
  }

  method Parallel<T>(read: Host<T>, first: seq<T>, n: int, order: seq<int>) returns (r: Listed<T>)
    requires n >= 1 && Order(order, n)
    ensures r == Before(first, OneByOne(read, 2, n))
  {
    var pages := new seq<T>[n + 1](_ => []);
    var errs := new Option<string>[n + 1](_ => None);
    for k := 0 to |order|
      invariant forall p :: 2 <= p <= n ==> Filled(read, pages[p], errs[p], p, p in order[..k])
    {
      var page := order[k];
      assert order[..k + 1] == order[..k] + [page];
      match read(page)
      case Broken(e) => pages[page], errs[page] := [], Some(e);
      case Page(found, _) => pages[page], errs[page] := found, None;
    }
    assert order[..|order|] == order;
    forall p | 2 <= p <= n ensures Filled(read, pages[p], errs[p], p, true) { assert p in order; }
    r := Collect(read, first, n, pages, errs);
  }

  /** The first error in the slices, else the pages in their order. */
  method Collect<T>(ghost read: Host<T>, first: seq<T>, n: int, pages: array<seq<T>>, errs: array<Option<string>>)
    returns (r: Listed<T>)
    requires n >= 1 && pages.Length == errs.Length == n + 1
    requires forall p :: 2 <= p <= n ==> Filled(read, pages[p], errs[p], p, true)
    ensures r == Before(first, OneByOne(read, 2, n))
  {
    for p := 2 to n + 1
      invariant forall q :: 2 <= q < p ==> read(q).Page?
    {
      if errs[p].Some? {
        FailsAt(read, 2, p, n);
        return Stopped(errs[p].value);
      }
    }
    var items := first;
    ghost var goal := Before(first, OneByOne(read, 2, n));
    for p := 2 to n + 1
      invariant Before(items, OneByOne(read, p, n)) == goal
    {
      OneMore(read, p, n);
      BeforeTwice(items, pages[p], OneByOne(read, p + 1, n));
      items := items + pages[p];
    }
    assert items + [] == items;
    return Listed(items, false);
  }

  lemma BeforeTwice<T>(a: seq<T>, b: seq<T>, rest: Listed<T>)
    ensures Before(a, Before(b, rest)) == Before(a + b, rest)
  {
    if rest.Listed? { assert a + (b + rest.items) == (a + b) + rest.items; }
  }

  /** The error is that of the first page that fails. */
  lemma {:induction false} FailsAt<T>(read: Host<T>, k: int, p: int, n: int)
    requires k <= p <= n && read(p).Broken? && forall q :: k <= q < p ==> read(q).Page?
    ensures OneByOne(read, k, n) == Stopped(read(p).error)
    decreases p - k
  {
    if k < p { FailsAt(read, k + 1, p, n); }
  }

  method OneAfterAnother<T>(read: Host<T>, first: seq<T>, named: int, limit: int) returns (r: Listed<T>)
    ensures r == Before(first, OneByOne(read, 2, LastAsked(read, named, 2, limit)))
  {
    var items, last, page := first, named, 2;
    ghost var n := LastAsked(read, named, 2, limit);
    ghost var goal := Before(first, OneByOne(read, 2, n));
    while last < 0 && page <= limit
      invariant LastAsked(read, last, page, limit) == n
      invariant Before(items, OneByOne(read, page, n)) == goal
      decreases limit - page
    {
      AsksOn(read, last, page, limit);
      match read(page) {
        case Broken(e) =>
          return Stopped(e);
        case Page(found, next) =>
          BeforeTwice(items, found, OneByOne(read, page + 1, n));
          items, last, page := items + found, next, page + 1;
      }
    }
    assert items + [] == items;
    return Listed(items, false);
  }

  lemma {:induction false} AsksOn<T>(read: Host<T>, last: int, page: int, limit: int)
    requires last < 0 && page <= limit
    ensures page <= LastAsked(read, last, page, limit) <= limit
    decreases limit - page
  {
    if read(page).Page? && read(page).last < 0 && page < limit { AsksOn(read, read(page).last, page + 1, limit); }
  }

  lemma AsksSome<T>(read: Host<T>, limit: int)
    requires limit >= 1
    ensures 1 <= PagesAsked(read, limit) <= limit
  {
    if read(1).Page? && read(1).last < 0 && limit >= 2 { AsksOn(read, read(1).last, 2, limit); }
  }

  // --- what is read of a list

  lemma {:induction false} AtMost<T>(read: Host<T>, k: int, n: int, size: nat)
    requires k <= n + 1 && OneByOne(read, k, n).Listed?
    requires forall p :: k <= p <= n && read(p).Page? ==> |read(p).items| <= size
    ensures |OneByOne(read, k, n).items| <= (n + 1 - k) * size
    decreases n - k
  {
    if k <= n {
      AtMost(read, k + 1, n, size);
      assert (n - k) * size + size == (n + 1 - k) * size;
    }
  }

  /** No more than the limit is read when no page holds more than it was asked for. */
  lemma Bounded<T>(read: Host<T>, size: nat, most: nat)
    requires 0 < size <= most && OneByOne(read, 1, PagesAsked(read, most / size)).Listed?
    requires forall p :: read(p).Page? ==> |read(p).items| <= size
    ensures |OneByOne(read, 1, PagesAsked(read, most / size)).items| <= most
  {
    var limit := most / size;
    var n := PagesAsked(read, limit);
    AsksSome(read, limit);
    AtMost(read, 1, n, size);
    assert n * size <= limit * size <= most by { Grows(n, limit, size); }
  }

  lemma Grows(n: int, limit: int, size: nat)
    requires n <= limit
    ensures n * size <= limit * size
  {
  }

  /** A host with a list of `total` pages: each page but the last names it, or says that there is a next one. */
  ghost predicate Truthful<T>(read: Host<T>, total: int) {
    && total >= 1
    && (forall p :: 1 <= p <= total && read(p).Page? ==> (read(p).last == 0 <==> p == total))
    && (forall p :: 1 <= p < total && read(p).Page? ==> read(p).last == -1 || read(p).last == total)
  }

  /** The first page does not name the last one, and a later page that is read before it does. */
  ghost predicate NamedLate<T>(read: Host<T>, total: int, limit: int) {
    read(1).Page? && read(1).last == -1
    && exists p :: 2 <= p < total && p < limit && read(p).Page? && read(p).last == total
  }

  lemma {:induction false} ReadsOn<T>(read: Host<T>, last: int, page: int, total: int, limit: int)
    requires Truthful(read, total) && 2 <= page <= total + 1
    requires forall p :: 1 <= p <= total ==> read(p).Page?
    requires last == if page > total then 0 else -1
    requires page <= limit + 1
    ensures LastAsked(read, last, page, limit) == Min(total, limit)
      <==> forall p :: page <= p < Min(total, limit) ==> read(p).last != total
    decreases limit - page
  {
    if page <= limit && page <= total {
      var next := read(page).last;
      if next == -1 {
        ReadsOn(read, next, page + 1, total, limit);
      } else if page == total {
        assert next == 0;
      } else {
        assert next == total && LastAsked(read, next, page + 1, limit) == page;
      }
    }
  }

  /** All pages up to the limit are read exactly when the host does not name the last page late. */
  lemma WholeList<T>(read: Host<T>, total: int, limit: int)
    requires Truthful(read, total) && limit >= 1 && forall p :: 1 <= p <= total ==> read(p).Page?
    ensures PagesAsked(read, limit) == (if total < limit then total else limit) <==> !NamedLate(read, total, limit)
  {
    var last := read(1).last;
    if last == -1 { ReadsOn(read, last, 2, total, limit); }
  }

  /** Four pages of one item, of which the first does not name the last one and the second does. */
  function FourPages(page: int): Answer<int> {
    Page([page], if page == 4 then 0 else if page == 1 then -1 else 4)
  }

  /** Half of the list is read, without an error. */
  lemma ListCut(limit: int)
    requires limit >= 4
    ensures Truthful(FourPages, 4) && PagesAsked(FourPages, limit) == 2
    ensures OneByOne(FourPages, 1, PagesAsked(FourPages, limit)) == Listed([1, 2], false)
  {
    var read: Host<int> := FourPages;
    assert read(1) == Page([1], -1) && read(2) == Page([2], 4);
    assert LastAsked(read, 4, 3, limit) == 2 && LastAsked(read, -1, 2, limit) == 2;
    OneMore(read, 1, 2);
    OneMore(read, 2, 2);
    assert PagesAsked(read, limit) == 2;
  }
}
