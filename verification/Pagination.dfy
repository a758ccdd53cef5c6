/** Reading a paginated order list from any server: bounded, never repeating a page token, exact when it returns. */
module Pagination {
  import opened Text

  /** A page, its next token absent when missing or not text; or a request that failed. */
  datatype Page<Order> = Page(orders: seq<Order>, next: Option<string>) | Failed

  datatype Result<Order> =
    | Orders(orders: seq<Order>)
    | RepeatedToken
    | TooManyPages
    | RequestFailed

  /** What a server answers to the k-th request, which carries this token. */
  type Server<Order> = (nat, Option<string>) -> Page<Order>

  /** No next token, or a blank one: nothing left to read. */
  predicate IsLast<Order>(p: Page<Order>) {
    p.Page? && (p.next.None? || Lstrip(p.next.value) == "")
  }

  predicate NamesNext<Order>(p: Page<Order>) {
    p.Page? && !IsLast(p)
  }

  /** The token of request `k`: none at first, then the one the page before named. */
  function TokenOf<Order>(pages: seq<Page<Order>>, k: nat): Option<string>
    requires k <= |pages|
  {
    if k > 0 && pages[k - 1].Page? then pages[k - 1].next else None
  }

  ghost predicate IsAnswer<Order>(server: Server<Order>, pages: seq<Page<Order>>, k: nat)
    requires k < |pages|
  {
    pages[k] == server(k, TokenOf(pages, k))
  }

  /** These are the server's answers to one request after another. */
  ghost predicate IsExchange<Order>(server: Server<Order>, pages: seq<Page<Order>>) {
    forall k: nat | k < |pages| :: IsAnswer(server, pages, k)
  }

  /** Page `k` names a token that a request has already carried. */
  ghost predicate Repeats<Order>(pages: seq<Page<Order>>, k: nat)
    requires k < |pages|
  {
    exists j: nat | j <= k :: TokenOf(pages, j).Some? && TokenOf(pages, j) == TokenOf(pages, k + 1)
  }

  /** The first `n` pages each name a token not yet sent. */
  ghost predicate LeadsOn<Order>(pages: seq<Page<Order>>, n: nat)
    requires n <= |pages|
  {
    forall k: nat | k < n :: NamesNext(pages[k]) && !Repeats(pages, k)
  }

  function OrdersOf<Order>(pages: seq<Page<Order>>): seq<Order> {
    if pages == [] then []
    else
      var p := pages[|pages| - 1];
      OrdersOf(pages[..|pages| - 1]) + if p.Page? then p.orders else []
  }

  /** What a run over these pages may end with: the conditions of the four outcomes exclude each other. */
  ghost predicate IsVerdict<Order>(pages: seq<Page<Order>>, maxPages: nat, result: Result<Order>)
    requires |pages| > 0
  {
    var last := |pages| - 1;
    match result
    case Orders(orders) => IsLast(pages[last]) && orders == OrdersOf(pages)
    case RepeatedToken => NamesNext(pages[last]) && Repeats(pages, last)
    case TooManyPages => |pages| == maxPages && NamesNext(pages[last]) && !Repeats(pages, last)
    case RequestFailed => pages[last].Failed?
  }

  ghost predicate IsRead<Order>(server: Server<Order>, maxPages: nat, result: Result<Order>, pages: seq<Page<Order>>) {
    && 0 < |pages| <= maxPages
    && IsExchange(server, pages)
    && LeadsOn(pages, |pages| - 1)
    && IsVerdict(pages, maxPages, result)
  }

  /** The tokens that the requests so far and the next one carry. */
  ghost predicate AreTokens<Order>(seen: set<string>, pages: seq<Page<Order>>) {
    forall t :: t in seen <==> exists j: nat | j <= |pages| :: TokenOf(pages, j) == Some(t)
  }

  lemma {:induction false} TokensAfter<Order>(seen: set<string>, pages: seq<Page<Order>>, p: Page<Order>)
    requires AreTokens(seen, pages) && NamesNext(p)
    ensures AreTokens(seen + {p.next.value}, pages + [p])
    ensures Repeats(pages + [p], |pages|) <==> p.next.value in seen
  {
    var more := pages + [p];
    assert TokenOf(more, |more|) == p.next;
    forall j: nat | j <= |pages|
      ensures TokenOf(more, j) == TokenOf(pages, j)
    {}
    forall t
      ensures t in seen + {p.next.value} <==> exists j: nat | j <= |more| :: TokenOf(more, j) == Some(t)
    {
      if t in seen {
        var j: nat :| j <= |pages| && TokenOf(pages, j) == Some(t);
        assert TokenOf(more, j) == Some(t);
      }
      if j: nat :| j <= |pages| && TokenOf(more, j) == Some(t) {
        assert TokenOf(pages, j) == Some(t);
      }
    }
    if p.next.value in seen {
      var j: nat :| j <= |pages| && TokenOf(pages, j) == p.next;
      assert TokenOf(more, j) == TokenOf(more, |more|);
    }
  }

  lemma {:induction false} ExchangeGrows<Order>(server: Server<Order>, pages: seq<Page<Order>>)
    requires IsExchange(server, pages)
    ensures var p := server(|pages|, TokenOf(pages, |pages|));
            && IsExchange(server, pages + [p])
            && OrdersOf(pages + [p]) == OrdersOf(pages) + if p.Page? then p.orders else []
  {
    var p := server(|pages|, TokenOf(pages, |pages|));
    var more := pages + [p];
    forall k: nat | k < |more|
      ensures IsAnswer(server, more, k)
    {
      assert TokenOf(more, k) == TokenOf(pages, k);
      if k < |pages| {
        assert IsAnswer(server, pages, k);
      }
    }
    assert more[..|more| - 1] == pages;
  }

  lemma {:induction false} LeadsOnGrows<Order>(pages: seq<Page<Order>>, p: Page<Order>)
    requires LeadsOn(pages, |pages|)
    ensures LeadsOn(pages + [p], |pages|)
  {
    forall k: nat | k < |pages|
      ensures NamesNext((pages + [p])[k]) && !Repeats(pages + [p], k)
    {
      assert NamesNext(pages[k]) && !Repeats(pages, k);
      forall j: nat | j <= k + 1
        ensures TokenOf(pages + [p], j) == TokenOf(pages, j)
      {}
    }
  }

  /** The loop as the source writes it; `pages` records the answers. */
  method GetOrderPages<Order>(server: Server<Order>, maxPages: nat)
    returns (result: Result<Order>, pages: seq<Page<Order>>)
    requires maxPages > 0
    ensures IsRead(server, maxPages, result, pages)
  {
    var orders: seq<Order> := [];
    var nextToken: Option<string> := None;
    var seenTokens: set<string> := {};
    var pageNumber: nat := 0;
    pages := [];
    while pageNumber < maxPages
      invariant pageNumber == |pages| <= maxPages
      invariant IsExchange(server, pages) && orders == OrdersOf(pages) && nextToken == TokenOf(pages, pageNumber)
      invariant LeadsOn(pages, pageNumber)
      invariant AreTokens(seenTokens, pages)
    {
      var payload := server(pageNumber, nextToken);
      ExchangeGrows(server, pages);
      LeadsOnGrows(pages, payload);
      if payload.Failed? {
        return RequestFailed, pages + [payload];
      }
      orders := orders + payload.orders;
      if payload.next.None? || Lstrip(payload.next.value) == "" {
        return Orders(orders), pages + [payload];
      }
      var value := payload.next.value;
      TokensAfter(seenTokens, pages, payload);
      pages := pages + [payload];
      if value in seenTokens {
        return RepeatedToken, pages;
      }
      seenTokens := seenTokens + {value};
      nextToken := Some(value);
      pageNumber := pageNumber + 1;
    }
    return TooManyPages, pages;
  }

  /** No token is sent twice: the tokens of all requests made are different. */
  lemma {:induction false} TokensAreDistinct<Order>(
    server: Server<Order>, maxPages: nat, result: Result<Order>, pages: seq<Page<Order>>, i: nat, j: nat)
    requires IsRead(server, maxPages, result, pages) && i < j < |pages|
    ensures TokenOf(pages, j).Some? && TokenOf(pages, i) != TokenOf(pages, j)
  {
    assert NamesNext(pages[j - 1]) && !Repeats(pages, j - 1);
  }

  lemma {:induction false} SameRepeats<Order>(pages: seq<Page<Order>>, longer: seq<Page<Order>>, k: nat)
    requires k < |pages| <= |longer| && pages == longer[..|pages|]
    ensures Repeats(pages, k) <==> Repeats(longer, k)
  {
    forall j: nat | j <= k + 1
      ensures TokenOf(pages, j) == TokenOf(longer, j)
    {}
  }

  // ---------- servers that answer by token alone ----------

  ghost predicate IsStationary<Order>(server: Server<Order>) {
    forall i: nat, j: nat, t: Option<string> :: server(i, t) == server(j, t)
  }

  /** A chain of pages from the start to a last one. */
  ghost predicate IsWholeChain<Order>(server: Server<Order>, chain: seq<Page<Order>>) {
    && 0 < |chain| && IsExchange(server, chain)
    && IsLast(chain[|chain| - 1]) && forall k: nat | k < |chain| - 1 :: NamesNext(chain[k])
  }

  lemma {:induction false} ExchangesAgree<Order>(
    server: Server<Order>, a: seq<Page<Order>>, b: seq<Page<Order>>, k: nat)
    requires IsExchange(server, a) && IsExchange(server, b) && k < |a| && k < |b|
    ensures a[k] == b[k] && TokenOf(a, k + 1) == TokenOf(b, k + 1)
    decreases k
  {
    if k > 0 {
      ExchangesAgree(server, a, b, k - 1);
    }
    assert TokenOf(a, k) == TokenOf(b, k);
    assert IsAnswer(server, a, k) && IsAnswer(server, b, k);
  }

  lemma {:induction false} SameTokenSamePage<Order>(server: Server<Order>, chain: seq<Page<Order>>, i: nat, j: nat)
    requires IsStationary(server) && IsExchange(server, chain) && i < |chain| && j < |chain|
    requires TokenOf(chain, i) == TokenOf(chain, j)
    ensures chain[i] == chain[j]
  {
    assert IsAnswer(server, chain, i) && IsAnswer(server, chain, j);
  }

  lemma {:induction false} SameTokenSameTail<Order>(
    server: Server<Order>, chain: seq<Page<Order>>, i: nat, j: nat, end: nat)
    requires IsStationary(server) && IsExchange(server, chain) && i <= j <= end < |chain|
    requires TokenOf(chain, i) == TokenOf(chain, j)
    ensures chain[i + end - j] == chain[end]
    decreases end - j
  {
    SameTokenSamePage(server, chain, i, j);
    if j < end {
      SameTokenSameTail(server, chain, i + 1, j + 1, end);
    }
  }

  /** On the way to a last page such a server repeats no token. */
  lemma {:induction false} NoRepeatOnWholeChain<Order>(server: Server<Order>, chain: seq<Page<Order>>, k: nat)
    requires IsStationary(server) && IsWholeChain(server, chain) && k < |chain| - 1
    ensures !Repeats(chain, k)
  {
    if Repeats(chain, k) {
      var j: nat :| j <= k && TokenOf(chain, j) == TokenOf(chain, k + 1);
      SameTokenSameTail(server, chain, j, k + 1, |chain| - 1);
    }
  }

  lemma {:induction false} PrefixesAgree<Order>(server: Server<Order>, a: seq<Page<Order>>, b: seq<Page<Order>>)
    requires IsExchange(server, a) && IsExchange(server, b) && |a| <= |b|
    ensures a == b[..|a|]
  {
    forall k: nat | k < |a|
      ensures a[k] == b[k]
    {
      ExchangesAgree(server, a, b, k);
    }
  }

  /** When the chain of pages ends within the limit, a read follows it to the end. */
  lemma {:induction false} ReadFollowsChain<Order>(
    server: Server<Order>, maxPages: nat, result: Result<Order>, pages: seq<Page<Order>>, chain: seq<Page<Order>>)
    requires IsStationary(server) && IsRead(server, maxPages, result, pages)
    requires IsWholeChain(server, chain) && |chain| <= maxPages
    ensures pages == chain && result == Orders(OrdersOf(chain))
  {
    if |chain| < |pages| {
      PrefixesAgree(server, chain, pages);
    } else {
      PrefixesAgree(server, pages, chain);
      if |pages| < |chain| {
        NoRepeatOnWholeChain(server, chain, |pages| - 1);
        SameRepeats(pages, chain, |pages| - 1);
      }
    }
  }

  /**
   For a server that answers by token alone: the read returns orders exactly when the chain of pages from the
   start ends within the limit, and they are the orders of that chain's pages in their order.
   */
  lemma {:induction false} ReturnsIffChainEnds<Order>(
    server: Server<Order>, maxPages: nat, result: Result<Order>, pages: seq<Page<Order>>)
    requires IsStationary(server) && IsRead(server, maxPages, result, pages)
    ensures result.Orders? <==> exists chain :: IsWholeChain(server, chain) && |chain| <= maxPages
    ensures forall chain | IsWholeChain(server, chain) && |chain| <= maxPages :: result == Orders(OrdersOf(chain))
  {
    if result.Orders? {
      assert IsWholeChain(server, pages);
    }
    forall chain | IsWholeChain(server, chain) && |chain| <= maxPages
      ensures result == Orders(OrdersOf(chain))
    {
      ReadFollowsChain(server, maxPages, result, pages, chain);
    }
  }
}
