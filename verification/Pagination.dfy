/** Reading a whole list from an endpoint that answers one page at a time. */
module Pagination {
  import opened Json

  const LIMIT := 10000

  datatype Response<T> =
    | Page(count: nat, results: seq<T>, next: Option<nat>)
    | Detail    // an answer that is not a list
    | NotFound

  datatype Listing<T> = Listed(count: nat, results: seq<T>) | NotAList | TooMany | BrokenPage | Missing

  type Pages<T> = map<nat, Response<T>>

  function Answer<T>(pages: Pages<T>, url: nat): Response<T> {
    if url in pages then pages[url] else NotFound
  }

  /** A server of pages that logs the addresses it is asked for. */
  class PageServer<T> {
    const pages: Pages<T>
    var fetched: seq<nat>

    constructor (pages: Pages<T>)
      ensures this.pages == pages && fetched == []
    {
      this.pages, fetched := pages, [];
    }

    method Fetch(url: nat) returns (response: Response<T>)
      modifies this
      ensures response == Answer(pages, url)
      ensures fetched == old(fetched) + [url]
    {
      fetched := fetched + [url];
      response := Answer(pages, url);
    }
  }

  /** `chain` follows the `next` links from its first address to an answer without one. */
  ghost predicate Chain<T>(pages: Pages<T>, chain: seq<nat>) {
    && chain != []
    && (forall i | 0 <= i < |chain| - 1 ::
          Answer(pages, chain[i]).Page? && Answer(pages, chain[i]).next == Some(chain[i + 1]))
    && var last := Answer(pages, chain[|chain| - 1]);
       last.Page? ==> last.next == None
  }

  function Gather<T>(pages: Pages<T>, chain: seq<nat>): seq<T> {
    if chain == [] then []
    else Gather(pages, chain[..|chain| - 1]) +
         (var last := Answer(pages, chain[|chain| - 1]);
          if last.Page? then last.results else [])
  }

  /**
   Follows the links to the end. The answer is the concatenation of the pages in order, and
   each address of the chain is asked for once; `chain` only says that the links end.
   */
  method GetAll<T>(server: PageServer<T>, url: nat, ghost chain: seq<nat>) returns (listing: Listing<T>)
    requires Chain(server.pages, chain) && chain[0] == url
    modifies server
    ensures var first, last := Answer(server.pages, url), Answer(server.pages, chain[|chain| - 1]);
            listing ==
              if first.NotFound? then Missing
              else if first.Detail? then NotAList
              else if first.count > 10000 then TooMany
              else if last.NotFound? then Missing
              else if last.Detail? then BrokenPage
              else Listed(first.count, Gather(server.pages, chain))
    ensures server.fetched == old(server.fetched) + (if listing == TooMany then [url] else chain)
  {
    var response := server.Fetch(url);
    match response {
      case NotFound => assert chain == [url]; return Missing;
      case Detail => assert chain == [url]; return NotAList;
      case Page(count, firstResults, firstNext) =>
        if count > LIMIT {
          return TooMany;
        }
        var results, nextPage := firstResults, firstNext;
        ghost var seen := 1;
        assert chain[..1] == [url] && Gather(server.pages, chain[..1][..0]) == [];
        while nextPage != None
          invariant 1 <= seen <= |chain|
          invariant nextPage == if seen < |chain| then Some(chain[seen]) else None
          invariant results == Gather(server.pages, chain[..seen])
          invariant server.fetched == old(server.fetched) + chain[..seen]
          invariant seen == |chain| ==> Answer(server.pages, chain[|chain| - 1]).Page?
          decreases |chain| - seen
        {
          var next := server.Fetch(nextPage.value);
          assert chain[..seen + 1][..seen] == chain[..seen];
          seen := seen + 1;
          match next {
            case NotFound => assert chain[..seen] == chain; return Missing;
            case Detail => assert chain[..seen] == chain; return BrokenPage;
            case Page(_, more, following) =>
              results := results + more;
              nextPage := following;
          }
        }
        assert chain[..seen] == chain;
        return Listed(count, results);
    }
  }

  /** A chain that ends cannot come back to a page it has left: no page is read twice. */
  lemma {:induction false} ChainVisitsOnce<T>(pages: Pages<T>, chain: seq<nat>, i: nat, j: nat)
    requires Chain(pages, chain) && i < j < |chain|
    ensures chain[i] != chain[j]
    decreases |chain| - j
  {
    assert Answer(pages, chain[i]).next == Some(chain[i + 1]);
    if chain[i] == chain[j] && j + 1 < |chain| {
      ChainVisitsOnce(pages, chain, i + 1, j + 1);
    }
  }

  // ---------------------------------------------------------------- a server that splits a list

  function Chunks<T>(items: seq<T>, size: nat): seq<seq<T>>
    requires size >= 1
    decreases |items|
  {
    if |items| <= size then [items] else [items[..size]] + Chunks(items[size..], size)
  }

  function Paginate<T>(items: seq<T>, size: nat): Pages<T>
    requires size >= 1
  {
    var chunks := Chunks(items, size);
    map k: nat | k < |chunks| ::
      Page(|items|, chunks[k], if k + 1 < |chunks| then Some(k + 1) else None)
  }

  function UpTo(n: nat): (s: seq<nat>)
    ensures |s| == n && forall i | 0 <= i < n :: s[i] == i
  {
    seq(n, i => i)
  }

  function Flatten<T>(chunks: seq<seq<T>>): seq<T> {
    if chunks == [] then [] else chunks[0] + Flatten(chunks[1..])
  }

  lemma {:induction false} FlattenSnoc<T>(chunks: seq<seq<T>>, last: seq<T>)
    ensures Flatten(chunks + [last]) == Flatten(chunks) + last
  {
    if chunks == [] {
      assert (chunks + [last])[1..] == [];
    } else {
      assert (chunks + [last])[1..] == chunks[1..] + [last];
      FlattenSnoc(chunks[1..], last);
    }
  }

  lemma {:induction false} ChunksFlatten<T>(items: seq<T>, size: nat)
    requires size >= 1
    ensures Flatten(Chunks(items, size)) == items && Chunks(items, size) != []
    decreases |items|
  {
    if |items| <= size {
      assert Flatten([items]) == items + Flatten([items][1..]);
    } else {
      ChunksFlatten(items[size..], size);
      assert Chunks(items, size)[1..] == Chunks(items[size..], size);
    }
  }

  lemma {:induction false} GatherPrefix<T>(items: seq<T>, size: nat, n: nat)
    requires size >= 1 && n <= |Chunks(items, size)|
    ensures Gather(Paginate(items, size), UpTo(n)) == Flatten(Chunks(items, size)[..n])
    decreases n
  {
    var chunks := Chunks(items, size);
    if n > 0 {
      GatherPrefix(items, size, n - 1);
      FlattenSnoc(chunks[..n - 1], chunks[n - 1]);
      assert chunks[..n] == chunks[..n - 1] + [chunks[n - 1]];
      assert UpTo(n)[..n - 1] == UpTo(n - 1);
    }
  }

  lemma PageAt<T>(items: seq<T>, size: nat, k: nat)
    requires size >= 1 && k < |Chunks(items, size)|
    ensures var chunks := Chunks(items, size);
            Answer(Paginate(items, size), k) == Page(|items|, chunks[k], if k + 1 < |chunks| then Some(k + 1) else None)
  {
  }

  lemma PagesChain<T>(items: seq<T>, size: nat)
    requires size >= 1
    ensures var pages, chain := Paginate(items, size), UpTo(|Chunks(items, size)|);
            && Chain(pages, chain) && chain[0] == 0
            && forall k | 0 <= k < |chain| :: Answer(pages, chain[k]).Page? && Answer(pages, chain[k]).count == |items|
  {
    var n, pages, chain := |Chunks(items, size)|, Paginate(items, size), UpTo(|Chunks(items, size)|);
    ChunksFlatten(items, size);
    forall k | 0 <= k < n
      ensures Answer(pages, chain[k]).Page? && Answer(pages, chain[k]).count == |items|
      ensures Answer(pages, chain[k]).next == if k + 1 < n then Some(k + 1) else None
    {
      PageAt(items, size, k);
    }
  }

  /** Splitting a list into pages of any size and reading the pages back gives the list. */
  lemma PagesReadBack<T>(items: seq<T>, size: nat)
    requires size >= 1
    ensures var pages, chain := Paginate(items, size), UpTo(|Chunks(items, size)|);
            && Chain(pages, chain) && chain[0] == 0
            && Answer(pages, 0).Page? && Answer(pages, 0).count == |items|
            && Answer(pages, chain[|chain| - 1]).Page?
            && Gather(pages, chain) == items
  {
    var chunks := Chunks(items, size);
    PagesChain(items, size);
    ChunksFlatten(items, size);
    GatherPrefix(items, size, |chunks|);
    assert chunks[..|chunks|] == chunks;
  }

  /** The whole reading: a list of at most 10000 entries comes back as it is, any longer one is refused. */
  method ReadList<T>(items: seq<T>, size: nat) returns (listing: Listing<T>)
    requires size >= 1
    ensures listing == if |items| <= LIMIT then Listed(|items|, items) else TooMany
  {
    var server := new PageServer<T>(Paginate(items, size));
    PagesReadBack(items, size);
    listing := GetAll(server, 0, UpTo(|Chunks(items, size)|));
  }
}
