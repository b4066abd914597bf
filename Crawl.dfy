/**
 * The scheduled crawl (GitHubService.crawlAllAndEvaluate) as a function of the stores and of
 * the search answers for pages 1, 2, ...: every named item of every page is ingested until a
 * page fails or is empty, or `maxPages` pages were read.
 */
module Crawl {
  import opened Nullable
  import opened FullName
  import opened Trend
  import opened Ingestion
  import opened IngestionProperties

  /** One search result: its `full_name` and what the platform answers when it is ingested. */
  datatype SearchItem = SearchItem(fullName: Option<string>, upstream: Upstream)

  /**
   * The answer for one page: `None` when the request failed or there was no `items` list,
   * otherwise the items.
   */
  type SearchPage = Option<seq<SearchItem>>

  /**
   * One item inside the crawl. The crawl runs in one transaction and calls `upsertAndEvaluate`
   * on itself, so that method's own transaction does not apply: when the README decoding
   * throws, the exception is swallowed, yet the stored entity the merge already changed is
   * still written when the crawl's transaction commits.
   */
  function CrawlItem(st: Store, cfg: Config, item: SearchItem, decode: Decoder): Store {
    if item.fullName.None? then st
    else
      var (out, st') := Ingest(st, cfg, item.fullName, item.upstream, decode);
      if out == Failed(UndecodableReadme) && item.upstream.meta.value.id.value in st.repos then
        var id := item.upstream.meta.value.id.value;
        st.(repos := st.repos[id := MergeMeta(st.repos[id], item.upstream.meta.value)])
      else st'
  }

  /** The items of one page, in order; a failing item does not stop the others. */
  function CrawlItems(st: Store, cfg: Config, items: seq<SearchItem>, decode: Decoder): Store
    decreases |items|
  {
    if items == [] then st
    else CrawlItems(CrawlItem(st, cfg, items[0], decode), cfg, items[1..], decode)
  }

  /** A page that ends the crawl: failed or empty. */
  predicate Stops(page: SearchPage) {
    page.None? || page.value == []
  }

  /** Pages from the current one on, with `pagesLeft` requests still allowed. */
  function CrawlPages(st: Store, cfg: Config, pages: seq<SearchPage>, pagesLeft: int, decode: Decoder): Store
    decreases |pages|
  {
    if pagesLeft <= 0 || pages == [] || Stops(pages[0]) then st
    else CrawlPages(CrawlItems(st, cfg, pages[0].value, decode), cfg, pages[1..], pagesLeft - 1, decode)
  }

  /** Search requests made: one per page read, stopping after a failed or empty one. */
  function PagesRequested(pages: seq<SearchPage>, pagesLeft: int): nat
    decreases |pages|
  {
    if pagesLeft <= 0 then 0
    else if pages == [] || Stops(pages[0]) then 1
    else 1 + PagesRequested(pages[1..], pagesLeft - 1)
  }

  /** The whole crawl: pages are read from the first, at most `maxPages` of them. */
  function CrawlAll(st: Store, cfg: Config, pages: seq<SearchPage>, decode: Decoder): Store {
    CrawlPages(st, cfg, pages, cfg.maxPages, decode)
  }

  // ---------------------------------------------------------------- properties

  /** At most `maxPages` search requests are made, and none when it is not positive. */
  lemma {:induction false} AtMostMaxPages(pages: seq<SearchPage>, pagesLeft: int)
    ensures PagesRequested(pages, pagesLeft) <= if pagesLeft < 0 then 0 else pagesLeft
    ensures pagesLeft >= 1 ==> PagesRequested(pages, pagesLeft) >= 1
  {
    if pagesLeft > 0 && pages != [] && !Stops(pages[0]) {
      AtMostMaxPages(pages[1..], pagesLeft - 1);
    }
  }

  /** Nothing after the first failed or empty page is read. */
  lemma {:induction false} StopsAtFirstEmptyPage(st: Store, cfg: Config, pages: seq<SearchPage>, pagesLeft: int, k: nat, decode: Decoder)
    requires k < |pages| && Stops(pages[k])
    ensures CrawlPages(st, cfg, pages, pagesLeft, decode) == CrawlPages(st, cfg, pages[..k], pagesLeft, decode)
    ensures PagesRequested(pages, pagesLeft) <= k + 1
    decreases k
  {
    if k == 0 {
      if pagesLeft > 0 {
        assert Stops(pages[0]);
      }
    } else if pagesLeft > 0 && !Stops(pages[0]) {
      var st1 := CrawlItems(st, cfg, pages[0].value, decode);
      StopsAtFirstEmptyPage(st1, cfg, pages[1..], pagesLeft - 1, k - 1, decode);
      assert pages[..k][1..] == pages[1..][..k - 1];
    }
  }

  /** An item without `full_name` is skipped, and the items after it are still crawled. */
  lemma SkipsItemWithoutName(st: Store, cfg: Config, item: SearchItem, rest: seq<SearchItem>, decode: Decoder)
    requires item.fullName.None?
    ensures CrawlItems(st, cfg, [item] + rest, decode) == CrawlItems(st, cfg, rest, decode)
  {
    assert ([item] + rest)[1..] == rest;
  }

  /** Items are crawled one after the other, whatever the earlier ones ended in. */
  lemma {:induction false} CrawlItemsSequential(st: Store, cfg: Config, a: seq<SearchItem>, b: seq<SearchItem>, decode: Decoder)
    ensures CrawlItems(st, cfg, a + b, decode) == CrawlItems(CrawlItems(st, cfg, a, decode), cfg, b, decode)
    decreases |a|
  {
    if a == [] {
      assert a + b == b;
    } else {
      assert (a + b)[1..] == a[1..] + b;
      CrawlItemsSequential(CrawlItem(st, cfg, a[0], decode), cfg, a[1..], b, decode);
    }
  }

  /**
   * Inside the crawl, a README that cannot be decoded still leaves the merged metadata of a
   * stored repository written (its star count, and the baseline kept from before), while no
   * stage is evaluated, no crawl time stamped and no candidate added.
   */
  lemma UndecodableReadmeKeepsMerge(st: Store, cfg: Config, item: SearchItem, decode: Decoder)
    requires SplitFullName(item.fullName).Some?
    requires item.upstream.meta.Some? && item.upstream.meta.value.id.Some?
    requires item.upstream.meta.value.id.value in st.repos
    requires ApplyReadme(MergeMeta(st.repos[item.upstream.meta.value.id.value], item.upstream.meta.value),
                         item.upstream.readme, decode).None?
    ensures var m := item.upstream.meta.value;
      var prior := st.repos[m.id.value];
      var st' := CrawlItem(st, cfg, item, decode);
      && Ingest(st, cfg, item.fullName, item.upstream, decode) == (Failed(UndecodableReadme), st)
      && st'.repos == st.repos[m.id.value := MergeMeta(prior, m)]
      && st'.repos[m.id.value].stargazersCount == m.stargazersCount
      && (prior.trendStage.Some? ==> st'.repos[m.id.value].trendStage == prior.trendStage)
      && st'.repos[m.id.value].lastCrawledAt == prior.lastCrawledAt
      && st'.candidates == st.candidates
  {
  }

  /** For a repository not yet stored, an undecodable README writes nothing, as in a direct call. */
  lemma UndecodableReadmeOfNewRepoWritesNothing(st: Store, cfg: Config, item: SearchItem, decode: Decoder)
    requires item.upstream.meta.Some? && item.upstream.meta.value.id.Some?
    requires item.upstream.meta.value.id.value !in st.repos
    requires Ingest(st, cfg, item.fullName, item.upstream, decode).0 == Failed(UndecodableReadme)
    ensures CrawlItem(st, cfg, item, decode) == st
  {
  }

  lemma CrawlItemPreservesStoreValid(st: Store, cfg: Config, item: SearchItem, decode: Decoder)
    requires StoreValid(st)
    ensures StoreValid(CrawlItem(st, cfg, item, decode))
  {
    if item.fullName.Some? {
      IngestPreservesStoreValid(st, cfg, item.fullName, item.upstream, decode);
    }
  }

  lemma {:induction false} CrawlItemsPreservesStoreValid(st: Store, cfg: Config, items: seq<SearchItem>, decode: Decoder)
    requires StoreValid(st)
    ensures StoreValid(CrawlItems(st, cfg, items, decode))
    decreases |items|
  {
    if items != [] {
      CrawlItemPreservesStoreValid(st, cfg, items[0], decode);
      CrawlItemsPreservesStoreValid(CrawlItem(st, cfg, items[0], decode), cfg, items[1..], decode);
    }
  }

  /**
   * A crawl keeps the stores well formed; in particular, however often a repository is met,
   * it never gets a second candidate.
   */
  lemma {:induction false} CrawlPreservesStoreValid(st: Store, cfg: Config, pages: seq<SearchPage>, pagesLeft: int, decode: Decoder)
    requires StoreValid(st)
    ensures StoreValid(CrawlPages(st, cfg, pages, pagesLeft, decode))
    decreases |pages|
  {
    if pagesLeft > 0 && pages != [] && !Stops(pages[0]) {
      CrawlItemsPreservesStoreValid(st, cfg, pages[0].value, decode);
      CrawlPreservesStoreValid(CrawlItems(st, cfg, pages[0].value, decode), cfg, pages[1..], pagesLeft - 1, decode);
    }
  }

  lemma CrawlItemAppendsCandidates(st: Store, cfg: Config, item: SearchItem, decode: Decoder)
    ensures var st' := CrawlItem(st, cfg, item, decode);
      |st.candidates| <= |st'.candidates| && st'.candidates[..|st.candidates|] == st.candidates
  {
    if item.fullName.Some? {
      IngestAppendsCandidates(st, cfg, item.fullName, item.upstream, decode);
    }
  }

  /** A crawl only appends candidates: existing ones, and their dispatch flags, are never changed. */
  lemma {:induction false} CrawlItemsAppendCandidates(st: Store, cfg: Config, items: seq<SearchItem>, decode: Decoder)
    ensures var st' := CrawlItems(st, cfg, items, decode);
      |st.candidates| <= |st'.candidates| && st'.candidates[..|st.candidates|] == st.candidates
    decreases |items|
  {
    if items != [] {
      var st1 := CrawlItem(st, cfg, items[0], decode);
      CrawlItemAppendsCandidates(st, cfg, items[0], decode);
      CrawlItemsAppendCandidates(st1, cfg, items[1..], decode);
      var st' := CrawlItems(st1, cfg, items[1..], decode);
      assert st'.candidates[..|st.candidates|] == st'.candidates[..|st1.candidates|][..|st.candidates|];
    }
  }

  /** No stored record carries an etag, so no README request sends `If-None-Match`. */
  ghost predicate NoEtags(st: Store) {
    forall id :: id in st.repos ==> IfNoneMatch(st.repos[id]).None?
  }

  lemma CrawlItemSetsNoEtag(st: Store, cfg: Config, item: SearchItem, decode: Decoder)
    requires NoEtags(st)
    ensures NoEtags(CrawlItem(st, cfg, item, decode))
  {
    if item.fullName.Some? {
      NoEtagsEver(st, cfg, item.fullName, item.upstream, decode);
    }
  }

  lemma {:induction false} CrawlItemsSetNoEtag(st: Store, cfg: Config, items: seq<SearchItem>, decode: Decoder)
    requires NoEtags(st)
    ensures NoEtags(CrawlItems(st, cfg, items, decode))
    decreases |items|
  {
    if items != [] {
      CrawlItemSetsNoEtag(st, cfg, items[0], decode);
      CrawlItemsSetNoEtag(CrawlItem(st, cfg, items[0], decode), cfg, items[1..], decode);
    }
  }

  /**
   * The scheduled crawl never stores an etag either, the merge it writes after an undecodable
   * README included: starting without etags, conditional README requests are never made.
   */
  lemma {:induction false} CrawlSetsNoEtag(st: Store, cfg: Config, pages: seq<SearchPage>, pagesLeft: int, decode: Decoder)
    requires NoEtags(st)
    ensures NoEtags(CrawlPages(st, cfg, pages, pagesLeft, decode))
    decreases |pages|
  {
    if pagesLeft > 0 && pages != [] && !Stops(pages[0]) {
      CrawlItemsSetNoEtag(st, cfg, pages[0].value, decode);
      CrawlSetsNoEtag(CrawlItems(st, cfg, pages[0].value, decode), cfg, pages[1..], pagesLeft - 1, decode);
    }
  }
}
