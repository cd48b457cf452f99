/**
 The date-windowed scan over the workspace's pages.  The page search
 returns pages newest first (sorted by last-edited time, descending), one
 chunk of pages per page of results.  The scan searches each page for
 blocks carrying the mention and abandons the whole listing at the first
 page edited strictly before the cutoff.

 `ScanChunk` and `ScanListing` specify the two loops; `FindSrsBlocksInChunk`
 and `FindSrsBlocks` are the loops, proved equal to them.  The lemmas show
 that on a listing sorted newest first the early exit returns exactly the
 blocks of the pages edited at or after the cutoff.
 */
module PageScan {
  import opened NotionTypes
  import opened BlockSearch

  /** Only pages edited in the last this-many days are searched. */
  const SearchPeriodDays: nat := 5

  /** Timestamps are whole seconds. */
  const SecondsPerDay: nat := 86400

  /** The cutoff: `SearchPeriodDays` days before `now`. */
  function EndDate(now: int): (endDate: int)
    ensures endDate + 432000 == now
    ensures forall p: Page :: IsOlderThan(p, endDate) <==> p.lastEditedTime < now - 432000
  {
    now - SearchPeriodDays * SecondsPerDay
  }

  /** A page edited strictly before the cutoff. */
  predicate IsOlderThan(p: Page, endDate: int) {
    endDate > p.lastEditedTime
  }

  /** The blocks found in each page, pages in order. */
  function FoundInPages(pages: seq<Page>): seq<Block>
  {
    if pages == [] then []
    else FoundInListing(pages[0].blocks, MentionText) + FoundInPages(pages[1..])
  }

  /**
   The result of scanning one chunk of pages: the blocks found before the
   first page older than the cutoff, and whether such a page was met.
   */
  function ScanChunk(pages: seq<Page>, endDate: int): (seq<Block>, bool)
  {
    if pages == [] then ([], false)
    else if IsOlderThan(pages[0], endDate) then ([], true)
    else
      var rest := ScanChunk(pages[1..], endDate);
      (FoundInListing(pages[0].blocks, MentionText) + rest.0, rest.1)
  }

  /** The result of scanning a listing of chunks, stopping after a chunk that met an old page. */
  function ScanListing(listing: seq<seq<Page>>, endDate: int): seq<Block>
  {
    if listing == [] then []
    else
      var r := ScanChunk(listing[0], endDate);
      if r.1 then r.0 else r.0 + ScanListing(listing[1..], endDate)
  }

  /**
   Scan one chunk of pages: search each page in turn, and at the first page
   edited strictly before `endDate` return what was found so far together
   with `true`, the signal to stop the whole listing.
   */
  method FindSrsBlocksInChunk(pages: seq<Page>, endDate: int)
    returns (srsBlocks: seq<Block>, shouldBreak: bool)
    ensures (srsBlocks, shouldBreak) == ScanChunk(pages, endDate)
  {
    srsBlocks := [];
    assert pages[0..] == pages;
    for i := 0 to |pages|
      invariant ScanChunk(pages, endDate).0 == srsBlocks + ScanChunk(pages[i..], endDate).0
      invariant ScanChunk(pages, endDate).1 == ScanChunk(pages[i..], endDate).1
    {
      ghost var rest := ScanChunk(pages[i + 1..], endDate);
      assert pages[i..][0] == pages[i] && pages[i..][1..] == pages[i + 1..];
      if IsOlderThan(pages[i], endDate) {
        assert ScanChunk(pages[i..], endDate) == ([], true);
        assert srsBlocks + [] == srsBlocks;
        return srsBlocks, true;
      }
      var some := SearchPageForBlocksContainingMention(pages[i].blocks, MentionText);
      assert ScanChunk(pages[i..], endDate) == (some + rest.0, rest.1);
      srsBlocks := srsBlocks + some;
    }
    assert pages[|pages|..] == [];
    assert srsBlocks + [] == srsBlocks;
    return srsBlocks, false;
  }

  /**
   The whole discovery: compute the cutoff from `now`, scan the chunks of
   the newest-first page listing in order, and request no further chunk
   after one that met a page older than the cutoff.
   */
  method FindSrsBlocks(listing: seq<seq<Page>>, now: int) returns (srsBlocks: seq<Block>)
    ensures srsBlocks == ScanListing(listing, EndDate(now))
  {
    var endDate := EndDate(now);
    srsBlocks := [];
    var i := 0;
    assert listing[0..] == listing;
    while i < |listing|
      invariant 0 <= i <= |listing|
      invariant ScanListing(listing, endDate) == srsBlocks + ScanListing(listing[i..], endDate)
    {
      assert listing[i..][1..] == listing[i + 1..];
      var some, shouldBreak := FindSrsBlocksInChunk(listing[i], endDate);
      srsBlocks := srsBlocks + some;
      if shouldBreak {
        break;
      }
      i := i + 1;
    }
  }

  // ---------------------------------------------------------------------
  // The early exit, described without it

  /** The longest prefix of `pages` none of which is older than the cutoff. */
  function RecentPrefix(pages: seq<Page>, endDate: int): (r: seq<Page>)
    ensures r <= pages
    ensures forall j :: 0 <= j < |r| ==> !IsOlderThan(pages[j], endDate)
    ensures |r| < |pages| ==> IsOlderThan(pages[|r|], endDate)
  {
    if pages == [] || IsOlderThan(pages[0], endDate) then []
    else [pages[0]] + RecentPrefix(pages[1..], endDate)
  }

  /**
   Scanning a chunk searches exactly the pages before the first older one,
   in order, and signals a stop exactly when there is an older page.
   */
  lemma {:induction false} ScanChunkSearchesRecentPrefix(pages: seq<Page>, endDate: int)
    ensures ScanChunk(pages, endDate).0 == FoundInPages(RecentPrefix(pages, endDate))
    ensures ScanChunk(pages, endDate).1 <==> exists j :: 0 <= j < |pages| && IsOlderThan(pages[j], endDate)
  {
    if pages != [] && !IsOlderThan(pages[0], endDate) {
      ScanChunkSearchesRecentPrefix(pages[1..], endDate);
      var r := RecentPrefix(pages, endDate);
      assert r[1..] == RecentPrefix(pages[1..], endDate);
      if exists j :: 0 <= j < |pages| && IsOlderThan(pages[j], endDate) {
        var j :| 0 <= j < |pages| && IsOlderThan(pages[j], endDate);
        assert pages[1..][j - 1] == pages[j];
      }
      if exists j :: 0 <= j < |pages[1..]| && IsOlderThan(pages[1..][j], endDate) {
        var j :| 0 <= j < |pages[1..]| && IsOlderThan(pages[1..][j], endDate);
        assert pages[1..][j] == pages[j + 1];
      }
    } else if pages != [] {
      assert IsOlderThan(pages[0], endDate);
    }
  }

  /**
   At the first page older than the cutoff (index `k`) the chunk's scan
   returns the blocks of the pages before it and `true`; neither page `k`
   nor any page after it is searched.  A page edited exactly at the cutoff
   is not older, so it is searched.
   */
  lemma {:induction false} StopsAtFirstOlderPage(pages: seq<Page>, endDate: int, k: nat)
    requires k < |pages| && IsOlderThan(pages[k], endDate)
    requires forall j :: 0 <= j < k ==> !IsOlderThan(pages[j], endDate)
    ensures ScanChunk(pages, endDate) == (FoundInPages(pages[..k]), true)
  {
    ScanChunkSearchesRecentPrefix(pages, endDate);
    var r := RecentPrefix(pages, endDate);
    assert |r| == k;
    assert r == pages[..k];
  }

  /** With no page older than the cutoff, every page is searched, in order, and no stop is signalled. */
  lemma {:induction false} SearchesWholeChunkWhenAllRecent(pages: seq<Page>, endDate: int)
    requires forall j :: 0 <= j < |pages| ==> !IsOlderThan(pages[j], endDate)
    ensures ScanChunk(pages, endDate) == (FoundInPages(pages), false)
  {
    ScanChunkSearchesRecentPrefix(pages, endDate);
    var r := RecentPrefix(pages, endDate);
    assert |r| == |pages|;
    assert r == pages;
  }

  // ---------------------------------------------------------------------
  // Chunks of the page listing

  /** The pages of a listing, chunks joined in order. */
  function Flatten(listing: seq<seq<Page>>): (pages: seq<Page>)
    ensures |listing| > 0 ==> listing[0] <= pages
  {
    if listing == [] then [] else listing[0] + Flatten(listing[1..])
  }

  lemma {:induction false} FoundInPagesAppend(a: seq<Page>, b: seq<Page>)
    ensures FoundInPages(a + b) == FoundInPages(a) + FoundInPages(b)
  {
    if a != [] {
      assert (a + b)[1..] == a[1..] + b;
      FoundInPagesAppend(a[1..], b);
    } else {
      assert a + b == b;
    }
  }

  /** Scanning two chunks one after the other is scanning them joined. */
  lemma {:induction false} ScanChunkAppend(a: seq<Page>, b: seq<Page>, endDate: int)
    ensures ScanChunk(a + b, endDate)
         == if ScanChunk(a, endDate).1 then ScanChunk(a, endDate)
            else (ScanChunk(a, endDate).0 + ScanChunk(b, endDate).0, ScanChunk(b, endDate).1)
  {
    if a == [] {
      assert a + b == b;
      assert [] + ScanChunk(b, endDate).0 == ScanChunk(b, endDate).0;
    } else {
      assert (a + b)[0] == a[0];
      assert (a + b)[1..] == a[1..] + b;
      if !IsOlderThan(a[0], endDate) {
        ScanChunkAppend(a[1..], b, endDate);
        var head := FoundInListing(a[0].blocks, MentionText);
        assert ScanChunk(a + b, endDate) == (head + ScanChunk(a[1..] + b, endDate).0, ScanChunk(a[1..] + b, endDate).1);
        assert ScanChunk(a, endDate) == (head + ScanChunk(a[1..], endDate).0, ScanChunk(a[1..], endDate).1);
        if !ScanChunk(a[1..], endDate).1 {
          var x, y := ScanChunk(a[1..], endDate).0, ScanChunk(b, endDate).0;
          assert head + (x + y) == (head + x) + y;
        }
      }
    }
  }

  /**
   How the page listing is split into chunks does not change the result:
   the scan of the listing is the scan of all its pages as one chunk.
   */
  lemma {:induction false} ScanListingIgnoresChunking(listing: seq<seq<Page>>, endDate: int)
    ensures ScanListing(listing, endDate) == ScanChunk(Flatten(listing), endDate).0
  {
    if listing != [] {
      ScanChunkAppend(listing[0], Flatten(listing[1..]), endDate);
      if !ScanChunk(listing[0], endDate).1 {
        ScanListingIgnoresChunking(listing[1..], endDate);
      }
    }
  }

  /**
   After a chunk that signals a stop, the chunks that follow it are never
   consulted: the result is that of the listing cut just after that chunk.
   */
  lemma {:induction false} NoChunkAfterStop(listing: seq<seq<Page>>, endDate: int, k: nat)
    requires k < |listing| && ScanChunk(listing[k], endDate).1
    ensures ScanListing(listing, endDate) == ScanListing(listing[..k + 1], endDate)
  {
    var cut := listing[..k + 1];
    assert cut[0] == listing[0];
    if k > 0 && !ScanChunk(listing[0], endDate).1 {
      assert cut[1..] == listing[1..][..k];
      NoChunkAfterStop(listing[1..], endDate, k - 1);
    }
  }

  // ---------------------------------------------------------------------
  // Why the early exit is sound: the listing is newest first

  ghost predicate NewestFirst(pages: seq<Page>) {
    forall i, j :: 0 <= i < j < |pages| ==> pages[j].lastEditedTime <= pages[i].lastEditedTime
  }

  /** The pages edited at or after the cutoff, in order. */
  function PagesSince(pages: seq<Page>, endDate: int): seq<Page>
  {
    if pages == [] then []
    else if IsOlderThan(pages[0], endDate) then PagesSince(pages[1..], endDate)
    else [pages[0]] + PagesSince(pages[1..], endDate)
  }

  lemma {:induction false} NoneSinceAfterOlder(pages: seq<Page>, endDate: int)
    requires NewestFirst(pages)
    requires pages != [] && IsOlderThan(pages[0], endDate)
    ensures PagesSince(pages, endDate) == []
  {
    if |pages| > 1 {
      assert pages[1..][0] == pages[1];
      assert NewestFirst(pages[1..]) by {
        forall i, j | 0 <= i < j < |pages[1..]|
          ensures pages[1..][j].lastEditedTime <= pages[1..][i].lastEditedTime
        {
          assert pages[1..][i] == pages[i + 1] && pages[1..][j] == pages[j + 1];
        }
      }
      NoneSinceAfterOlder(pages[1..], endDate);
    }
  }

  /** On a newest-first listing, stopping at the first older page is the same as filtering. */
  lemma {:induction false} RecentPrefixIsPagesSince(pages: seq<Page>, endDate: int)
    requires NewestFirst(pages)
    ensures RecentPrefix(pages, endDate) == PagesSince(pages, endDate)
  {
    if pages != [] {
      if IsOlderThan(pages[0], endDate) {
        NoneSinceAfterOlder(pages, endDate);
      } else {
        assert NewestFirst(pages[1..]) by {
          forall i, j | 0 <= i < j < |pages[1..]|
            ensures pages[1..][j].lastEditedTime <= pages[1..][i].lastEditedTime
          {
            assert pages[1..][i] == pages[i + 1] && pages[1..][j] == pages[j + 1];
          }
        }
        RecentPrefixIsPagesSince(pages[1..], endDate);
      }
    }
  }

  /**
   The discovery contract: when the page listing is newest first, the
   blocks found are exactly those found in every page edited at or after
   the cutoff, in listing order, however the listing is chunked.
   */
  lemma DiscoveryFindsEveryPageSinceCutoff(listing: seq<seq<Page>>, now: int)
    requires NewestFirst(Flatten(listing))
    ensures ScanListing(listing, EndDate(now)) == FoundInPages(PagesSince(Flatten(listing), EndDate(now)))
  {
    var endDate := EndDate(now);
    ScanListingIgnoresChunking(listing, endDate);
    ScanChunkSearchesRecentPrefix(Flatten(listing), endDate);
    RecentPrefixIsPagesSince(Flatten(listing), endDate);
  }

  lemma {:induction false} FoundInPagesSound(pages: seq<Page>, b: Block)
    requires b in FoundInPages(pages)
    ensures IsProcessable(b.blockType) && MatchCount(b.content.richText, MentionText) > 0
  {
    if b in FoundInListing(pages[0].blocks, MentionText) {
      FoundIffVisitedAndMatching(pages[0].blocks, b, MentionText);
    } else {
      FoundInPagesSound(pages[1..], b);
    }
  }

  /**
   Every block the discovery returns is of a processable type and has a
   segment holding the mention that is not struck through.
   */
  lemma ScanListingSound(listing: seq<seq<Page>>, endDate: int, b: Block)
    requires b in ScanListing(listing, endDate)
    ensures IsProcessable(b.blockType) && MatchCount(b.content.richText, MentionText) > 0
  {
    ScanListingIgnoresChunking(listing, endDate);
    ScanChunkSearchesRecentPrefix(Flatten(listing), endDate);
    FoundInPagesSound(RecentPrefix(Flatten(listing), endDate), b);
  }
}
