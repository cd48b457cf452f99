# SRS-block discovery and marking, modelled in Dafny

This project models the part of the Notion-to-Anki tool that finds the
blocks a user has tagged for flashcards and marks them processed
(`lib/notion_api.py`):

- **Date-windowed page scan.** The workspace's pages arrive newest first
  (sorted by last-edited time, descending), one chunk per page of search
  results. Each page is searched in turn. At the first page edited strictly
  before the cutoff (`SEARCH_PERIOD_DAYS` = 5 days before now), the scan
  stops the whole listing. A page edited exactly at the cutoff is still
  searched.
- **Recursive block search.** The search walks a page's paginated block tree
  depth first.
  - A block whose type is not one of the seven processable types is skipped
    together with its whole subtree.
  - A processable block is recorded once for every rich-text segment whose
    plain text contains the mention text `srs-item` and is not struck
    through. Two such segments record the block twice, because the segment
    loop has no `break`.
  - A processable block with children then has its children searched,
    whether or not the block itself matched.
- **Processed marker.** Marking sets `strikethrough` on every segment of the
  block, in place. An update request is then built that carries the block's
  content under the keyword named after its type. Any other type is a
  `ValueError`.

Modules and files:

- `notion_types.dfy` (`NotionTypes`): segments, blocks, block trees and
  pages; the constants `MentionText` and `BlockTypesToProcess`; Python's
  substring test `Contains`; the per-segment match count.
  - The Notion client is not modelled. A listing it would page through is
    given as data: `Chunk` is one page of a block-children listing, and
    `seq<Page>` is one page of the workspace search.
  - Timestamps are integers (seconds).
- `block_search.dfy` (`BlockSearch`): the search.
  - `FoundInTree`, `FoundInListing` and `FoundInChunk` specify it.
  - `SearchPageForBlocksContainingMention` is the loop-and-recursion code,
    proved equal to that specification.
  - `Visited…` and `Expand` give an independent description: the blocks the
    walk reaches (processable, every ancestor processable with
    `has_children`) in depth-first document order, each repeated once per
    matching segment.
- `page_scan.dfy` (`PageScan`): the two scanning loops (`FindSrsBlocksInChunk`,
  `FindSrsBlocks`) and their specifications (`ScanChunk`, `ScanListing`).
  On a newest-first listing, the early exit returns exactly the blocks of
  the pages edited at or after the cutoff.
- `block_marker.dfy` (`BlockMarker`): the update keyword dispatch, the marker
  as a function on values, and `MarkSrsBlockAsProcessed`, which changes a
  `NotionBlock` object's segment array in place.

## Model

| member | source | states |
|---|---|---|
| `NotionTypes.Contains` | lib/notion_api.py:267 | Python's `mention_text in plain_text`: true exactly when the mention occurs at some position of the text (the empty mention occurs everywhere) |
| `NotionTypes.MatchCountZeroIff` | lib/notion_api.py:265-270 | a block gets no entry of its own exactly when none of its segments both contains the mention and is not struck through |
| `BlockSearch.SearchPageForBlocksContainingMention` | lib/notion_api.py:247-279 | the nested loops over result pages, blocks and segments, with recursion into children, return exactly `FoundInListing`: non-processable blocks and their subtrees are skipped, a block is appended once per matching segment, then its children's results follow; pages of results are joined in order |
| `BlockSearch.FoundInTreeIsExpandedVisit` | lib/notion_api.py:256-278 | what the search records under a block is every block the walk reaches (itself processable, every ancestor processable with `has_children`; a non-processable block cuts off its whole subtree) in depth-first document order (the block before its descendants), each repeated once per segment holding an unprocessed mention |
| `BlockSearch.FoundInListingIsExpandedVisit` | lib/notion_api.py:248-278 | over a whole paginated children listing, the result is every block the walk reaches (processable, every ancestor processable with `has_children`) in depth-first document order, pages of results in order, each repeated once per segment holding an unprocessed mention |
| `BlockSearch.FoundInChunkIsExpandedVisit` | lib/notion_api.py:254-276 | over the blocks of one page of results, the result is every block the walk reaches from them (processable, every ancestor processable with `has_children`) in depth-first document order, each repeated once per segment holding an unprocessed mention |
| `BlockSearch.ListingMultiplicity` | lib/notion_api.py:265-278 | a block occurs in the result (number of times the walk visits it) × (number of its segments that contain the mention and are not struck through) times; a block visited once occurs exactly once per such segment |
| `BlockSearch.FoundIffVisitedAndMatching` | lib/notion_api.py:256-278 | a block is in the result if and only if the walk reaches it (all its ancestors processable and with children, itself processable) and at least one of its segments matches; every block found is of a processable type |
| `BlockSearch.PaginationInvisible` | lib/notion_api.py:248-254 | how a children listing is split into pages of results does not change what is found |
| `PageScan.EndDate` | lib/notion_api.py:54-55 | the cutoff lies exactly 432000 seconds (five days) before `now`, so a page edited at or after `now - 432000` is not older than it and one edited before is |
| `PageScan.FindSrsBlocksInChunk` | lib/notion_api.py:125-135 | the loop over one chunk of pages returns exactly `ScanChunk`: at the first page with `end_date > last_edited_time` it returns the blocks found so far and `True`; otherwise all pages' blocks in order and `False` |
| `PageScan.FindSrsBlocks` | lib/notion_api.py:54-71 | the loop over chunks returns exactly `ScanListing` at the cutoff computed from `now`: chunk results concatenated in order, stopping after the first chunk that signals a stop |
| `PageScan.RecentPrefix` | lib/notion_api.py:126-128 | the pages the chunk loop reaches: the longest prefix with no page older than the cutoff, followed (if anything follows) by an older page |
| `PageScan.ScanChunkSearchesRecentPrefix` | lib/notion_api.py:126-135 | a chunk's scan returns the blocks of exactly the pages before the first older one, in order, and signals a stop if and only if some page of the chunk is older than the cutoff |
| `PageScan.StopsAtFirstOlderPage` | lib/notion_api.py:126-128 | if page k is the first page older than the cutoff, the result is (blocks of pages 0..k-1, `True`): page k and every later page are not searched; a page exactly at the cutoff is not older |
| `PageScan.SearchesWholeChunkWhenAllRecent` | lib/notion_api.py:126-135 | if no page of the chunk is older than the cutoff, the result is (blocks of every page in order, `False`) |
| `PageScan.ScanChunkAppend` | lib/notion_api.py:126-135 | scanning two pieces of a page list one after the other (stopping at a signalled stop) equals scanning them joined |
| `PageScan.ScanListingIgnoresChunking` | lib/notion_api.py:60-69 | the result over a chunked listing equals the scan of all its pages joined into one chunk |
| `PageScan.NoChunkAfterStop` | lib/notion_api.py:66-69 | after a chunk that signals a stop, no later chunk affects the result |
| `PageScan.RecentPrefixIsPagesSince` | lib/notion_api.py:60-63 | on a listing sorted newest first, stopping at the first older page selects exactly the pages edited at or after the cutoff |
| `PageScan.DiscoveryFindsEveryPageSinceCutoff` | lib/notion_api.py:44-71 | on a newest-first listing, the discovery returns the blocks found in every page edited at or after the cutoff, in listing order, however the listing is chunked |
| `PageScan.ScanListingSound` | lib/notion_api.py:256-270 | every block the discovery returns is of a processable type and has a segment containing `srs-item` that is not struck through |
| `BlockMarker.UpdateBlockForDifferentBlockTypes` | lib/notion_api.py:309-333 | for each of the seven processable types the request carries the block id and the block's content under the keyword equal to the type; for any other type the result is the `ValueError` naming the type and the processable types |
| `BlockMarker.MarkedTextAt` | lib/notion_api.py:291-295 | marking keeps the number and order of segments, sets every segment's strikethrough and leaves every other field of every segment unchanged |
| `BlockMarker.MarkedTextIdempotent` | lib/notion_api.py:291-295 | marking twice gives the same rich text as marking once |
| `BlockMarker.MarkedTextHasNoMatch` | lib/notion_api.py:265-268 | after marking, no segment counts as an unprocessed mention |
| `BlockMarker.MarkedBlockNotRediscovered` | lib/notion_api.py:256-276 | a marked block is no longer recorded by a new search; only its children can still contribute |
| `BlockMarker.DiscoveredBlocksAreUpdatable` | lib/notion_api.py:33-41 | every block the discovery returns, marked or not, is accepted by the update dispatch (no `ValueError`) |
| `BlockMarker.MarkSrsBlockAsProcessed` | lib/notion_api.py:282-298 | the block's segment array is updated in place to its marked form (so the block's value becomes `Marked` of its old value), and the returned request is the dispatch applied to the updated block |

## Left out

- The Notion client (`notion.search`, `notion.blocks.children.list`,
  `notion.blocks.update`, `iterate_paginated_api`) is not part of this model.
  Listings are given as data: a page carries the chunked listing of its
  top-level blocks, and a block tree carries the chunked listing of its
  children. `SearchPageForBlocksContainingMention` therefore takes that
  listing rather than a block id.
- `BlockMarker.MarkSrsBlockAsProcessed` and
  `BlockMarker.UpdateBlockForDifferentBlockTypes` return the update request
  that would be sent, not the API's response to it. Transport failures of
  the update call are not modelled.
- `datetime.now`, `timedelta` and ISO timestamp parsing are not modelled.
  `now` is a parameter, and timestamps and the cutoff are integers (seconds).
- Environment loading, logging setup and the debug `print` of the cutoff are
  left out: they have no effect on results.
- Aliasing is not modelled. In the source, the segment dictionaries changed
  by the marker are the same objects that the search's result list refers
  to. Here the search returns values, and only the `NotionBlock` object's
  array changes.
- The reassignment of `rich_text` to a new list holding the same, already
  updated segments is modelled as the in-place update of the segment array.
  The two are equivalent.
- Segments and block contents keep only the fields the core reads or
  changes. A segment keeps its `type`, `plain_text`, `href` and
  `annotations`, and drops its type-specific payload (`text`, `mention`,
  `equation`). A block's content keeps `rich_text` and `color`, and drops
  other fields such as `is_toggleable` on headings. The source passes these
  on to the update call unchanged, so the model's update request carries
  only the kept fields.
- A missing dictionary key (`KeyError`), such as a processable block without
  `rich_text`, is not modelled. Every block value carries a rich-text list.
- `lib/intelligence.py` is not part of this model. It is a call to a
  text-generation service plus prompt strings.
- `main.py` is not part of this model. It is glue that calls code not shown.
- `lib/anki_utils.py` is not part of this model. It holds a record type and
  an empty stub.
