/**
 The recursive search of one page (or block) for blocks that carry an
 unprocessed mention: a depth-first walk over the paginated block tree.

 `FoundIn...` is the specification of the search, one function per level
 of the data (a tree, one page of a listing, a whole listing);
 `SearchPageForBlocksContainingMention` is the search itself, loops and
 recursion as in the source, proved equal to it.  `Visited...` and
 `Expand` give an independent description of the same result: the blocks
 the walk reaches (processable, every ancestor processable with
 `hasChildren`) in depth-first document order, each repeated once per
 matching segment.
 */
module BlockSearch {
  import opened NotionTypes

  /** What the search records for one block and its subtree. */
  function FoundInTree(t: Tree, mention: string): seq<Block>
    decreases t
  {
    if !IsProcessable(t.block.blockType) then
      []
    else
      Repeat(t.block, MatchCount(t.block.content.richText, mention))
      + (if t.block.hasChildren then FoundInListing(t.children, mention) else [])
  }

  /** What the search records for a whole (paginated) children listing. */
  function FoundInListing(listing: seq<Chunk>, mention: string): seq<Block>
    decreases listing
  {
    if listing == [] then []
    else FoundInListing(listing[..|listing| - 1], mention) + FoundInChunk(listing[|listing| - 1].items, mention)
  }

  /** What the search records for the blocks of one page of a listing. */
  function FoundInChunk(blocks: seq<Tree>, mention: string): seq<Block>
    decreases blocks
  {
    if blocks == [] then []
    else FoundInChunk(blocks[..|blocks| - 1], mention) + FoundInTree(blocks[|blocks| - 1], mention)
  }

  /**
   The search over the children listing of one page or block.  Blocks of a
   type that is not processable are skipped together with their subtree;
   a processable block is appended once for every segment that holds an
   unprocessed mention, and then, if it has children, the results of
   searching its children follow.
   */
  method SearchPageForBlocksContainingMention(listing: seq<Chunk>, mention: string)
    returns (found: seq<Block>)
    ensures found == FoundInListing(listing, mention)
    decreases listing
  {
    found := [];
    for i := 0 to |listing|
      invariant found == FoundInListing(listing[..i], mention)
    {
      var blocks := listing[i].items;
      var some: seq<Block> := [];
      for j := 0 to |blocks|
        invariant some == FoundInChunk(blocks[..j], mention)
      {
        var t := blocks[j];
        assert FoundInChunk(blocks[..j + 1], mention) == some + FoundInTree(t, mention) by {
          assert blocks[..j + 1][..j] == blocks[..j];
        }
        var block := t.block;
        if !IsProcessable(block.blockType) {
          continue;
        }
        ghost var before := some;
        var segs := block.content.richText;
        for k := 0 to |segs|
          invariant some == before + Repeat(block, MatchCount(segs[..k], mention))
        {
          MatchCountStep(segs, k, mention);
          if IsUnprocessedMention(segs[k], mention) {
            RepeatSnoc(before, block, MatchCount(segs[..k], mention));
            some := some + [block];
          }
        }
        assert segs[..|segs|] == segs;
        if block.hasChildren {
          var sub := SearchPageForBlocksContainingMention(t.children, mention);
          AppendAssoc(before, Repeat(block, MatchCount(segs, mention)), sub);
          some := some + sub;
        }
        assert some == before + FoundInTree(t, mention);
      }
      assert blocks[..|blocks|] == blocks;
      assert listing[..i + 1][..i] == listing[..i];
      found := found + some;
    }
    assert listing[..|listing|] == listing;
  }

  /** Joining results is associative (used to keep the proofs above small). */
  lemma AppendAssoc(a: seq<Block>, b: seq<Block>, c: seq<Block>)
    ensures a + b + c == a + (b + c)
  {
  }

  /** One more copy of `b` after `pre + Repeat(b, n)`. */
  lemma RepeatSnoc(pre: seq<Block>, b: Block, n: nat)
    ensures pre + Repeat(b, n) + [b] == pre + Repeat(b, n + 1)
  {
  }

  /** Counting one more segment adds one exactly when that segment matches. */
  lemma MatchCountStep(segs: seq<Segment>, k: nat, mention: string)
    requires k < |segs|
    ensures MatchCount(segs[..k + 1], mention)
         == MatchCount(segs[..k], mention) + (if IsUnprocessedMention(segs[k], mention) then 1 else 0)
  {
    assert segs[..k + 1][..k] == segs[..k];
  }

  // ---------------------------------------------------------------------
  // An independent description: visit, then expand

  /**
   The blocks the walk reaches, in depth-first document order: each is
   processable and so is every ancestor, which also has `hasChildren`.
   */
  function VisitedTree(t: Tree): seq<Block>
    decreases t
  {
    if !IsProcessable(t.block.blockType) then []
    else [t.block] + (if t.block.hasChildren then VisitedListing(t.children) else [])
  }

  function VisitedListing(listing: seq<Chunk>): seq<Block>
    decreases listing
  {
    if listing == [] then []
    else VisitedListing(listing[..|listing| - 1]) + VisitedChunk(listing[|listing| - 1].items)
  }

  function VisitedChunk(blocks: seq<Tree>): seq<Block>
    decreases blocks
  {
    if blocks == [] then []
    else VisitedChunk(blocks[..|blocks| - 1]) + VisitedTree(blocks[|blocks| - 1])
  }

  /** Each block of `v`, in order, repeated once per matching segment. */
  function Expand(v: seq<Block>, mention: string): seq<Block>
  {
    if v == [] then []
    else
      var b := v[|v| - 1];
      Expand(v[..|v| - 1], mention) + Repeat(b, MatchCount(b.content.richText, mention))
  }

  lemma {:induction false} ExpandAppend(a: seq<Block>, b: seq<Block>, mention: string)
    ensures Expand(a + b, mention) == Expand(a, mention) + Expand(b, mention)
    decreases |b|
  {
    if b == [] {
      assert a + b == a;
    } else {
      var b', last := b[..|b| - 1], b[|b| - 1];
      assert (a + b)[..|a + b| - 1] == a + b';
      ExpandAppend(a, b', mention);
      AppendAssoc(Expand(a, mention), Expand(b', mention), Repeat(last, MatchCount(last.content.richText, mention)));
    }
  }

  /**
   The search result is the visit order expanded: every visited block,
   in depth-first document order, once per segment holding an unprocessed
   mention.
   */
  lemma {:induction false} FoundInTreeIsExpandedVisit(t: Tree, mention: string)
    ensures FoundInTree(t, mention) == Expand(VisitedTree(t), mention)
    decreases t
  {
    if IsProcessable(t.block.blockType) {
      var own := Repeat(t.block, MatchCount(t.block.content.richText, mention));
      assert Expand([t.block], mention) == own by {
        assert [t.block][..0] == [];
      }
      if t.block.hasChildren {
        FoundInListingIsExpandedVisit(t.children, mention);
        ExpandAppend([t.block], VisitedListing(t.children), mention);
      } else {
        assert [t.block] + [] == [t.block];
      }
    }
  }

  lemma {:induction false} FoundInListingIsExpandedVisit(listing: seq<Chunk>, mention: string)
    ensures FoundInListing(listing, mention) == Expand(VisitedListing(listing), mention)
    decreases listing
  {
    if listing != [] {
      var init := listing[..|listing| - 1];
      var last := listing[|listing| - 1].items;
      FoundInListingIsExpandedVisit(init, mention);
      FoundInChunkIsExpandedVisit(last, mention);
      ExpandAppend(VisitedListing(init), VisitedChunk(last), mention);
    }
  }

  lemma {:induction false} FoundInChunkIsExpandedVisit(blocks: seq<Tree>, mention: string)
    ensures FoundInChunk(blocks, mention) == Expand(VisitedChunk(blocks), mention)
    decreases blocks
  {
    if blocks != [] {
      var init := blocks[..|blocks| - 1];
      var last := blocks[|blocks| - 1];
      FoundInChunkIsExpandedVisit(init, mention);
      FoundInTreeIsExpandedVisit(last, mention);
      ExpandAppend(VisitedChunk(init), VisitedTree(last), mention);
    }
  }

  // ---------------------------------------------------------------------
  // Multiplicity: how often a block is recorded

  lemma {:induction false} RepeatMultiplicity(b: Block, n: nat, x: Block)
    ensures multiset(Repeat(b, n))[x] == if x == b then n else 0
  {
    if n > 0 {
      RepeatMultiplicity(b, n - 1, x);
      assert multiset(Repeat(b, n)) == multiset(Repeat(b, n - 1)) + multiset{b};
    }
  }

  lemma {:induction false} ExpandMultiplicity(v: seq<Block>, x: Block, mention: string)
    ensures multiset(Expand(v, mention))[x] == multiset(v)[x] * MatchCount(x.content.richText, mention)
  {
    if v != [] {
      var init, b := v[..|v| - 1], v[|v| - 1];
      var n := MatchCount(b.content.richText, mention);
      ExpandMultiplicity(init, x, mention);
      RepeatMultiplicity(b, n, x);
      LastMultiplicity(v, x, mention);
      CountStep(multiset(Expand(init, mention))[x], multiset(Repeat(b, n))[x],
                multiset(init)[x], MatchCount(x.content.richText, mention), multiset(v)[x], x == b);
    }
  }

  /** The last block of `v` adds its occurrences in the visit and in the expansion. */
  lemma LastMultiplicity(v: seq<Block>, x: Block, mention: string)
    requires v != []
    ensures multiset(v)[x] == multiset(v[..|v| - 1])[x] + (if x == v[|v| - 1] then 1 else 0)
    ensures multiset(Expand(v, mention))[x]
         == multiset(Expand(v[..|v| - 1], mention))[x]
          + multiset(Repeat(v[|v| - 1], MatchCount(v[|v| - 1].content.richText, mention)))[x]
  {
    assert v == v[..|v| - 1] + [v[|v| - 1]];
  }

  /** One more occurrence of a block adds its match count once more. */
  lemma CountStep(a: nat, r: nat, m: nat, c: nat, t: nat, isB: bool)
    requires a == m * c
    requires r == if isB then c else 0
    requires t == m + if isB then 1 else 0
    ensures a + r == t * c
  {
  }

  /**
   A block is recorded once for every time the walk visits it times the
   number of its segments holding an unprocessed mention; in particular a
   block visited once (block ids are unique in a workspace) is recorded
   exactly as many times as it has such segments.
   */
  lemma {:induction false} ListingMultiplicity(listing: seq<Chunk>, x: Block, mention: string)
    ensures multiset(FoundInListing(listing, mention))[x]
         == multiset(VisitedListing(listing))[x] * MatchCount(x.content.richText, mention)
  {
    FoundInListingIsExpandedVisit(listing, mention);
    ExpandMultiplicity(VisitedListing(listing), x, mention);
  }

  lemma {:induction false} VisitedTreeProcessable(t: Tree)
    ensures forall b :: b in VisitedTree(t) ==> IsProcessable(b.blockType)
    decreases t
  {
    if IsProcessable(t.block.blockType) && t.block.hasChildren {
      VisitedListingProcessable(t.children);
    }
  }

  lemma {:induction false} VisitedListingProcessable(listing: seq<Chunk>)
    ensures forall b :: b in VisitedListing(listing) ==> IsProcessable(b.blockType)
    decreases listing
  {
    if listing != [] {
      VisitedListingProcessable(listing[..|listing| - 1]);
      VisitedChunkProcessable(listing[|listing| - 1].items);
    }
  }

  lemma {:induction false} VisitedChunkProcessable(blocks: seq<Tree>)
    ensures forall b :: b in VisitedChunk(blocks) ==> IsProcessable(b.blockType)
    decreases blocks
  {
    if blocks != [] {
      VisitedChunkProcessable(blocks[..|blocks| - 1]);
      VisitedTreeProcessable(blocks[|blocks| - 1]);
    }
  }

  /**
   A block is in the search result exactly when the walk visits it and at
   least one of its segments holds an unprocessed mention; every block
   found is of a processable type.
   */
  lemma FoundIffVisitedAndMatching(listing: seq<Chunk>, x: Block, mention: string)
    ensures x in FoundInListing(listing, mention)
        <==> x in VisitedListing(listing) && MatchCount(x.content.richText, mention) > 0
    ensures x in FoundInListing(listing, mention) ==> IsProcessable(x.blockType)
  {
    ListingMultiplicity(listing, x, mention);
    VisitedListingProcessable(listing);
    var m := multiset(VisitedListing(listing))[x];
    var c := MatchCount(x.content.richText, mention);
    ProductPositive(m, c);
  }

  /** A product of counts is positive exactly when both counts are. */
  lemma ProductPositive(m: nat, c: nat)
    ensures m * c > 0 <==> m > 0 && c > 0
  {
  }

  // ---------------------------------------------------------------------
  // Pagination does not show in the result

  /** All blocks of a listing, pages of results joined in order. */
  function ListingItems(listing: seq<Chunk>): seq<Tree>
  {
    if listing == [] then [] else ListingItems(listing[..|listing| - 1]) + listing[|listing| - 1].items
  }

  lemma {:induction false} FoundInChunkAppend(a: seq<Tree>, b: seq<Tree>, mention: string)
    ensures FoundInChunk(a + b, mention) == FoundInChunk(a, mention) + FoundInChunk(b, mention)
    decreases |b|
  {
    if b == [] {
      assert a + b == a;
    } else {
      var b' := b[..|b| - 1];
      assert (a + b)[..|a + b| - 1] == a + b';
      FoundInChunkAppend(a, b', mention);
      AppendAssoc(FoundInChunk(a, mention), FoundInChunk(b', mention), FoundInTree(b[|b| - 1], mention));
    }
  }

  /**
   How the children listing is split into pages of results does not
   change what is found: the listing is searched as if it were one list.
   */
  lemma {:induction false} PaginationInvisible(listing: seq<Chunk>, mention: string)
    ensures FoundInListing(listing, mention) == FoundInChunk(ListingItems(listing), mention)
  {
    if listing != [] {
      var init := listing[..|listing| - 1];
      PaginationInvisible(init, mention);
      FoundInChunkAppend(ListingItems(init), listing[|listing| - 1].items, mention);
    }
  }
}
