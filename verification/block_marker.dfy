/**
 Marking a found block as processed, and the update request that writes it
 back.  The block object is changed in place: every rich-text segment gets
 its strikethrough annotation set, which is what later searches read as
 "already processed".  The update request carries the block's content
 under the keyword named after the block's type; any other type is a
 `ValueError`.
 */
module BlockMarker {
  import opened NotionTypes
  import opened BlockSearch
  import opened PageScan

  // ---------------------------------------------------------------------
  // The update request and its keyword dispatch

  /** The keyword argument of the block update call that carries the content. */
  datatype UpdateField =
    | Paragraph
    | BulletedListItem
    | Heading1
    | Heading2
    | Heading3
    | NumberedListItem
    | Toggle

  function KeywordName(f: UpdateField): string {
    match f
    case Paragraph => "paragraph"
    case BulletedListItem => "bulleted_list_item"
    case Heading1 => "heading_1"
    case Heading2 => "heading_2"
    case Heading3 => "heading_3"
    case NumberedListItem => "numbered_list_item"
    case Toggle => "toggle"
  }

  /** What is sent to the block update call: the block id and the content under one keyword. */
  datatype UpdateRequest = UpdateRequest(blockId: string, field: UpdateField, content: Content)

  /** The `ValueError` raised for a block type the update does not handle. */
  datatype UpdateError = UnexpectedBlockType(blockType: string, expected: seq<string>)

  /**
   Choose the keyword for the block's type and build the update request;
   a type outside the processable ones is an error.
   */
  function UpdateBlockForDifferentBlockTypes(b: Block): (r: Result<UpdateRequest, UpdateError>)
    ensures r.Ok? <==> IsProcessable(b.blockType)
    ensures r.Ok? ==> r.value.blockId == b.id && r.value.content == b.content
                      && KeywordName(r.value.field) == b.blockType
    ensures r.Err? ==> r.error == UnexpectedBlockType(b.blockType, BlockTypesToProcess)
  {
    var t := b.blockType;
    if t == "paragraph" then Ok(UpdateRequest(b.id, Paragraph, b.content))
    else if t == "bulleted_list_item" then Ok(UpdateRequest(b.id, BulletedListItem, b.content))
    else if t == "heading_1" then Ok(UpdateRequest(b.id, Heading1, b.content))
    else if t == "heading_2" then Ok(UpdateRequest(b.id, Heading2, b.content))
    else if t == "heading_3" then Ok(UpdateRequest(b.id, Heading3, b.content))
    else if t == "numbered_list_item" then Ok(UpdateRequest(b.id, NumberedListItem, b.content))
    else if t == "toggle" then Ok(UpdateRequest(b.id, Toggle, b.content))
    else Err(UnexpectedBlockType(t, BlockTypesToProcess))
  }

  // ---------------------------------------------------------------------
  // The processed marker, on values

  /** A segment with its strikethrough set and nothing else changed. */
  function Struck(seg: Segment): Segment {
    seg.(annotations := seg.annotations.(strikethrough := true))
  }

  /** Every segment struck, in order. */
  function MarkedText(segs: seq<Segment>): seq<Segment>
  {
    if segs == [] then [] else MarkedText(segs[..|segs| - 1]) + [Struck(segs[|segs| - 1])]
  }

  /** The block with its whole rich text marked. */
  function Marked(b: Block): Block {
    b.(content := b.content.(richText := MarkedText(b.content.richText)))
  }

  /** Two segments that agree on everything but possibly the strikethrough. */
  predicate SameButStrikethrough(s: Segment, t: Segment) {
    && s.kind == t.kind && s.plainText == t.plainText && s.href == t.href
    && s.annotations.bold == t.annotations.bold && s.annotations.italic == t.annotations.italic
    && s.annotations.underline == t.annotations.underline && s.annotations.code == t.annotations.code
    && s.annotations.color == t.annotations.color
  }

  /**
   Marking keeps the number and the order of the segments, sets every
   strikethrough and changes nothing else in any segment.
   */
  lemma {:induction false} MarkedTextAt(segs: seq<Segment>, k: nat)
    requires k < |segs|
    ensures |MarkedText(segs)| == |segs|
    ensures MarkedText(segs)[k].annotations.strikethrough
    ensures SameButStrikethrough(MarkedText(segs)[k], segs[k])
  {
    var init := segs[..|segs| - 1];
    if k < |init| {
      MarkedTextAt(init, k);
    } else if init != [] {
      MarkedTextAt(init, 0);
    }
  }

  /** Marking a block twice gives the same block as marking it once. */
  lemma {:induction false} MarkedTextIdempotent(segs: seq<Segment>)
    ensures MarkedText(MarkedText(segs)) == MarkedText(segs)
  {
    if segs != [] {
      var init := segs[..|segs| - 1];
      var m := MarkedText(segs);
      MarkedTextIdempotent(init);
      MarkedTextAt(segs, |segs| - 1);
      assert m[..|m| - 1] == MarkedText(init);
    }
  }

  /** No segment of a marked rich text holds an unprocessed mention. */
  lemma {:induction false} MarkedTextHasNoMatch(segs: seq<Segment>, mention: string)
    ensures MatchCount(MarkedText(segs), mention) == 0
  {
    if segs != [] {
      var init := segs[..|segs| - 1];
      var m := MarkedText(segs);
      MarkedTextHasNoMatch(init, mention);
      assert m[..|m| - 1] == MarkedText(init);
    }
  }

  /**
   Once a block is marked, searching again records it no more; only its
   children (if it has any and is of a processable type) can still
   contribute.
   */
  lemma MarkedBlockNotRediscovered(t: Tree, mention: string)
    ensures FoundInTree(Node(Marked(t.block), t.children), mention)
         == if IsProcessable(t.block.blockType) && t.block.hasChildren
            then FoundInListing(t.children, mention) else []
  {
    MarkedTextHasNoMatch(t.block.content.richText, mention);
  }

  /** Every block the discovery returns is accepted by the update dispatch. */
  lemma DiscoveredBlocksAreUpdatable(listing: seq<seq<Page>>, now: int, b: Block)
    requires b in ScanListing(listing, EndDate(now))
    ensures UpdateBlockForDifferentBlockTypes(b).Ok?
    ensures UpdateBlockForDifferentBlockTypes(Marked(b)).Ok?
  {
    ScanListingSound(listing, EndDate(now), b);
  }

  // ---------------------------------------------------------------------
  // The processed marker, in place

  /** A block object whose rich text the marker changes in place. */
  class NotionBlock {
    const id: string
    const blockType: string
    const color: string
    const hasChildren: bool
    const richText: array<Segment>

    /** The block's current value. */
    function Snapshot(): Block
      reads this, richText
    {
      Block(id, blockType, Content(richText[..], color), hasChildren)
    }

    constructor FromBlock(b: Block)
      ensures Snapshot() == b && fresh(richText)
    {
      id, blockType, color, hasChildren := b.id, b.blockType, b.content.color, b.hasChildren;
      richText := new Segment[|b.content.richText|](i requires 0 <= i < |b.content.richText| => b.content.richText[i]);
    }
  }

  /**
   Strike through every segment of the block in place, then build the
   update request for the block's new value.
   */
  method MarkSrsBlockAsProcessed(block: NotionBlock) returns (r: Result<UpdateRequest, UpdateError>)
    modifies block.richText
    ensures block.richText[..] == MarkedText(old(block.richText[..]))
    ensures block.Snapshot() == Marked(old(block.Snapshot()))
    ensures r == UpdateBlockForDifferentBlockTypes(block.Snapshot())
  {
    ghost var before := block.richText[..];
    for i := 0 to block.richText.Length
      invariant block.richText[..i] == MarkedText(before[..i])
      invariant block.richText[i..] == before[i..]
    {
      assert before[..i + 1][..i] == before[..i];
      assert block.richText[i] == before[i] by {
        assert block.richText[i..][0] == block.richText[i];
      }
      block.richText[i] := Struck(block.richText[i]);
      assert block.richText[..i + 1] == block.richText[..i] + [block.richText[i]];
    }
    assert before[..block.richText.Length] == before;
    assert block.richText[..block.richText.Length] == block.richText[..];
    r := UpdateBlockForDifferentBlockTypes(block.Snapshot());
  }
}
