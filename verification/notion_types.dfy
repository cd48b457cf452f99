/**
 The values the Notion API hands to the SRS-block discovery code: rich-text
 segments, block payloads, block trees with paginated children, and pages
 with their last-edited timestamp.  The Notion client is not modelled: a
 listing that the client would page through is given here as data, one
 `...Chunk` value per page of results.
 */
module NotionTypes {

  datatype Option<T> = None | Some(value: T)

  datatype Result<T, E> = Ok(value: T) | Err(error: E)

  /** The text the author types into a block to ask for a flashcard. */
  const MentionText: string := "srs-item"

  /** Block types whose rich text is scanned and whose children are visited. */
  const BlockTypesToProcess: seq<string> := [
    "paragraph",
    "bulleted_list_item",
    "heading_1",
    "heading_2",
    "heading_3",
    "numbered_list_item",
    "toggle"
  ]

  predicate IsProcessable(blockType: string) {
    blockType in BlockTypesToProcess
  }

  /** The `annotations` object of a rich-text segment. */
  datatype Annotations = Annotations(
    bold: bool,
    italic: bool,
    strikethrough: bool,
    underline: bool,
    code: bool,
    color: string)

  /**
   One rich-text segment of a block (plain text, a mention, an equation...),
   without its type-specific payload object.
   */
  datatype Segment = Segment(
    kind: string,
    plainText: string,
    href: Option<string>,
    annotations: Annotations)

  /**
   The object stored under the block's type name, reduced to its rich text
   and colour (other type-specific fields are not modelled).
   */
  datatype Content = Content(richText: seq<Segment>, color: string)

  /** A block as returned by one call of the block-children listing. */
  datatype Block = Block(
    id: string,
    blockType: string,
    content: Content,
    hasChildren: bool)

  /**
   A block together with the listing of its children, one `Chunk` per page
   of results.  The listing is consulted only when `block.hasChildren`.
   */
  datatype Tree = Node(block: Block, children: seq<Chunk>)

  /** One page of results of a block-children listing. */
  datatype Chunk = Chunk(items: seq<Tree>)

  /**
   A Notion page: its id, its last-edited time (an integer timestamp; larger
   is more recent) and the listing of its top-level blocks.
   */
  datatype Page = Page(id: string, lastEditedTime: int, blocks: seq<Chunk>)

  /** `sub` occurs in `s` starting at index `i`. */
  ghost predicate OccursAt(s: string, sub: string, i: nat) {
    i + |sub| <= |s| && s[i..i + |sub|] == sub
  }

  /** Python's substring test `sub in s`. */
  function Contains(s: string, sub: string): (r: bool)
    ensures r <==> exists i: nat :: OccursAt(s, sub, i)
    decreases |s|
  {
    if |sub| > |s| then
      false
    else if s[..|sub|] == sub then
      assert OccursAt(s, sub, 0);
      true
    else
      var rest := Contains(s[1..], sub);
      assert rest ==> exists i: nat :: OccursAt(s, sub, i) by {
        if rest {
          var j: nat :| OccursAt(s[1..], sub, j);
          assert s[j + 1..j + 1 + |sub|] == s[1..][j..j + |sub|];
          assert OccursAt(s, sub, j + 1);
        }
      }
      assert (exists i: nat :: OccursAt(s, sub, i)) ==> rest by {
        if exists i: nat :: OccursAt(s, sub, i) {
          var i: nat :| OccursAt(s, sub, i);
          assert i != 0;
          assert s[1..][i - 1..i - 1 + |sub|] == s[i..i + |sub|];
          assert OccursAt(s[1..], sub, i - 1);
        }
      }
      rest
  }

  /**
   The test applied to each segment of a processable block: the segment's
   plain text contains the mention and the segment is not struck through
   (the strikethrough is the "already processed" marker).
   */
  predicate IsUnprocessedMention(seg: Segment, mention: string) {
    Contains(seg.plainText, mention) && !seg.annotations.strikethrough
  }

  /** How many segments of `segs` pass `IsUnprocessedMention`. */
  function MatchCount(segs: seq<Segment>, mention: string): (n: nat)
    ensures n <= |segs|
  {
    if segs == [] then 0
    else
      var last := segs[|segs| - 1];
      MatchCount(segs[..|segs| - 1], mention) + (if IsUnprocessedMention(last, mention) then 1 else 0)
  }

  /** No segment is counted exactly when no segment holds an unprocessed mention. */
  lemma {:induction false} MatchCountZeroIff(segs: seq<Segment>, mention: string)
    ensures MatchCount(segs, mention) == 0
        <==> forall k :: 0 <= k < |segs| ==> !IsUnprocessedMention(segs[k], mention)
  {
    if segs != [] {
      var init := segs[..|segs| - 1];
      MatchCountZeroIff(init, mention);
      assert forall k :: 0 <= k < |init| ==> init[k] == segs[k];
    }
  }

  /** `n` copies of `b`. */
  function Repeat(b: Block, n: nat): (r: seq<Block>)
    ensures |r| == n
  {
    if n == 0 then [] else Repeat(b, n - 1) + [b]
  }
}
