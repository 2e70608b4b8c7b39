/**
 * The tag editor shared by the upload forms and the `FirmwareTags` component: adding
 * the trimmed input when it is non-empty and not yet listed, and removing every
 * occurrence of a tag.
 */
module Tags {
  import opened Common
  import opened Text

  /**
   * `addTag`: the new tag list, or nothing when the trimmed input is empty or already
   * listed (then neither the tags nor the input change).
   */
  function TagsAfterAdd(tags: seq<string>, currentTag: string): (r: Option<seq<string>>)
    ensures r.Some? <==> Trim(currentTag) != "" && Trim(currentTag) !in tags
    ensures r.Some? ==> r.value == tags + [Trim(currentTag)]
  {
    var tag := Trim(currentTag);
    if tag != "" && tag !in tags then Some(tags + [tag]) else None
  }

  function Differs(tag: string): string -> bool {
    t => t != tag
  }

  /** `removeTag`: every occurrence of `tag` goes, the other tags stay in order with their counts. */
  function TagsAfterRemove(tags: seq<string>, tag: string): (r: seq<string>)
    ensures tag !in r
    ensures forall t :: t != tag ==> multiset(r)[t] == multiset(tags)[t]
    ensures IsSubsequence(r, tags)
  {
    FilterIsSubsequence(tags, Differs(tag));
    Filter(tags, Differs(tag))
  }

  /** Adding keeps a duplicate-free list duplicate-free. */
  lemma AddTagKeepsDistinct(tags: seq<string>, currentTag: string)
    requires NoDuplicates(tags)
    ensures TagsAfterAdd(tags, currentTag).Some? ==> NoDuplicates(TagsAfterAdd(tags, currentTag).value)
  {
    if TagsAfterAdd(tags, currentTag).Some? {
      var r := TagsAfterAdd(tags, currentTag).value;
      var tag := Trim(currentTag);
      forall i, j | 0 <= i < j < |r|
        ensures r[i] != r[j]
      {
        if j == |tags| {
          assert r[i] == tags[i];
        } else {
          assert r[i] == tags[i] && r[j] == tags[j];
        }
      }
    }
  }

  /** Every tag the editor adds is trimmed and non-empty. */
  lemma AddedTagIsTrimmed(tags: seq<string>, currentTag: string)
    requires TagsAfterAdd(tags, currentTag).Some?
    ensures var t := Last(TagsAfterAdd(tags, currentTag).value);
      t != "" && Trim(t) == t
  {
    TrimIdempotent(currentTag);
  }

  /** Removing a tag the list does not hold changes nothing. */
  lemma RemoveAbsentTag(tags: seq<string>, tag: string)
    requires tag !in tags
    ensures TagsAfterRemove(tags, tag) == tags
  {
    FilterAll(tags, Differs(tag));
  }

  /** Adding a fresh, already trimmed tag and removing it again gives back the list. */
  lemma AddThenRemove(tags: seq<string>, tag: string)
    requires tag != "" && Trim(tag) == tag && tag !in tags
    ensures TagsAfterAdd(tags, tag) == Some(tags + [tag])
    ensures TagsAfterRemove(tags + [tag], tag) == tags
  {
    FilterAll(tags, Differs(tag));
    FilterAppendRejected(tags, tag, Differs(tag));
  }

  /** The `FirmwareTags` component: the tags it is given and its own input. */
  class TagEditor {
    var tags: seq<string>
    var currentTag: string

    constructor (tags: seq<string>)
      ensures this.tags == tags && currentTag == ""
    {
      this.tags := tags;
      currentTag := "";
    }

    method SetCurrentTag(input: string)
      modifies this
      ensures currentTag == input && tags == old(tags)
    {
      currentTag := input;
    }

    /** `addTag`: the longer list is emitted and the input cleared, or nothing changes. */
    method AddTag()
      modifies this
      ensures old(TagsAfterAdd(tags, currentTag)).Some? ==>
        tags == old(TagsAfterAdd(tags, currentTag)).value && currentTag == ""
      ensures old(TagsAfterAdd(tags, currentTag)).None? ==>
        tags == old(tags) && currentTag == old(currentTag)
    {
      var tag := Trim(currentTag);
      if tag != "" && tag !in tags {
        tags := tags + [tag];
        currentTag := "";
      }
    }

    /** `removeTag(tag)`: the list without `tag`; the input is left alone. */
    method RemoveTag(tag: string)
      modifies this
      ensures tags == TagsAfterRemove(old(tags), tag) && currentTag == old(currentTag)
    {
      tags := Filter(tags, Differs(tag));
    }
  }
}
