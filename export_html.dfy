/**
 * `ExportAsHtmlDocProcessor` of `kodex-common/.../defaultProcessors/ExportAsHtmlDocProcessor.kt`:
 * `@exportAsHtmlStart` and `@exportAsHtmlEnd` are stripped from the doc, and
 * the line they stood on is recorded on the (mutable) documentable.
 */
module ExportAsHtml {
  import opened Wrappers
  import opened Text
  import opened TagNames
  import opened Documentables

  const ExportAsHtmlStart: string := "exportAsHtmlStart"
  const ExportAsHtmlEnd: string := "exportAsHtmlEnd"

  const NotMutable: Failure := IllegalArgument("DocumentableWrapper must be MutableDocumentableWrapper to use this processor.")

  /** `indexOfFirst { it.contains(needle) }` */
  function FirstLineWith(lines: seq<string>, needle: string): (k: int)
    ensures -1 <= k < |lines|
    ensures k == -1 <==> forall j :: 0 <= j < |lines| ==> !Contains(lines[j], needle)
    ensures k >= 0 ==> Contains(lines[k], needle) && forall j :: 0 <= j < k ==> !Contains(lines[j], needle)
  {
    if lines == [] then -1
    else if Contains(lines[0], needle) then 0
    else
      var k := FirstLineWith(lines[1..], needle);
      assert forall j :: 0 < j < |lines| ==> lines[j] == lines[1..][j - 1];
      if k == -1 then -1 else k + 1
  }

  /** Lines 80-86: the documentable with the line of `@tag` recorded for the start or end tag. */
  function WithHtmlRange(d: Documentable, tag: string): Documentable {
    var lineInDoc := FirstLineWith(Lines(d.docContent), "@" + tag);
    if tag == ExportAsHtmlStart then d.(htmlRangeStart := Some(lineInDoc))
    else if tag == ExportAsHtmlEnd then d.(htmlRangeEnd := Some(lineInDoc))
    else d
  }

  /** `updateHtmlRangeInDoc` (lines 76-87). */
  method UpdateHtmlRangeInDoc(tag: string, documentable: DocumentableWrapper) returns (r: Result<()>)
    modifies documentable
    ensures !documentable.isMutable ==> r == Err(NotMutable) && documentable.doc == old(documentable.doc)
    ensures documentable.isMutable ==> r == Ok(()) && documentable.doc == WithHtmlRange(old(documentable.doc), tag)
  {
    if !documentable.isMutable {
      return Err(NotMutable);
    }
    documentable.doc := WithHtmlRange(documentable.doc, tag);
    r := Ok(());
  }

  /** Line 61: the block tag's content, `@tag` taken off after the leading whitespace. */
  function BlockContent(tagWithContent: string, tag: string): string {
    RemovePrefix(TrimStart(tagWithContent), "@" + tag)
  }

  /** Line 72: the inline tag's content, without `{@tag` and the closing `}`. */
  function InlineContent(tagWithContent: string, tag: string): string {
    RemoveSuffix(RemovePrefix(tagWithContent, "{@" + tag), "}")
  }

  /** `processBlockTagWithContent` (lines 54-63). */
  method ProcessBlockTagWithContent(tagWithContent: string, path: string, documentable: DocumentableWrapper)
    returns (r: Result<string>)
    modifies documentable
    ensures GetTagNameOrNull(tagWithContent).None? ==> r == Ok(tagWithContent) && documentable.doc == old(documentable.doc)
    ensures GetTagNameOrNull(tagWithContent).Some? ==> var tag := GetTagNameOrNull(tagWithContent).value;
      && (!documentable.isMutable ==> r == Err(NotMutable) && documentable.doc == old(documentable.doc))
      && (documentable.isMutable ==> r == Ok(BlockContent(tagWithContent, tag))
                                     && documentable.doc == WithHtmlRange(old(documentable.doc), tag))
  {
    var name := GetTagNameOrNull(tagWithContent);
    if name.None? {
      return Ok(tagWithContent);
    }
    var tag := name.value;
    var updated := UpdateHtmlRangeInDoc(tag, documentable);
    if updated.Err? {
      return Err(updated.error);
    }
    r := Ok(BlockContent(tagWithContent, tag));
  }

  /** `processInlineTagWithContent` (lines 65-74). */
  method ProcessInlineTagWithContent(tagWithContent: string, path: string, documentable: DocumentableWrapper)
    returns (r: Result<string>)
    modifies documentable
    ensures GetTagNameOrNull(tagWithContent).None? ==> r == Ok(tagWithContent) && documentable.doc == old(documentable.doc)
    ensures GetTagNameOrNull(tagWithContent).Some? ==> var tag := GetTagNameOrNull(tagWithContent).value;
      && (!documentable.isMutable ==> r == Err(NotMutable) && documentable.doc == old(documentable.doc))
      && (documentable.isMutable ==> r == Ok(InlineContent(tagWithContent, tag))
                                     && documentable.doc == WithHtmlRange(old(documentable.doc), tag))
  {
    var name := GetTagNameOrNull(tagWithContent);
    if name.None? {
      return Ok(tagWithContent);
    }
    var tag := name.value;
    var updated := UpdateHtmlRangeInDoc(tag, documentable);
    if updated.Err? {
      return Err(updated.error);
    }
    r := Ok(InlineContent(tagWithContent, tag));
  }

  // ---------------------------------------------------------------------------
  // What the stripping leaves
  // ---------------------------------------------------------------------------

  /**
   * For a block tag, `@tag` followed by the returned content is the tag text
   * without its leading whitespace: exactly the tag is taken off.
   */
  lemma BlockContentSplits(s: string)
    requires StartsWithChar(TrimStart(s), '@')
    ensures GetTagNameOrNull(s).Some?
    ensures "@" + GetTagNameOrNull(s).value + BlockContent(s, GetTagNameOrNull(s).value) == TrimStart(s)
  {
    var t := TrimStart(s);
    var name := TagNamePrefix(t[1..]);
    assert GetTagNameOrNull(s) == Some(name);
    assert t[..1 + |name|] == "@" + name by {
      assert t[1..][..|name|] == name;
    }
    assert t == t[..1 + |name|] + t[1 + |name|..];
  }

  /** In `{@tag …}` the name is read right after `{@`. */
  lemma InlineName(s: string)
    requires StartsWith(s, "{@")
    ensures GetTagNameOrNull(s) == Some(TagNamePrefix(s[2..]))
  {
    assert s[0] == '{' && s[1] == '@';
    assert LeadingWhitespace(s) == 0;
    assert TrimStart(s) == s;
    assert RemovePrefixChar(s, '{') == s[1..];
    assert RemovePrefixChar(s[1..], '@') == s[2..];
  }

  /** `s` split at `open` and before its last character. */
  lemma SplitAround(s: string, k: nat)
    requires k < |s|
    ensures s == s[..k] + s[k..][..|s[k..]| - 1] + [s[|s| - 1]]
  {
    var rest := s[k..];
    assert rest == rest[..|rest| - 1] + [rest[|rest| - 1]];
    assert s == s[..k] + rest;
  }

  /** `{@name`, the inline content and `}` make up `s`. */
  lemma InlineParts(s: string, name: string)
    requires StartsWith(s, "{@") && EndsWithChar(s, '}') && name == TagNamePrefix(s[2..])
    ensures "{@" + name + InlineContent(s, name) + "}" == s
  {
    var tail := s[2..];
    assert |name| < |tail| by {
      if |name| == |tail| {
        assert tail[|tail| - 1] == s[|s| - 1];
      }
    }
    var k := 2 + |name|;
    var open := "{@" + name;
    assert s[..k] == open by {
      assert s[..k] == s[..2] + tail[..|name|];
    }
    var rest := s[k..];
    assert RemovePrefix(s, open) == rest;
    assert rest[|rest| - 1..] == "}";
    assert InlineContent(s, name) == rest[..|rest| - 1];
    SplitAround(s, k);
    assert [s[|s| - 1]] == "}";
  }

  /**
   * For an inline tag `{@tag …}`, `{@tag`, the returned content and `}` make up
   * the tag text again.
   */
  lemma InlineContentSplits(s: string)
    requires StartsWith(s, "{@") && EndsWithChar(s, '}')
    ensures GetTagNameOrNull(s).Some?
    ensures "{@" + GetTagNameOrNull(s).value + InlineContent(s, GetTagNameOrNull(s).value) + "}" == s
  {
    InlineName(s);
    InlineParts(s, TagNamePrefix(s[2..]));
  }
}
