/**
 * `DocProcessor` of `kodex-common/.../processor/DocProcessor.kt`: the run-once
 * guard of `processSafely`, the wrapping of what `process` throws, and the two
 * highlight builders every tag processor uses.
 */
module Processors {
  import opened Wrappers
  import opened Ranges
  import opened Highlights

  /**
   * The part of a `CompletionInfo` the description is built from (that class
   * itself is not part of this model).
   */
  datatype CompletionInfo = CompletionInfo(
    tag: string,
    blockText: Option<string>,
    presentableBlockText: Option<string>,
    inlineText: Option<string>,
    presentableInlineText: Option<string>,
    tailText: string)

  /** `find { it.tag == tag }` */
  function FindCompletion(infos: seq<CompletionInfo>, tag: string): Option<CompletionInfo> {
    if infos == [] then None
    else if infos[0].tag == tag then Some(infos[0])
    else FindCompletion(infos[1..], tag)
  }

  /** `surroundWith("\"")` */
  function Quoted(s: string): string {
    "\"" + s + "\""
  }

  /** Lines 134-143: the description built from the completion infos. */
  function CompletionDescription(infos: seq<CompletionInfo>, tag: string): string {
    match FindCompletion(infos, tag)
    case None => ""
    case Some(info) =>
      var presentable := if info.presentableBlockText.Some? then info.presentableBlockText else info.presentableInlineText;
      (if presentable.Some? then Quoted(presentable.value) + ": " else "") + info.tailText
  }

  /**
   * What `process` does when it is called: it returns documentables or throws.
   * The processors themselves are not part of this model, so this is given.
   */
  function Wrapped<D>(outcome: Result<D>, withoutFilters: D -> D, name: string): (r: Result<D>)
    ensures r.Ok? <==> outcome.Ok?
    // every failure passed on is a `DocProcessorFailedException`, one that `process` threw as it is
    ensures r.Err? ==> r.error.ProcessorFailed?
    ensures outcome.Err? && outcome.error.ProcessorFailed? ==> r == outcome
    ensures outcome.Err? && !outcome.error.ProcessorFailed? ==> r.error.cause == Some(outcome.error) && r.error.processorName == name
  {
    match outcome
    case Ok(docs) => Ok(withoutFilters(docs))
    case Err(e) => if e.ProcessorFailed? then Err(e) else Err(ProcessorFailed(name, Some(e)))
  }

  class DocProcessor {
    /** `this::class.simpleName`, `this::class.qualifiedName` */
    const name: string
    const qualifiedName: string
    /** `completionInfos` of the concrete processor. */
    const completionInfos: seq<CompletionInfo>
    var hasRun: bool

    constructor (name: string, qualifiedName: string, completionInfos: seq<CompletionInfo>)
      ensures this.name == name && this.qualifiedName == qualifiedName
      ensures this.completionInfos == completionInfos
      ensures !hasRun
    {
      this.name := name;
      this.qualifiedName := qualifiedName;
      this.completionInfos := completionInfos;
      hasRun := false;
    }

    /**
     * `processSafely` (lines 53-68): refuses a second run, and otherwise runs
     * `process` and marks the processor as run whatever `process` did.
     */
    method ProcessSafely<D>(outcome: Result<D>, withoutFilters: D -> D) returns (r: Result<D>)
      modifies this
      ensures hasRun
      ensures old(hasRun) ==> r == Err(IllegalState("This instance of " + qualifiedName + " has already run and cannot be reused."))
      ensures !old(hasRun) ==> r == Wrapped(outcome, withoutFilters, name)
    {
      if hasRun {
        return Err(IllegalState("This instance of " + qualifiedName + " has already run and cannot be reused."));
      }
      r := Wrapped(outcome, withoutFilters, name);
      hasRun := true;
    }

    /** `buildHighlightInfo` (lines 90-114). */
    function BuildHighlightInfo(range: IntRange, kind: HighlightType, description: string,
                                related: seq<HighlightInfo>, addSelfToRelated: bool): HighlightInfo
    {
      var self := HighlightInfo([range], kind, [], name, description);
      self.(related := related + if addSelfToRelated then [self] else [])
    }

    /** `buildHighlightInfoWithDescription` (lines 124-146). */
    function BuildHighlightInfoWithDescription(range: IntRange, kind: HighlightType, tag: string,
                                               related: seq<HighlightInfo>, addSelfToRelated: bool): HighlightInfo
    {
      BuildHighlightInfo(range, kind, CompletionDescription(completionInfos, tag), related, addSelfToRelated)
    }

    /**
     * The built highlight covers just `range`, is named after this processor,
     * and lists `related` followed, with `addSelfToRelated`, by itself without
     * related highlights.
     */
    lemma BuiltHighlight(range: IntRange, kind: HighlightType, description: string,
                         related: seq<HighlightInfo>, addSelfToRelated: bool)
      ensures var h := BuildHighlightInfo(range, kind, description, related, addSelfToRelated);
        && (forall x :: Contains(h, x) <==> range.Contains(x))
        && h.kind == kind && h.tagProcessorName == name && h.description == description
        && |h.related| == |related| + (if addSelfToRelated then 1 else 0)
        && h.related[..|related|] == related
        && (addSelfToRelated ==> h.related[|related|] == h.(related := []))
    {
      var h := BuildHighlightInfo(range, kind, description, related, addSelfToRelated);
      assert h.ranges == [range];
      forall x ensures Contains(h, x) <==> range.Contains(x) {
        ContainsCovered(h, x);
        CoveredCons(h.ranges, x);
      }
      assert (related + if addSelfToRelated then [h.(related := [])] else [])[..|related|] == related;
    }
  }

  /** The completion info that gives the description is the first one for the tag. */
  lemma {:induction false} FindCompletionFirst(infos: seq<CompletionInfo>, tag: string)
    ensures FindCompletion(infos, tag).None? <==> forall k :: 0 <= k < |infos| ==> infos[k].tag != tag
    ensures FindCompletion(infos, tag).Some? ==>
      exists k :: 0 <= k < |infos| && infos[k] == FindCompletion(infos, tag).value
        && infos[k].tag == tag && forall j :: 0 <= j < k ==> infos[j].tag != tag
  {
    if infos != [] && infos[0].tag != tag {
      FindCompletionFirst(infos[1..], tag);
      var r := FindCompletion(infos, tag);
      if r.Some? {
        var k :| 0 <= k < |infos[1..]| && infos[1..][k] == r.value
          && infos[1..][k].tag == tag && forall j :: 0 <= j < k ==> infos[1..][j].tag != tag;
        assert infos[k + 1] == r.value;
        forall j | 0 <= j < k + 1 ensures infos[j].tag != tag {
          if j > 0 { assert infos[j] == infos[1..][j - 1]; }
        }
      }
      forall k | 0 < k < |infos| ensures infos[k] == infos[1..][k - 1] { }
    } else if infos != [] {
      assert infos[0].tag == tag;
    }
  }

  /**
   * The description is empty when no completion info has the tag; otherwise it
   * is the quoted presentable block text, else the quoted presentable inline
   * text, then `": "`, then the tail text of the first info for the tag.
   */
  lemma DescriptionCases(infos: seq<CompletionInfo>, tag: string)
    ensures (forall k :: 0 <= k < |infos| ==> infos[k].tag != tag) ==> CompletionDescription(infos, tag) == ""
    ensures forall k :: 0 <= k < |infos| && infos[k].tag == tag && (forall j :: 0 <= j < k ==> infos[j].tag != tag) ==>
      CompletionDescription(infos, tag) ==
        (if infos[k].presentableBlockText.Some? then Quoted(infos[k].presentableBlockText.value) + ": "
         else if infos[k].presentableInlineText.Some? then Quoted(infos[k].presentableInlineText.value) + ": "
         else "") + infos[k].tailText
  {
    FindCompletionFirst(infos, tag);
    forall k | 0 <= k < |infos| && infos[k].tag == tag && (forall j :: 0 <= j < k ==> infos[j].tag != tag)
      ensures FindCompletion(infos, tag) == Some(infos[k])
    {
      var r := FindCompletion(infos, tag);
      var i :| 0 <= i < |infos| && infos[i] == r.value && infos[i].tag == tag && forall j :: 0 <= j < i ==> infos[j].tag != tag;
      assert !(i < k) && !(k < i);
    }
  }
}
