/**
 * Locating the template: the one zone on the comment layer gives the
 * template rectangle (layout_cloner.py:57-63), and every module whose
 * position the rectangle contains is a template module (layout_cloner.py:72-81).
 */
module Template {
  import opened Wrappers
  import opened Geometry
  import opened References
  import opened Board
  import opened Diagnostics

  /** Number of zones on the comment layer. */
  function CommentZoneCount(zs: seq<Zone>): nat
  {
    if zs == [] then 0
    else CommentZoneCount(zs[..|zs| - 1]) + (if zs[|zs| - 1].layer == CommentLayer then 1 else 0)
  }

  lemma {:induction false} CommentZoneCountPrefix(zs: seq<Zone>, k: nat)
    requires k <= |zs|
    ensures CommentZoneCount(zs[..k]) <= CommentZoneCount(zs)
    decreases |zs| - k
  {
    if k < |zs| {
      CommentZoneCountPrefix(zs, k + 1);
      assert zs[..k + 1][..k] == zs[..k];
    } else {
      assert zs[..k] == zs;
    }
  }

  /** r is the bounding box of the one and only comment-layer zone. */
  ghost predicate IsCommentRect(zs: seq<Zone>, r: Rect)
  {
    && CommentZoneCount(zs) == 1
    && exists k :: 0 <= k < |zs| && zs[k].layer == CommentLayer && zs[k].bbox == r
  }

  /**
   * The scan of layout_cloner.py:57-63: the run goes on only when exactly one
   * zone lies on the comment layer; a second one trips the assert, none leaves
   * templateRect at None.
   */
  method FindCommentZone(zs: seq<Zone>) returns (res: Result<Rect, Error>)
    ensures res.Ok? <==> CommentZoneCount(zs) == 1
    ensures res.Ok? ==> IsCommentRect(zs, res.value)
    ensures res == Err(SecondCommentZone) <==> CommentZoneCount(zs) >= 2
    ensures res == Err(NoCommentZone) <==> CommentZoneCount(zs) == 0
  {
    var rect: Option<Rect> := None;
    for k := 0 to |zs|
      invariant rect.None? <==> CommentZoneCount(zs[..k]) == 0
      invariant CommentZoneCount(zs[..k]) <= 1
      invariant rect.Some? ==> exists j :: 0 <= j < k && zs[j].layer == CommentLayer && zs[j].bbox == rect.value
    {
      assert zs[..k + 1][..k] == zs[..k];
      if zs[k].layer == CommentLayer {
        if rect.Some? {
          CommentZoneCountPrefix(zs, k + 1);
          return Err(SecondCommentZone);
        }
        rect := Some(zs[k].bbox);
      }
    }
    assert zs[..|zs|] == zs;
    if rect.None? {
      return Err(NoCommentZone);
    }
    return Ok(rect.value);
  }

  /** The sheet numbers of the template: [refStart, refStart + refModulo). */
  predicate InTemplateRange(cfg: Config, index: int)
  {
    cfg.refStart <= index < cfg.refStart + cfg.refModulo
  }

  /** Every reference of ms parses; stated on the last module, so that it unfolds one module at a time. */
  predicate AllParse(ms: seq<Module>)
    decreases |ms|
  {
    ms == [] || (AllParse(ms[..|ms| - 1]) && ParseRef(ms[|ms| - 1].reference).Some?)
  }

  /** If all of ms parses, so does every prefix and every module. */
  lemma {:induction false} AllParsePrefix(ms: seq<Module>, k: nat)
    requires k < |ms|
    ensures AllParse(ms) ==> AllParse(ms[..k]) && ParseRef(ms[k].reference).Some?
    decreases |ms|
  {
    var init := ms[..|ms| - 1];
    if k < |ms| - 1 {
      AllParsePrefix(init, k);
      assert init[..k] == ms[..k];
      assert init[k] == ms[k];
    } else {
      assert init == ms[..k];
    }
  }

  /** All of ms parses exactly when every reference in it does. */
  lemma {:induction false} AllParseMeaning(ms: seq<Module>)
    ensures AllParse(ms) <==> forall k :: 0 <= k < |ms| ==> ParseRef(ms[k].reference).Some?
    decreases |ms|
  {
    forall k | 0 <= k < |ms|
      ensures AllParse(ms) ==> ParseRef(ms[k].reference).Some?
    {
      AllParsePrefix(ms, k);
    }
    if ms != [] {
      var init := ms[..|ms| - 1];
      AllParseMeaning(init);
      assert forall k :: 0 <= k < |init| ==> init[k] == ms[k];
    }
  }

  /** The parsed references of the modules the rectangle contains, in board order. */
  function TemplateRefs(ms: seq<Module>, rect: Rect): seq<Ref>
    requires AllParse(ms)
  {
    if ms == [] then []
    else
      var m := ms[|ms| - 1];
      TemplateRefs(ms[..|ms| - 1], rect)
        + (if Contains(rect, m.position) then [ParseRef(m.reference).value] else [])
  }

  /** A reference is in the template list exactly when a module the rectangle contains parses to it. */
  lemma {:induction false} TemplateRefsMembership(ms: seq<Module>, rect: Rect, r: Ref)
    requires AllParse(ms)
    ensures r in TemplateRefs(ms, rect) <==>
            exists k :: 0 <= k < |ms| && Contains(rect, ms[k].position) && ParseRef(ms[k].reference) == Some(r)
    decreases |ms|
  {
    if ms != [] {
      var init := ms[..|ms| - 1];
      TemplateRefsMembership(init, rect, r);
      assert forall k :: 0 <= k < |init| ==> init[k] == ms[k];
    }
  }

  /** The template list has at most one entry per module. */
  lemma {:induction false} TemplateRefsLength(ms: seq<Module>, rect: Rect)
    requires AllParse(ms)
    ensures |TemplateRefs(ms, rect)| <= |ms|
    decreases |ms|
  {
    if ms != [] {
      TemplateRefsLength(ms[..|ms| - 1], rect);
    }
  }

  /** The message printed for one module of the scan, if any. */
  function RangeWarning(m: Module, rect: Rect, cfg: Config): Option<Warning>
    requires ParseRef(m.reference).Some?
  {
    var inRange := InTemplateRange(cfg, ParseRef(m.reference).value.index);
    if !Contains(rect, m.position) && inRange then Some(InRangeOutsideZone(m.reference))
    else if Contains(rect, m.position) && !inRange then Some(OutOfRangeInZone(m.reference))
    else None
  }

  /** The one message of module m is the outside warning for s exactly when m is s, outside and in range. */
  lemma RangeWarningOutside(m: Module, rect: Rect, cfg: Config, s: string)
    requires ParseRef(m.reference).Some?
    ensures RangeWarning(m, rect, cfg) == Some(InRangeOutsideZone(s)) <==>
            m.reference == s && !Contains(rect, m.position) && InTemplateRange(cfg, ParseRef(s).value.index)
  {
  }

  /** The one message of module m is the unexpected-module warning for s exactly when m is s, inside and out of range. */
  lemma RangeWarningInside(m: Module, rect: Rect, cfg: Config, s: string)
    requires ParseRef(m.reference).Some?
    ensures RangeWarning(m, rect, cfg) == Some(OutOfRangeInZone(s)) <==>
            m.reference == s && Contains(rect, m.position) && !InTemplateRange(cfg, ParseRef(s).value.index)
  {
  }

  /** The messages of the module scan, in board order. */
  function RangeWarnings(ms: seq<Module>, rect: Rect, cfg: Config): seq<Warning>
    requires AllParse(ms)
  {
    if ms == [] then []
    else
      var m := ms[|ms| - 1];
      RangeWarnings(ms[..|ms| - 1], rect, cfg)
        + (match RangeWarning(m, rect, cfg) case Some(w) => [w] case None => [])
  }

  /**
   * The scan warns that module s lies outside the rectangle exactly when some
   * module with reference s is outside it and numbered in the template range.
   */
  lemma {:induction false} OutsideWarningMeaning(ms: seq<Module>, rect: Rect, cfg: Config, s: string)
    requires AllParse(ms)
    ensures InRangeOutsideZone(s) in RangeWarnings(ms, rect, cfg) <==>
            exists k :: 0 <= k < |ms| && ms[k].reference == s && !Contains(rect, ms[k].position)
                        && ParseRef(s).Some? && InTemplateRange(cfg, ParseRef(s).value.index)
    decreases |ms|
  {
    if ms != [] {
      var init := ms[..|ms| - 1];
      OutsideWarningMeaning(init, rect, cfg, s);
      RangeWarningOutside(ms[|ms| - 1], rect, cfg, s);
      assert forall k :: 0 <= k < |init| ==> init[k] == ms[k];
    }
  }

  /**
   * The scan reports module s as unexpected exactly when some module with
   * reference s is inside the rectangle and numbered outside the template range.
   */
  lemma {:induction false} UnexpectedModuleMeaning(ms: seq<Module>, rect: Rect, cfg: Config, s: string)
    requires AllParse(ms)
    ensures OutOfRangeInZone(s) in RangeWarnings(ms, rect, cfg) <==>
            exists k :: 0 <= k < |ms| && ms[k].reference == s && Contains(rect, ms[k].position)
                        && ParseRef(s).Some? && !InTemplateRange(cfg, ParseRef(s).value.index)
    decreases |ms|
  {
    if ms != [] {
      var init := ms[..|ms| - 1];
      UnexpectedModuleMeaning(init, rect, cfg, s);
      RangeWarningInside(ms[|ms| - 1], rect, cfg, s);
      assert forall k :: 0 <= k < |init| ==> init[k] == ms[k];
    }
  }

  /**
   * The module scan of layout_cloner.py:72-81. A reference that does not match
   * letters-then-digits ends the run. Every module inside the rectangle joins
   * the template list, whatever its number; the warnings are those of
   * RangeWarnings (see OutsideWarningMeaning and UnexpectedModuleMeaning).
   */
  method SelectTemplate(ms: seq<Module>, rect: Rect, cfg: Config) returns (res: Result<seq<Ref>, Error>, warnings: seq<Warning>)
    ensures res.Ok? <==> AllParse(ms)
    ensures res.Ok? ==> res.value == TemplateRefs(ms, rect) && warnings == RangeWarnings(ms, rect, cfg)
    ensures res.Err? ==> exists k :: 0 <= k < |ms| && AllParse(ms[..k]) && ParseRef(ms[k].reference).None?
                                   && res.error == UnparsableReference(ms[k].reference)
  {
    var refs: seq<Ref> := [];
    warnings := [];
    for k := 0 to |ms|
      invariant AllParse(ms[..k])
      invariant refs == TemplateRefs(ms[..k], rect)
      invariant warnings == RangeWarnings(ms[..k], rect, cfg)
    {
      var m := ms[k];
      var parsed := ParseRef(m.reference);
      if parsed.None? {
        res := Err(UnparsableReference(m.reference));
        AllParsePrefix(ms, k);
        return;
      }
      assert ms[..k + 1][..k] == ms[..k];
      var index := parsed.value.index;
      if !Contains(rect, m.position) {
        if InTemplateRange(cfg, index) {
          warnings := warnings + [InRangeOutsideZone(m.reference)];
        }
      } else {
        if !InTemplateRange(cfg, index) {
          warnings := warnings + [OutOfRangeInZone(m.reference)];
        }
        refs := refs + [parsed.value];
      }
    }
    assert ms[..|ms|] == ms;
    res := Ok(refs);
  }
}
