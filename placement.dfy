/**
 * Placement of the clones (layout_cloner.py:126-155): every clone module is
 * put on the template's side, moved to the template position plus its grid
 * offset, turned like the template, and its two texts are styled like the
 * template's reference text.
 */
module Placement {
  import opened Wrappers
  import opened Geometry
  import opened References
  import opened Board
  import opened Diagnostics

  /** The six attributes layout_cloner.py:150-155 copy from one text to another; the string stays. */
  function StyledLike(text: Label, style: Label): Label
  {
    Label(text.text, style.pos0, style.orientation, style.height, style.width, style.thickness, style.visible)
  }

  /**
   * Clone c after one pass of layout_cloner.py:141-155 with template t: flipped
   * when the layers differ, moved to at, turned like t, and both texts styled
   * like t's reference text (templateValText is the reference text too).
   */
  function PlacedClone(c: Module, t: Module, at: Point): Module
  {
    c.(layer := if c.layer != t.layer then FlipSide(c.layer) else c.layer,
       position := at,
       orientation := t.orientation,
       refLabel := StyledLike(c.refLabel, t.refLabel),
       valueLabel := StyledLike(c.valueLabel, t.refLabel))
  }

  /** What placing does to one clone, and what it keeps. */
  lemma PlacedCloneMeaning(c: Module, t: Module, at: Point)
    ensures var p := PlacedClone(c, t, at);
      && p.position == at && p.orientation == t.orientation
      && p.reference == c.reference && p.fpid == c.fpid && p.pads == c.pads
      && p.refLabel == t.refLabel.(text := c.refLabel.text)
      && p.valueLabel == t.refLabel.(text := c.valueLabel.text)
      && (OnCopperSide(c.layer) && OnCopperSide(t.layer) ==> p.layer == t.layer)
  {
  }

  /** Placing a clone that sits on a copper side twice is placing it once. */
  lemma PlacedCloneIdempotent(c: Module, t: Module, at: Point)
    requires OnCopperSide(c.layer) && OnCopperSide(t.layer)
    ensures PlacedClone(PlacedClone(c, t, at), t, at) == PlacedClone(c, t, at)
  {
  }

  /**
   * A template off the copper sides makes placing flip a copper clone back and
   * forth: a second pass undoes the first flip.
   */
  lemma PlacedCloneFlipsBack(c: Module, t: Module, at: Point)
    requires c.layer == FrontCopper && t.layer == CommentLayer
    ensures PlacedClone(c, t, at).layer == BackCopper
    ensures PlacedClone(PlacedClone(c, t, at), t, at).layer == FrontCopper
  {
  }

  /** Two module lists whose references agree position by position. */
  predicate SameReferences(ms: seq<Module>, ms': seq<Module>)
  {
    |ms| == |ms'| && forall k :: 0 <= k < |ms| ==> ms[k].reference == ms'[k].reference
  }

  /**
   * One pass of layout_cloner.py:135-155 for clone i of template r: the clone
   * is looked up in cur and, when found, placed against the template module tk
   * as it is now; a missing clone leaves cur as it is.
   */
  function PlaceStep(cur: seq<Module>, r: Ref, tk: nat, pos: Point, cfg: Config, i: int): (res: seq<Module>)
    requires tk < |cur|
    ensures |res| == |cur|
  {
    match FindModule(cur, CloneRef(r, i, cfg))
    case None => cur
    case Some(ck) => cur[ck := PlacedClone(cur[ck], cur[tk], Plus(pos, Offset(cfg, i)))]
  }

  /**
   * The modules after the clones 1 .. upto-1 of template r are placed, where
   * the template is module tk and pos is its position read before the loop.
   */
  function PlaceRun(ms: seq<Module>, r: Ref, tk: nat, pos: Point, cfg: Config, upto: int): (res: seq<Module>)
    requires tk < |ms|
    ensures |res| == |ms|
    decreases upto
  {
    if upto <= 1 then ms
    else PlaceStep(PlaceRun(ms, r, tk, pos, cfg, upto - 1), r, tk, pos, cfg, upto - 1)
  }

  /** Module k after one pass: placed when it is the clone found, untouched otherwise. */
  lemma PlaceStepAt(cur: seq<Module>, r: Ref, tk: nat, pos: Point, cfg: Config, i: int, k: nat)
    requires tk < |cur| && k < |cur|
    ensures PlaceStep(cur, r, tk, pos, cfg, i)[k] ==
      if FindModule(cur, CloneRef(r, i, cfg)) == Some(k) then PlacedClone(cur[k], cur[tk], Plus(pos, Offset(cfg, i))) else cur[k]
  {
  }

  /** A run of upto clones is the run of the first upto-1 followed by one more pass. */
  lemma PlaceRunSnoc(ms: seq<Module>, r: Ref, tk: nat, pos: Point, cfg: Config, upto: int)
    requires tk < |ms| && upto > 1
    ensures PlaceRun(ms, r, tk, pos, cfg, upto) == PlaceStep(PlaceRun(ms, r, tk, pos, cfg, upto - 1), r, tk, pos, cfg, upto - 1)
  {
  }

  /** Placing never renames a module, so every later lookup finds what it found before. */
  lemma {:induction false} PlaceRunKeepsReferences(ms: seq<Module>, r: Ref, tk: nat, pos: Point, cfg: Config, upto: int)
    requires tk < |ms|
    ensures SameReferences(ms, PlaceRun(ms, r, tk, pos, cfg, upto))
    decreases upto
  {
    if upto > 1 {
      PlaceRunKeepsReferences(ms, r, tk, pos, cfg, upto - 1);
    }
  }

  /** Every lookup after a run finds what it finds before it. */
  lemma PlaceRunFindsSame(ms: seq<Module>, r: Ref, tk: nat, pos: Point, cfg: Config, upto: int, reference: string)
    requires tk < |ms|
    ensures FindModule(PlaceRun(ms, r, tk, pos, cfg, upto), reference) == FindModule(ms, reference)
  {
    PlaceRunKeepsReferences(ms, r, tk, pos, cfg, upto);
    FindModuleSameReferences(ms, PlaceRun(ms, r, tk, pos, cfg, upto), reference);
  }

  /** The message of layout_cloner.py:138 for clone i of r, when it finds no module. */
  function MissingClone(ms: seq<Module>, r: Ref, cfg: Config, i: int): seq<Warning>
  {
    if FindModule(ms, CloneRef(r, i, cfg)).None? then [CloneToMoveMissing(CloneRef(r, i, cfg))] else []
  }

  /** The messages of layout_cloner.py:138 for the clones 1 .. upto-1 of template r. */
  function MissingClones(ms: seq<Module>, r: Ref, cfg: Config, upto: int): seq<Warning>
    decreases upto
  {
    if upto <= 1 then [] else MissingClones(ms, r, cfg, upto - 1) + MissingClone(ms, r, cfg, upto - 1)
  }

  /** One more clone adds one more pass and its message. */
  lemma PlaceRunNext(ms: seq<Module>, r: Ref, tk: nat, pos: Point, cfg: Config, i: int)
    requires tk < |ms| && i >= 1
    ensures PlaceRun(ms, r, tk, pos, cfg, i + 1) == PlaceStep(PlaceRun(ms, r, tk, pos, cfg, i), r, tk, pos, cfg, i)
    ensures MissingClones(ms, r, cfg, i + 1) == MissingClones(ms, r, cfg, i) + MissingClone(ms, r, cfg, i)
  {
  }

  /** A missing-clone message names exactly a clone index whose reference finds no module. */
  lemma {:induction false} MissingClonesMeaning(ms: seq<Module>, r: Ref, cfg: Config, upto: int, w: Warning)
    ensures w in MissingClones(ms, r, cfg, upto) <==>
            exists i :: 1 <= i < upto && FindModule(ms, CloneRef(r, i, cfg)).None? && w == CloneToMoveMissing(CloneRef(r, i, cfg))
    decreases upto
  {
    if upto > 1 {
      MissingClonesMeaning(ms, r, cfg, upto - 1, w);
    }
  }

  /**
   * With a positive modulo the run never touches the template module: no
   * clone index from 1 on finds it.
   */
  lemma {:induction false} PlaceRunKeepsTemplate(ms: seq<Module>, r: Ref, tk: nat, pos: Point, cfg: Config, upto: int)
    requires tk < |ms| && ms[tk].reference == TemplateRef(r)
    requires |r.prefix| >= 1 && AllLetters(r.prefix) && r.index >= 0
    requires cfg.refModulo > 0
    ensures PlaceRun(ms, r, tk, pos, cfg, upto)[tk] == ms[tk]
    decreases upto
  {
    if upto > 1 {
      var cur := PlaceRun(ms, r, tk, pos, cfg, upto - 1);
      PlaceRunKeepsTemplate(ms, r, tk, pos, cfg, upto - 1);
      CloneRefIsNotTemplateRef(r, upto - 1, cfg);
    }
  }

  /** A module that no clone index 1 .. upto-1 of r looks up comes out of the run as it went in. */
  lemma {:induction false} PlaceRunKeepsOthers(ms: seq<Module>, r: Ref, tk: nat, pos: Point, cfg: Config, upto: int, k: nat)
    requires tk < |ms| && k < |ms|
    requires forall i :: 1 <= i < upto ==> FindModule(ms, CloneRef(r, i, cfg)) != Some(k)
    ensures PlaceRun(ms, r, tk, pos, cfg, upto)[k] == ms[k]
    decreases upto
  {
    if upto > 1 {
      var last := upto - 1;
      var cur := PlaceRun(ms, r, tk, pos, cfg, last);
      PlaceRunKeepsOthers(ms, r, tk, pos, cfg, last, k);
      assert FindModule(cur, CloneRef(r, last, cfg)) != Some(k) by {
        PlaceRunFindsSame(ms, r, tk, pos, cfg, last, CloneRef(r, last, cfg));
      }
      PlaceRunSnoc(ms, r, tk, pos, cfg, upto);
      PlaceStepAt(cur, r, tk, pos, cfg, last, k);
    }
  }

  /**
   * Module ck of res is clone i of the template tk of ms after one pass of
   * layout_cloner.py:141-155: module ck of ms flipped when its layer differs,
   * moved to the template position plus the offset, turned like the template,
   * both texts styled like the template's reference text.
   */
  predicate ClonePlaced(res: seq<Module>, ms: seq<Module>, tk: nat, cfg: Config, i: int, ck: nat)
  {
    ck < |res| && ck < |ms| && tk < |ms| && res[ck] == PlacedClone(ms[ck], ms[tk], Plus(ms[tk].position, Offset(cfg, i)))
  }

  /** The clones a run looks up before clone i are not the one clone i looks up. */
  lemma EarlierClonesDiffer(ms: seq<Module>, r: Ref, cfg: Config, i: int, ck: nat)
    requires |r.prefix| >= 1 && AllLetters(r.prefix) && r.index >= 0
    requires cfg.refModulo > 0
    requires 1 <= i && FindModule(ms, CloneRef(r, i, cfg)) == Some(ck)
    ensures forall j :: 1 <= j < i ==> FindModule(ms, CloneRef(r, j, cfg)) != Some(ck)
  {
    forall j | 1 <= j < i
      ensures FindModule(ms, CloneRef(r, j, cfg)) != Some(ck)
    {
      CloneRefIsNotTemplateRef(r, i, cfg);
      CloneRefIsNotTemplateRef(r, j, cfg);
      CloneRefsDistinct(r, j, i, cfg);
    }
  }

  /** The last pass of a run places the clone it looks up. */
  lemma PlaceRunPlacesLast(ms: seq<Module>, r: Ref, tk: nat, cfg: Config, upto: int, ck: nat)
    requires tk < |ms| && ms[tk].reference == TemplateRef(r)
    requires |r.prefix| >= 1 && AllLetters(r.prefix) && r.index >= 0
    requires cfg.refModulo > 0
    requires 1 <= upto - 1 && FindModule(ms, CloneRef(r, upto - 1, cfg)) == Some(ck)
    ensures ClonePlaced(PlaceRun(ms, r, tk, ms[tk].position, cfg, upto), ms, tk, cfg, upto - 1, ck)
  {
    var pos := ms[tk].position;
    var last := upto - 1;
    var cur := PlaceRun(ms, r, tk, pos, cfg, last);
    var res := PlaceRun(ms, r, tk, pos, cfg, upto);
    assert FindModule(cur, CloneRef(r, last, cfg)) == Some(ck) by {
      PlaceRunFindsSame(ms, r, tk, pos, cfg, last, CloneRef(r, last, cfg));
    }
    assert res[ck] == PlacedClone(cur[ck], cur[tk], Plus(pos, Offset(cfg, last))) by {
      PlaceRunSnoc(ms, r, tk, pos, cfg, upto);
      PlaceStepAt(cur, r, tk, pos, cfg, last, ck);
    }
    assert cur[tk] == ms[tk] by {
      PlaceRunKeepsTemplate(ms, r, tk, pos, cfg, last);
    }
    assert cur[ck] == ms[ck] by {
      EarlierClonesDiffer(ms, r, cfg, last, ck);
      PlaceRunKeepsOthers(ms, r, tk, pos, cfg, last, ck);
    }
  }

  /** A later pass of a run leaves a clone placed by an earlier pass as it is. */
  lemma PlaceRunKeepsPlaced(ms: seq<Module>, r: Ref, tk: nat, cfg: Config, upto: int, i: int, ck: nat)
    requires tk < |ms| && ms[tk].reference == TemplateRef(r)
    requires |r.prefix| >= 1 && AllLetters(r.prefix) && r.index >= 0
    requires cfg.refModulo > 0
    requires 1 <= i < upto - 1 && FindModule(ms, CloneRef(r, i, cfg)) == Some(ck)
    requires ClonePlaced(PlaceRun(ms, r, tk, ms[tk].position, cfg, upto - 1), ms, tk, cfg, i, ck)
    ensures ClonePlaced(PlaceRun(ms, r, tk, ms[tk].position, cfg, upto), ms, tk, cfg, i, ck)
  {
    var pos := ms[tk].position;
    var last := upto - 1;
    var cur := PlaceRun(ms, r, tk, pos, cfg, last);
    var found := FindModule(cur, CloneRef(r, last, cfg));
    assert found == FindModule(ms, CloneRef(r, last, cfg)) by {
      PlaceRunFindsSame(ms, r, tk, pos, cfg, last, CloneRef(r, last, cfg));
    }
    assert found != Some(ck) by {
      CloneRefIsNotTemplateRef(r, i, cfg);
      CloneRefIsNotTemplateRef(r, last, cfg);
      CloneRefsDistinct(r, i, last, cfg);
    }
    assert PlaceRun(ms, r, tk, pos, cfg, upto)[ck] == cur[ck] by {
      PlaceRunSnoc(ms, r, tk, pos, cfg, upto);
      PlaceStepAt(cur, r, tk, pos, cfg, last, ck);
    }
  }

  /**
   * With a positive modulo, after the run the clone i of r, found at ck, is
   * the module it was, placed against the template as one pass places it.
   */
  lemma {:induction false} PlaceRunPlacesOne(ms: seq<Module>, r: Ref, tk: nat, cfg: Config, upto: int, i: int, ck: nat)
    requires tk < |ms| && ms[tk].reference == TemplateRef(r)
    requires |r.prefix| >= 1 && AllLetters(r.prefix) && r.index >= 0
    requires cfg.refModulo > 0
    requires 1 <= i < upto && FindModule(ms, CloneRef(r, i, cfg)) == Some(ck)
    ensures ClonePlaced(PlaceRun(ms, r, tk, ms[tk].position, cfg, upto), ms, tk, cfg, i, ck)
    decreases upto
  {
    if i == upto - 1 {
      PlaceRunPlacesLast(ms, r, tk, cfg, upto, ck);
    } else {
      PlaceRunPlacesOne(ms, r, tk, cfg, upto - 1, i, ck);
      PlaceRunKeepsPlaced(ms, r, tk, cfg, upto, i, ck);
    }
  }

  /**
   * With a positive modulo, after the run every clone of r that exists is
   * placed against the template (flipped to its side, moved to the template
   * position plus its offset, turned like it, texts styled like its reference
   * text), and every other module is as it was.
   */
  lemma PlaceRunPlaces(ms: seq<Module>, r: Ref, tk: nat, cfg: Config, upto: int)
    requires tk < |ms| && ms[tk].reference == TemplateRef(r)
    requires |r.prefix| >= 1 && AllLetters(r.prefix) && r.index >= 0
    requires cfg.refModulo > 0
    ensures forall i, ck :: 1 <= i < upto && FindModule(ms, CloneRef(r, i, cfg)) == Some(ck) ==>
      ClonePlaced(PlaceRun(ms, r, tk, ms[tk].position, cfg, upto), ms, tk, cfg, i, ck)
    ensures forall k :: 0 <= k < |ms| && (forall i :: 1 <= i < upto ==> FindModule(ms, CloneRef(r, i, cfg)) != Some(k)) ==>
      PlaceRun(ms, r, tk, ms[tk].position, cfg, upto)[k] == ms[k]
  {
    forall i, ck | 1 <= i < upto && FindModule(ms, CloneRef(r, i, cfg)) == Some(ck)
      ensures ClonePlaced(PlaceRun(ms, r, tk, ms[tk].position, cfg, upto), ms, tk, cfg, i, ck)
    {
      PlaceRunPlacesOne(ms, r, tk, cfg, upto, i, ck);
    }
    forall k | 0 <= k < |ms| && (forall i :: 1 <= i < upto ==> FindModule(ms, CloneRef(r, i, cfg)) != Some(k))
      ensures PlaceRun(ms, r, tk, ms[tk].position, cfg, upto)[k] == ms[k]
    {
      PlaceRunKeepsOthers(ms, r, tk, ms[tk].position, cfg, upto, k);
    }
  }

  /**
   * With every module on a copper side, running the clone loop of a template
   * a second time changes nothing: each clone is already where, and as, the
   * first run put it.
   */
  lemma PlaceRunIdempotent(ms: seq<Module>, r: Ref, tk: nat, cfg: Config, upto: int)
    requires tk < |ms| && ms[tk].reference == TemplateRef(r)
    requires |r.prefix| >= 1 && AllLetters(r.prefix) && r.index >= 0
    requires cfg.refModulo > 0
    requires forall k :: 0 <= k < |ms| ==> OnCopperSide(ms[k].layer)
    ensures var res := PlaceRun(ms, r, tk, ms[tk].position, cfg, upto);
      PlaceRun(res, r, tk, res[tk].position, cfg, upto) == res
  {
    var pos := ms[tk].position;
    var res := PlaceRun(ms, r, tk, pos, cfg, upto);
    PlaceRunKeepsTemplate(ms, r, tk, pos, cfg, upto);
    var again := PlaceRun(res, r, tk, pos, cfg, upto);
    forall i | 1 <= i < upto
      ensures FindModule(res, CloneRef(r, i, cfg)) == FindModule(ms, CloneRef(r, i, cfg))
    {
      PlaceRunFindsSame(ms, r, tk, pos, cfg, upto, CloneRef(r, i, cfg));
    }
    forall k | 0 <= k < |ms|
      ensures again[k] == res[k]
    {
      if i :| 1 <= i < upto && FindModule(ms, CloneRef(r, i, cfg)) == Some(k) {
        PlaceRunPlacesOne(ms, r, tk, cfg, upto, i, k);
        PlaceRunPlacesOne(res, r, tk, cfg, upto, i, k);
        PlacedCloneIdempotent(ms[k], ms[tk], Plus(pos, Offset(cfg, i)));
      } else {
        PlaceRunKeepsOthers(ms, r, tk, pos, cfg, upto, k);
        PlaceRunKeepsOthers(res, r, tk, pos, cfg, upto, k);
      }
    }
  }

  /** The result of the placement phase: the modules, the messages, and the exception that ended it, if any. */
  datatype Placed = Placed(modules: seq<Module>, warnings: seq<Warning>, failed: Option<Error>)

  /**
   * One template of layout_cloner.py:126-155: its lookup raises when the
   * reference finds no module, otherwise all its clones are placed.
   */
  function PlaceTemplate(ms: seq<Module>, r: Ref, cfg: Config): Placed
  {
    match FindModule(ms, TemplateRef(r))
    case None => Placed(ms, [], Some(TemplateNotFound(TemplateRef(r))))
    case Some(tk) =>
      Placed(PlaceRun(ms, r, tk, ms[tk].position, cfg, NumberOfClones(cfg)), MissingClones(ms, r, cfg, NumberOfClones(cfg)), None)
  }

  /** The placement phase over the templates ts in order, stopping at the first exception. */
  function PlaceAll(ms: seq<Module>, ts: seq<Ref>, cfg: Config): (p: Placed)
    ensures |p.modules| == |ms|
  {
    if ts == [] then Placed(ms, [], None)
    else
      var p := PlaceAll(ms, ts[..|ts| - 1], cfg);
      if p.failed.Some? then p
      else
        var q := PlaceTemplate(p.modules, ts[|ts| - 1], cfg);
        Placed(q.modules, p.warnings + q.warnings, q.failed)
  }

  /** The placement phase renames nothing. */
  lemma {:induction false} PlaceAllKeepsReferences(ms: seq<Module>, ts: seq<Ref>, cfg: Config)
    ensures SameReferences(ms, PlaceAll(ms, ts, cfg).modules)
    decreases |ts|
  {
    if ts != [] {
      var p := PlaceAll(ms, ts[..|ts| - 1], cfg);
      PlaceAllKeepsReferences(ms, ts[..|ts| - 1], cfg);
      if p.failed.None? {
        match FindModule(p.modules, TemplateRef(ts[|ts| - 1]))
        case None =>
        case Some(tk) =>
          PlaceRunKeepsReferences(p.modules, ts[|ts| - 1], tk, p.modules[tk].position, cfg, NumberOfClones(cfg));
      }
    }
  }

  /** Every template reference of ts finds a module among ms. */
  predicate AllTemplatesFound(ms: seq<Module>, ts: seq<Ref>)
  {
    forall k :: 0 <= k < |ts| ==> FindModule(ms, TemplateRef(ts[k])).Some?
  }

  /** One template raises exactly when its reference finds no module, and then raises TemplateNotFound. */
  lemma PlaceTemplateFails(ms: seq<Module>, r: Ref, cfg: Config)
    ensures PlaceTemplate(ms, r, cfg).failed.None? <==> FindModule(ms, TemplateRef(r)).Some?
    ensures PlaceTemplate(ms, r, cfg).failed.Some? ==> PlaceTemplate(ms, r, cfg).failed == Some(TemplateNotFound(TemplateRef(r)))
  {
  }

  /** Every template of ts is found exactly when those before the last are and the last is. */
  lemma AllTemplatesFoundSnoc(ms: seq<Module>, ts: seq<Ref>)
    requires ts != []
    ensures AllTemplatesFound(ms, ts) <==>
      AllTemplatesFound(ms, ts[..|ts| - 1]) && FindModule(ms, TemplateRef(ts[|ts| - 1])).Some?
  {
    var init := ts[..|ts| - 1];
    assert forall k :: 0 <= k < |init| ==> init[k] == ts[k];
  }

  /** The phase raises exactly when some template reference finds no module on the board, and then raises TemplateNotFound. */
  lemma {:induction false} PlaceAllFails(ms: seq<Module>, ts: seq<Ref>, cfg: Config)
    ensures PlaceAll(ms, ts, cfg).failed.None? <==> AllTemplatesFound(ms, ts)
    ensures PlaceAll(ms, ts, cfg).failed.Some? ==> PlaceAll(ms, ts, cfg).failed.value.TemplateNotFound?
    decreases |ts|
  {
    if ts != [] {
      var init, last := ts[..|ts| - 1], ts[|ts| - 1];
      var p := PlaceAll(ms, init, cfg);
      PlaceAllFails(ms, init, cfg);
      AllTemplatesFoundSnoc(ms, ts);
      if p.failed.None? {
        PlaceAllKeepsReferences(ms, init, cfg);
        FindModuleSameReferences(ms, p.modules, TemplateRef(last));
        PlaceTemplateFails(p.modules, last, cfg);
      }
    }
  }

  /** Once the phase has raised, the remaining templates change nothing. */
  lemma {:induction false} PlaceAllStopped(ms: seq<Module>, ts: seq<Ref>, cfg: Config, k: nat)
    requires k <= |ts| && PlaceAll(ms, ts[..k], cfg).failed.Some?
    ensures PlaceAll(ms, ts, cfg) == PlaceAll(ms, ts[..k], cfg)
    decreases |ts|
  {
    if k < |ts| {
      var init := ts[..|ts| - 1];
      assert init[..k] == ts[..k];
      PlaceAllStopped(ms, init, cfg, k);
    } else {
      assert ts[..k] == ts;
    }
  }

  /** With fewer than two clones nothing moves and nothing is reported. */
  lemma {:induction false} NoClonesNoPlacement(ms: seq<Module>, ts: seq<Ref>, cfg: Config)
    requires CloneCount(cfg) == 0
    requires PlaceAll(ms, ts, cfg).failed.None?
    ensures PlaceAll(ms, ts, cfg).modules == ms && PlaceAll(ms, ts, cfg).warnings == []
    decreases |ts|
  {
    if ts != [] {
      NoClonesNoPlacement(ms, ts[..|ts| - 1], cfg);
    }
  }

  /** With fewer than two clones a template places nothing and reports nothing. */
  lemma NothingToPlace(ms: seq<Module>, r: Ref, tk: nat, pos: Point, cfg: Config, upto: int)
    requires tk < |ms| && upto <= 1
    ensures PlaceRun(ms, r, tk, pos, cfg, upto) == PlaceRun(ms, r, tk, pos, cfg, 1) == ms
    ensures MissingClones(ms, r, cfg, upto) == MissingClones(ms, r, cfg, 1) == []
  {
  }

  /** The phase over the first k+1 templates, from the phase over the first k. */
  lemma PlaceAllSnoc(ms: seq<Module>, ts: seq<Ref>, cfg: Config, k: nat)
    requires k < |ts|
    ensures var p := PlaceAll(ms, ts[..k], cfg);
      PlaceAll(ms, ts[..k + 1], cfg) ==
        if p.failed.Some? then p
        else
          var q := PlaceTemplate(p.modules, ts[k], cfg);
          Placed(q.modules, p.warnings + q.warnings, q.failed)
  {
    assert ts[..k + 1][..k] == ts[..k];
  }

  /**
   * One pass of the inner loop of layout_cloner.py:135-155 on the board: the
   * modules become those of PlaceStep, and a clone that finds no module gives
   * its message.
   */
  method PlaceOneClone(board: Board, r: Ref, tk: nat, templatePosition: Point, cfg: Config, i: int) returns (missing: seq<Warning>)
    requires tk < |board.modules|
    modifies board
    ensures board.modules == PlaceStep(old(board.modules), r, tk, templatePosition, cfg, i)
    ensures missing == MissingClone(old(board.modules), r, cfg, i)
    ensures board.zones == old(board.zones) && board.tracks == old(board.tracks) && board.drawings == old(board.drawings)
  {
    var cloneRef := CloneRef(r, i, cfg);
    var clone := FindModule(board.modules, cloneRef);
    if clone.None? {
      missing := [CloneToMoveMissing(cloneRef)];
    } else {
      missing := [];
      var ck := clone.value;
      var at := Plus(templatePosition, Offset(cfg, i));
      board.UpdateModule(ck, PlacedClone(board.modules[ck], board.modules[tk], at));
    }
  }

  /**
   * The inner loop of layout_cloner.py:131-155 for template r found at tk:
   * the modules become those of PlaceRun, the messages those of
   * MissingClones, and nothing else changes.
   */
  method PlaceTemplateClones(board: Board, r: Ref, tk: nat, cfg: Config) returns (warnings: seq<Warning>)
    requires tk < |board.modules|
    modifies board
    ensures board.modules == PlaceRun(old(board.modules), r, tk, old(board.modules)[tk].position, cfg, NumberOfClones(cfg))
    ensures warnings == MissingClones(old(board.modules), r, cfg, NumberOfClones(cfg))
    ensures board.zones == old(board.zones) && board.tracks == old(board.tracks) && board.drawings == old(board.drawings)
  {
    ghost var start := board.modules;
    var n := NumberOfClones(cfg);
    var templatePosition := board.modules[tk].position;
    warnings := [];
    var last := if n > 1 then n else 1;
    var i := 1;
    while i < last
      invariant 1 <= i <= last
      invariant board.modules == PlaceRun(start, r, tk, templatePosition, cfg, i)
      invariant warnings == MissingClones(start, r, cfg, i)
      invariant board.zones == old(board.zones) && board.tracks == old(board.tracks) && board.drawings == old(board.drawings)
    {
      var missing := PlaceOneClone(board, r, tk, templatePosition, cfg, i);
      assert board.modules == PlaceRun(start, r, tk, templatePosition, cfg, i + 1) by {
        PlaceRunNext(start, r, tk, templatePosition, cfg, i);
      }
      assert warnings + missing == MissingClones(start, r, cfg, i + 1) by {
        PlaceRunFindsSame(start, r, tk, templatePosition, cfg, i, CloneRef(r, i, cfg));
        PlaceRunNext(start, r, tk, templatePosition, cfg, i);
      }
      warnings := warnings + missing;
      i := i + 1;
    }
    assert i == last;
    if n <= 1 {
      NothingToPlace(start, r, tk, templatePosition, cfg, n);
    }
  }

  /**
   * layout_cloner.py:126-155 on the board: the modules become those of
   * PlaceAll, the messages and the exception are those of PlaceAll, and the
   * zones, tracks and drawings stay as they were.
   */
  method PlaceClones(board: Board, ts: seq<Ref>, cfg: Config) returns (failed: Option<Error>, warnings: seq<Warning>)
    modifies board
    ensures board.modules == PlaceAll(old(board.modules), ts, cfg).modules
    ensures warnings == PlaceAll(old(board.modules), ts, cfg).warnings
    ensures failed == PlaceAll(old(board.modules), ts, cfg).failed
    ensures board.zones == old(board.zones) && board.tracks == old(board.tracks) && board.drawings == old(board.drawings)
  {
    ghost var ms := board.modules;
    warnings := [];
    for k := 0 to |ts|
      invariant PlaceAll(ms, ts[..k], cfg) == Placed(board.modules, warnings, None)
      invariant board.zones == old(board.zones) && board.tracks == old(board.tracks) && board.drawings == old(board.drawings)
    {
      PlaceAllSnoc(ms, ts, cfg, k);
      var r := ts[k];
      var templateRef := TemplateRef(r);
      var found := FindModule(board.modules, templateRef);
      if found.None? {
        PlaceAllStopped(ms, ts, cfg, k + 1);
        return Some(TemplateNotFound(templateRef)), warnings;
      }
      var more := PlaceTemplateClones(board, r, found.value, cfg);
      warnings := warnings + more;
    }
    assert ts[..|ts|] == ts;
    return None, warnings;
  }
}
