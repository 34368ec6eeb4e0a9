/**
 * The part of the host board that do_clone reads and changes: modules with
 * their pads and two text labels, zones, tracks and drawings. The board
 * itself is an object whose lists are updated in place.
 */
module Board {
  import opened Wrappers
  import opened Geometry

  /** Layer numbers of the host: front copper, back copper, and the user comment layer. */
  const FrontCopper := 0
  const BackCopper := 31
  const CommentLayer := 41

  datatype Pad = Pad(name: string, net: int)

  /** A module text (reference or value): its string and the attributes do_clone copies. */
  datatype Label = Label(text: string, pos0: Point, orientation: int, height: int, width: int,
                         thickness: int, visible: bool)

  datatype Module = Module(reference: string, position: Point, orientation: int, layer: int,
                           fpid: string, pads: seq<Pad>, refLabel: Label, valueLabel: Label)

  /** A zone: its layer, its anchor point (GetPosition), its bounding box and its net code. */
  datatype Zone = Zone(layer: int, position: Point, bbox: Rect, net: int)

  datatype Track = Track(start: Point, end: Point, layer: int, net: int)

  datatype Drawing = Drawing(start: Point, end: Point, layer: int)

  /** The side a module is on after the host flips it. */
  function FlipSide(layer: int): int
  {
    if layer == FrontCopper then BackCopper else if layer == BackCopper then FrontCopper else layer
  }

  predicate OnCopperSide(layer: int) { layer == FrontCopper || layer == BackCopper }

  /** Flipping twice returns a module to its side, and moves a copper side to the other one. */
  lemma FlipSideSwaps(layer: int)
    requires OnCopperSide(layer)
    ensures OnCopperSide(FlipSide(layer)) && FlipSide(layer) != layer
    ensures FlipSide(FlipSide(layer)) == layer
  {
  }

  /** The host's Move: a translation of the whole item. */
  function MoveZone(z: Zone, d: Point): Zone
  {
    z.(position := Plus(z.position, d), bbox := MoveRect(z.bbox, d))
  }

  function MoveTrack(t: Track, d: Point): Track
  {
    t.(start := Plus(t.start, d), end := Plus(t.end, d))
  }

  function MoveDrawing(g: Drawing, d: Point): Drawing
  {
    g.(start := Plus(g.start, d), end := Plus(g.end, d))
  }

  /** The host's FindModuleByReference: the first module carrying exactly that reference. */
  function FindModule(ms: seq<Module>, reference: string): (r: Option<nat>)
    ensures r.Some? ==> r.value < |ms| && ms[r.value].reference == reference
  {
    if ms == [] then None
    else if ms[0].reference == reference then Some(0)
    else match FindModule(ms[1..], reference)
      case None => None
      case Some(k) => Some(k + 1)
  }

  /** The lookup answers the first module with the reference, and None only when no module has it. */
  lemma {:induction false} FindModuleIsFirst(ms: seq<Module>, reference: string)
    ensures FindModule(ms, reference).Some? ==> forall j :: 0 <= j < FindModule(ms, reference).value ==> ms[j].reference != reference
    ensures FindModule(ms, reference).None? <==> forall j :: 0 <= j < |ms| ==> ms[j].reference != reference
    decreases |ms|
  {
    if ms != [] && ms[0].reference != reference {
      FindModuleIsFirst(ms[1..], reference);
      assert forall j :: 1 <= j < |ms| ==> ms[j] == ms[1..][j - 1];
    }
  }

  /** Two module lists with the same references answer every lookup alike. */
  lemma FindModuleSameReferences(ms: seq<Module>, ms': seq<Module>, reference: string)
    requires |ms| == |ms'|
    requires forall k :: 0 <= k < |ms| ==> ms[k].reference == ms'[k].reference
    ensures FindModule(ms, reference) == FindModule(ms', reference)
  {
    var a, b := FindModule(ms, reference), FindModule(ms', reference);
    FindModuleIsFirst(ms, reference);
    FindModuleIsFirst(ms', reference);
    if a.Some? && b.Some? {
      assert !(a.value < b.value) && !(b.value < a.value);
    }
  }

  /** The board document: its four lists, which the host changes in place. */
  class Board {
    var modules: seq<Module>
    var zones: seq<Zone>
    var tracks: seq<Track>
    var drawings: seq<Drawing>

    constructor (modules: seq<Module>, zones: seq<Zone>, tracks: seq<Track>, drawings: seq<Drawing>)
      ensures this.modules == modules && this.zones == zones
      ensures this.tracks == tracks && this.drawings == drawings
    {
      this.modules := modules;
      this.zones := zones;
      this.tracks := tracks;
      this.drawings := drawings;
    }

    /** The setters of one module (Flip, SetPosition, SetOrientation, text setters). */
    method UpdateModule(k: nat, m: Module)
      requires k < |modules|
      modifies this
      ensures modules == old(modules)[k := m]
      ensures zones == old(zones) && tracks == old(tracks) && drawings == old(drawings)
    {
      modules := modules[k := m];
    }

    /** BOARD.Add of a zone: it goes to the end of the zone list. */
    method Add(z: Zone)
      modifies this
      ensures zones == old(zones) + [z]
      ensures modules == old(modules) && tracks == old(tracks) && drawings == old(drawings)
    {
      zones := zones + [z];
    }

    /** Append on the track list. */
    method AppendTrack(t: Track)
      modifies this
      ensures tracks == old(tracks) + [t]
      ensures modules == old(modules) && zones == old(zones) && drawings == old(drawings)
    {
      tracks := tracks + [t];
    }

    /** Append on the drawing list. */
    method AppendDrawing(g: Drawing)
      modifies this
      ensures drawings == old(drawings) + [g]
      ensures modules == old(modules) && zones == old(zones) && tracks == old(tracks)
    {
      drawings := drawings + [g];
    }
  }
}
