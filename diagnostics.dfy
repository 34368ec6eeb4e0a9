/** How a run of do_clone ends, and the messages it prints on the way. */
module Diagnostics {

  /** An exception that ends the run. */
  datatype Error =
    | SecondCommentZone                 // the assert at layout_cloner.py:61
    | NoCommentZone                     // templateRect still None at layout_cloner.py:63
    | UnparsableReference(reference: string)  // re.match(...) is None at layout_cloner.py:73
    | TemplateNotFound(reference: string)     // templateModule is None at layout_cloner.py:100 or 129
    | PadNamesDiffer(reference: string)       // the assert at layout_cloner.py:105
    | UnsetNetSlot(net: int, clone: int)      // SetNetCode(None) at layout_cloner.py:167 or 183
    | UnboundTrackName                        // `track` read before assignment at layout_cloner.py:169

  /** A `return` that ends the run early. */
  datatype Abort =
    | CloneNotPlaced(reference: string)       // layout_cloner.py:96-98
    | FootprintDiffers(reference: string)     // layout_cloner.py:100-102

  datatype Outcome = Completed | Returned(abort: Abort) | Raised(error: Error)

  /** A printed message after which the run goes on. */
  datatype Warning =
    | InRangeOutsideZone(reference: string)   // layout_cloner.py:77
    | OutOfRangeInZone(reference: string)     // layout_cloner.py:80
    | NonUnanimous(net: int, clone: int)      // layout_cloner.py:119
    | CloneToMoveMissing(reference: string)   // layout_cloner.py:138
    | UnknownNet(net: int)                    // layout_cloner.py:169 and 185
}
