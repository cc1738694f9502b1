/**
 The camera facing-mode preference the capture request is made with. The
 app keeps it as a string, starts at "environment" (the rear camera) and
 flips it on each press of the switch button; any value other than
 "environment" flips to "environment".
 */
module Camera {

  const Environment: string := "environment"
  const User: string := "user"

  /** The facing mode the app starts with. */
  const InitialFacing: string := Environment

  /** One of the two facing modes the capture request understands. */
  predicate KnownFacing(mode: string) {
    mode == Environment || mode == User
  }

  /** The facing mode after one press of the switch button. */
  function ToggleFacing(prev: string): (next: string)
    ensures KnownFacing(next)
    ensures KnownFacing(prev) ==> next != prev
    ensures !KnownFacing(prev) ==> next == Environment
  {
    if prev == Environment then User else Environment
  }

  /** From either known mode, two presses come back to where they started. */
  lemma ToggleTwiceRestores(mode: string)
    requires KnownFacing(mode)
    ensures ToggleFacing(ToggleFacing(mode)) == mode
  {
  }

  /** The facing mode after the switch button has been pressed `presses` times. */
  function FacingAfter(presses: nat): (mode: string)
    ensures KnownFacing(mode)
  {
    if presses == 0 then InitialFacing else ToggleFacing(FacingAfter(presses - 1))
  }

  /** The rear camera is selected exactly after an even number of presses. */
  lemma {:induction false} FacingParity(presses: nat)
    ensures FacingAfter(presses) == Environment <==> presses % 2 == 0
    ensures FacingAfter(presses) == User <==> presses % 2 == 1
  {
    if presses > 0 {
      FacingParity(presses - 1);
    }
  }
}
