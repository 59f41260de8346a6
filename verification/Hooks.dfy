/** What a store asks the application, the anchor and the operating system for, and how often it was refused. */
module Hooks {
  import opened Atomic

  datatype Hook =
    | Opening | StateValidation | StageApproval | AnchorApproval | AnchorSwap | AnchorCheck | ReconcileApproval
    | SignatureCheck | ClockReading

  class Asked {
    /** What was granted, in order, and how many times something was refused. */
    ghost var granted: seq<Hook>
    ghost var refused: nat
    /** How many times the anchor was swapped. */
    ghost var swaps: nat

    constructor ()
      ensures granted == [] && refused == swaps == 0
    {
      granted, refused, swaps := [], 0, 0;
    }

    /** Asks; when `calm`, the answer is yes. */
    method Ask(ghost hook: Hook, calm: bool) returns (status: Outcome)
      modifies this
      ensures calm ==> status == OK
      ensures status == OK ==> granted == old(granted) + [hook] && refused == old(refused)
      ensures swaps == old(swaps) + (if status == OK && hook == AnchorSwap then 1 else 0)
      ensures status != OK ==> granted == old(granted) && refused == old(refused) + 1
    {
      status := *;
      if calm {
        status := OK;
      }
      if status == OK {
        granted, swaps := granted + [hook], swaps + (if hook == AnchorSwap then 1 else 0);
      } else {
        refused := refused + 1;
      }
    }

    /** This was granted last. */
    ghost predicate Just(hook: Hook)
      reads this
    {
      granted != [] && granted[|granted| - 1] == hook
    }

    /** Since then exactly these were granted and nothing was refused. */
    twostate predicate Given(hooks: seq<Hook>)
      reads this
    {
      granted == old(granted) + hooks && refused == old(refused)
    }
  }
}
