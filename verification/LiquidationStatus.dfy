/** The life of a liquidation. */
module LiquidationStatus {

  datatype Status = Draft | Reviewed | Published | Canceled {
    function Rank(): nat {
      match this
      case Draft => 0
      case Reviewed => 1
      case Published => 2
      case Canceled => 3
    }

    /** The changes of status that the trigger on liquidations lets through; published and canceled are terminal. */
    predicate MayBecome(next: Status) {
      match this
      case Draft => next.Reviewed? || next.Canceled?
      case Reviewed => next.Published? || next.Canceled?
      case Published => false
      case Canceled => false
    }
  }

  /** A draft is reviewed and then published, and can be canceled before; nothing else changes. */
  lemma MayBecomeIff(a: Status, b: Status)
    ensures a.MayBecome(b) <==>
            (a, b) in {(Draft, Reviewed), (Reviewed, Published), (Draft, Canceled), (Reviewed, Canceled)}
  {
  }
}
