/** The two enumerations of Common/Protocol.h that both ends keep as state. */
module Streaming {
  datatype DataRate = Hz30 | Hz60 {
    function Hz(): nat {
      match this
      case Hz30 => 30
      case Hz60 => 60
    }
  }

  datatype SessionState = Stopped | Playing | Paused
}
