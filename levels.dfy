/** The proficiency levels a score maps to and a plan is generated for. */
module Levels {

  /** 'A0', 'A1' and 'A2-kids', from least to most proficient. */
  datatype Level = A0 | A1 | A2Kids {

    /** The string the system stores and compares for this level. */
    function Label(): string {
      match this
      case A0 => "A0"
      case A1 => "A1"
      case A2Kids => "A2-kids"
    }

    /** Position in the order A0 < A1 < A2-kids. */
    function Rank(): nat {
      match this
      case A0 => 0
      case A1 => 1
      case A2Kids => 2
    }
  }

  /** The level strings that have their own configuration. */
  const KnownLabels: set<string> := {"A0", "A1", "A2-kids"}
}
