// Optional values and small facts shared by the other modules.
module Wrappers {
  datatype Option<+T> = None | Some(value: T) {
    function GetOr(default: T): T {
      if Some? then value else default
    }
  }

  /** There is always one more number. */
  lemma Unused(used: set<nat>) returns (n: nat)
    ensures n !in used
  {
    var rest := used;
    var above: nat := 0;
    while rest != {}
      invariant forall p :: p in used && p >= above ==> p in rest
      decreases |rest|
    {
      var p :| p in rest;
      rest := rest - {p};
      above := if p >= above then p + 1 else above;
    }
    n := above;
  }
}
