/** What several of the modules need. */
module Common {
  datatype Option<+T> = None | Some(value: T)

  /** Values of a C uint are below this. */
  const UINT: nat := 0x1_0000_0000

  lemma {:induction false} SubsetSize(a: set<nat>, b: set<nat>)
    requires a <= b
    ensures |a| <= |b|
    decreases a
  {
    if x :| x in a {
      SubsetSize(a - {x}, b - {x});
    }
  }
}
