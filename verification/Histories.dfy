/** Whole histories from `init` on. */
module Histories {
  import opened Slots
  import opened TableState
  import opened Operations
  import opened Runs
  import opened Amortised
  import opened Initial

  /** After a successful `init`, any legal history is a history of an initially empty map. */
  lemma HistoryRefines<K, V>(length: nat, gen: nat, ops: seq<Op<K, V>>, hash: K -> HashNumber)
    requires length <= MAX_INIT
    requires LegalRun(Init<K, V>(length, gen, true).value, ops, hash)
    ensures var t := Init<K, V>(length, gen, true).value;
      var (t', answers) := Run(t, ops, hash);
      && Inv(t', hash) && HasFree(t')
      && MapRun(map[], ops, answers, View(t'))
  {
    hide Inv, View, MapRun, Run, Init;
    InitSmallest<K, V>(length, gen, hash);
    var t := Init<K, V>(length, gen, true).value;
    RunRefines(t, ops, hash);
    QuarterFree(Run(t, ops, hash).0, hash);
  }

  /**
   * Over any history, resizing walks at most twelve slots for each key entered and twice the
   * initial capacity; without enumerations that is at most twelve per call.
   */
  lemma HistoryIsAmortised<K, V>(length: nat, gen: nat, ops: seq<Op<K, V>>, hash: K -> HashNumber)
    requires length <= MAX_INIT
    requires LegalRun(Init<K, V>(length, gen, true).value, ops, hash)
    ensures var t := Init<K, V>(length, gen, true).value;
      && RunWalked(t, ops, hash) <= 12 * RunEntered(t, ops, hash) + 2 * Capacity(t)
      && ((forall op :: op in ops ==> !op.OpSweep?) ==> RunWalked(t, ops, hash) <= 12 * |ops| + 2 * Capacity(t))
  {
    hide Inv, View, Powers.Pow2, Legal, Step, RunWalked, RunEntered;
    InitSmallest<K, V>(length, gen, hash);
    ResizingIsAmortised(Init<K, V>(length, gen, true).value, ops, hash);
  }
}
