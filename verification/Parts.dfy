/** Stretches of one sequence found in another. */
module Parts {

  /** Whether `whole` goes on from `at` with `part`. */
  ghost predicate Has<T>(whole: seq<T>, at: nat, part: seq<T>) {
    at + |part| <= |whole| && forall k | 0 <= k < |part| :: whole[at + k] == part[k]
  }

  lemma HasParts<T>(whole: seq<T>, at: nat, part: seq<T>, more: seq<T>)
    ensures Has(whole, at, part + more) <==> Has(whole, at, part) && Has(whole, at + |part|, more)
  {
    var both := part + more;
    if Has(whole, at, both) {
      forall k | 0 <= k < |part| ensures whole[at + k] == part[k] { assert both[k] == part[k]; }
      forall k | 0 <= k < |more| ensures whole[at + |part| + k] == more[k] { assert both[|part| + k] == more[k]; }
    }
    if Has(whole, at, part) && Has(whole, at + |part|, more) {
      forall k | 0 <= k < |both| ensures whole[at + k] == both[k] {
        if k >= |part| { assert whole[at + |part| + (k - |part|)] == more[k - |part|]; }
      }
    }
  }
}
