/**
 * The previous/next links at the foot of the juz and chapter views: the
 * target is the route id parsed and stepped by one, clamped to the first and
 * last id, and a link is greyed out (its click cancelled) at either end.
 */
module ChapterLinks {
  import opened JsValues

  /** `Math.max(1, parseInt(id) - 1)`. */
  function PrevTarget(id: string): JsNumber {
    MaxJs(1, AddJs(ParseInt(id, false), -1))
  }

  /** `Math.min(last, parseInt(id) + 1)`. */
  function NextTarget(id: string, last: int): JsNumber {
    MinJs(last, AddJs(ParseInt(id, false), 1))
  }

  /** `parseInt(id) <= 1`. */
  predicate PrevDisabled(id: string) {
    AtMostJs(ParseInt(id, false), 1)
  }

  /** `parseInt(id) >= last`. */
  predicate NextDisabled(id: string, last: int) {
    AtLeastJs(ParseInt(id, false), last)
  }

  /**
   * On a view whose id lies in 1..last, both links stay within 1..last; a
   * link is disabled exactly when it would lead back to the same id, and an
   * enabled link steps the id by exactly one.
   */
  lemma LinksClamped(id: string, j: int, last: int)
    requires ParseInt(id, false) == Int(j) && 1 <= j <= last
    ensures PrevTarget(id).Int? && 1 <= PrevTarget(id).i <= last
    ensures NextTarget(id, last).Int? && 1 <= NextTarget(id, last).i <= last
    ensures PrevDisabled(id) <==> PrevTarget(id) == Int(j)
    ensures NextDisabled(id, last) <==> NextTarget(id, last) == Int(j)
    ensures !PrevDisabled(id) ==> PrevTarget(id) == Int(j - 1)
    ensures !NextDisabled(id, last) ==> NextTarget(id, last) == Int(j + 1)
  {
  }

  /** A non-numeric id makes both targets `NaN` and leaves both links enabled. */
  lemma NonNumericIdLinks(id: string, last: int)
    requires ParseInt(id, false).NaN?
    ensures PrevTarget(id).NaN? && NextTarget(id, last).NaN?
    ensures !PrevDisabled(id) && !NextDisabled(id, last)
  {
  }
}
