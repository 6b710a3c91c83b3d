/**
 * The two bounded, most-recent-first history policies of the application.
 * The server truncates the session list to its capacity after inserting at
 * the head; the page inserts at the head and then evicts at most one tail
 * item when the count exceeds the capacity.
 */
module History {

  /** Insert at index 0, then keep only the first `cap` items (a Python slice `[:cap]`). */
  function PrependTruncated<T>(item: T, h: seq<T>, cap: nat): (r: seq<T>)
    requires cap > 0
    ensures |r| == if |h| + 1 < cap then |h| + 1 else cap
    ensures r[0] == item
    ensures forall i :: 0 <= i < |r| - 1 ==> r[i + 1] == h[i]
  {
    var extended := [item] + h;
    if |extended| <= cap then extended else extended[..cap]
  }

  /** Insert at the head, then remove the single last item if the count exceeds `cap`. */
  function PrependEvictOne<T>(item: T, h: seq<T>, cap: nat): (r: seq<T>)
    requires cap > 0
    ensures |r| == if |h| + 1 > cap then |h| else |h| + 1
    ensures r[0] == item
    ensures |h| <= cap ==> |r| <= cap
    ensures forall i :: 0 <= i < |r| - 1 ==> r[i + 1] == h[i]
  {
    var extended := [item] + h;
    if |extended| > cap then extended[..|extended| - 1] else extended
  }

  /** For a history within its capacity the two policies coincide. */
  lemma PoliciesAgreeWithinCapacity<T>(item: T, h: seq<T>, cap: nat)
    requires 0 < cap && |h| <= cap
    ensures PrependEvictOne(item, h, cap) == PrependTruncated(item, h, cap)
  {
  }

  /** The history after recording `items` one after another, oldest first. */
  function RecordAll<T>(items: seq<T>, h: seq<T>, cap: nat): seq<T>
    requires cap > 0
  {
    if items == [] then h else RecordAll(items[1..], PrependTruncated(items[0], h, cap), cap)
  }

  function Reverse<T>(s: seq<T>): (r: seq<T>)
    ensures |r| == |s|
    ensures forall i :: 0 <= i < |s| ==> r[i] == s[|s| - 1 - i]
  {
    if s == [] then [] else Reverse(s[1..]) + [s[0]]
  }

  /** The first `cap` items of `s`, or all of them when there are fewer. */
  function Take<T>(s: seq<T>, cap: nat): (r: seq<T>)
    ensures |r| == if |s| < cap then |s| else cap
  {
    if |s| <= cap then s else s[..cap]
  }

  lemma TakeOfAppendTake<T>(a: seq<T>, b: seq<T>, cap: nat)
    ensures Take(a + Take(b, cap), cap) == Take(a + b, cap)
  {
    var l, r := Take(a + Take(b, cap), cap), Take(a + b, cap);
    assert |l| == |r|;
    forall i | 0 <= i < |l|
      ensures l[i] == r[i]
    {
      if i >= |a| {
        assert l[i] == Take(b, cap)[i - |a|];
      }
    }
  }

  /**
   * Recording a sequence of items into a history keeps the `cap` most recent
   * entries, newest first: the newest items, reversed, followed by what is left
   * of the old history.
   */
  lemma {:induction false} RecordAllKeepsMostRecent<T>(items: seq<T>, h: seq<T>, cap: nat)
    requires 0 < cap && |h| <= cap
    ensures RecordAll(items, h, cap) == Take(Reverse(items) + h, cap)
  {
    if items == [] {
      assert Reverse(items) + h == h;
    } else {
      var x := items[0];
      var h' := PrependTruncated(x, h, cap);
      assert h' == Take([x] + h, cap);
      RecordAllKeepsMostRecent(items[1..], h', cap);
      TakeOfAppendTake(Reverse(items[1..]), [x] + h, cap);
      assert Reverse(items) + h == Reverse(items[1..]) + ([x] + h);
    }
  }

  /** Eleven recordings into an empty history leave exactly the ten most recent, newest first. */
  lemma ElevenRecordingsKeepTen<T>(items: seq<T>)
    requires |items| == 11
    ensures var r := RecordAll(items, [], 10);
            |r| == 10 && forall i :: 0 <= i < 10 ==> r[i] == items[10 - i]
  {
    RecordAllKeepsMostRecent(items, [], 10);
  }
}
