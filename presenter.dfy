/**
 * The pure presentation helpers of the page: the probability list sorted by
 * value, the display label of a class key, the badge style of a result type
 * and the tumour subtype shown on a history item.
 */
module Presenter {
  import opened Wrappers
  import opened Text

  /** One `[className, probability]` pair of `Object.entries(class_probabilities)`. */
  datatype Entry = Entry(key: string, value: int)

  /** A rendered probability bar: its label and its value. */
  datatype ProbabilityItem = ProbabilityItem(name: string, value: int)

  datatype Badge = SuccessStyle | ErrorStyle

  datatype Subtype = Pituitary | Glioma | Meningioma

  /**
   * The label of a class key: "No Tumor" for `notumor`, otherwise the key with
   * its first character upper-cased and the rest unchanged.
   */
  function DisplayName(key: string): (shown: string)
    ensures key == "notumor" ==> shown == "No Tumor"
    ensures key != "notumor" ==> |shown| == |key|
    ensures key != "notumor" && key != "" ==> shown[0] == UpperChar(key[0]) && shown[1..] == key[1..]
  {
    if key == "notumor" then "No Tumor"
    else if key == "" then ""
    else [UpperChar(key[0])] + key[1..]
  }

  /** Apart from `notumor`, a label spells its key, up to letter case. */
  lemma DisplayNameKeepsSpelling(key: string)
    requires key != "notumor"
    ensures Lower(DisplayName(key)) == Lower(key)
  {
    var shown := DisplayName(key);
    forall i | 0 <= i < |key|
      ensures Lower(shown)[i] == Lower(key)[i]
    {
      if i == 0 {
        LowerOfUpper(key[0]);
      } else {
        assert shown[i] == shown[1..][i - 1] == key[i];
      }
    }
  }

  /** `styles[resultType] || styles.tumor`. */
  function BadgeStyle(resultType: string): (b: Badge)
    ensures b == SuccessStyle <==> resultType == "healthy"
  {
    var styles := map["healthy" := SuccessStyle, "tumor" := ErrorStyle];
    if resultType in styles then styles[resultType] else styles["tumor"]
  }

  // ----- sorting the probability entries -----

  predicate NonIncreasing(s: seq<Entry>) {
    forall i, j :: 0 <= i < j < |s| ==> s[i].value >= s[j].value
  }

  /** An entry no smaller than the head of a non-increasing sequence can go in front of it. */
  lemma ConsNonIncreasing(e: Entry, s: seq<Entry>)
    requires NonIncreasing(s) && (s == [] || e.value >= s[0].value)
    ensures NonIncreasing([e] + s)
  {
    forall i, j | 0 <= i < j < |[e] + s|
      ensures ([e] + s)[i].value >= ([e] + s)[j].value
    {
      if i > 0 {
        assert ([e] + s)[i] == s[i - 1];
      }
      assert ([e] + s)[j] == s[j - 1];
    }
  }

  /** Places `x` before the first entry it is not smaller than. */
  function InsertDescending(x: Entry, t: seq<Entry>): (r: seq<Entry>)
    requires NonIncreasing(t)
    ensures |r| == |t| + 1
    ensures r[0] == x || (t != [] && r[0] == t[0])
    ensures NonIncreasing(r)
  {
    if t == [] || x.value >= t[0].value then
      ConsNonIncreasing(x, t);
      [x] + t
    else
      var rest := InsertDescending(x, t[1..]);
      assert t[0].value >= rest[0].value;
      ConsNonIncreasing(t[0], rest);
      [t[0]] + rest
  }

  /** Insertion adds exactly the inserted entry. */
  lemma {:induction false} InsertPermutes(x: Entry, t: seq<Entry>)
    requires NonIncreasing(t)
    ensures multiset(InsertDescending(x, t)) == multiset(t) + multiset{x}
  {
    if t != [] && x.value < t[0].value {
      InsertPermutes(x, t[1..]);
      assert t == [t[0]] + t[1..];
    }
  }

  /**
   * `entries.sort(([,a], [,b]) => b - a)`: the entries in non-increasing order
   * of value, as a rearrangement of the input.
   */
  function SortDescending(s: seq<Entry>): (r: seq<Entry>)
    ensures |r| == |s|
    ensures NonIncreasing(r)
    ensures multiset(r) == multiset(s)
  {
    if s == [] then []
    else
      assert s == [s[0]] + s[1..];
      InsertPermutes(s[0], SortDescending(s[1..]));
      InsertDescending(s[0], SortDescending(s[1..]))
  }

  /** The entries of `s` carrying value `v`, in their order in `s`. */
  function WithValue(s: seq<Entry>, v: int): seq<Entry> {
    if s == [] then [] else (if s[0].value == v then [s[0]] else []) + WithValue(s[1..], v)
  }

  lemma {:induction false} InsertKeepsTies(x: Entry, t: seq<Entry>, v: int)
    requires NonIncreasing(t)
    ensures WithValue(InsertDescending(x, t), v) == WithValue([x] + t, v)
  {
    if t == [] || x.value >= t[0].value {
    } else {
      var rest := InsertDescending(x, t[1..]);
      InsertKeepsTies(x, t[1..], v);
      assert ([t[0]] + rest)[1..] == rest;
      assert ([x] + t)[1..] == t;
      assert ([x] + t[1..])[1..] == t[1..];
    }
  }

  /**
   * The sort is stable: entries with equal values keep their relative order,
   * as `Array.prototype.sort` guarantees.
   */
  lemma {:induction false} SortIsStable(s: seq<Entry>, v: int)
    ensures WithValue(SortDescending(s), v) == WithValue(s, v)
  {
    if s != [] {
      SortIsStable(s[1..], v);
      InsertKeepsTies(s[0], SortDescending(s[1..]), v);
      assert ([s[0]] + SortDescending(s[1..]))[1..] == SortDescending(s[1..]);
    }
  }

  /** Sorting loses no entry. */
  lemma SortKeepsEntries(s: seq<Entry>, e: Entry)
    requires e in s
    ensures e in SortDescending(s)
  {
    assert e in multiset(s);
  }

  /** `createProbabilityItem`: the bar of one entry. */
  function ItemFor(e: Entry): (item: ProbabilityItem)
    ensures item.value == e.value
    ensures e.key == "notumor" ==> item.name == "No Tumor"
    ensures e.key != "notumor" ==> Lower(item.name) == Lower(e.key)
  {
    if e.key == "notumor" then ProbabilityItem(DisplayName(e.key), e.value)
    else
      DisplayNameKeepsSpelling(e.key);
      ProbabilityItem(DisplayName(e.key), e.value)
  }

  /**
   * `createProbabilityBars`: one bar per entry, in non-increasing order of
   * value, each entry shown exactly once.
   */
  method CreateProbabilityBars(probabilities: seq<Entry>) returns (items: seq<ProbabilityItem>)
    ensures |items| == |probabilities|
    ensures forall i :: 0 <= i < |items| ==> items[i] == ItemFor(SortDescending(probabilities)[i])
    ensures forall i, j :: 0 <= i < j < |items| ==> items[i].value >= items[j].value
    ensures forall e :: e in probabilities ==> ItemFor(e) in items
  {
    var sorted := SortDescending(probabilities);
    items := [];
    for i := 0 to |sorted|
      invariant |items| == i
      invariant forall k :: 0 <= k < i ==> items[k] == ItemFor(sorted[k])
    {
      var item := ItemFor(sorted[i]);
      assert forall k :: 0 <= k < i ==> (items + [item])[k] == items[k];
      items := items + [item];
    }
    forall i, j | 0 <= i < j < |items|
      ensures items[i].value >= items[j].value
    {
      assert items[i].value == sorted[i].value && items[j].value == sorted[j].value;
    }
    forall e | e in probabilities
      ensures ItemFor(e) in items
    {
      SortKeepsEntries(probabilities, e);
      var k :| 0 <= k < |sorted| && sorted[k] == e;
      assert items[k] == ItemFor(e);
    }
  }

  // ----- tumour subtype of a history item -----

  function SubtypeName(t: Subtype): string {
    match t
    case Pituitary => "pituitary"
    case Glioma => "glioma"
    case Meningioma => "meningioma"
  }

  /** Position of a subtype in the order in which the page tests for it. */
  function Priority(t: Subtype): nat {
    match t
    case Pituitary => 0
    case Glioma => 1
    case Meningioma => 2
  }

  /**
   * The subtype shown on a history item: none for a healthy result, otherwise
   * the first of pituitary, glioma, meningioma whose name occurs in the
   * lower-cased result text, and none when no name occurs.
   */
  function TumorSubtype(resultType: string, result: string): (r: Option<Subtype>)
    ensures resultType == "healthy" ==> r.None?
    ensures resultType != "healthy" && r.None? ==>
              forall t :: !Contains(Lower(result), SubtypeName(t))
    ensures r.Some? ==> resultType != "healthy" && Contains(Lower(result), SubtypeName(r.value))
    ensures r.Some? ==> forall t :: Priority(t) < Priority(r.value) ==> !Contains(Lower(result), SubtypeName(t))
  {
    if resultType == "healthy" then None
    else
      var text := Lower(result);
      if Contains(text, "pituitary") then Some(Pituitary)
      else if Contains(text, "glioma") then Some(Glioma)
      else if Contains(text, "meningioma") then Some(Meningioma)
      else None
  }

  /** Conversely, the first subtype named in a tumour result is the one shown. */
  lemma FirstNamedIsShown(resultType: string, result: string, t: Subtype)
    requires resultType != "healthy" && Contains(Lower(result), SubtypeName(t))
    requires forall u :: Priority(u) < Priority(t) ==> !Contains(Lower(result), SubtypeName(u))
    ensures TumorSubtype(resultType, result) == Some(t)
  {
    var r := TumorSubtype(resultType, result);
    assert r.Some? by {
      assert !(forall u :: !Contains(Lower(result), SubtypeName(u))) by {
        assert Contains(Lower(result), SubtypeName(t));
      }
    }
    assert Priority(r.value) == Priority(t);
  }

  /** The status line of a history item. */
  function DetectionStatus(resultType: string): string {
    if resultType == "healthy" then "No Tumor" else "Tumor Detected"
  }
}
