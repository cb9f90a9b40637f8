/** `itertools.product(*lists)`: every combination taking one element from each
    list, in lexicographic order of positions (the last list varies fastest). */
module Combinations {

  /** The number of combinations: the product of the list lengths. */
  function CountProduct<T>(lists: seq<seq<T>>): nat
  {
    if lists == [] then 1 else CountProduct(lists[..|lists| - 1]) * |lists[|lists| - 1]|
  }

  /** Every combination of `prefix` followed by one element of `last`. */
  function Extend<T>(prefix: seq<seq<T>>, last: seq<T>): (r: seq<seq<T>>)
    ensures |r| == |prefix| * |last|
  {
    if prefix == [] then []
    else
      MulMono(|prefix| - 1, |prefix|, |last|);
      Extend(prefix[..|prefix| - 1], last) + seq(|last|, j requires 0 <= j < |last| => prefix[|prefix| - 1] + [last[j]])
  }

  /** Each entry of `Extend` is some prefix followed by some element of `last`. */
  lemma {:induction false} ExtendMembers<T>(prefix: seq<seq<T>>, last: seq<T>, m: nat)
    requires m < |Extend(prefix, last)|
    ensures exists i, j :: 0 <= i < |prefix| && 0 <= j < |last| && Extend(prefix, last)[m] == prefix[i] + [last[j]]
  {
    var init := prefix[..|prefix| - 1];
    MulMono(|prefix| - 1, |prefix|, |last|);
    var e := Extend(init, last);
    if m < |e| {
      ExtendMembers(init, last, m);
      var i, j :| 0 <= i < |init| && 0 <= j < |last| && e[m] == init[i] + [last[j]];
      assert Extend(prefix, last)[m] == prefix[i] + [last[j]];
    } else {
      var j := m - |e|;
      assert Extend(prefix, last)[m] == prefix[|prefix| - 1] + [last[j]];
    }
  }

  /** The entry at row `i`, column `j` is `prefix[i]` followed by `last[j]`. */
  lemma {:induction false} ExtendAt<T>(prefix: seq<seq<T>>, last: seq<T>, i: nat, j: nat)
    requires i < |prefix| && j < |last|
    ensures i * |last| + j < |Extend(prefix, last)|
    ensures Extend(prefix, last)[i * |last| + j] == prefix[i] + [last[j]]
  {
    var init := prefix[..|prefix| - 1];
    MulMono(|prefix| - 1, |prefix|, |last|);
    if i < |prefix| - 1 {
      ExtendAt(init, last, i, j);
      MulMono(i + 1, |prefix| - 1, |last|);
    } else {
      assert |Extend(init, last)| == i * |last|;
    }
  }

  lemma ExtendLengths<T>(prefix: seq<seq<T>>, last: seq<T>, n: nat)
    requires forall i :: 0 <= i < |prefix| ==> |prefix[i]| == n
    ensures forall m :: 0 <= m < |Extend(prefix, last)| ==> |Extend(prefix, last)[m]| == n + 1
  {
    forall m | 0 <= m < |Extend(prefix, last)| ensures |Extend(prefix, last)[m]| == n + 1 {
      ExtendMembers(prefix, last, m);
    }
  }

  function Product<T>(lists: seq<seq<T>>): (r: seq<seq<T>>)
    ensures |r| == CountProduct(lists)
    ensures forall m :: 0 <= m < |r| ==> |r[m]| == |lists|
  {
    if lists == [] then [[]]
    else
      var prefix := Product(lists[..|lists| - 1]);
      ExtendLengths(prefix, lists[|lists| - 1], |lists| - 1);
      Extend(prefix, lists[|lists| - 1])
  }

  /** Each combination takes its k-th element from the k-th list. */
  lemma {:induction false} ProductMembers<T>(lists: seq<seq<T>>, m: nat)
    requires m < |Product(lists)|
    ensures forall k :: 0 <= k < |lists| ==> Product(lists)[m][k] in lists[k]
  {
    if lists != [] {
      var init := lists[..|lists| - 1];
      var last := lists[|lists| - 1];
      var prefix := Product(init);
      ExtendMembers(prefix, last, m);
      var i, j :| 0 <= i < |prefix| && 0 <= j < |last| && Product(lists)[m] == prefix[i] + [last[j]];
      ProductMembers(init, i);
      forall k | 0 <= k < |lists| ensures Product(lists)[m][k] in lists[k] {
        if k < |lists| - 1 {
          assert Product(lists)[m][k] == prefix[i][k] && init[k] == lists[k];
        }
      }
    }
  }

  /** The position of the combination that takes element `choice[k]` of list k. */
  function ProductIndex<T>(lists: seq<seq<T>>, choice: seq<nat>): nat
    requires |choice| == |lists| && forall k :: 0 <= k < |lists| ==> choice[k] < |lists[k]|
  {
    if lists == [] then 0
    else ProductIndex(lists[..|lists| - 1], choice[..|choice| - 1]) * |lists[|lists| - 1]| + choice[|choice| - 1]
  }

  /** Every choice of one element per list appears, at `ProductIndex`: the
      last list varies fastest. */
  lemma {:induction false} ProductComplete<T>(lists: seq<seq<T>>, choice: seq<nat>)
    requires |choice| == |lists| && forall k :: 0 <= k < |lists| ==> choice[k] < |lists[k]|
    ensures ProductIndex(lists, choice) < |Product(lists)|
    ensures forall k :: 0 <= k < |lists| ==> Product(lists)[ProductIndex(lists, choice)][k] == lists[k][choice[k]]
  {
    if lists != [] {
      var init := lists[..|lists| - 1];
      var last := lists[|lists| - 1];
      var c := choice[..|choice| - 1];
      ProductComplete(init, c);
      var pi := ProductIndex(init, c);
      ExtendAt(Product(init), last, pi, choice[|choice| - 1]);
      var comb := Product(lists)[ProductIndex(lists, choice)];
      assert comb == Product(init)[pi] + [last[choice[|choice| - 1]]];
      forall k | 0 <= k < |lists| ensures comb[k] == lists[k][choice[k]] {
        if k < |lists| - 1 {
          assert comb[k] == Product(init)[pi][k] && init[k] == lists[k] && c[k] == choice[k];
        }
      }
    }
  }

  lemma MulMono(a: nat, b: nat, c: nat)
    requires a <= b
    ensures a * c <= b * c
    ensures (a + 1) * c == a * c + c
  {
  }

  /** An empty list empties the product; with no lists there is one, empty, combination. */
  lemma ProductEdges<T>(lists: seq<seq<T>>, k: nat)
    requires k < |lists| && lists[k] == []
    ensures Product(lists) == []
    ensures Product<T>([]) == [[]]
  {
    ZeroFactor(lists, k);
  }

  lemma {:induction false} ZeroFactor<T>(lists: seq<seq<T>>, k: nat)
    requires k < |lists| && lists[k] == []
    ensures CountProduct(lists) == 0
  {
    if k < |lists| - 1 {
      ZeroFactor(lists[..|lists| - 1], k);
    }
  }
}
