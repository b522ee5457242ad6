/** Shared vocabulary: optional values, results carrying the exceptions the
    Python code raises, and index permutations that stand for shuffles. */
module Common {

  datatype Option<T> = None | Some(value: T)

  /** The exceptions of the modelled code that the model keeps as values. */
  datatype Error =
    | InvalidHandSize  // best_action raises ValueError when the hand is not two cards
    | ZeroDivision     // a Python division (or true division) by zero

  datatype Result<T> = Ok(value: T) | Err(error: Error)

  /** No element occurs twice. */
  predicate Distinct<T(==)>(s: seq<T>) {
    forall i, j :: 0 <= i < j < |s| ==> s[i] != s[j]
  }

  /** `p` lists each index of a sequence of length `n` exactly once. */
  predicate IsPermutation(p: seq<int>, n: nat) {
    && |p| == n
    && (forall i :: 0 <= i < n ==> 0 <= p[i] < n)
    && Distinct(p)
  }

  /** `[s[j] for j in p]`. */
  function Pick<T>(s: seq<T>, p: seq<int>): (r: seq<T>)
    requires forall i :: 0 <= i < |p| ==> 0 <= p[i] < |s|
    ensures |r| == |p|
  {
    if p == [] then [] else Pick(s, p[..|p| - 1]) + [s[p[|p| - 1]]]
  }

  lemma {:induction false} PickAt<T>(s: seq<T>, p: seq<int>, i: int)
    requires forall i :: 0 <= i < |p| ==> 0 <= p[i] < |s|
    requires 0 <= i < |p|
    ensures Pick(s, p)[i] == s[p[i]]
  {
    if i < |p| - 1 {
      PickAt(s, p[..|p| - 1], i);
    }
  }

  /** `s` reordered by the permutation `p`. */
  function Permute<T>(s: seq<T>, p: seq<int>): (r: seq<T>)
    requires IsPermutation(p, |s|)
    ensures |r| == |s|
  {
    Pick(s, p)
  }

  /** The i-th element of the reordering is `s[p[i]]`. */
  lemma PermuteAt<T>(s: seq<T>, p: seq<int>)
    requires IsPermutation(p, |s|)
    ensures forall i :: 0 <= i < |s| ==> Permute(s, p)[i] == s[p[i]]
  {
    forall i | 0 <= i < |s| ensures Permute(s, p)[i] == s[p[i]] {
      PickAt(s, p, i);
    }
  }

  /** Reordering by a permutation keeps a duplicate-free sequence
      duplicate-free and introduces no new element. */
  lemma PermuteKeepsElements<T>(s: seq<T>, p: seq<int>)
    requires IsPermutation(p, |s|)
    ensures forall x :: x in Permute(s, p) ==> x in s
    ensures Distinct(s) ==> Distinct(Permute(s, p))
  {
    var r := Permute(s, p);
    PermuteAt(s, p);
    forall x | x in r ensures x in s {
      var i :| 0 <= i < |r| && r[i] == x;
      assert s[p[i]] == x;
    }
    if Distinct(s) {
      forall i, j | 0 <= i < j < |r| ensures r[i] != r[j] {
        assert p[i] != p[j];
      }
    }
  }

  /** A set holding exactly the integers 0 .. n-1 has n elements. */
  lemma {:induction false} RangeCardinality(s: set<int>, n: nat)
    requires forall j :: j in s <==> 0 <= j < n
    ensures |s| == n
  {
    if n > 0 {
      RangeCardinality(s - {n - 1}, n - 1);
    } else {
      assert forall j :: j !in s;
    }
  }
}
