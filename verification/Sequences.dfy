/** Facts about concatenation, each stated once so that proofs can name the step they need. */
module Sequences {
  lemma {:induction false} Assoc<T>(a: seq<T>, b: seq<T>, c: seq<T>)
    ensures (a + b) + c == a + (b + c)
  {
  }

  lemma {:induction false} Regroup<T>(a: seq<T>, b: seq<T>, c: seq<T>, d: seq<T>)
    ensures (a + b) + (c + d) == a + ((b + c) + d)
  {
  }

  lemma {:induction false} SplitAt<T>(a: seq<T>, k: nat)
    requires k < |a|
    ensures a[k..] == [a[k]] + a[k + 1..]
  {
  }

  lemma {:induction false} TailOfDrop<T>(a: seq<T>, k: nat)
    requires k < |a|
    ensures a[k..] != [] && a[k..][0] == a[k] && a[k..][1..] == a[k + 1..]
  {
  }

  lemma {:induction false} DropJoined<T>(a: seq<T>, b: seq<T>, k: nat)
    requires k <= |a|
    ensures (a + b)[k..] == a[k..] + b
  {
  }

  lemma {:induction false} TailOfJoined<T>(a: seq<T>, b: seq<T>)
    requires a != []
    ensures (a + b)[0] == a[0] && (a + b)[1..] == a[1..] + b
  {
  }

  lemma {:induction false} SliceOfSlice<T>(a: seq<T>, lo: nat, hi: nat, i: nat, j: nat)
    requires lo <= hi <= |a| && i <= j <= hi - lo
    ensures a[lo..hi][i..j] == a[lo + i..lo + j]
  {
    var s := a[lo..hi];
    forall k | 0 <= k < j - i ensures s[i..j][k] == a[lo + i..lo + j][k] {
      assert s[i..j][k] == s[i + k] && s[i + k] == a[lo + i + k];
    }
  }

  lemma {:induction false} MiddleOf<T>(a: seq<T>, b: seq<T>, c: seq<T>)
    ensures (a + (b + c))[|a|..|a| + |b|] == b
  {
    var s := a + (b + c);
    forall k | 0 <= k < |b| ensures s[|a|..|a| + |b|][k] == b[k] {
      assert s[|a| + k] == (b + c)[k];
    }
  }

  lemma {:induction false} EndOf<T>(a: seq<T>, b: seq<T>)
    ensures (a + b)[|a|..|a| + |b|] == b
  {
    forall k | 0 <= k < |b| ensures (a + b)[|a|..|a| + |b|][k] == b[k] {
      assert (a + b)[|a| + k] == b[k];
    }
  }

  lemma {:induction false} SliceOfHead<T>(a: seq<T>, b: seq<T>, i: nat, j: nat)
    requires i <= j <= |a|
    ensures (a + b)[i..j] == a[i..j]
  {
    forall k | 0 <= k < j - i ensures (a + b)[i..j][k] == a[i..j][k] {
      assert (a + b)[i + k] == a[i + k];
    }
  }

  lemma {:induction false} EmptyUnit<T>(a: seq<T>)
    ensures [] + a == a && a + [] == a
  {
  }
}
