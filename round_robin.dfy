/**
 * Per-flow round robin over a weighted list, the selection scheme shared by Ipv4Drb
 * (src/internet/model/ipv4-drb.cc) and Ipv4DrbRouting (src/drb-routing/model/ipv4-drb-routing.cc).
 * A flow's first packet starts at a random position; the position stored for the flow is then
 * advanced by one modulo the list length on every packet. A path given weight w is put in the
 * list w times, so it is chosen w times in every round of |list| packets.
 */
module RoundRobin {

  /** The list an entry added with weight k contributes: k copies of it, in order. */
  function Copies<T>(x: T, k: nat): (s: seq<T>)
    ensures |s| == k && forall i :: 0 <= i < k ==> s[i] == x
    ensures multiset(s)[x] == k
  {
    if k == 0 then [] else Copies(x, k - 1) + [x]
  }

  /** The position stored for a flow after it used position i of a list of length n. */
  function Next(i: nat, n: nat): (j: nat)
    requires i < n
    ensures j < n
    ensures j == if i + 1 == n then 0 else i + 1
  {
    (i + 1) % n
  }

  /** The position a packet uses: the stored one if the flow has one, else the random draw r mod n. */
  function Start<K>(stored: map<K, nat>, key: K, r: nat, n: nat): (i: nat)
    requires n > 0
    requires key in stored ==> stored[key] < n
    ensures i < n
    ensures key in stored ==> i == stored[key]
  {
    if key in stored then stored[key] else r % n
  }

  /** The entries k successive packets of one flow receive when the stored position is i. */
  function Picks<T>(s: seq<T>, i: nat, k: nat): (p: seq<T>)
    requires i < |s|
    ensures |p| == k
    decreases k
  {
    if k == 0 then [] else [s[i]] + Picks(s, Next(i, |s|), k - 1)
  }

  /** k successive packets (k at most one round) receive the list rotated to start at i, cut to k. */
  lemma {:induction false} PicksPrefix<T>(s: seq<T>, i: nat, k: nat)
    requires i < |s| && k <= |s|
    ensures Picks(s, i, k) == (s[i..] + s[..i])[..k]
    decreases k
  {
    var n := |s|;
    if k > 0 {
      var i' := Next(i, n);
      PicksPrefix(s, i', k - 1);
      var rot := s[i..] + s[..i];
      var rot' := s[i'..] + s[..i'];
      assert |rot| == n && |rot'| == n;
      if i + 1 < n {
        forall j | 0 <= j < k - 1
          ensures rot'[j] == rot[j + 1]
        {
          if j < n - i - 1 {
            assert rot'[j] == s[i + 1 + j];
          } else {
            assert rot'[j] == s[j - (n - i - 1)];
          }
        }
      } else {
        assert i' == 0 && rot' == s;
        forall j | 0 <= j < k - 1
          ensures rot'[j] == rot[j + 1]
        {
        }
      }
      assert [s[i]] + rot'[..k - 1] == rot[..k];
    }
  }

  /** A round of |s| packets receives the list rotated to start at the stored position. */
  lemma PicksRotation<T>(s: seq<T>, i: nat)
    requires i < |s|
    ensures Picks(s, i, |s|) == s[i..] + s[..i]
  {
    PicksPrefix(s, i, |s|);
    assert (s[i..] + s[..i])[..|s|] == s[i..] + s[..i];
  }

  /**
   * In every round of |s| packets each entry is received exactly as often as it occurs in the
   * list: the weighted share a path was given when it was added.
   */
  lemma RoundIsWeighted<T>(s: seq<T>, i: nat, x: T)
    requires i < |s|
    ensures multiset(Picks(s, i, |s|))[x] == multiset(s)[x]
  {
    PicksRotation(s, i);
    assert s == s[..i] + s[i..];
    assert multiset(s) == multiset(s[..i]) + multiset(s[i..]);
  }
}
