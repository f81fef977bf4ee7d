/**
 * The key-learning walk `assign_keys` of gpio-evdev-driver.py, abstracted from
 * the keyboard device: given the key codes of successive key-down events, each
 * action in turn takes the next code not taken by an earlier action.
 */
module KeyLearning {
  import opened Wrappers

  /** The codes of `s` in order of first appearance. */
  function Dedup(s: seq<int>): seq<int>
    decreases |s|
  {
    if s == [] then []
    else
      var d := Dedup(s[..|s| - 1]);
      if s[|s| - 1] in d then d else d + [s[|s| - 1]]
  }

  predicate Distinct(s: seq<int>) {
    forall i, j :: 0 <= i < j < |s| ==> s[i] != s[j]
  }

  /** Dedup keeps every code once, and only codes of `s`. */
  lemma {:induction false} DedupSpec(s: seq<int>)
    ensures Distinct(Dedup(s))
    ensures forall x :: x in Dedup(s) <==> x in s
    decreases |s|
  {
    if s != [] {
      var init := s[..|s| - 1];
      DedupSpec(init);
      assert s == init + [s[|s| - 1]];
    }
  }

  /** Dedup of a prefix is a prefix of Dedup. */
  lemma {:induction false} DedupPrefix(s: seq<int>, j: nat)
    requires j <= |s|
    ensures Dedup(s[..j]) <= Dedup(s)
    decreases |s| - j
  {
    if j < |s| {
      DedupPrefix(s, j + 1);
      assert s[..j + 1][..j] == s[..j];
    } else {
      assert s[..j] == s;
    }
  }

  /** `assign_keys` for `n` actions fed the key-down codes `presses`: the codes given to the
      actions, in action order, or None if the presses run out first. */
  method AssignKeys(n: nat, presses: seq<int>) returns (r: Option<seq<int>>)
    ensures r.Some? ==> |r.value| == n && Distinct(r.value) && (forall x :: x in r.value ==> x in presses)
    ensures r.Some? ==> n <= |Dedup(presses)| && r.value == Dedup(presses)[..n]
    ensures r.None? <==> |Dedup(presses)| < n
  {
    var keys: seq<int> := [];
    var j := 0;
    assert presses[..0] == [];
    while |keys| < n
      invariant 0 <= j <= |presses|
      invariant keys == Dedup(presses[..j])
      invariant |keys| <= n
      decreases n - |keys|, |presses| - j
    {
      // wait for a key-down whose code is not taken yet
      var code := 0;
      var found := false;
      while !found
        invariant 0 <= j <= |presses|
        invariant !found ==> keys == Dedup(presses[..j])
        invariant found ==> j > 0 && code !in keys && keys + [code] == Dedup(presses[..j])
        decreases |presses| - j, if found then 0 else 1
      {
        if j == |presses| {
          assert presses[..j] == presses;
          return None;
        }
        code := presses[j];
        assert presses[..j + 1][..j] == presses[..j];
        assert presses[..j + 1][j] == code;
        j := j + 1;
        found := code !in keys;
      }
      keys := keys + [code];
    }
    DedupSpec(presses[..j]);
    DedupPrefix(presses, j);
    assert keys == Dedup(presses)[..n];
    forall x | x in keys ensures x in presses {
      assert x in presses[..j];
    }
    r := Some(keys);
  }
}
