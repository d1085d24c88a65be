/** GROUP BY with SUM as an explicit accumulation: one pass over the joined
    lines that keeps a map from each grouping key to its running sum, and the
    keys in order of first appearance. */
module Grouping {
  import opened Tables
  import opened Query

  /** A group's sum over a prefix extended by one line. */
  lemma TotalSnoc(ls: seq<Line>, i: nat, k: Key)
    requires i < |ls|
    ensures Total(ls[..i + 1], k) == Total(ls[..i], k) + (if KeyOf(ls[i]) == k then ls[i].quantity else 0)
  {
    assert ls[..i + 1] == ls[..i] + [ls[i]];
    TotalAppend(ls[..i], [ls[i]], k);
  }

  /** A key without any line sums to 0. */
  lemma {:induction false} TotalAbsent(ls: seq<Line>, k: Key)
    requires forall l :: l in ls ==> KeyOf(l) != k
    ensures Total(ls, k) == 0
  {
    if |ls| != 0 {
      assert ls[0] in ls;
      TotalAbsent(ls[1..], k);
    }
  }

  /** The keys of a prefix extended by one line. */
  lemma KeysSnoc(ls: seq<Line>, i: nat)
    requires i < |ls|
    ensures Keys(ls[..i + 1]) ==
      if KeyOf(ls[i]) in Keys(ls[..i]) then Keys(ls[..i]) else Keys(ls[..i]) + [KeyOf(ls[i])]
  {
    assert ls[..i + 1][..i] == ls[..i];
  }

  /** keys and sums are the running state of a pass over ls: its distinct
      keys, and each key's sum. */
  ghost predicate Summed(ls: seq<Line>, keys: seq<Key>, sums: map<Key, int>) {
    && keys == Keys(ls)
    && (forall k :: k in sums <==> k in keys)
    && (forall k :: k in sums ==> sums[k] == Total(ls, k))
  }

  /** Adding a line whose key is already present. */
  lemma SumStepFound(ls: seq<Line>, i: nat, keys: seq<Key>, sums: map<Key, int>)
    requires i < |ls| && Summed(ls[..i], keys, sums) && KeyOf(ls[i]) in sums
    ensures Summed(ls[..i + 1], keys, sums[KeyOf(ls[i]) := sums[KeyOf(ls[i])] + ls[i].quantity])
  {
    var k := KeyOf(ls[i]);
    var sums' := sums[k := sums[k] + ls[i].quantity];
    KeysSnoc(ls, i);
    assert keys == Keys(ls[..i + 1]);
    forall k' | k' in sums' ensures sums'[k'] == Total(ls[..i + 1], k') {
      TotalSnoc(ls, i, k');
    }
  }

  /** Adding a line with a new key. */
  lemma SumStepNew(ls: seq<Line>, i: nat, keys: seq<Key>, sums: map<Key, int>)
    requires i < |ls| && Summed(ls[..i], keys, sums) && KeyOf(ls[i]) !in sums
    ensures Summed(ls[..i + 1], keys + [KeyOf(ls[i])], sums[KeyOf(ls[i]) := ls[i].quantity])
  {
    var k := KeyOf(ls[i]);
    var keys' := keys + [k];
    var sums' := sums[k := ls[i].quantity];
    KeysSnoc(ls, i);
    assert keys' == Keys(ls[..i + 1]);
    KeysMembers(ls[..i]);
    forall l | l in ls[..i] ensures KeyOf(l) != k {
      assert KeyOf(l) in keys;
    }
    TotalAbsent(ls[..i], k);
    forall k' | k' in sums' ensures sums'[k'] == Total(ls[..i + 1], k') {
      TotalSnoc(ls, i, k');
    }
  }

  /** One pass over ls: the distinct keys in order of first appearance, and
      each key's sum. */
  method SumByKey(ls: seq<Line>) returns (keys: seq<Key>, sums: map<Key, int>)
    ensures keys == Keys(ls)
    ensures forall k :: k in sums <==> k in keys
    ensures forall k :: k in sums ==> sums[k] == Total(ls, k)
  {
    sums := map[];
    keys := [];
    var i := 0;
    while i < |ls|
      invariant 0 <= i <= |ls|
      invariant Summed(ls[..i], keys, sums)
    {
      var k := KeyOf(ls[i]);
      if k in sums {
        SumStepFound(ls, i, keys, sums);
        sums := sums[k := sums[k] + ls[i].quantity];
      } else {
        SumStepNew(ls, i, keys, sums);
        sums := sums[k := ls[i].quantity];
        keys := keys + [k];
      }
      i := i + 1;
    }
    assert ls[..i] == ls;
  }

  /** Builds the groups with a map of running sums; the result is exactly Groups(ls). */
  method GroupAndSum(ls: seq<Line>) returns (rows: seq<Row>)
    ensures rows == Groups(ls)
  {
    var keys, sums := SumByKey(ls);
    rows := [];
    var j := 0;
    while j < |keys|
      invariant 0 <= j <= |keys|
      invariant rows == GroupRows(keys[..j], ls)
    {
      assert keys[..j + 1][..j] == keys[..j];
      rows := rows + [GroupRow(keys[j], sums[keys[j]])];
      j := j + 1;
    }
    assert keys[..j] == keys;
  }
}
