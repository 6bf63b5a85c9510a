/**
 * The label dictionary of a results object: textual class names mapped to the
 * integer class indices (Keras' `class_indices`). A Python dict keeps its
 * insertion order and never repeats a key, so it is modelled as a sequence of
 * (name, index) entries with distinct names. Two views of it are used by
 * results.py: the inverse lookup from index to name, and the list of names
 * sorted by index that labels the rows and columns of the confusion matrix.
 */
module LabelDicts {

  type Entry = (string, int)

  /** No name occurs twice: each entry's name is absent from the entries after it. */
  predicate DistinctKeys(s: seq<Entry>) {
    s == [] || ((forall j :: 1 <= j < |s| ==> s[j].0 != s[0].0) && DistinctKeys(s[1..]))
  }

  type LabelDict = s: seq<Entry> | DistinctKeys(s)

  /** No two classes share an index, as in every `class_indices` Keras builds. */
  predicate UniqueIndices(s: seq<Entry>) {
    forall i, j :: 0 <= i < j < |s| ==> s[i].1 != s[j].1
  }

  /**
   * The inverse lookup `{v: k for k, v in labels.items()}`. When two names
   * share an index the later entry overwrites the earlier one.
   */
  function Descriptions(labels: seq<Entry>): (d: map<int, string>)
    ensures forall v :: v in d <==> exists j :: 0 <= j < |labels| && labels[j].1 == v
  {
    if labels == [] then map[]
    else
      var rest := Descriptions(labels[1..]);
      assert forall j :: 0 <= j < |labels[1..]| ==> labels[1..][j] == labels[j + 1];
      map[labels[0].1 := labels[0].0] + rest
  }

  /** The name found for an index is that of the last entry carrying the index. */
  lemma {:induction false} DescriptionIsLastEntry(labels: seq<Entry>, v: int)
    requires v in Descriptions(labels)
    ensures exists j :: 0 <= j < |labels| && labels[j] == (Descriptions(labels)[v], v) &&
                        forall j' :: j < j' < |labels| ==> labels[j'].1 != v
  {
    var rest := labels[1..];
    if v in Descriptions(rest) {
      DescriptionIsLastEntry(rest, v);
      var j :| 0 <= j < |rest| && rest[j] == (Descriptions(rest)[v], v) &&
               forall j' :: j < j' < |rest| ==> rest[j'].1 != v;
      assert labels[j + 1] == rest[j];
      assert forall j' :: j + 1 < j' < |labels| ==> labels[j'] == rest[j' - 1];
    } else {
      assert forall j' :: 0 < j' < |labels| ==> labels[j'] == rest[j' - 1];
    }
  }

  /**
   * With unique indices the inverse lookup is exact: a name is found for an
   * index precisely when the dictionary holds that (name, index) entry.
   */
  lemma DescriptionOfIndex(labels: seq<Entry>, name: string, v: int)
    requires UniqueIndices(labels)
    ensures (name, v) in labels <==> v in Descriptions(labels) && Descriptions(labels)[v] == name
  {
    var d := Descriptions(labels);
    if v in d && d[v] == name {
      DescriptionIsLastEntry(labels, v);
    }
    if (name, v) in labels {
      var i :| 0 <= i < |labels| && labels[i] == (name, v);
      assert v in d;
      DescriptionIsLastEntry(labels, v);
      var j :| 0 <= j < |labels| && labels[j] == (d[v], v) &&
               forall j' :: j < j' < |labels| ==> labels[j'].1 != v;
      assert i == j;
    }
  }

  predicate SortedByIndex(s: seq<Entry>) {
    forall i, j :: 0 <= i < j < |s| ==> s[i].1 <= s[j].1
  }

  predicate StrictlySortedByIndex(s: seq<Entry>) {
    forall i, j :: 0 <= i < j < |s| ==> s[i].1 < s[j].1
  }

  /** Places `x` after every entry whose index is at most its own, so equal indices keep their order. */
  function InsertByIndex(x: Entry, s: seq<Entry>): (r: seq<Entry>)
    ensures multiset(r) == multiset(s) + multiset{x}
  {
    if s == [] then [x]
    else if x.1 < s[0].1 then [x] + s
    else
      assert s == [s[0]] + s[1..];
      [s[0]] + InsertByIndex(x, s[1..])
  }

  lemma InsertedFrom(x: Entry, s: seq<Entry>, j: nat)
    requires j < |InsertByIndex(x, s)|
    ensures InsertByIndex(x, s)[j] == x || exists k :: 0 <= k < |s| && s[k] == InsertByIndex(x, s)[j]
  {
    var r := InsertByIndex(x, s);
    assert r[j] in multiset(r);
    if r[j] != x {
      assert r[j] in multiset(s);
    }
  }

  lemma {:induction false} InsertKeepsSorted(x: Entry, s: seq<Entry>)
    requires SortedByIndex(s)
    ensures SortedByIndex(InsertByIndex(x, s))
  {
    if s != [] && x.1 >= s[0].1 {
      var rest := InsertByIndex(x, s[1..]);
      InsertKeepsSorted(x, s[1..]);
      forall j | 0 <= j < |rest|
        ensures s[0].1 <= rest[j].1
      {
        InsertedFrom(x, s[1..], j);
      }
      assert InsertByIndex(x, s) == [s[0]] + rest;
    }
  }

  /** The entries of s that carry index v, in their order in s. */
  function WithIndex(s: seq<Entry>, v: int): seq<Entry> {
    if s == [] then [] else (if s[0].1 == v then [s[0]] else []) + WithIndex(s[1..], v)
  }

  lemma {:induction false} WithIndexAppend(a: seq<Entry>, b: seq<Entry>, v: int)
    ensures WithIndex(a + b, v) == WithIndex(a, v) + WithIndex(b, v)
  {
    if a == [] {
      assert a + b == b;
    } else {
      var ab := a + b;
      assert ab != [] && ab[0] == a[0] && ab[1..] == a[1..] + b;
      WithIndexAppend(a[1..], b, v);
      assert WithIndex(ab, v) == (if a[0].1 == v then [a[0]] else []) + WithIndex(a[1..] + b, v);
    }
  }

  lemma {:induction false} WithIndexNone(s: seq<Entry>, v: int)
    requires forall j :: 0 <= j < |s| ==> s[j].1 != v
    ensures WithIndex(s, v) == []
  {
    if s != [] {
      WithIndexNone(s[1..], v);
    }
  }

  /** Inserting into a sorted list puts x after every entry that carries its index. */
  lemma {:induction false} InsertStable(x: Entry, s: seq<Entry>, v: int)
    requires SortedByIndex(s)
    ensures WithIndex(InsertByIndex(x, s), v) == WithIndex(s, v) + WithIndex([x], v)
  {
    if s == [] {
      assert [x][1..] == [];
    } else if x.1 < s[0].1 {
      InsertFront(x, s, v);
    } else {
      assert SortedByIndex(s[1..]);
      InsertStable(x, s[1..], v);
      ConsWithIndex(s[0], InsertByIndex(x, s[1..]), s[1..], WithIndex([x], v), v);
      assert s == [s[0]] + s[1..];
    }
  }

  lemma InsertFront(x: Entry, s: seq<Entry>, v: int)
    requires s != [] && x.1 < s[0].1
    requires forall j :: 0 <= j < |s| ==> s[0].1 <= s[j].1
    ensures WithIndex(InsertByIndex(x, s), v) == WithIndex(s, v) + WithIndex([x], v)
  {
    assert [x][1..] == [];
    WithIndexAppend([x], s, v);
    if x.1 == v {
      WithIndexNone(s, v);
    }
  }

  lemma ConsWithIndex(h: Entry, rest: seq<Entry>, t: seq<Entry>, w: seq<Entry>, v: int)
    requires WithIndex(rest, v) == WithIndex(t, v) + w
    ensures WithIndex([h] + rest, v) == WithIndex([h] + t, v) + w
  {
    WithIndexAppend([h], rest, v);
    WithIndexAppend([h], t, v);
  }

  /**
   * `sorted(labels.items(), key=lambda x: x[1])`: sorted by index, a
   * permutation of the entries, and stable: for every index, the entries
   * carrying it appear in the order they had in s.
   */
  function SortByIndex(s: seq<Entry>): (r: seq<Entry>)
    ensures SortedByIndex(r)
    ensures multiset(r) == multiset(s)
    ensures forall v :: WithIndex(r, v) == WithIndex(s, v)
  {
    if s == [] then []
    else
      var init, x := s[..|s| - 1], s[|s| - 1];
      assert s == init + [x];
      var sortedInit := SortByIndex(init);
      InsertKeepsSorted(x, sortedInit);
      assert forall v :: WithIndex(InsertByIndex(x, sortedInit), v) == WithIndex(s, v) by {
        forall v ensures WithIndex(InsertByIndex(x, sortedInit), v) == WithIndex(s, v) {
          InsertStable(x, sortedInit, v);
          WithIndexAppend(init, [x], v);
        }
      }
      InsertByIndex(x, sortedInit)
  }

  /** The names of the entries, in order. */
  function Names(s: seq<Entry>): seq<string> {
    seq(|s|, j requires 0 <= j < |s| => s[j].0)
  }

  /** `labels[name]`: the index of the entry called `name`. */
  function IndexOf(labels: seq<Entry>, name: string): int
    requires name in Names(labels)
  {
    if labels[0].0 == name then labels[0].1
    else
      assert Names(labels) == [labels[0].0] + Names(labels[1..]);
      IndexOf(labels[1..], name)
  }

  /** In a dictionary the lookup of an entry's name gives that entry's index. */
  lemma {:induction false} IndexOfEntry(labels: LabelDict, a: nat)
    requires a < |labels|
    ensures labels[a].0 in Names(labels) && IndexOf(labels, labels[a].0) == labels[a].1
  {
    assert Names(labels)[a] == labels[a].0;
    if a > 0 {
      var rest: LabelDict := labels[1..];
      assert rest[a - 1] == labels[a];
      IndexOfEntry(rest, a - 1);
      assert Names(labels) == [labels[0].0] + Names(rest);
    }
  }

  lemma RemoveOne(s: seq<Entry>, k: nat)
    requires k < |s|
    ensures multiset(s) == multiset(s[..k] + s[k + 1..]) + multiset{s[k]}
  {
    assert s == s[..k] + [s[k]] + s[k + 1..];
  }

  lemma CancelOne(m: multiset<Entry>, m': multiset<Entry>, x: Entry)
    requires m + multiset{x} == m' + multiset{x}
    ensures m == m'
  {
    assert forall e :: m[e] == (m + multiset{x})[e] - multiset{x}[e];
    assert forall e :: m'[e] == (m' + multiset{x})[e] - multiset{x}[e];
  }

  lemma RemoveOneName(s: seq<Entry>, k: nat)
    requires k < |s|
    ensures multiset(Names(s)) == multiset(Names(s[..k] + s[k + 1..])) + multiset{s[k].0}
  {
    assert Names(s) == Names(s[..k]) + [s[k].0] + Names(s[k + 1..]);
    assert Names(s[..k] + s[k + 1..]) == Names(s[..k]) + Names(s[k + 1..]);
  }

  /** Two lists holding the same entries hold the same names. */
  lemma {:induction false} NamesMultiset(a: seq<Entry>, b: seq<Entry>)
    requires multiset(a) == multiset(b)
    ensures multiset(Names(a)) == multiset(Names(b))
    decreases |a|
  {
    if a != [] {
      var x := a[0];
      assert x in multiset(b);
      var k :| 0 <= k < |b| && b[k] == x;
      var rest := b[..k] + b[k + 1..];
      RemoveOne(b, k);
      assert a == [x] + a[1..];
      CancelOne(multiset(a[1..]), multiset(rest), x);
      NamesMultiset(a[1..], rest);
      RemoveOneName(b, k);
      assert Names(a) == [x.0] + Names(a[1..]);
    }
  }

  /** Every entry of a list holding the dictionary's entries is found again by name lookup. */
  lemma IndexOfEntries(labels: LabelDict, r: seq<Entry>)
    requires multiset(r) == multiset(labels)
    ensures forall i :: 0 <= i < |r| ==> r[i].0 in Names(labels) && IndexOf(labels, r[i].0) == r[i].1
  {
    forall i | 0 <= i < |r| ensures r[i].0 in Names(labels) && IndexOf(labels, r[i].0) == r[i].1 {
      assert r[i] in multiset(labels);
      var a :| 0 <= a < |labels| && labels[a] == r[i];
      IndexOfEntry(labels, a);
    }
  }

  /**
   * `[key for key, value in sorted(labels.items(), key=lambda x: x[1])]`:
   * every name of the dictionary exactly once, in the order of their indices.
   */
  function LabelOrder(labels: LabelDict): (names: seq<string>)
    ensures |names| == |labels|
    ensures multiset(names) == multiset(Names(labels))
    ensures forall i :: 0 <= i < |names| ==> names[i] in Names(labels)
    ensures forall i, j :: 0 <= i < j < |names| ==> IndexOf(labels, names[i]) <= IndexOf(labels, names[j])
  {
    var sorted := SortByIndex(labels);
    assert |multiset(sorted)| == |multiset(labels)|;
    NamesMultiset(sorted, labels);
    IndexOfEntries(labels, sorted);
    Names(sorted)
  }

  lemma {:induction false} InsertStrict(x: Entry, s: seq<Entry>)
    requires StrictlySortedByIndex(s)
    requires forall j :: 0 <= j < |s| ==> s[j].1 != x.1
    ensures StrictlySortedByIndex(InsertByIndex(x, s))
  {
    if s != [] && x.1 >= s[0].1 {
      var rest := InsertByIndex(x, s[1..]);
      InsertStrict(x, s[1..]);
      forall j | 0 <= j < |rest|
        ensures s[0].1 < rest[j].1
      {
        InsertedFrom(x, s[1..], j);
      }
      assert InsertByIndex(x, s) == [s[0]] + rest;
    }
  }

  lemma {:induction false} SortStrict(s: seq<Entry>)
    requires UniqueIndices(s)
    ensures StrictlySortedByIndex(SortByIndex(s))
  {
    if s != [] {
      var init, x := s[..|s| - 1], s[|s| - 1];
      SortStrict(init);
      var r := SortByIndex(init);
      forall j | 0 <= j < |r|
        ensures r[j].1 != x.1
      {
        assert r[j] in multiset(init);
        var k :| 0 <= k < |init| && init[k] == r[j];
        assert s[k] == r[j];
      }
      InsertStrict(x, r);
    }
  }

  lemma {:induction false} IndexAtLeastPosition(s: seq<Entry>, i: nat)
    requires StrictlySortedByIndex(s)
    requires forall j :: 0 <= j < |s| ==> 0 <= s[j].1
    requires i < |s|
    ensures s[i].1 >= i
  {
    if i > 0 {
      IndexAtLeastPosition(s, i - 1);
    }
  }

  lemma {:induction false} IndexAtMostPosition(s: seq<Entry>, i: nat)
    requires StrictlySortedByIndex(s)
    requires forall j :: 0 <= j < |s| ==> s[j].1 < |s|
    requires i < |s|
    ensures s[i].1 <= i
    decreases |s| - i
  {
    if i < |s| - 1 {
      IndexAtMostPosition(s, i + 1);
    }
  }

  /**
   * When the indices are 0 .. n-1 without repetition (Keras' convention), the
   * name that labels row and column i of the confusion matrix is the name the
   * inverse lookup gives for index i.
   */
  lemma LabelOrderFollowsIndices(labels: LabelDict)
    requires UniqueIndices(labels)
    requires forall j :: 0 <= j < |labels| ==> 0 <= labels[j].1 < |labels|
    ensures |LabelOrder(labels)| == |labels|
    ensures forall i :: 0 <= i < |labels| ==>
              i in Descriptions(labels) && LabelOrder(labels)[i] == Descriptions(labels)[i]
  {
    var sorted := SortByIndex(labels);
    assert |multiset(sorted)| == |multiset(labels)|;
    assert forall i :: 0 <= i < |sorted| ==> sorted[i] in labels by {
      forall i | 0 <= i < |sorted| ensures sorted[i] in labels {
        assert sorted[i] in multiset(labels);
      }
    }
    SortStrict(labels);
    forall i | 0 <= i < |sorted| ensures sorted[i].1 == i {
      IndexAtLeastPosition(sorted, i);
      IndexAtMostPosition(sorted, i);
    }
    forall i | 0 <= i < |labels|
      ensures i in Descriptions(labels) && LabelOrder(labels)[i] == Descriptions(labels)[i]
    {
      DescriptionOfIndex(labels, sorted[i].0, i);
    }
  }
}
