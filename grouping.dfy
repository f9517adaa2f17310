/** The vault's derived view: prompts grouped by category, and the category names in
    ascending order. */
module Grouping {
  import opened Types

  const Uncategorized := "Uncategorized"

  /** `prompt.category || 'Uncategorized'`: an empty category falls back to the label. */
  function GroupKey(p: Prompt): (k: string)
    ensures k != "" && (p.category != "" ==> k == p.category)
    ensures p.category == "" ==> k == Uncategorized
  {
    if p.category == "" then Uncategorized else p.category
  }

  /** No element occurs twice. */
  ghost predicate NoDuplicates(s: seq<string>) {
    forall x :: multiset(s)[x] <= 1
  }

  /** `a` is `b` with some elements left out, the rest in their order. */
  predicate IsSubsequence(a: seq<Prompt>, b: seq<Prompt>)
    decreases |b|
  {
    if a == [] then true
    else if b == [] then false
    else if a[|a| - 1] == b[|b| - 1] then IsSubsequence(a[..|a| - 1], b[..|b| - 1])
    else IsSubsequence(a, b[..|b| - 1])
  }

  /** The group of key `k`: the prompts with that key, in input order (left fold, as the
      `reduce` builds it). */
  function Bucket(ps: seq<Prompt>, k: string): (r: seq<Prompt>)
    ensures |r| <= |ps|
  {
    if ps == [] then []
    else
      var last := ps[|ps| - 1];
      Bucket(ps[..|ps| - 1], k) + (if GroupKey(last) == k then [last] else [])
  }

  /** The keys in order of first appearance, each once. This is the order in which
      the accumulator's keys are created; `Object.keys` reports it for keys that are not
      array indices (it lists names such as "1" or "2024" first, in numeric order). */
  function KeyOrder(ps: seq<Prompt>): (r: seq<string>)
    ensures |r| <= |ps|
  {
    if ps == [] then []
    else
      var ks := KeyOrder(ps[..|ps| - 1]);
      var k := GroupKey(ps[|ps| - 1]);
      if k in ks then ks else ks + [k]
  }

  /** Appending one prompt extends its own key's bucket only. */
  lemma BucketSnoc(ps: seq<Prompt>, p: Prompt, k: string)
    ensures Bucket(ps + [p], k) == Bucket(ps, k) + (if GroupKey(p) == k then [p] else [])
  {
    assert (ps + [p])[..|ps|] == ps;
  }

  /** Appending one prompt adds its key at the end if it is new. */
  lemma KeyOrderSnoc(ps: seq<Prompt>, p: Prompt)
    ensures KeyOrder(ps + [p]) == if GroupKey(p) in KeyOrder(ps) then KeyOrder(ps) else KeyOrder(ps) + [GroupKey(p)]
  {
    assert (ps + [p])[..|ps|] == ps;
  }

  /** Every member of the group of `k` carries key `k`. */
  lemma {:induction false} BucketKeys(ps: seq<Prompt>, k: string)
    ensures forall i :: 0 <= i < |Bucket(ps, k)| ==> GroupKey(Bucket(ps, k)[i]) == k
  {
    if ps != [] {
      BucketKeys(ps[..|ps| - 1], k);
    }
  }

  /** Each prompt of key `k` occurs in the group of `k` as often as in the input, and no
      other prompt occurs in it. */
  lemma {:induction false} BucketCount(ps: seq<Prompt>, k: string)
    ensures forall q :: multiset(Bucket(ps, k))[q] == if GroupKey(q) == k then multiset(ps)[q] else 0
  {
    if ps != [] {
      var init, last := ps[..|ps| - 1], ps[|ps| - 1];
      assert ps == init + [last];
      BucketCount(init, k);
      BucketSnoc(init, last, k);
    }
  }

  /** Grouping is stable: the group of `k` is a subsequence of the input. */
  lemma {:induction false} BucketIsSubsequence(ps: seq<Prompt>, k: string)
    ensures IsSubsequence(Bucket(ps, k), ps)
  {
    if ps != [] {
      var init, last := ps[..|ps| - 1], ps[|ps| - 1];
      var r := Bucket(init, k);
      BucketIsSubsequence(init, k);
      if GroupKey(last) == k {
        assert Bucket(ps, k) == r + [last];
        assert (r + [last])[..|r|] == r;
      } else {
        assert Bucket(ps, k) == r;
        if r != [] {
          BucketKeys(init, k);
          assert GroupKey(r[|r| - 1]) == k;
        }
      }
    }
  }

  /** The keys come without repetition, and they are exactly the keys of the prompts. */
  lemma {:induction false} KeyOrderKeys(ps: seq<Prompt>)
    ensures NoDuplicates(KeyOrder(ps))
    ensures forall k :: k in KeyOrder(ps) <==> exists i :: 0 <= i < |ps| && GroupKey(ps[i]) == k
  {
    if ps != [] {
      var init, last := ps[..|ps| - 1], ps[|ps| - 1];
      KeyOrderKeys(init);
      assert forall i :: 0 <= i < |init| ==> init[i] == ps[i];
    }
  }

  /** The grouped view: one entry per key, holding that key's group. */
  function Grouped(ps: seq<Prompt>): map<string, seq<Prompt>> {
    map k | k in KeyOrder(ps) :: Bucket(ps, k)
  }

  /** The entries of the grouped view are the keys that occur, and no group is empty. */
  lemma GroupedKeys(ps: seq<Prompt>)
    ensures forall k :: k in Grouped(ps) <==> exists i :: 0 <= i < |ps| && GroupKey(ps[i]) == k
    ensures forall k :: k in Grouped(ps) ==> |Grouped(ps)[k]| > 0
  {
    KeyOrderKeys(ps);
    forall k | k in Grouped(ps) ensures |Grouped(ps)[k]| > 0 {
      var i :| 0 <= i < |ps| && GroupKey(ps[i]) == k;
      BucketCount(ps, k);
      assert multiset(ps)[ps[i]] > 0;
      assert multiset(Bucket(ps, k))[ps[i]] > 0;
    }
  }

  /** A key that no prompt carries has an empty group. */
  lemma {:induction false} BucketAbsent(ps: seq<Prompt>, k: string)
    requires k !in KeyOrder(ps)
    ensures Bucket(ps, k) == []
  {
    if ps != [] {
      var init := ps[..|ps| - 1];
      assert k !in KeyOrder(init);
      BucketAbsent(init, k);
    }
  }

  /** Appending one prompt pushes it onto its key's group, creating the group if needed. */
  lemma GroupedSnoc(ps: seq<Prompt>, p: Prompt)
    ensures
      var g, k := Grouped(ps), GroupKey(p);
      Grouped(ps + [p]) == g[k := (if k in g then g[k] else []) + [p]]
  {
    var g, k := Grouped(ps), GroupKey(p);
    var h := g[k := (if k in g then g[k] else []) + [p]];
    assert Grouped(ps + [p]).Keys == h.Keys by {
      KeyOrderSnoc(ps, p);
    }
    forall k' | k' in h ensures Grouped(ps + [p])[k'] == h[k'] {
      BucketSnoc(ps, p, k');
      if k' == k && k !in g {
        BucketAbsent(ps, k);
      }
    }
  }

  /** The `reduce` of the vault page: one pass over the prompts, creating a key's array the
      first time the key is met and pushing each prompt onto its key's array. */
  method GroupPrompts(ps: seq<Prompt>) returns (groups: map<string, seq<Prompt>>, keys: seq<string>)
    ensures groups == Grouped(ps)
    ensures keys == KeyOrder(ps)
  {
    groups, keys := map[], [];
    for i := 0 to |ps|
      invariant groups == Grouped(ps[..i])
      invariant keys == KeyOrder(ps[..i])
    {
      var p := ps[i];
      var k := GroupKey(p);
      GroupStep(ps, i);
      if k !in groups {
        groups := groups[k := []];
        keys := keys + [k];
      }
      groups := groups[k := groups[k] + [p]];
    }
    assert ps[..|ps|] == ps;
  }

  /** One pass of the loop: creating the key's array when the key is new, then pushing the
      prompt, turns the grouping of the first `i` prompts into that of the first `i + 1`. */
  lemma GroupStep(ps: seq<Prompt>, i: nat)
    requires i < |ps|
    ensures var g, ks, p := Grouped(ps[..i]), KeyOrder(ps[..i]), ps[i];
      var k := GroupKey(p);
      var created := if k in g then g else g[k := []];
      && created[k := created[k] + [p]] == Grouped(ps[..i + 1])
      && (if k in g then ks else ks + [k]) == KeyOrder(ps[..i + 1])
  {
    var g, p := Grouped(ps[..i]), ps[i];
    var k := GroupKey(p);
    assert ps[..i + 1] == ps[..i] + [p];
    GroupedSnoc(ps[..i], p);
    KeyOrderSnoc(ps[..i], p);
    assert k in g <==> k in KeyOrder(ps[..i]);
  }

  // ---------------------------------------------------------------------------------------
  // Sorting the keys

  /** `localeCompare(a, b) <= 0`, as an abstract relation; it is total. */
  ghost predicate Total(before: (string, string) -> bool) {
    forall a, b :: before(a, b) || before(b, a)
  }

  /** Each key comes no later than the next one in the order. */
  predicate SortedBy(s: seq<string>, before: (string, string) -> bool) {
    forall i :: 0 < i < |s| ==> before(s[i - 1], s[i])
  }

  /** One step of the sort: `x` goes in front of the first key it comes before. */
  function Insert(x: string, s: seq<string>, before: (string, string) -> bool): (r: seq<string>)
    requires Total(before)
    ensures multiset(r) == multiset(s) + multiset{x}
    ensures |r| > 0 && (r[0] == x || (|s| > 0 && r[0] == s[0]))
    ensures SortedBy(s, before) ==> SortedBy(r, before)
  {
    if s == [] || before(x, s[0]) then [x] + s
    else
      var rest := Insert(x, s[1..], before);
      assert s == [s[0]] + s[1..];
      [s[0]] + rest
  }

  /** A sort by `before`: the result is ordered and holds the same keys. */
  function SortBy(s: seq<string>, before: (string, string) -> bool): (r: seq<string>)
    requires Total(before)
    ensures multiset(r) == multiset(s)
    ensures SortedBy(r, before)
  {
    if s == [] then []
    else
      assert s == [s[0]] + s[1..];
      Insert(s[0], SortBy(s[1..], before), before)
  }

  /** `Object.keys(groupedPrompts).sort(localeCompare)`: every group key exactly once, in
      ascending order. */
  function SortedCategories(ps: seq<Prompt>, before: (string, string) -> bool): (r: seq<string>)
    requires Total(before)
    ensures SortedBy(r, before)
    ensures NoDuplicates(r)
    ensures forall k :: k in r <==> k in Grouped(ps)
  {
    KeyOrderKeys(ps);
    var r := SortBy(KeyOrder(ps), before);
    assert forall k :: k in r <==> k in multiset(r);
    r
  }

  // ---------------------------------------------------------------------------------------
  // The groups, read in a given key order

  /** The groups of `ks`, one after another. */
  function Flatten(ps: seq<Prompt>, ks: seq<string>): seq<Prompt> {
    if ks == [] then [] else Flatten(ps, ks[..|ks| - 1]) + Bucket(ps, ks[|ks| - 1])
  }

  /** With distinct keys, a prompt occurs in the concatenated groups as often as in the
      input when its key is listed, and not at all otherwise. */
  lemma {:induction false} FlattenCount(ps: seq<Prompt>, ks: seq<string>, q: Prompt)
    requires NoDuplicates(ks)
    ensures multiset(Flatten(ps, ks))[q] == if GroupKey(q) in ks then multiset(ps)[q] else 0
  {
    if ks != [] {
      var init, last := ks[..|ks| - 1], ks[|ks| - 1];
      assert ks == init + [last];
      assert NoDuplicates(init) by {
        forall x ensures multiset(init)[x] <= 1 {
          assert multiset(ks)[x] == multiset(init)[x] + multiset([last])[x];
        }
      }
      assert last !in init by {
        assert multiset(ks)[last] == multiset(init)[last] + 1;
      }
      var before, here := multiset(Flatten(ps, init))[q], multiset(Bucket(ps, last))[q];
      assert before == if GroupKey(q) in init then multiset(ps)[q] else 0 by {
        FlattenCount(ps, init, q);
      }
      assert here == if GroupKey(q) == last then multiset(ps)[q] else 0 by {
        BucketCount(ps, last);
      }
      assert multiset(Flatten(ps, ks))[q] == before + here by {
        assert Flatten(ps, ks) == Flatten(ps, init) + Bucket(ps, last);
      }
      assert GroupKey(q) in ks <==> GroupKey(q) in init || GroupKey(q) == last;
    }
  }

  /** Every prompt lands in exactly one group: read in any order that lists each key once,
      the groups are a permutation of the input, so their sizes add up to its length. */
  lemma GroupsPartition(ps: seq<Prompt>, ks: seq<string>)
    requires NoDuplicates(ks)
    requires forall k :: k in ks <==> k in Grouped(ps)
    ensures multiset(Flatten(ps, ks)) == multiset(ps)
    ensures |Flatten(ps, ks)| == |ps|
  {
    KeyOrderKeys(ps);
    forall q ensures multiset(Flatten(ps, ks))[q] == multiset(ps)[q] {
      FlattenCount(ps, ks, q);
      if q in ps {
        var i :| 0 <= i < |ps| && ps[i] == q;
        assert GroupKey(q) in KeyOrder(ps);
      }
    }
    assert multiset(Flatten(ps, ks)) == multiset(ps);
    assert |multiset(Flatten(ps, ks))| == |multiset(ps)|;
  }

  /** The order in which the export prints the prompts: group by group, keys ascending. It is
      a permutation of the input. */
  function ExportOrder(ps: seq<Prompt>, before: (string, string) -> bool): (r: seq<Prompt>)
    requires Total(before)
    ensures multiset(r) == multiset(ps)
  {
    GroupsPartition(ps, SortedCategories(ps, before));
    Flatten(ps, SortedCategories(ps, before))
  }

  lemma KeyOrderExample(p1: Prompt, p2: Prompt, p3: Prompt)
    requires p1.category == "B" && p2.category == "A" && p3.category == "B"
    ensures KeyOrder([p1, p2, p3]) == ["B", "A"]
  {
    assert KeyOrder([p1]) == ["B"] by {
      KeyOrderSnoc([], p1);
      assert [] + [p1] == [p1];
    }
    assert KeyOrder([p1, p2]) == ["B", "A"] by {
      KeyOrderSnoc([p1], p2);
      assert [p1] + [p2] == [p1, p2];
    }
    KeyOrderSnoc([p1, p2], p3);
    assert [p1, p2] + [p3] == [p1, p2, p3];
  }

  /** The group of `k` in a three-prompt vault, written out. */
  lemma BucketOfThree(p1: Prompt, p2: Prompt, p3: Prompt, k: string)
    ensures Bucket([p1, p2, p3], k)
         == (if GroupKey(p1) == k then [p1] else [])
          + (if GroupKey(p2) == k then [p2] else [])
          + (if GroupKey(p3) == k then [p3] else [])
  {
    var s0: seq<Prompt> := [];
    var s1 := s0 + [p1];
    var s2 := s1 + [p2];
    var s3 := s2 + [p3];
    assert s3 == [p1, p2, p3];
    BucketSnoc(s0, p1, k);
    BucketSnoc(s1, p2, k);
    BucketSnoc(s2, p3, k);
  }

  lemma GroupedExample(p1: Prompt, p2: Prompt, p3: Prompt)
    requires p1.category == "B" && p2.category == "A" && p3.category == "B"
    ensures Grouped([p1, p2, p3]) == map["A" := [p2], "B" := [p1, p3]]
  {
    var ps := [p1, p2, p3];
    KeyOrderExample(p1, p2, p3);
    assert Grouped(ps).Keys == {"A", "B"};
    assert Grouped(ps)["A"] == [p2] by {
      BucketOfThree(p1, p2, p3, "A");
    }
    assert Grouped(ps)["B"] == [p1, p3] by {
      BucketOfThree(p1, p2, p3, "B");
    }
  }

  lemma SortExample(before: (string, string) -> bool)
    requires Total(before) && before("A", "B") && !before("B", "A")
    ensures SortBy(["B", "A"], before) == ["A", "B"]
  {
    assert ["B", "A"][1..] == ["A"] && ["A"][1..] == [];
    assert SortBy(["A"], before) == ["A"];
    assert Insert("B", ["A"], before) == ["A", "B"];
  }

  /** Worked case: prompts in categories B, A, B give the groups A: [second] and B: [first,
      third], listed A before B. */
  lemma GroupingExample(p1: Prompt, p2: Prompt, p3: Prompt, before: (string, string) -> bool)
    requires p1.category == "B" && p2.category == "A" && p3.category == "B"
    requires Total(before) && before("A", "B") && !before("B", "A")
    ensures Grouped([p1, p2, p3]) == map["A" := [p2], "B" := [p1, p3]]
    ensures SortedCategories([p1, p2, p3], before) == ["A", "B"]
  {
    KeyOrderExample(p1, p2, p3);
    GroupedExample(p1, p2, p3);
    SortExample(before);
  }
}
