/**
 * Day 7 (src/day7/mod.rs): camel cards. A hand's labels are grouped by
 * label; the group sizes (with jokers, if they are played, added to a largest
 * group) decide one of seven rules, and hands are ranked by rule strength and
 * then label by label. The winnings are each bid times its hand's rank.
 */
module Day7 {
  import opened Wrappers
  import opened Text

  /** `std::cmp::Ordering`. */
  datatype Ordering = Less | Equal | Greater

  function Flip(o: Ordering): Ordering
  {
    match o
    case Less => Greater
    case Equal => Equal
    case Greater => Less
  }

  /** `i32::partial_cmp`, which is never `None`. */
  function CompareInts(a: int, b: int): Ordering
  {
    if a < b then Less else if a == b then Equal else Greater
  }

  // ---- Labels ----

  /** A card label: its character and its strength. */
  datatype Label = Label(value: char, strength: int)

  /** The labels from strongest to weakest. */
  const Ranking: string := "AKQJT987654321"

  /** Label::from_str: `A K Q J T 9 .. 1` get strengths 14 down to 1; any other label panics. */
  function LabelFromStr(c: char): Option<Label>
  {
    if c == 'A' then Some(Label(c, 14))
    else if c == 'K' then Some(Label(c, 13))
    else if c == 'Q' then Some(Label(c, 12))
    else if c == 'J' then Some(Label(c, 11))
    else if c == 'T' then Some(Label(c, 10))
    else if '1' <= c <= '9' then Some(Label(c, c as int - '0' as int))
    else None
  }

  /** The `i`-th label of the ranking has strength `14 - i`, and nothing else is a label. */
  lemma LabelStrengths()
    ensures forall i :: 0 <= i < |Ranking| ==> LabelFromStr(Ranking[i]) == Some(Label(Ranking[i], 14 - i))
    ensures forall c :: LabelFromStr(c).Some? <==> c in Ranking
  {
    forall c | LabelFromStr(c).Some?
      ensures c in Ranking
    {
      if '1' <= c <= '9' {
        assert Ranking[14 - (c as int - '0' as int)] == c;
      }
    }
  }

  /** Label::strongest. */
  function Strongest(): Label
  {
    Label('A', 14)
  }

  /** A label of a hand read for puzzle 2 when `withJokers`: a `J` is a joker of strength 1. */
  function ParseLabel(c: char, withJokers: bool): (r: Option<Label>)
    ensures r.Some? <==> LabelFromStr(c).Some?
    ensures r.Some? ==> r.value.value == c
    ensures r.Some? && withJokers && c == 'J' ==> r.value.strength == 1
    ensures r.Some? && !(withJokers && c == 'J') ==> r == LabelFromStr(c)
  {
    match LabelFromStr(c)
    case None => None
    case Some(parsed) => if withJokers && parsed.value == 'J' then Some(Label(parsed.value, 1)) else Some(parsed)
  }

  /**
   * `Vec<Label>::partial_cmp`: label by label on strengths (`Label::partial_cmp`
   * compares strengths only); a proper prefix is less.
   */
  function CompareLabels(a: seq<Label>, b: seq<Label>): Ordering
  {
    if a == [] || b == [] then CompareInts(|a|, |b|)
    else
      var first := CompareInts(a[0].strength, b[0].strength);
      if first != Equal then first else CompareLabels(a[1..], b[1..])
  }

  /** Two label lists compare equal exactly when they have the same length and the same strength at each position. */
  lemma {:induction false} CompareLabelsEqual(a: seq<Label>, b: seq<Label>)
    ensures CompareLabels(a, b) == Equal <==> |a| == |b| && forall i :: 0 <= i < |a| ==> a[i].strength == b[i].strength
  {
    if a != [] && b != [] {
      CompareLabelsEqual(a[1..], b[1..]);
      if |a| == |b| && forall i :: 0 <= i < |a| ==> a[i].strength == b[i].strength {
        assert forall i :: 0 <= i < |a| - 1 ==> a[1..][i] == a[i + 1] && b[1..][i] == b[i + 1];
      }
      if CompareLabels(a, b) == Equal {
        forall i | 0 <= i < |a|
          ensures a[i].strength == b[i].strength
        {
          if i > 0 {
            assert a[1..][i - 1] == a[i] && b[1..][i - 1] == b[i];
          }
        }
      }
    }
  }

  /** Swapping the operands flips the result. */
  lemma {:induction false} CompareLabelsFlip(a: seq<Label>, b: seq<Label>)
    ensures CompareLabels(b, a) == Flip(CompareLabels(a, b))
  {
    if a != [] && b != [] {
      CompareLabelsFlip(a[1..], b[1..]);
    }
  }

  /** "Not greater" is transitive, so with CompareLabelsFlip the order is a total preorder. */
  lemma {:induction false} CompareLabelsTransitive(a: seq<Label>, b: seq<Label>, c: seq<Label>)
    requires CompareLabels(a, b) != Greater && CompareLabels(b, c) != Greater
    ensures CompareLabels(a, c) != Greater
  {
    if a != [] && b != [] && c != [] {
      if a[0].strength == b[0].strength == c[0].strength {
        CompareLabelsTransitive(a[1..], b[1..], c[1..]);
      }
    }
  }

  // ---- Rules ----

  datatype Rule = Rule(name: string, strength: int, labels: seq<Label>, withJokers: bool)

  /** The name of the rule of each strength. */
  function RuleName(strength: int): string
  {
    if strength == 7 then "Five of a kind"
    else if strength == 6 then "Four of a kind"
    else if strength == 5 then "Full house"
    else if strength == 4 then "Three of a kind"
    else if strength == 3 then "Two pair"
    else if strength == 2 then "One pair"
    else "High card"
  }

  /** The rule strength for the number of groups and their sorted sizes; an unlisted pattern is a high card. */
  function Classify(count: nat, values: seq<int>): int
  {
    if count == 1 && values == [5] then 7
    else if count == 2 && values == [1, 4] then 6
    else if count == 2 && values == [2, 3] then 5
    else if count == 3 && values == [1, 1, 3] then 4
    else if count == 3 && values == [1, 2, 2] then 3
    else if count == 4 && values == [1, 1, 1, 2] then 2
    else 1
  }

  /** Every pattern gets a strength from 1 to 7, and the name of its rule. */
  lemma ClassifyRange(count: nat, values: seq<int>)
    ensures 1 <= Classify(count, values) <= 7
    ensures Classify(count, values) == 1 <==> RuleName(Classify(count, values)) == "High card"
  {
  }

  // ---- Sorting group sizes (`values.sort()`) ----

  predicate SortedInts(s: seq<int>)
  {
    forall i, j :: 0 <= i < j < |s| ==> s[i] <= s[j]
  }

  /** A value no larger than the head of a sorted sequence may go in front of it. */
  lemma SortedCons(a: int, rest: seq<int>)
    requires SortedInts(rest) && (rest == [] || a <= rest[0])
    ensures SortedInts([a] + rest)
  {
  }

  /** Inserts `x` into the sorted `s` in front of the first element not smaller than it. */
  function InsertInt(x: int, s: seq<int>): (r: seq<int>)
    requires SortedInts(s)
    ensures SortedInts(r) && multiset(r) == multiset(s) + multiset{x}
    ensures |r| > 0 && (r[0] == x || (s != [] && r[0] == s[0]))
  {
    if s == [] || x <= s[0] then
      SortedCons(x, s);
      [x] + s
    else
      var rest := InsertInt(x, s[1..]);
      assert s == [s[0]] + s[1..];
      SortedCons(s[0], rest);
      [s[0]] + rest
  }

  /** The values in ascending order. */
  function SortInts(s: seq<int>): (r: seq<int>)
    ensures SortedInts(r) && multiset(r) == multiset(s)
  {
    if s == [] then []
    else
      assert s == [s[0]] + s[1..];
      InsertInt(s[0], SortInts(s[1..]))
  }

  /** A sorted sequence is determined by its multiset of elements: the sorted order of any enumeration is the same. */
  lemma {:induction false} SortedUnique(a: seq<int>, b: seq<int>)
    requires SortedInts(a) && SortedInts(b) && multiset(a) == multiset(b)
    ensures a == b
    decreases |a|
  {
    if a != [] {
      assert |b| == |a| by {
        assert |multiset(b)| == |multiset(a)|;
      }
      assert a[0] in multiset(b) && b[0] in multiset(a);
      var i :| 0 <= i < |b| && b[i] == a[0];
      var j :| 0 <= j < |a| && a[j] == b[0];
      assert a[0] == b[0];
      assert a == [a[0]] + a[1..] && b == [b[0]] + b[1..];
      assert multiset(a[1..]) + multiset{a[0]} == multiset(a);
      assert multiset(b[1..]) + multiset{a[0]} == multiset(a);
      AddCancel(multiset(a[1..]), multiset(b[1..]), a[0], multiset(a));
      SortedUnique(a[1..], b[1..]);
    }
  }

  // ---- Groups of a hand (Rule::from_labels) ----

  /** A joker: a `J` when jokers are played. */
  predicate IsJoker(l: Label, withJokers: bool)
  {
    withJokers && l.value == 'J'
  }

  /** The labels that are not jokers, in order. */
  function Kept(labels: seq<Label>, withJokers: bool): seq<Label>
  {
    if labels == [] then []
    else
      var init := Kept(labels[..|labels| - 1], withJokers);
      var last := labels[|labels| - 1];
      if IsJoker(last, withJokers) then init else init + [last]
  }

  /** The number of jokers. */
  function Jokers(labels: seq<Label>, withJokers: bool): nat
  {
    if labels == [] then 0
    else Jokers(labels[..|labels| - 1], withJokers) + if IsJoker(labels[|labels| - 1], withJokers) then 1 else 0
  }

  /** The kept labels are exactly the labels that are not jokers, and with the jokers they make up the hand. */
  lemma {:induction false} KeptAndJokers(labels: seq<Label>, withJokers: bool)
    ensures forall l :: l in Kept(labels, withJokers) <==> l in labels && !IsJoker(l, withJokers)
    ensures |Kept(labels, withJokers)| + Jokers(labels, withJokers) == |labels|
  {
    if labels != [] {
      var init := labels[..|labels| - 1];
      KeptAndJokers(init, withJokers);
      assert labels == init + [labels[|labels| - 1]];
    }
  }

  /** Counting one more label of the hand. */
  lemma KeptStep(labels: seq<Label>, i: nat, withJokers: bool)
    requires i < |labels|
    ensures Kept(labels[..i + 1], withJokers) ==
      if IsJoker(labels[i], withJokers) then Kept(labels[..i], withJokers) else Kept(labels[..i], withJokers) + [labels[i]]
    ensures Jokers(labels[..i + 1], withJokers) == Jokers(labels[..i], withJokers) + if IsJoker(labels[i], withJokers) then 1 else 0
  {
    assert labels[..i + 1][..i] == labels[..i];
  }

  /**
   * The groups of the kept labels, counted one label at a time as
   * `*groups.entry(label).or_insert(0) += 1` does.
   */
  function Groups(kept: seq<Label>): map<Label, int>
  {
    if kept == [] then map[]
    else
      var counted := Groups(kept[..|kept| - 1]);
      var last := kept[|kept| - 1];
      counted[last := (if last in counted then counted[last] else 0) + 1]
  }

  /** The groups hold each kept label with the number of times it occurs. */
  lemma {:induction false} GroupsCount(kept: seq<Label>)
    ensures forall l :: l in Groups(kept) <==> l in kept
    ensures forall l :: l in Groups(kept) ==> Groups(kept)[l] == multiset(kept)[l]
  {
    if kept != [] {
      var init := kept[..|kept| - 1];
      var last := kept[|kept| - 1];
      GroupsCount(init);
      assert kept == init + [last];
      assert multiset(kept) == multiset(init) + multiset{last};
    }
  }

  /** Counting one more kept label. */
  lemma GroupsStep(kept: seq<Label>, l: Label)
    ensures Groups(kept + [l]) == Groups(kept)[l := (if l in Groups(kept) then Groups(kept)[l] else 0) + 1]
  {
    assert (kept + [l])[..|kept|] == kept;
  }

  /** The groups after the `is_empty` check: the strongest label with count 0 when every label is a joker. */
  function Filled(kept: seq<Label>): map<Label, int>
  {
    if kept == [] then map[Strongest() := 0] else Groups(kept)
  }

  /** The first occurrence of each kept label, in order. */
  function Distinct(s: seq<Label>): (d: seq<Label>)
    ensures forall x :: x in d <==> x in s
    ensures forall i, j :: 0 <= i < j < |d| ==> d[i] != d[j]
  {
    if s == [] then []
    else
      var init := Distinct(s[..|s| - 1]);
      var last := s[|s| - 1];
      assert forall x :: x in s <==> x in s[..|s| - 1] || x == last;
      if last in init then init else init + [last]
  }

  /** The labels of the filled groups, each once. */
  function GroupLabels(kept: seq<Label>): (ks: seq<Label>)
    ensures |ks| > 0
    ensures forall x :: x in ks <==> x in Filled(kept)
    ensures forall i, j :: 0 <= i < j < |ks| ==> ks[i] != ks[j]
  {
    if kept == [] then [Strongest()]
    else
      assert kept[0] in Distinct(kept);
      GroupsCount(kept);
      Distinct(kept)
  }

  /** The values of the keys `ks` in `m`, in the order of `ks`. */
  function Lookup(m: map<Label, int>, ks: seq<Label>): (values: seq<int>)
    requires forall i :: 0 <= i < |ks| ==> ks[i] in m
    ensures |values| == |ks| && forall i :: 0 <= i < |ks| ==> values[i] == m[ks[i]]
  {
    if ks == [] then [] else Lookup(m, ks[..|ks| - 1]) + [m[ks[|ks| - 1]]]
  }

  /** The greatest element of a non-empty sequence. */
  function MaxOf(s: seq<int>): (top: int)
    requires |s| > 0
    ensures top in s && forall i :: 0 <= i < |s| ==> s[i] <= top
  {
    if |s| == 1 then s[0]
    else
      var rest := MaxOf(s[..|s| - 1]);
      if s[|s| - 1] > rest then s[|s| - 1] else rest
  }

  /** The first index of `x` in `s`. */
  function FirstIndex(s: seq<int>, x: int): (i: nat)
    requires x in s
    ensures i < |s| && s[i] == x
  {
    if s[0] == x then 0 else 1 + FirstIndex(s[1..], x)
  }

  /**
   * The group sizes a hand is classified by: one per group (in the order the
   * labels first occur), with the jokers added to a largest one.
   */
  function HandCounts(labels: seq<Label>, withJokers: bool): seq<int>
  {
    CountsOf(Kept(labels, withJokers), Jokers(labels, withJokers))
  }

  /** The sizes of the groups of the kept labels, with the jokers added to the first largest. */
  function CountsOf(kept: seq<Label>, jokers: int): seq<int>
  {
    WithJokers(Lookup(Filled(kept), GroupLabels(kept)), jokers)
  }

  /** The sizes with the jokers added to the first largest one. */
  function WithJokers(counts: seq<int>, jokers: int): (r: seq<int>)
    requires |counts| > 0
    ensures |r| == |counts|
    ensures multiset(r) + multiset{MaxOf(counts)} == multiset(counts) + multiset{MaxOf(counts) + jokers}
    ensures Sum(r) == Sum(counts) + jokers
  {
    var top := MaxOf(counts);
    var index := FirstIndex(counts, top);
    MultisetUpdate(counts, index, top + jokers);
    SumUpdate(counts, index, top + jokers);
    counts[index := top + jokers]
  }

  /** The strength of the rule of a hand. */
  function HandStrength(labels: seq<Label>, withJokers: bool): int
  {
    var counts := HandCounts(labels, withJokers);
    Classify(|counts|, SortInts(counts))
  }

  /** The rule of a hand, as Rule::from_labels builds it. */
  function RuleOf(labels: seq<Label>, withJokers: bool): Rule
  {
    var strength := HandStrength(labels, withJokers);
    Rule(RuleName(strength), strength, labels, withJokers)
  }

  /** A hand of jokers keeps no label. */
  lemma {:induction false} KeptOfJokers(labels: seq<Label>)
    requires forall i :: 0 <= i < |labels| ==> labels[i].value == 'J'
    ensures Kept(labels, true) == []
  {
    if labels != [] {
      KeptOfJokers(labels[..|labels| - 1]);
    }
  }

  /** Five jokers make five of a kind. */
  lemma AllJokersFiveOfAKind(labels: seq<Label>)
    requires |labels| == 5 && forall i :: 0 <= i < 5 ==> labels[i].value == 'J'
    ensures HandStrength(labels, true) == 7
  {
    var kept := Kept(labels, true);
    KeptOfJokers(labels);
    KeptAndJokers(labels, true);
    assert Jokers(labels, true) == 5;
    var counts := Lookup(Filled(kept), GroupLabels(kept));
    assert counts == [0];
    assert HandCounts(labels, true) == [5];
    assert SortInts([5]) == [5];
  }

  // ---- The multiset of a map's values ----

  /** The values of `m` at `keys`, as a multiset (what iterating over `groups.values()` collects, in any order). */
  ghost function Bag(m: map<Label, int>, keys: set<Label>): multiset<int>
    requires keys <= m.Keys
    decreases keys
  {
    if keys == {} then multiset{}
    else
      HasElement(keys);
      var k :| k in keys;
      Bag(m, keys - {k}) + multiset{m[k]}
  }

  /** The multiset does not depend on which key is taken out first. */
  lemma {:induction false} BagRemove(m: map<Label, int>, keys: set<Label>, k: Label)
    requires keys <= m.Keys && k in keys
    ensures Bag(m, keys) == Bag(m, keys - {k}) + multiset{m[k]}
    decreases keys
  {
    var j :| j in keys && Bag(m, keys) == Bag(m, keys - {j}) + multiset{m[j]};
    if j != k {
      BagRemove(m, keys - {j}, k);
      BagRemove(m, keys - {k}, j);
      assert keys - {j} - {k} == keys - {k} - {j};
    }
  }

  /** Maps that agree on the keys have the same multiset there. */
  lemma {:induction false} BagAgree(m1: map<Label, int>, m2: map<Label, int>, keys: set<Label>)
    requires keys <= m1.Keys && keys <= m2.Keys
    requires forall k :: k in keys ==> m1[k] == m2[k]
    ensures Bag(m1, keys) == Bag(m2, keys)
    decreases keys
  {
    if keys != {} {
      var j :| j in keys && Bag(m1, keys) == Bag(m1, keys - {j}) + multiset{m1[j]};
      BagRemove(m2, keys, j);
      BagAgree(m1, m2, keys - {j});
    }
  }

  /** Over the keys of a sequence without repetitions, the multiset is the one of the looked-up values. */
  lemma {:induction false} BagOfLookup(m: map<Label, int>, ks: seq<Label>)
    requires forall i :: 0 <= i < |ks| ==> ks[i] in m
    requires forall i, j :: 0 <= i < j < |ks| ==> ks[i] != ks[j]
    ensures Bag(m, set k | k in ks) == multiset(Lookup(m, ks))
    ensures |set k | k in ks| == |ks|
  {
    if ks != [] {
      var init := ks[..|ks| - 1];
      var last := ks[|ks| - 1];
      BagOfLookup(m, init);
      var keys := set k | k in ks;
      var initKeys := set k | k in init;
      assert last !in initKeys;
      assert keys == initKeys + {last};
      assert keys - {last} == initKeys;
      BagRemove(m, keys, last);
      assert Lookup(m, ks) == Lookup(m, init) + [m[last]];
    }
  }

  /** The groups with the jokers added to the group of `s`. */
  function AddJokers(g: map<Label, int>, s: Label, jokers: int): (r: map<Label, int>)
    requires s in g
    ensures r.Keys == g.Keys
  {
    g[s := g[s] + jokers]
  }

  /** Adding the jokers to the group of `s` replaces its size in the multiset by the larger one. */
  lemma JokersBag(g: map<Label, int>, s: Label, jokers: int)
    requires s in g
    ensures Bag(AddJokers(g, s, jokers), g.Keys) + multiset{g[s]} == Bag(g, g.Keys) + multiset{g[s] + jokers}
  {
    var adjusted := AddJokers(g, s, jokers);
    assert adjusted.Keys == g.Keys;
    BagRemove(adjusted, g.Keys, s);
    BagRemove(g, g.Keys, s);
    BagAgree(adjusted, g, g.Keys - {s});
  }

  /**
   * The group sizes, and so the rule, do not depend on which of two equally
   * large groups receives the jokers: the order in which the map is iterated
   * does not matter.
   */
  lemma JokersToAnyLargestGroup(g: map<Label, int>, s: Label, t: Label, jokers: int)
    requires s in g && t in g && g[s] == g[t]
    ensures Bag(AddJokers(g, s, jokers), g.Keys) == Bag(AddJokers(g, t, jokers), g.Keys)
  {
    JokersBag(g, s, jokers);
    JokersBag(g, t, jokers);
    AddCancel(Bag(AddJokers(g, s, jokers), g.Keys), Bag(AddJokers(g, t, jokers), g.Keys), g[s], Bag(g, g.Keys) + multiset{g[s] + jokers});
  }

  /** The group labels are the keys of the filled groups, each once. */
  lemma GroupLabelsKeys(kept: seq<Label>)
    ensures (set k | k in GroupLabels(kept)) == Filled(kept).Keys
  {
  }

  /** Replacing one element of a sequence replaces it in the multiset. */
  lemma MultisetUpdate(s: seq<int>, i: nat, v: int)
    requires i < |s|
    ensures multiset(s[i := v]) + multiset{s[i]} == multiset(s) + multiset{v}
  {
  }

  /**
   * Adding the jokers at the first largest size gives the sizes with the
   * jokers added to the group of any largest key `s`.
   */
  lemma CountsBag(g: map<Label, int>, counts: seq<int>, s: Label, jokers: int)
    requires |counts| > 0 && s in g
    requires multiset(counts) == Bag(g, g.Keys) && MaxOf(counts) == g[s]
    ensures multiset(WithJokers(counts, jokers)) + multiset{g[s]} == Bag(g, g.Keys) + multiset{g[s] + jokers}
  {
    var w := WithJokers(counts, jokers);
    assert multiset(w) + multiset{MaxOf(counts)} == multiset(counts) + multiset{MaxOf(counts) + jokers};
  }

  /** Two multisets that become the same after adding one element are the same. */
  lemma AddCancel(x: multiset<int>, y: multiset<int>, a: int, b: multiset<int>)
    requires x + multiset{a} == b && y + multiset{a} == b
    ensures x == y
  {
    forall o | true
      ensures x[o] == y[o]
    {
      assert (x + multiset{a})[o] == (y + multiset{a})[o];
    }
  }

  /** The largest looked-up value is the value of any largest key. */
  lemma LookupMax(g: map<Label, int>, ks: seq<Label>, s: Label)
    requires |ks| > 0 && (set k | k in ks) == g.Keys
    requires s in g && forall l :: l in g ==> g[l] <= g[s]
    ensures MaxOf(Lookup(g, ks)) == g[s]
  {
    var counts := Lookup(g, ks);
    var top := MaxOf(counts);
    assert s in ks;
    var i :| 0 <= i < |ks| && ks[i] == s;
    assert counts[i] == g[s];
    var j :| 0 <= j < |counts| && counts[j] == top;
    assert top == g[ks[j]];
  }

  /**
   * Looking up distinct keys that cover a map and adding the jokers at the
   * first largest value gives the values with the jokers added at any largest
   * key `s`.
   */
  lemma CountsToBag(g: map<Label, int>, ks: seq<Label>, s: Label, jokers: int)
    requires |ks| > 0 && (set k | k in ks) == g.Keys
    requires forall i, j :: 0 <= i < j < |ks| ==> ks[i] != ks[j]
    requires s in g && forall l :: l in g ==> g[l] <= g[s]
    ensures multiset(WithJokers(Lookup(g, ks), jokers)) == Bag(AddJokers(g, s, jokers), g.Keys)
    ensures |Lookup(g, ks)| == |g.Keys|
  {
    var looked := Lookup(g, ks);
    BagOfLookup(g, ks);
    assert Bag(g, g.Keys) == multiset(looked);
    LookupMax(g, ks, s);
    CountsBag(g, looked, s, jokers);
    assert multiset(WithJokers(looked, jokers)) + multiset{g[s]} == Bag(g, g.Keys) + multiset{g[s] + jokers};
    JokersBag(g, s, jokers);
    assert Bag(AddJokers(g, s, jokers), g.Keys) + multiset{g[s]} == Bag(g, g.Keys) + multiset{g[s] + jokers};
    AddCancel(multiset(WithJokers(looked, jokers)), Bag(AddJokers(g, s, jokers), g.Keys), g[s], Bag(g, g.Keys) + multiset{g[s] + jokers});
  }

  /**
   * With the jokers added to any largest group `s`, the sizes are those of
   * CountsOf, and there are as many of them as groups.
   */
  lemma KeptCountsBag(kept: seq<Label>, jokers: int, s: Label)
    requires s in Filled(kept) && forall l :: l in Filled(kept) ==> Filled(kept)[l] <= Filled(kept)[s]
    ensures multiset(CountsOf(kept, jokers)) == Bag(AddJokers(Filled(kept), s, jokers), Filled(kept).Keys)
    ensures |CountsOf(kept, jokers)| == |Filled(kept).Keys|
  {
    GroupLabelsKeys(kept);
    CountsToBag(Filled(kept), GroupLabels(kept), s, jokers);
  }

  /** No groups exactly when every label is a joker. */
  lemma GroupsEmpty(kept: seq<Label>)
    ensures |Groups(kept)| == 0 <==> kept == []
  {
    if kept != [] {
      GroupsCount(kept);
      assert kept[0] in Groups(kept);
    }
  }

  /**
   * Classifying any enumeration of the group sizes, with the jokers added to
   * any largest group, gives the strength of the hand.
   */
  lemma StrengthOfGroups(labels: seq<Label>, withJokers: bool, g: map<Label, int>, jokers: int, s: Label, values: seq<int>)
    requires g == Filled(Kept(labels, withJokers)) && jokers == Jokers(labels, withJokers)
    requires s in g && forall l :: l in g ==> g[l] <= g[s]
    requires multiset(values) == Bag(AddJokers(g, s, jokers), g.Keys)
    ensures Classify(|g|, SortInts(values)) == HandStrength(labels, withJokers)
  {
    var kept := Kept(labels, withJokers);
    KeptCountsBag(kept, jokers, s);
    var counts := CountsOf(kept, jokers);
    assert multiset(values) == multiset(counts);
    SortedUnique(SortInts(values), SortInts(counts));
    assert |g| == |g.Keys|;
  }

  /** The counting loop of Rule::from_labels: the size of each kept label's group, and the number of jokers. */
  method CountGroups(labels: seq<Label>, withJokers: bool) returns (groups: map<Label, int>, jokers: int)
    ensures groups == Groups(Kept(labels, withJokers)) && jokers == Jokers(labels, withJokers)
  {
    groups := map[];
    jokers := 0;
    assert labels[..0] == [];
    for i := 0 to |labels|
      invariant groups == Groups(Kept(labels[..i], withJokers))
      invariant jokers == Jokers(labels[..i], withJokers)
    {
      var current := labels[i];
      KeptStep(labels, i, withJokers);
      if withJokers && current.value == 'J' {
        jokers := jokers + 1;
        continue;
      }
      ghost var kept := Kept(labels[..i], withJokers);
      GroupsStep(kept, current);
      assert Kept(labels[..i + 1], withJokers) == kept + [current];
      groups := groups[current := (if current in groups then groups[current] else 0) + 1];
      assert groups == Groups(kept + [current]);
    }
    assert labels[..|labels|] == labels;
  }

  /**
   * The search for a largest group: starts from an arbitrary group and moves
   * to each strictly larger one met, in the map's arbitrary order.
   */
  method LargestGroup(groups: map<Label, int>) returns (strongestLabel: Label)
    requires |groups| > 0
    ensures strongestLabel in groups && forall l :: l in groups ==> groups[l] <= groups[strongestLabel]
  {
    assert |groups.Keys| == |groups|;
    ghost var first := Pick(groups.Keys);
    strongestLabel :| strongestLabel in groups;
    var strongestCount := groups[strongestLabel];
    var remaining := groups.Keys;
    while remaining != {}
      invariant remaining <= groups.Keys
      invariant strongestLabel in groups && strongestCount == groups[strongestLabel]
      invariant forall l :: l in groups && l !in remaining ==> groups[l] <= strongestCount
      decreases |remaining|
    {
      ghost var some := Pick(remaining);
      var current :| current in remaining;
      if groups[current] > strongestCount {
        strongestCount := groups[current];
        strongestLabel := current;
      }
      remaining := remaining - {current};
    }
  }

  /** `groups.values().collect()`: the sizes, in the map's arbitrary order. */
  method GroupSizes(groups: map<Label, int>) returns (values: seq<int>)
    ensures multiset(values) == Bag(groups, groups.Keys)
  {
    values := [];
    var remaining := groups.Keys;
    while remaining != {}
      invariant remaining <= groups.Keys
      invariant multiset(values) + Bag(groups, remaining) == Bag(groups, groups.Keys)
      decreases |remaining|
    {
      ghost var some := Pick(remaining);
      var current :| current in remaining;
      BagRemove(groups, remaining, current);
      values := values + [groups[current]];
      remaining := remaining - {current};
    }
  }

  /**
   * Rule::from_labels: groups the labels, adds the jokers to a largest
   * group, and classifies the sorted group sizes. Whatever order the map is
   * iterated in, the rule is the one RuleOf specifies.
   */
  method FromLabels(labels: seq<Label>, withJokers: bool) returns (rule: Rule)
    ensures rule == RuleOf(labels, withJokers)
  {
    var groups, jokers := CountGroups(labels, withJokers);
    ghost var kept := Kept(labels, withJokers);
    GroupsEmpty(kept);
    if |groups| == 0 {
      groups := groups[Strongest() := 0];
    }
    assert groups == Filled(kept);
    var strongestLabel := LargestGroup(groups);
    ghost var filled := groups;
    groups := groups[strongestLabel := groups[strongestLabel] + jokers];
    assert groups == AddJokers(filled, strongestLabel, jokers);
    var count := |groups|;
    var values := GroupSizes(groups);
    var strength := Classify(count, SortInts(values));
    assert groups.Keys == filled.Keys;
    assert |groups| == |filled|;
    StrengthOfGroups(labels, withJokers, filled, jokers, strongestLabel, values);
    rule := Rule(RuleName(strength), strength, labels, withJokers);
  }

  // ---- The group sizes add up to the hand ----

  /** The sum of a sequence. */
  function Sum(s: seq<int>): int
  {
    if s == [] then 0 else Sum(s[..|s| - 1]) + s[|s| - 1]
  }

  /** Appending adds to the sum. */
  lemma SumAppend(s: seq<int>, x: int)
    ensures Sum(s + [x]) == Sum(s) + x
  {
    assert (s + [x])[..|s|] == s;
  }

  /** Replacing one element changes the sum by the difference. */
  lemma {:induction false} SumUpdate(s: seq<int>, i: nat, v: int)
    requires i < |s|
    ensures Sum(s[i := v]) == Sum(s) - s[i] + v
  {
    var n := |s| - 1;
    if i == n {
      assert s[i := v][..n] == s[..n];
    } else {
      SumUpdate(s[..n], i, v);
      assert s[i := v][..n] == s[..n][i := v];
    }
  }

  /** A change at a key that is not looked up is not seen. */
  lemma LookupOutside(m: map<Label, int>, ks: seq<Label>, l: Label, v: int)
    requires forall i :: 0 <= i < |ks| ==> ks[i] in m
    requires l !in ks
    ensures Lookup(m[l := v], ks) == Lookup(m, ks)
  {
  }

  /** Counting one more at a key looked up once adds one to the sum. */
  lemma {:induction false} LookupBump(m: map<Label, int>, ks: seq<Label>, l: Label)
    requires forall i :: 0 <= i < |ks| ==> ks[i] in m
    requires forall i, j :: 0 <= i < j < |ks| ==> ks[i] != ks[j]
    requires l in ks
    ensures Sum(Lookup(m[l := m[l] + 1], ks)) == Sum(Lookup(m, ks)) + 1
  {
    var n := |ks| - 1;
    var init := ks[..n];
    var bumped := m[l := m[l] + 1];
    assert ks == init + [ks[n]];
    SumAppend(Lookup(bumped, init), bumped[ks[n]]);
    SumAppend(Lookup(m, init), m[ks[n]]);
    if ks[n] == l {
      LookupOutside(m, init, l, m[l] + 1);
    } else {
      LookupBump(m, init, l);
    }
  }

  /** The sizes of the groups add up to the number of kept labels. */
  lemma {:induction false} GroupsSum(kept: seq<Label>)
    ensures Sum(Lookup(Filled(kept), GroupLabels(kept))) == |kept|
  {
    if |kept| == 1 {
      GroupsSumOne(kept[0]);
      assert kept == [kept[0]];
    } else if kept != [] {
      var init := kept[..|kept| - 1];
      GroupsSum(init);
      assert kept == init + [kept[|kept| - 1]];
      GroupsSumStep(init, kept[|kept| - 1]);
    }
  }

  /** A single kept label makes one group of size one. */
  lemma GroupsSumOne(l: Label)
    ensures Sum(Lookup(Filled([l]), GroupLabels([l]))) == 1
  {
    GroupsStep([], l);
    assert [] + [l] == [l];
    assert Filled([l]) == map[l := 1];
    assert Distinct([l]) == [l];
    assert Lookup(map[l := 1], [l]) == [1];
    SumAppend([], 1);
  }

  /** One more kept label adds one to the sum of the group sizes. */
  lemma GroupsSumStep(init: seq<Label>, last: Label)
    requires init != []
    ensures Sum(Lookup(Filled(init + [last]), GroupLabels(init + [last]))) == Sum(Lookup(Filled(init), GroupLabels(init))) + 1
  {
    var kept := init + [last];
    assert kept[..|kept| - 1] == init;
    assert Filled(init) == Groups(init) && GroupLabels(init) == Distinct(init);
    GroupsStep(init, last);
    if last in Distinct(init) {
      GroupsSumSeen(init, last);
    } else {
      GroupsSumNew(init, last);
    }
  }

  /** A label already counted grows its group by one. */
  lemma GroupsSumSeen(init: seq<Label>, last: Label)
    requires init != [] && last in Groups(init)
    requires Groups(init + [last]) == Groups(init)[last := Groups(init)[last] + 1]
    ensures Sum(Lookup(Filled(init + [last]), GroupLabels(init + [last]))) == Sum(Lookup(Filled(init), GroupLabels(init))) + 1
  {
    var kept := init + [last];
    var groups := Groups(init);
    var labels := Distinct(init);
    assert kept[..|kept| - 1] == init;
    assert GroupLabels(init) == labels && Filled(init) == groups;
    assert Distinct(kept) == labels;
    var bumped := groups[last := groups[last] + 1];
    assert Filled(kept) == bumped && GroupLabels(kept) == labels;
    LookupBump(groups, labels, last);
    assert Lookup(Filled(kept), GroupLabels(kept)) == Lookup(bumped, labels);
  }

  /** A label not counted before starts a new group of size one. */
  lemma GroupsSumNew(init: seq<Label>, last: Label)
    requires init != [] && last !in Distinct(init)
    requires Groups(init + [last]) == Groups(init)[last := 1]
    ensures Sum(Lookup(Filled(init + [last]), GroupLabels(init + [last]))) == Sum(Lookup(Filled(init), GroupLabels(init))) + 1
  {
    var kept := init + [last];
    assert Filled(kept) == Groups(kept) && GroupLabels(kept) == Distinct(kept);
    var groups := Groups(init);
    var labels := Distinct(init);
    assert kept[..|kept| - 1] == init;
    assert Distinct(kept) == labels + [last];
    assert GroupLabels(init) == labels;
    LookupOutside(groups, labels, last, 1);
    assert (labels + [last])[..|labels|] == labels;
    SumAppend(Lookup(groups, labels), 1);
  }

  /** With the jokers added to a largest group, the group sizes still add up to the length of the hand. */
  lemma HandCountsSum(labels: seq<Label>, withJokers: bool)
    ensures Sum(HandCounts(labels, withJokers)) == |labels|
  {
    var kept := Kept(labels, withJokers);
    GroupsSum(kept);
    KeptAndJokers(labels, withJokers);
  }

  // ---- Ordering rules and hands ----

  /** Rule::partial_cmp: strength first, ties broken by the labels. */
  function CompareRules(a: Rule, b: Rule): Ordering
  {
    var ordering := CompareInts(a.strength, b.strength);
    if ordering == Equal then CompareLabels(a.labels, b.labels) else ordering
  }

  /** Swapping two rules flips their order. */
  lemma CompareRulesFlip(a: Rule, b: Rule)
    ensures CompareRules(b, a) == Flip(CompareRules(a, b))
  {
    CompareLabelsFlip(a.labels, b.labels);
  }

  /** "Not greater" is transitive on rules. */
  lemma CompareRulesTransitive(a: Rule, b: Rule, c: Rule)
    requires CompareRules(a, b) != Greater && CompareRules(b, c) != Greater
    ensures CompareRules(a, c) != Greater
  {
    if a.strength == b.strength == c.strength {
      CompareLabelsTransitive(a.labels, b.labels, c.labels);
    }
  }

  /** A hand: its labels, its bid, and whether jokers are played. */
  datatype Hand = Hand(labels: seq<Label>, bid: int, withJokers: bool)

  /** Hand::partial_cmp: both hands are classified with the first hand's joker setting. */
  function CompareHands(a: Hand, b: Hand): Ordering
  {
    CompareRules(RuleOf(a.labels, a.withJokers), RuleOf(b.labels, a.withJokers))
  }

  /** A stronger rule wins; under equal rules the labels decide. */
  lemma CompareHandsByRule(a: Hand, b: Hand)
    ensures HandStrength(a.labels, a.withJokers) < HandStrength(b.labels, a.withJokers) ==> CompareHands(a, b) == Less
    ensures HandStrength(a.labels, a.withJokers) == HandStrength(b.labels, a.withJokers) ==>
      (CompareHands(a, b) == Equal <==> |a.labels| == |b.labels| && forall i :: 0 <= i < |a.labels| ==> a.labels[i].strength == b.labels[i].strength)
  {
    CompareLabelsEqual(a.labels, b.labels);
  }

  /** Hands played under the same joker setting: swapping flips the order. */
  lemma CompareHandsFlip(a: Hand, b: Hand)
    requires a.withJokers == b.withJokers
    ensures CompareHands(b, a) == Flip(CompareHands(a, b))
  {
    CompareRulesFlip(RuleOf(a.labels, a.withJokers), RuleOf(b.labels, a.withJokers));
  }

  /** Hands played under the same joker setting: "not greater" is transitive. */
  lemma CompareHandsTransitive(a: Hand, b: Hand, c: Hand)
    requires a.withJokers == b.withJokers == c.withJokers
    requires CompareHands(a, b) != Greater && CompareHands(b, c) != Greater
    ensures CompareHands(a, c) != Greater
  {
    var w := a.withJokers;
    CompareRulesTransitive(RuleOf(a.labels, w), RuleOf(b.labels, w), RuleOf(c.labels, w));
  }

  // ---- Sorting the hands ----

  /** Every hand is played with the same joker setting. */
  predicate Uniform(hands: seq<Hand>, withJokers: bool)
  {
    forall i :: 0 <= i < |hands| ==> hands[i].withJokers == withJokers
  }

  /** In ascending order of `cmp`, each element not greater than the next. */
  predicate RankedBy<T>(s: seq<T>, cmp: (T, T) -> Ordering)
  {
    forall i :: 0 <= i < |s| - 1 ==> cmp(s[i], s[i + 1]) != Greater
  }

  /** Places `x` before the first element it does not exceed. */
  function InsertBy<T>(x: T, ranked: seq<T>, cmp: (T, T) -> Ordering): (r: seq<T>)
    ensures multiset(r) == multiset(ranked) + multiset{x}
    ensures |r| > 0 && (r[0] == x || (|ranked| > 0 && r[0] == ranked[0]))
  {
    if ranked == [] || cmp(x, ranked[0]) != Greater then [x] + ranked
    else
      assert ranked == [ranked[0]] + ranked[1..];
      [ranked[0]] + InsertBy(x, ranked[1..], cmp)
  }

  /** A stable insertion sort by `cmp`. */
  function SortBy<T>(s: seq<T>, cmp: (T, T) -> Ordering): (r: seq<T>)
    ensures multiset(r) == multiset(s)
  {
    if s == [] then []
    else
      assert s == [s[0]] + s[1..];
      InsertBy(s[0], SortBy(s[1..], cmp), cmp)
  }

  /** Inserting keeps the order ranked, when `cmp` flips on swapping `x` with the elements. */
  lemma {:induction false} InsertByRanked<T>(x: T, ranked: seq<T>, cmp: (T, T) -> Ordering)
    requires RankedBy(ranked, cmp)
    requires forall y :: y in ranked ==> cmp(y, x) == Flip(cmp(x, y))
    ensures RankedBy(InsertBy(x, ranked, cmp), cmp)
  {
    if ranked != [] && cmp(x, ranked[0]) == Greater {
      InsertByRanked(x, ranked[1..], cmp);
      var rest := InsertBy(x, ranked[1..], cmp);
      assert InsertBy(x, ranked, cmp) == [ranked[0]] + rest;
      assert rest[0] == x || rest[0] == ranked[1];
    }
  }

  /** `hands.sort()`, which orders by Hand::partial_cmp. */
  function SortHands(hands: seq<Hand>): seq<Hand>
  {
    SortBy(hands, CompareHands)
  }

  /** Hands of one joker setting sort into a ranked permutation. */
  lemma {:induction false} SortHandsRanked(hands: seq<Hand>, withJokers: bool)
    requires Uniform(hands, withJokers)
    ensures RankedBy(SortHands(hands), CompareHands) && multiset(SortHands(hands)) == multiset(hands)
  {
    if hands != [] {
      SortHandsRanked(hands[1..], withJokers);
      var sorted := SortHands(hands[1..]);
      forall y | y in sorted
        ensures CompareHands(y, hands[0]) == Flip(CompareHands(hands[0], y))
      {
        assert y in multiset(hands[1..]);
        CompareHandsFlip(hands[0], y);
      }
      InsertByRanked(hands[0], sorted, CompareHands);
    }
  }

  // ---- Parsing ----

  /** The labels of a hand's first word, each read as a label. */
  function HandLabels(word: string, withJokers: bool): (opts: seq<Option<Label>>)
    ensures |opts| == |word| && forall i :: 0 <= i < |word| ==> opts[i] == ParseLabel(word[i], withJokers)
  {
    seq(|word|, i requires 0 <= i < |word| => ParseLabel(word[i], withJokers))
  }

  /** A line `<labels> <bid>` of parse_input; `None` where the code panics. */
  function ParseHand(line: string, withJokers: bool): Option<Hand>
  {
    var input := SplitWhitespace(line);
    if |input| != 2 then None
    else
      var labels := Collect(HandLabels(input[0], withJokers));
      var bid := ParseI32(input[1]);
      if labels.None? || bid.None? then None
      else Some(Hand(labels.value, bid.value, withJokers))
  }

  /**
   * A line parses when it has two words, every character of the first is a
   * label and the second is an `i32`; the hand then has one label per
   * character, with that character, a `J` of strength 1 when jokers are
   * played, and the bid.
   */
  lemma ParsedHand(line: string, withJokers: bool)
    ensures var input := SplitWhitespace(line);
      ParseHand(line, withJokers).Some? <==>
        |input| == 2 && (forall i :: 0 <= i < |input[0]| ==> input[0][i] in Ranking) && ParseI32(input[1]).Some?
    ensures var input := SplitWhitespace(line);
      ParseHand(line, withJokers).Some? ==>
        var hand := ParseHand(line, withJokers).value;
        |hand.labels| == |input[0]| && Some(hand.bid) == ParseI32(input[1]) && hand.withJokers == withJokers &&
        forall i :: 0 <= i < |input[0]| ==>
          hand.labels[i].value == input[0][i] && (withJokers && input[0][i] == 'J' ==> hand.labels[i].strength == 1)
  {
    LabelStrengths();
    var input := SplitWhitespace(line);
    if |input| == 2 {
      CollectAll(HandLabels(input[0], withJokers));
    }
  }

  /** The hand of each line. */
  function LineHands(lines: seq<string>, withJokers: bool): (opts: seq<Option<Hand>>)
    ensures |opts| == |lines| && forall k :: 0 <= k < |lines| ==> opts[k] == ParseHand(lines[k], withJokers)
  {
    seq(|lines|, k requires 0 <= k < |lines| => ParseHand(lines[k], withJokers))
  }

  /** parse_input: one hand per line, `None` when a line does not parse. */
  function ParseHands(lines: seq<string>, withJokers: bool): Option<seq<Hand>>
  {
    Collect(LineHands(lines, withJokers))
  }

  /** The loop of parse_input: every hand is played with the given joker setting. */
  method ParseLines(lines: seq<string>, withJokers: bool) returns (hands: Option<seq<Hand>>)
    ensures hands == ParseHands(lines, withJokers)
    ensures hands.Some? ==> |hands.value| == |lines| && Uniform(hands.value, withJokers)
  {
    ghost var opts := LineHands(lines, withJokers);
    var done: seq<Hand> := [];
    for i := 0 to |lines|
      invariant Collect(opts[..i]) == Some(done)
      invariant |done| == i && Uniform(done, withJokers)
    {
      var hand := ParseHand(lines[i], withJokers);
      if hand.None? {
        CollectFailFromPrefix(opts, i + 1);
        return None;
      }
      CollectStep(opts, i, done);
      done := done + [hand.value];
    }
    assert opts[..|lines|] == opts;
    return Some(done);
  }

  // ---- Winnings ----

  /** The sum of each hand's bid times its rank (its index plus one). */
  function Winnings(hands: seq<Hand>): int
  {
    if hands == [] then 0 else Winnings(hands[..|hands| - 1]) + hands[|hands| - 1].bid * |hands|
  }

  /** The sum of the bids. */
  function Bids(hands: seq<Hand>): int
  {
    if hands == [] then 0 else Bids(hands[..|hands| - 1]) + hands[|hands| - 1].bid
  }

  /** Hands ranked after `a` have their ranks raised by `|a|`. */
  lemma {:induction false} WinningsAppend(a: seq<Hand>, b: seq<Hand>)
    ensures Winnings(a + b) == Winnings(a) + Winnings(b) + |a| * Bids(b)
  {
    if b == [] {
      assert a + b == a;
    } else {
      var init := b[..|b| - 1];
      var last := b[|b| - 1];
      WinningsAppend(a, init);
      assert (a + b)[..|a + b| - 1] == a + init;
      assert last.bid * (|a| + |b|) == last.bid * |b| + |a| * last.bid;
    }
  }

  /** calculate_total_winnings: adds each bid times its rank. */
  method CalculateTotalWinnings(hands: seq<Hand>) returns (totalWinnings: int)
    ensures totalWinnings == Winnings(hands)
  {
    totalWinnings := 0;
    for rank := 0 to |hands|
      invariant totalWinnings == Winnings(hands[..rank])
    {
      assert hands[..rank + 1][..rank] == hands[..rank];
      totalWinnings := totalWinnings + hands[rank].bid * (rank + 1);
    }
    assert hands[..|hands|] == hands;
  }

  /**
   * puzzle_1 (`withJokers` false) and puzzle_2 (true): parses the hands,
   * sorts them and adds up the winnings; `None` where parsing panics.
   */
  method Puzzle(content: string, withJokers: bool) returns (totalWinnings: Option<int>)
    ensures ParseHands(Lines(content), withJokers).None? ==> totalWinnings.None?
    ensures ParseHands(Lines(content), withJokers).Some? ==>
      var hands := ParseHands(Lines(content), withJokers).value;
      RankedBy(SortHands(hands), CompareHands) && totalWinnings == Some(Winnings(SortHands(hands)))
  {
    var hands := ParseLines(Lines(content), withJokers);
    if hands.None? {
      return None;
    }
    SortHandsRanked(hands.value, withJokers);
    var total := CalculateTotalWinnings(SortHands(hands.value));
    return Some(total);
  }
}

