/** The worksheet order `EditExcelBuilder.Build` leaves behind, stated on worksheet names.
    `MoveToStart(name)` puts the named worksheet first; the builder calls it for the names of
    the sheet index from the last to the first, so the first mention of a name is the one that
    wins. Worksheet names in a workbook are unique, so a name stands for its worksheet. */
module SheetOrder {
  import opened Common

  /** The names with every occurrence of `x` taken out. */
  function Remove(s: seq<string>, x: string): (r: seq<string>)
    ensures forall y :: y in r <==> y in s && y != x
    ensures |r| <= |s|
  {
    if s == [] then [] else (if s[0] == x then [] else [s[0]]) + Remove(s[1..], x)
  }

  /** `ExcelWorksheets.MoveToStart(x)`: the worksheet called `x` first, the others after it in
      their order; nothing changes when there is no such worksheet. */
  function MoveToStart(s: seq<string>, x: string): seq<string> {
    if x in s then [x] + Remove(s, x) else s
  }

  /** The effect of the reverse loop over the sheet index: `idx[|idx| - 1]` is moved first and
      `idx[0]` last. */
  function Reorder(s: seq<string>, idx: seq<string>): seq<string>
    decreases |idx|
  {
    if idx == [] then s else MoveToStart(Reorder(s, idx[1..]), idx[0])
  }

  // ----- reference definition -----

  /** The names of `s` the index mentions, each once, in the order of their first mention. */
  function Listed(idx: seq<string>, s: seq<string>): (r: seq<string>)
    ensures forall y :: y in r ==> y in s && y in idx
    decreases |idx|
  {
    if idx == [] then []
    else if idx[0] in s then [idx[0]] + Listed(idx[1..], Remove(s, idx[0]))
    else Listed(idx[1..], s)
  }

  /** The names of `s` the index does not mention, in their order. */
  function Unlisted(s: seq<string>, idx: seq<string>): (r: seq<string>)
    ensures forall y :: y in r ==> y in s && y !in idx
  {
    if s == [] then [] else (if s[0] in idx then [] else [s[0]]) + Unlisted(s[1..], idx)
  }

  /** Index of the first mention of `y`. */
  function Position(idx: seq<string>, y: string): (r: nat)
    requires y in idx
    ensures r < |idx| && idx[r] == y && y !in idx[..r]
  {
    if idx[0] == y then 0 else 1 + Position(idx[1..], y)
  }

  // ----- facts about Remove -----

  lemma {:induction false} RemoveAbsent(s: seq<string>, x: string)
    requires x !in s
    ensures Remove(s, x) == s
  {
    if s != [] {
      RemoveAbsent(s[1..], x);
    }
  }

  lemma {:induction false} RemoveConcat(a: seq<string>, b: seq<string>, x: string)
    ensures Remove(a + b, x) == Remove(a, x) + Remove(b, x)
  {
    if a != [] {
      assert (a + b)[1..] == a[1..] + b;
      RemoveConcat(a[1..], b, x);
    } else {
      assert a + b == b;
    }
  }

  lemma {:induction false} RemoveCommute(s: seq<string>, x: string, y: string)
    ensures Remove(Remove(s, x), y) == Remove(Remove(s, y), x)
  {
    if s != [] {
      RemoveCommute(s[1..], x, y);
      var head := if s[0] == x then [] else [s[0]];
      RemoveConcat(head, Remove(s[1..], x), y);
      var head' := if s[0] == y then [] else [s[0]];
      RemoveConcat(head', Remove(s[1..], y), x);
    }
  }

  /** In a sequence without repetitions, removing the name at `i` is cutting out position `i`. */
  lemma {:induction false} RemoveDistinct(s: seq<string>, i: nat)
    requires Distinct(s) && i < |s|
    ensures Remove(s, s[i]) == s[..i] + s[i + 1..]
  {
    if i == 0 {
      assert s[0] !in s[1..];
      RemoveAbsent(s[1..], s[0]);
    } else {
      assert Distinct(s[1..]) by {
        forall a, b | 0 <= a < b < |s[1..]| ensures s[1..][a] != s[1..][b] {
          assert s[1..][a] == s[a + 1] && s[1..][b] == s[b + 1];
        }
      }
      RemoveDistinct(s[1..], i - 1);
      assert s[1..][i - 1] == s[i];
      assert s[..i] == [s[0]] + s[1..][..i - 1];
      assert s[i + 1..] == s[1..][i..];
    }
  }

  lemma {:induction false} RemoveKeepsDistinct(s: seq<string>, x: string)
    requires Distinct(s)
    ensures Distinct(Remove(s, x))
  {
    if s != [] {
      assert Distinct(s[1..]) by {
        forall a, b | 0 <= a < b < |s[1..]| ensures s[1..][a] != s[1..][b] {
          assert s[1..][a] == s[a + 1] && s[1..][b] == s[b + 1];
        }
      }
      RemoveKeepsDistinct(s[1..], x);
      assert s[0] !in s[1..];
      var rest := Remove(s[1..], x);
      assert s[0] !in rest;
      if s[0] != x {
        forall a, b | 0 <= a < b < |[s[0]] + rest| ensures ([s[0]] + rest)[a] != ([s[0]] + rest)[b] {
          if a > 0 {
            assert ([s[0]] + rest)[a] == rest[a - 1];
          }
          assert ([s[0]] + rest)[b] == rest[b - 1];
        }
      } else {
        assert [] + rest == rest;
      }
    }
  }

  // ----- MoveToStart and Reorder keep the names -----

  lemma DistinctCons(x: string, r: seq<string>)
    requires Distinct(r) && x !in r
    ensures Distinct([x] + r)
  {
    var m := [x] + r;
    forall a, b | 0 <= a < b < |m| ensures m[a] != m[b] {
      assert m[b] == r[b - 1];
      if a > 0 {
        assert m[a] == r[a - 1];
      }
    }
  }

  /** Cutting position `i` out and putting its element in front keeps the multiset. */
  lemma MultisetCut(s: seq<string>, i: nat)
    requires i < |s|
    ensures multiset([s[i]] + (s[..i] + s[i + 1..])) == multiset(s)
  {
    assert s == s[..i] + [s[i]] + s[i + 1..];
  }

  /** `MoveToStart` keeps the names and their uniqueness. */
  lemma MoveToStartPermutation(s: seq<string>, x: string)
    requires Distinct(s)
    ensures Distinct(MoveToStart(s, x))
    ensures multiset(MoveToStart(s, x)) == multiset(s)
  {
    if x in s {
      var i :| 0 <= i < |s| && s[i] == x;
      var rest := Remove(s, x);
      assert MoveToStart(s, x) == [x] + rest;
      assert Distinct([x] + rest) by {
        RemoveKeepsDistinct(s, x);
        DistinctCons(x, rest);
      }
      assert multiset([x] + rest) == multiset(s) by {
        RemoveDistinct(s, i);
        MultisetCut(s, i);
      }
    }
  }

  /** The reordering is a permutation of the worksheet names and keeps them unique. */
  lemma {:induction false} ReorderPermutation(s: seq<string>, idx: seq<string>)
    requires Distinct(s)
    ensures Distinct(Reorder(s, idx))
    ensures multiset(Reorder(s, idx)) == multiset(s)
    decreases |idx|
  {
    if idx != [] {
      ReorderPermutation(s, idx[1..]);
      MoveToStartPermutation(Reorder(s, idx[1..]), idx[0]);
    }
  }

  // ----- Reorder against the reference -----

  lemma {:induction false} ListedRemove(t: seq<string>, s: seq<string>, x: string)
    ensures Listed(t, Remove(s, x)) == Remove(Listed(t, s), x)
    decreases |t|
  {
    if t != [] {
      var y, u := t[0], t[1..];
      if y == x {
        if x in s {
          ListedRemove(u, Remove(s, x), x);
          RemoveAbsent(Remove(s, x), x);
          RemoveConcat([x], Listed(u, Remove(s, x)), x);
        } else {
          RemoveAbsent(s, x);
          ListedRemove(u, s, x);
        }
      } else if y in s {
        ListedRemove(u, Remove(s, y), x);
        RemoveCommute(s, x, y);
        RemoveConcat([y], Listed(u, Remove(s, y)), x);
      } else {
        ListedRemove(u, s, x);
      }
    }
  }

  lemma {:induction false} UnlistedCons(s: seq<string>, x: string, t: seq<string>)
    ensures Unlisted(s, [x] + t) == Remove(Unlisted(s, t), x)
  {
    if s != [] {
      UnlistedCons(s[1..], x, t);
      var head := if s[0] in t then [] else [s[0]];
      RemoveConcat(head, Unlisted(s[1..], t), x);
    }
  }

  lemma PermutationMember(a: seq<string>, b: seq<string>, x: string)
    requires multiset(a) == multiset(b)
    ensures x in a <==> x in b
  {
    assert x in a <==> x in multiset(a);
    assert x in b <==> x in multiset(b);
  }

  /** The index's first name, when the workbook has it, leads the listed part. */
  lemma ListedHead(x: string, t: seq<string>, s: seq<string>)
    requires x in s
    ensures Listed([x] + t, s) == [x] + Listed(t, Remove(s, x))
  {
    assert ([x] + t)[0] == x && ([x] + t)[1..] == t;
  }

  /** One step of the reverse loop, for a name the workbook has. */
  lemma ReorderStepPresent(s: seq<string>, x: string, t: seq<string>, r: seq<string>)
    requires x in s && x in r
    requires r == Listed(t, s) + Unlisted(s, t)
    ensures MoveToStart(r, x) == Listed([x] + t, s) + Unlisted(s, [x] + t)
  {
    var rest := Listed(t, Remove(s, x));
    var others := Unlisted(s, [x] + t);
    assert Remove(r, x) == rest + others by {
      RemoveConcat(Listed(t, s), Unlisted(s, t), x);
      ListedRemove(t, s, x);
      UnlistedCons(s, x, t);
    }
    ListedHead(x, t, s);
    MoveToStartSplit(r, x, rest, others);
  }

  lemma MoveToStartSplit(r: seq<string>, x: string, rest: seq<string>, others: seq<string>)
    requires x in r && Remove(r, x) == rest + others
    ensures MoveToStart(r, x) == ([x] + rest) + others
  {
  }

  /** One step of the reverse loop, for a name the workbook does not have. */
  lemma ReorderStepAbsent(s: seq<string>, x: string, t: seq<string>, r: seq<string>)
    requires x !in s && x !in r
    requires r == Listed(t, s) + Unlisted(s, t)
    ensures MoveToStart(r, x) == Listed([x] + t, s) + Unlisted(s, [x] + t)
  {
    assert ([x] + t)[1..] == t;
    UnlistedCons(s, x, t);
    RemoveAbsent(Unlisted(s, t), x);
  }

  /** The worksheets the index names come first, each once and in the order of its first
      mention; the others follow in the order they had. */
  lemma {:induction false} ReorderShape(s: seq<string>, idx: seq<string>)
    requires Distinct(s)
    ensures Reorder(s, idx) == Listed(idx, s) + Unlisted(s, idx)
    decreases |idx|
  {
    if idx == [] {
      UnlistedNone(s, idx);
    } else {
      var x, t := idx[0], idx[1..];
      assert idx == [x] + t;
      ReorderShape(s, t);
      ReorderPermutation(s, t);
      var r := Reorder(s, t);
      PermutationMember(r, s, x);
      if x in s {
        ReorderStepPresent(s, x, t, r);
      } else {
        ReorderStepAbsent(s, x, t, r);
      }
    }
  }

  lemma {:induction false} UnlistedNone(s: seq<string>, idx: seq<string>)
    requires idx == []
    ensures Unlisted(s, idx) == s
  {
    if s != [] {
      UnlistedNone(s[1..], idx);
    }
  }

  lemma {:induction false} ListedMembers(idx: seq<string>, s: seq<string>)
    ensures forall y :: y in Listed(idx, s) <==> y in s && y in idx
    decreases |idx|
  {
    if idx != [] {
      var x, u := idx[0], idx[1..];
      assert forall y :: y in idx <==> y == x || y in u;
      if x in s {
        ListedMembers(u, Remove(s, x));
        assert Listed(idx, s) == [x] + Listed(u, Remove(s, x));
      } else {
        ListedMembers(u, s);
      }
    }
  }

  lemma {:induction false} ListedDistinct(idx: seq<string>, s: seq<string>)
    ensures Distinct(Listed(idx, s))
    decreases |idx|
  {
    if idx != [] {
      var x, u := idx[0], idx[1..];
      if x in s {
        ListedDistinct(u, Remove(s, x));
        var tail := Listed(u, Remove(s, x));
        assert x !in tail;
        DistinctCons(x, tail);
      } else {
        ListedDistinct(u, s);
      }
    }
  }

  /** A name other than the first is first mentioned one place later than in the rest. */
  lemma PositionTail(idx: seq<string>, y: string)
    requires idx != [] && y in idx && y != idx[0]
    ensures y in idx[1..] && Position(idx, y) == 1 + Position(idx[1..], y)
  {
    assert idx == [idx[0]] + idx[1..];
  }

  lemma {:induction false} ListedOrder(idx: seq<string>, s: seq<string>)
    ensures forall p, q :: 0 <= p < q < |Listed(idx, s)| ==>
      Position(idx, Listed(idx, s)[p]) < Position(idx, Listed(idx, s)[q])
    decreases |idx|
  {
    if idx != [] {
      var x, u := idx[0], idx[1..];
      if x in s {
        ListedOrder(u, Remove(s, x));
        var tail := Listed(u, Remove(s, x));
        var l := [x] + tail;
        assert Listed(idx, s) == l;
        forall p, q | 0 <= p < q < |l|
          ensures Position(idx, l[p]) < Position(idx, l[q])
        {
          assert l[q] == tail[q - 1] && l[q] in u && l[q] != x;
          PositionTail(idx, l[q]);
          if p > 0 {
            assert l[p] == tail[p - 1] && l[p] in u && l[p] != x;
            PositionTail(idx, l[p]);
          }
        }
      } else {
        ListedOrder(u, s);
        var l := Listed(u, s);
        assert Listed(idx, s) == l;
        forall p | 0 <= p < |l|
          ensures Position(idx, l[p]) == 1 + Position(u, l[p])
        {
          assert l[p] in s && l[p] in u && l[p] != x;
          PositionTail(idx, l[p]);
        }
      }
    }
  }

  /** The listed part in its own terms: exactly the names both present and mentioned, without
      repetition, ordered by first mention. */
  lemma ListedFirstMentions(idx: seq<string>, s: seq<string>)
    ensures forall y :: y in Listed(idx, s) <==> y in s && y in idx
    ensures Distinct(Listed(idx, s))
    ensures forall p, q :: 0 <= p < q < |Listed(idx, s)| ==>
      Position(idx, Listed(idx, s)[p]) < Position(idx, Listed(idx, s)[q])
  {
    ListedMembers(idx, s);
    ListedDistinct(idx, s);
    ListedOrder(idx, s);
  }
}
