// `IndexSet.indexPaths(from:)`: the members of an index set, in ascending
// order, turned into index paths of one section.

module IndexSets {

  datatype IndexPath = IndexPath(item: nat, section: int)

  predicate StrictlyAscending(paths: seq<IndexPath>) {
    forall i, j :: 0 <= i < j < |paths| ==> paths[i].item < paths[j].item
  }

  function Items(paths: seq<IndexPath>): set<nat> {
    set i | 0 <= i < |paths| :: paths[i].item
  }

  /** `m` is the least member of `s`. */
  predicate IsLeast(m: nat, s: set<nat>) {
    m in s && forall y :: y in s ==> m <= y
  }

  /** Every non-empty set of indexes has a least member. */
  lemma {:induction false} LeastMemberExists(s: set<nat>)
    requires s != {}
    ensures exists m :: IsLeast(m, s)
    decreases |s|
  {
    var x :| x in s;
    var rest := s - {x};
    if rest == {} {
      assert s == {x};
      assert IsLeast(x, s);
    } else {
      LeastMemberExists(rest);
      var m :| IsLeast(m, rest);
      var least := if x < m then x else m;
      assert s == rest + {x};
      assert IsLeast(least, s);
    }
  }

  lemma ItemsOfAppend(paths: seq<IndexPath>, p: IndexPath)
    ensures Items(paths + [p]) == Items(paths) + {p.item}
  {
    var q := paths + [p];
    forall n | n in Items(q)
      ensures n in Items(paths) + {p.item}
    {
      var i :| 0 <= i < |q| && q[i].item == n;
      if i < |paths| {
        assert paths[i] == q[i];
      }
    }
    forall n | n in Items(paths)
      ensures n in Items(q)
    {
      var i :| 0 <= i < |paths| && paths[i].item == n;
      assert q[i] == paths[i];
    }
    assert q[|paths|] == p;
  }

  /** The loop's state: `paths` lists, in order, the members already taken, all below those remaining. */
  predicate Taken(paths: seq<IndexPath>, remaining: set<nat>, indexes: set<nat>, section: int) {
    && |paths| + |remaining| == |indexes|
    && (forall i :: 0 <= i < |paths| ==> paths[i].section == section)
    && StrictlyAscending(paths)
    && Items(paths) + remaining == indexes
    && (forall i, n :: 0 <= i < |paths| && n in remaining ==> paths[i].item < n)
  }

  /** Appending the least remaining member keeps the items ascending and below the rest. */
  lemma TakeLeastOrder(paths: seq<IndexPath>, remaining: set<nat>, section: int, m: nat)
    requires StrictlyAscending(paths)
    requires forall i, n :: 0 <= i < |paths| && n in remaining ==> paths[i].item < n
    requires IsLeast(m, remaining)
    ensures StrictlyAscending(paths + [IndexPath(m, section)])
    ensures forall i, n :: 0 <= i < |paths| + 1 && n in remaining - {m} ==> (paths + [IndexPath(m, section)])[i].item < n
  {
    var q := paths + [IndexPath(m, section)];
    forall i, j | 0 <= i < j < |q|
      ensures q[i].item < q[j].item
    {
      assert q[i] == paths[i];
      if j < |paths| {
        assert q[j] == paths[j];
      }
    }
    forall i, n | 0 <= i < |q| && n in remaining - {m}
      ensures q[i].item < n
    {
      if i < |paths| {
        assert q[i] == paths[i];
      }
    }
  }

  /** Moving a member from the remaining set to the taken items keeps their union. */
  lemma TakeLeastItems(paths: seq<IndexPath>, remaining: set<nat>, indexes: set<nat>, section: int, m: nat)
    requires Items(paths) + remaining == indexes && m in remaining
    ensures Items(paths + [IndexPath(m, section)]) + (remaining - {m}) == indexes
    ensures |remaining - {m}| == |remaining| - 1
  {
    ItemsOfAppend(paths, IndexPath(m, section));
    assert remaining == (remaining - {m}) + {m};
  }

  /** Taking the least remaining member keeps the loop's state. */
  lemma TakeLeast(paths: seq<IndexPath>, remaining: set<nat>, indexes: set<nat>, section: int, m: nat)
    requires Taken(paths, remaining, indexes, section)
    requires IsLeast(m, remaining)
    ensures Taken(paths + [IndexPath(m, section)], remaining - {m}, indexes, section)
  {
    var q := paths + [IndexPath(m, section)];
    TakeLeastItems(paths, remaining, indexes, section, m);
    TakeLeastOrder(paths, remaining, section, m);
    forall i | 0 <= i < |q|
      ensures q[i].section == section
    {
      if i < |paths| {
        assert q[i] == paths[i];
      }
    }
  }

  /**
   * `indexPaths(from:)`: one path per member, all in `section`, the items
   * being the members in ascending order without repetition; an empty set
   * gives no paths.
   */
  method IndexPathsFrom(indexes: set<nat>, section: int) returns (paths: seq<IndexPath>)
    ensures |paths| == |indexes|
    ensures forall i :: 0 <= i < |paths| ==> paths[i].section == section
    ensures StrictlyAscending(paths)
    ensures Items(paths) == indexes
  {
    paths := [];
    var remaining := indexes;
    while remaining != {}
      invariant Taken(paths, remaining, indexes, section)
      decreases |remaining|
    {
      LeastMemberExists(remaining);
      var m :| IsLeast(m, remaining);
      TakeLeast(paths, remaining, indexes, section, m);
      paths := paths + [IndexPath(m, section)];
      remaining := remaining - {m};
    }
  }
}
