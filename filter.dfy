/** The filter policy: a package identifier is excluded when the filter
    substring is non-empty and occurs in it (main.py:95, main.py:114). */
module FilterPolicy {

  /** Python's `sub in s` for strings: some suffix of `s` starts with `sub`. */
  predicate Contains(s: string, sub: string)
  {
    sub <= s || (s != [] && Contains(s[1..], sub))
  }

  /** `filter_sub and filter_sub in package`. */
  predicate Excluded(filter: string, package: string)
  {
    filter != "" && Contains(package, filter)
  }

  /** `[d for d in deps if not (filter_sub and filter_sub in d)]`. */
  function FilterDeps(deps: seq<string>, filter: string): (r: seq<string>)
    ensures |r| <= |deps|
    ensures forall d :: d in r <==> d in deps && !Excluded(filter, d)
  {
    if deps == [] then []
    else
      var rest := FilterDeps(deps[1..], filter);
      assert deps == [deps[0]] + deps[1..];
      if Excluded(filter, deps[0]) then rest else [deps[0]] + rest
  }

  /** `sub` occurs in `s` starting at position `i`. */
  predicate OccursAt(s: string, sub: string, i: nat)
  {
    i + |sub| <= |s| && s[i..i + |sub|] == sub
  }

  lemma TailSlice(s: string, a: nat, b: nat)
    requires a <= b < |s|
    ensures s[1..][a..b] == s[a + 1..b + 1]
  {
    assert |s[1..][a..b]| == |s[a + 1..b + 1]|;
    forall k | 0 <= k < b - a
      ensures s[1..][a..b][k] == s[a + 1..b + 1][k]
    {
    }
  }

  /** Contains means: `sub` occurs at some position of `s`. */
  lemma {:induction false} ContainsAt(s: string, sub: string)
    ensures Contains(s, sub) <==> exists i: nat :: OccursAt(s, sub, i)
  {
    if Contains(s, sub) {
      if sub <= s {
        assert OccursAt(s, sub, 0);
      } else {
        ContainsAt(s[1..], sub);
        var i: nat :| OccursAt(s[1..], sub, i);
        TailSlice(s, i, i + |sub|);
        assert OccursAt(s, sub, i + 1);
      }
    }
    if exists i: nat :: OccursAt(s, sub, i) {
      var i: nat :| OccursAt(s, sub, i);
      if i > 0 {
        TailSlice(s, i - 1, i - 1 + |sub|);
        assert OccursAt(s[1..], sub, i - 1);
        ContainsAt(s[1..], sub);
      }
    }
  }

  /** The empty filter excludes nothing and keeps every dependency. */
  lemma {:induction false} EmptyFilterKeepsAll(deps: seq<string>)
    ensures FilterDeps(deps, "") == deps
  {
    if deps != [] {
      EmptyFilterKeepsAll(deps[1..]);
    }
  }

  /** Filtering a concatenation filters each part and keeps their order. */
  lemma {:induction false} FilterDepsAppend(a: seq<string>, b: seq<string>, filter: string)
    ensures FilterDeps(a + b, filter) == FilterDeps(a, filter) + FilterDeps(b, filter)
  {
    if a != [] {
      assert (a + b)[0] == a[0] && (a + b)[1..] == a[1..] + b;
      FilterDepsAppend(a[1..], b, filter);
    } else {
      assert a + b == b;
    }
  }

  /** Filtering an already filtered list changes nothing. */
  lemma {:induction false} FilterDepsIdempotent(deps: seq<string>, filter: string)
    ensures FilterDeps(FilterDeps(deps, filter), filter) == FilterDeps(deps, filter)
  {
    if deps != [] {
      FilterDepsIdempotent(deps[1..], filter);
    }
  }

}
