/** The catalog record shared by the bot and the scripts, and the optional-value
    wrapper used for Python's `None`. */
module Records {

  datatype Option<+T> = None | Some(value: T)

  /** One chart entry of `output.json`, as `convert_data.py` writes it. Every
      entry it writes carries all eleven fields, so a field read with
      `song.get(key, default)` is simply the field here. `level` is the chart's
      internal level, a decimal such as 13.7. */
  datatype Song = Song(
    songId: string,
    category: string,
    title: string,
    artist: string,
    version: string,
    kind: string,
    difficulty: string,
    level: real,
    image: string,
    romaji: string,
    english: string)

  /** The ids of a record list, in order. */
  function Ids(songs: seq<Song>): (ids: seq<string>)
    ensures |ids| == |songs|
    ensures forall k | 0 <= k < |songs| :: ids[k] == songs[k].songId
  {
    if songs == [] then [] else [songs[0].songId] + Ids(songs[1..])
  }

  /** An id missing from the id list is carried by no record. */
  lemma IdsAbsent(p: seq<Song>, id: string)
    requires id !in Ids(p)
    ensures forall j | 0 <= j < |p| :: p[j].songId != id
  {
    forall j | 0 <= j < |p| ensures p[j].songId != id {
      assert Ids(p)[j] == p[j].songId;
    }
  }

  /** The index of the first entry equal to `x` (Python's `index`, or
      `len(xs)` when there is none). */
  function IndexOf<T(==)>(xs: seq<T>, x: T): (i: nat)
    ensures i <= |xs|
    ensures i < |xs| ==> xs[i] == x
    ensures forall j | 0 <= j < i :: xs[j] != x
  {
    if xs == [] then 0 else if xs[0] == x then 0 else 1 + IndexOf(xs[1..], x)
  }

  /** An entry that occurs is found. */
  lemma IndexOfPresent<T>(xs: seq<T>, x: T)
    requires x in xs
    ensures IndexOf(xs, x) < |xs|
  {
    var k :| 0 <= k < |xs| && xs[k] == x;
    assert IndexOf(xs, x) <= k;
  }

  /** An entry that does not occur is not found. */
  lemma IndexOfAbsent<T>(xs: seq<T>, x: T)
    requires x !in xs
    ensures IndexOf(xs, x) == |xs|
  {
  }

  /** No two entries of `xs` are equal. */
  predicate NoDuplicates<T(==)>(xs: seq<T>)
  {
    forall i, j | 0 <= i < j < |xs| :: xs[i] != xs[j]
  }

  /** `sub` is obtained from `xs` by deleting entries, keeping the order. */
  ghost predicate IsSubsequence<T>(sub: seq<T>, xs: seq<T>)
  {
    exists idx: seq<int> ::
      |idx| == |sub|
      && (forall k | 0 <= k < |idx| :: 0 <= idx[k] < |xs| && sub[k] == xs[idx[k]])
      && (forall k, l | 0 <= k < l < |idx| :: idx[k] < idx[l])
  }

  /** Keeping an element or not at the end of both sequences preserves the
      subsequence relation. */
  lemma SubsequenceExtend<T>(sub: seq<T>, xs: seq<T>, x: T, keep: bool)
    requires IsSubsequence(sub, xs)
    ensures IsSubsequence(if keep then sub + [x] else sub, xs + [x])
  {
    var idx: seq<int> :| |idx| == |sub|
      && (forall k | 0 <= k < |idx| :: 0 <= idx[k] < |xs| && sub[k] == xs[idx[k]])
      && (forall k, l | 0 <= k < l < |idx| :: idx[k] < idx[l]);
    if keep {
      var idx' := idx + [|xs|];
      assert forall k | 0 <= k < |idx'| :: 0 <= idx'[k] < |xs + [x]| && (sub + [x])[k] == (xs + [x])[idx'[k]];
      assert forall k, l | 0 <= k < l < |idx'| :: idx'[k] < idx'[l];
    } else {
      assert forall k | 0 <= k < |idx| :: 0 <= idx[k] < |xs + [x]| && sub[k] == (xs + [x])[idx[k]];
    }
  }

  lemma SubsequenceSame<T>(sub: seq<T>, xs: seq<T>, sub': seq<T>, xs': seq<T>)
    requires IsSubsequence(sub, xs) && sub == sub' && xs == xs'
    ensures IsSubsequence(sub', xs')
  {
  }

  lemma SubsequenceEmpty<T>(xs: seq<T>)
    ensures IsSubsequence([], xs)
  {
    var idx: seq<int> := [];
    assert |idx| == 0;
  }

  /** The order-preserving selection of the entries satisfying `p` (a Python
      list comprehension `[x for x in xs if p(x)]`). */
  function Filter<T>(xs: seq<T>, p: T -> bool): (r: seq<T>)
    ensures |r| <= |xs|
  {
    if xs == [] then [] else (if p(xs[0]) then [xs[0]] else []) + Filter(xs[1..], p)
  }

  /** The filtered list holds exactly the entries satisfying `p`. */
  lemma {:induction false} FilterMembers<T>(xs: seq<T>, p: T -> bool)
    ensures forall k | 0 <= k < |Filter(xs, p)| :: Filter(xs, p)[k] in xs && p(Filter(xs, p)[k])
    ensures forall k | 0 <= k < |xs| && p(xs[k]) :: xs[k] in Filter(xs, p)
    decreases |xs|
  {
    if xs != [] {
      FilterMembers(xs[1..], p);
      var r := Filter(xs, p);
      var rest := Filter(xs[1..], p);
      assert r == (if p(xs[0]) then [xs[0]] else []) + rest;
      forall k | 0 <= k < |r| ensures r[k] in xs && p(r[k]) {
        if !(p(xs[0]) && k == 0) {
          var k' := if p(xs[0]) then k - 1 else k;
          assert r[k] == rest[k'];
          assert rest[k'] in xs[1..];
        }
      }
      forall k | 0 <= k < |xs| && p(xs[k]) ensures xs[k] in r {
        if k > 0 { assert xs[k] == xs[1..][k - 1]; }
      }
    }
  }

  /** Every entry of the filtered list is an entry of `xs` satisfying `p`. */
  lemma FilterSound<T>(xs: seq<T>, p: T -> bool)
    ensures forall k | 0 <= k < |Filter(xs, p)| :: Filter(xs, p)[k] in xs && p(Filter(xs, p)[k])
  {
    FilterMembers(xs, p);
  }

  /** Every entry of `xs` satisfying `p` is in the filtered list. */
  lemma FilterComplete<T>(xs: seq<T>, p: T -> bool)
    ensures forall k | 0 <= k < |xs| && p(xs[k]) :: xs[k] in Filter(xs, p)
  {
    FilterMembers(xs, p);
  }

  lemma {:induction false} FilterSnoc<T>(xs: seq<T>, x: T, p: T -> bool)
    ensures Filter(xs + [x], p) == Filter(xs, p) + (if p(x) then [x] else [])
    decreases |xs|
  {
    if xs == [] {
      assert [x][1..] == [];
    } else {
      assert (xs + [x])[1..] == xs[1..] + [x];
      FilterSnoc(xs[1..], x, p);
    }
  }

  /** Taking one more entry of `xs` extends the filtered prefix by that entry
      when it satisfies `p`. */
  lemma FilterPrefixStep<T>(xs: seq<T>, i: int, p: T -> bool)
    requires 0 <= i < |xs|
    ensures Filter(xs[..i + 1], p) == Filter(xs[..i], p) + (if p(xs[i]) then [xs[i]] else [])
  {
    assert xs[..i + 1] == xs[..i] + [xs[i]];
    FilterSnoc(xs[..i], xs[i], p);
  }

  lemma {:induction false} FilterIsSubsequence<T>(xs: seq<T>, p: T -> bool)
    ensures IsSubsequence(Filter(xs, p), xs)
    decreases |xs|
  {
    if xs == [] {
      SubsequenceEmpty(xs);
    } else {
      var init, last := xs[..|xs| - 1], xs[|xs| - 1];
      assert init + [last] == xs;
      FilterIsSubsequence(init, p);
      FilterSnoc(init, last, p);
      var r := Filter(init, p);
      var r' := if p(last) then r + [last] else r;
      assert Filter(xs, p) == r';
      SubsequenceExtend(r, init, last, p(last));
      SubsequenceSame(r', init + [last], Filter(xs, p), xs);
    }
  }

  /** Two equal entries at different positions count twice. */
  lemma RepeatCount<T>(ys: seq<T>, i: int, j: int)
    requires 0 <= i < j < |ys| && ys[i] == ys[j]
    ensures multiset(ys)[ys[i]] >= 2
  {
    assert ys == ys[..j] + [ys[j]] + ys[j + 1..];
    assert ys[..j][i] == ys[i];
    assert multiset(ys[..j])[ys[i]] >= 1;
  }

  /** An entry counted twice occurs at two different positions. */
  lemma {:induction false} CountRepeat<T>(xs: seq<T>, x: T)
    requires multiset(xs)[x] >= 2
    ensures exists p, q :: 0 <= p < q < |xs| && xs[p] == x && xs[q] == x
    decreases |xs|
  {
    assert xs == [xs[0]] + xs[1..];
    if xs[0] == x {
      assert multiset(xs[1..])[x] >= 1;
      assert x in xs[1..];
      var q :| 0 <= q < |xs[1..]| && xs[1..][q] == x;
      assert xs[0] == x && xs[q + 1] == x;
    } else {
      CountRepeat(xs[1..], x);
      var p, q :| 0 <= p < q < |xs[1..]| && xs[1..][p] == x && xs[1..][q] == x;
      assert xs[p + 1] == x && xs[q + 1] == x;
    }
  }

  /** A reordering of a list without repeats has no repeats. */
  lemma PermutationNoDuplicates<T>(xs: seq<T>, ys: seq<T>)
    requires NoDuplicates(xs) && multiset(xs) == multiset(ys)
    ensures NoDuplicates(ys)
  {
    forall i, j | 0 <= i < j < |ys| ensures ys[i] != ys[j] {
      if ys[i] == ys[j] {
        RepeatCount(ys, i, j);
        CountRepeat(xs, ys[i]);
      }
    }
  }

  /** Deleting entries keeps a list free of repeats. */
  lemma SubsequenceNoDuplicates<T>(sub: seq<T>, xs: seq<T>)
    requires IsSubsequence(sub, xs) && NoDuplicates(xs)
    ensures NoDuplicates(sub)
  {
    var idx: seq<int> :| |idx| == |sub|
      && (forall k | 0 <= k < |idx| :: 0 <= idx[k] < |xs| && sub[k] == xs[idx[k]])
      && (forall k, l | 0 <= k < l < |idx| :: idx[k] < idx[l]);
    forall i, j | 0 <= i < j < |sub| ensures sub[i] != sub[j] {
      assert idx[i] < idx[j];
      assert xs[idx[i]] != xs[idx[j]];
    }
  }
}
