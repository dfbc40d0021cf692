/**
 * Substring search over file names: `String.prototype.indexOf`, the
 * `_.select` filter, the query filter of `edit`, and the three pieces a
 * candidate is split into when several files match.
 */
module Search {

  /** `q` occurs in `s` starting at position `i`. */
  predicate OccursAt(s: string, q: string, i: int) {
    0 <= i && i + |q| <= |s| && s[i..i + |q|] == q
  }

  ghost predicate Contains(s: string, q: string) {
    exists i :: OccursAt(s, q, i)
  }

  /** `s.indexOf(q, from)`: the first occurrence at or after `from`, or -1. */
  function IndexFrom(s: string, q: string, from: nat): (r: int)
    requires from <= |s|
    decreases |s| - from
    ensures r == -1 || (from <= r && OccursAt(s, q, r))
    ensures r == -1 ==> forall i :: from <= i ==> !OccursAt(s, q, i)
    ensures r != -1 ==> forall i :: from <= i < r ==> !OccursAt(s, q, i)
  {
    if from + |q| > |s| then -1
    else if s[from..from + |q|] == q then from
    else IndexFrom(s, q, from + 1)
  }

  /** `s.indexOf(q)`: -1 exactly when `q` does not occur, else the first occurrence. */
  function IndexOf(s: string, q: string): (r: int)
    ensures r == -1 <==> !Contains(s, q)
    ensures r != -1 ==> OccursAt(s, q, r) && forall i :: 0 <= i < r ==> !OccursAt(s, q, i)
  {
    IndexFrom(s, q, 0)
  }

  /** lodash's `_.select`: the elements `keep` accepts, in their order. */
  function Select(xs: seq<string>, keep: string -> bool): (r: seq<string>)
    ensures |r| <= |xs|
    ensures forall x :: x in r <==> x in xs && keep(x)
  {
    if xs == [] then []
    else (if keep(xs[0]) then [xs[0]] else []) + Select(xs[1..], keep)
  }

  /** Selecting from a concatenation selects from each part, in order. */
  lemma {:induction false} SelectAppend(a: seq<string>, b: seq<string>, keep: string -> bool)
    ensures Select(a + b, keep) == Select(a, keep) + Select(b, keep)
  {
    if a == [] {
      assert a + b == b;
    } else {
      assert (a + b)[1..] == a[1..] + b;
      SelectAppend(a[1..], b, keep);
    }
  }

  /** Nothing is selected when no element is accepted. */
  lemma {:induction false} SelectNone(xs: seq<string>, keep: string -> bool)
    requires forall i :: 0 <= i < |xs| ==> !keep(xs[i])
    ensures Select(xs, keep) == []
  {
    if xs != [] {
      SelectNone(xs[1..], keep);
    }
  }

  /** A sequence with exactly one accepted element selects just that one. */
  lemma {:induction false} SelectSingle(xs: seq<string>, keep: string -> bool, k: int)
    requires 0 <= k < |xs| && keep(xs[k])
    requires forall i :: 0 <= i < |xs| && i != k ==> !keep(xs[i])
    ensures Select(xs, keep) == [xs[k]]
  {
    var tail := xs[1..];
    assert Select(xs, keep) == (if keep(xs[0]) then [xs[0]] else []) + Select(tail, keep);
    if k == 0 {
      forall i | 0 <= i < |tail| ensures !keep(tail[i]) {
        assert tail[i] == xs[i + 1];
      }
      SelectNone(tail, keep);
    } else {
      forall i | 0 <= i < |tail| && i != k - 1 ensures !keep(tail[i]) {
        assert tail[i] == xs[i + 1];
      }
      SelectSingle(tail, keep, k - 1);
    }
  }

  /** The callback of `edit`'s filter: `fileName.indexOf(query) !== -1`. */
  function MatchesQuery(query: string): (r: string -> bool)
    ensures forall f :: r(f) <==> Contains(f, query)
  {
    fileName => IndexOf(fileName, query) != -1
  }

  /** The files of `edit`'s search, those that contain the query. */
  function Matching(files: seq<string>, query: string): (r: seq<string>)
    ensures |r| <= |files|
    ensures forall f :: f in r <==> f in files && Contains(f, query)
  {
    Select(files, MatchesQuery(query))
  }

  /**
   * The matches keep the order of `files`: the search splits over
   * concatenation and keeps a single file exactly when it contains the query.
   */
  lemma MatchingInOrder(a: seq<string>, b: seq<string>, f: string, query: string)
    ensures Matching(a + b, query) == Matching(a, query) + Matching(b, query)
    ensures Matching([f], query) == if Contains(f, query) then [f] else []
    ensures Matching([], query) == []
  {
    SelectAppend(a, b, MatchesQuery(query));
    assert [f][1..] == [];
  }

  /** When only the file at `k` contains the query, the search finds only it. */
  lemma MatchingSingle(files: seq<string>, query: string, k: int)
    requires 0 <= k < |files| && Contains(files[k], query)
    requires forall i :: 0 <= i < |files| && i != k ==> !Contains(files[i], query)
    ensures Matching(files, query) == [files[k]]
  {
    SelectSingle(files, MatchesQuery(query), k);
  }

  /** A candidate split around the first occurrence of the query. */
  datatype Highlight = Highlight(before: string, hit: string, after: string)

  /** `p.slice(0, index)`, `p.slice(index, index + length)`, `p.slice(index + length)`. */
  function HighlightOf(p: string, query: string): (h: Highlight)
    requires Contains(p, query)
    ensures h.before + h.hit + h.after == p
    ensures h.hit == query
    ensures OccursAt(p, query, |h.before|)
    ensures forall i :: 0 <= i < |h.before| ==> !OccursAt(p, query, i)
  {
    var index := IndexOf(p, query);
    Highlight(p[..index], p[index..index + |query|], p[index + |query|..])
  }
}
