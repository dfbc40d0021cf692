/**
 * The `Posts` object: the posts directory and its listing, newest first,
 * with the `edit` and `list` commands that run over it.
 */
module Blog {
  import opened Slugs
  import opened Search
  import opened Resolution
  import opened Listing

  /** `Array.prototype.reverse`. */
  function Reversed(s: seq<string>): (r: seq<string>)
    ensures |r| == |s|
    ensures forall i :: 0 <= i < |s| ==> r[i] == s[|s| - 1 - i]
  {
    if s == [] then [] else [s[|s| - 1]] + Reversed(s[..|s| - 1])
  }

  /** The candidate list `edit` prints when several files match: one highlighted entry per match. */
  method HighlightReport(matches: seq<string>, query: string) returns (report: seq<Highlight>)
    requires forall i :: 0 <= i < |matches| ==> Contains(matches[i], query)
    ensures report == HighlightsOf(matches, query)
  {
    report := [];
    var i := 0;
    while i < |matches|
      invariant 0 <= i <= |matches|
      invariant |report| == i
      invariant forall k :: 0 <= k < i ==> report[k] == HighlightOf(matches[k], query)
    {
      report := report + [HighlightOf(matches[i], query)];
      i := i + 1;
    }
    assert |HighlightsOf(matches, query)| == |report|;
  }

  class Posts {
    const path: string
    /** The directory listing, reversed so that the newest post comes first. */
    const files: seq<string>

    constructor (postsPath: string, listing: seq<string>)
      ensures path == postsPath
      ensures files == Reversed(listing)
    {
      path := postsPath;
      files := Reversed(listing);
    }

    /** `edit`: checks the arguments, resolves them, and reports or opens the result. */
    method Edit(args: seq<string>) returns (r: EditOutcome)
      ensures r == EditOf(files, args)
    {
      if args == [] || args[0] == "" {
        return NoTitle;
      }
      var post := Resolve(files, args);
      match post {
        case NotFound =>
          r := NoMatch;
        case Found(p) =>
          r := Editing(p);
        case Ambiguous(ms) =>
          var report := HighlightReport(ms, Slug(args));
          r := MultipleMatches(report);
      }
    }

    /** `list`: fails on an empty selection, else emits one line per entry of `files`. */
    method List(args: Option<seq<string>>) returns (r: ListOutcome)
      ensures r == ListOf(files, args)
    {
      if ListSelection(files, args) == [] {
        return NothingListed;
      }
      var lines := [];
      var i := 0;
      while i < |files|
        invariant 0 <= i <= |files|
        invariant |lines| == i
        invariant forall k :: 0 <= k < i ==> lines[k] == LineOf(k, files[k])
      {
        lines := lines + [LineOf(i, files[i])];
        i := i + 1;
      }
      r := Lines(lines);
    }
  }

  /**
   * `list` shows the listing newest first: line `k + 1` describes the
   * entry `k` places from the end of the directory listing.
   */
  lemma ListNewestFirst(listing: seq<string>)
    ensures ListOf(Reversed(listing), None) == NothingListed <==> listing == []
    ensures ListOf(Reversed(listing), None).Lines? ==>
      var lines := ListOf(Reversed(listing), None).lines;
      && |lines| == |listing|
      && forall k :: 0 <= k < |listing| ==> lines[k] == LineOf(k, listing[|listing| - 1 - k])
  {
  }

  /** `edit N` opens the file that `list` numbers `N`. */
  lemma EditIndexIsListNumber(files: seq<string>, args: seq<string>)
    requires IsIndexQuery(args)
    requires 1 <= DigitsValue(args[0]) <= |files| && files[DigitsValue(args[0]) - 1] != ""
    ensures var n := DigitsValue(args[0]);
      && EditOf(files, args) == Editing(files[n - 1])
      && ListOf(files, None).Lines?
      && ListOf(files, None).lines[n - 1].number == n
      && ListOf(files, None).lines[n - 1] == LineOf(n - 1, files[n - 1])
  {
    EditByIndex(files, args);
    var n := DigitsValue(args[0]);
    assert files != [];
    assert ListOf(files, None) == Lines(LinesOf(files));
  }
}
