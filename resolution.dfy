/**
 * How `edit` picks the post to open: a lone numeric argument is a 1-based
 * position in the listing, anything else is a substring query, and the
 * result is one file, none, or several.
 */
module Resolution {
  import opened Chars
  import opened Slugs
  import opened Search

  /**
   * `isNumeric`, narrowed to a non-empty run of ASCII decimal digits
   * (JavaScript's `!isNaN` also accepts blanks, exponents and hex forms).
   */
  predicate IsNumeric(s: string)
    ensures IsNumeric(s) ==> Slug([s]) == s
  {
    if |s| > 0 && forall i :: 0 <= i < |s| ==> IsDigit(s[i]) then
      NormalizeFixedPoints(s);
      true
    else false
  }

  /** `Number(s)` for a run of decimal digits: zero exactly when every digit is `0`. */
  function DigitsValue(s: string): (n: nat)
    requires forall i :: 0 <= i < |s| ==> IsDigit(s[i])
    ensures n == 0 <==> forall i :: 0 <= i < |s| ==> s[i] == '0'
  {
    if s == [] then 0
    else
      assert IsDigit(s[|s| - 1]);
      DigitsValue(s[..|s| - 1]) * 10 + (s[|s| - 1] as int - '0' as int)
  }

  function Pow10(k: nat): nat {
    if k == 0 then 1 else 10 * Pow10(k - 1)
  }

  /** A single digit reads as its own value. */
  lemma DigitValue(d: char)
    requires IsDigit(d)
    ensures DigitsValue([d]) == d as int - '0' as int
  {
    assert [d][..0] == [];
  }

  lemma ShiftDigit(a: int, p: int, b: int, d: int)
    ensures (a * p + b) * 10 + d == a * (10 * p) + (b * 10 + d)
  {
  }

  /** Positional notation: the digits of `t` are the low `|t|` decimal places. */
  lemma {:induction false} DigitsValueAppend(s: string, t: string)
    requires forall i :: 0 <= i < |s| ==> IsDigit(s[i])
    requires forall i :: 0 <= i < |t| ==> IsDigit(t[i])
    ensures DigitsValue(s + t) == DigitsValue(s) * Pow10(|t|) + DigitsValue(t)
  {
    if t == [] {
      assert s + t == s;
    } else {
      var u := s + t;
      var t' := t[..|t| - 1];
      assert u[..|u| - 1] == s + t';
      assert u[|u| - 1] == t[|t| - 1];
      DigitsValueAppend(s, t');
      var d := t[|t| - 1] as int - '0' as int;
      var a, p, b := DigitsValue(s), Pow10(|t'|), DigitsValue(t');
      assert DigitsValue(u) == (a * p + b) * 10 + d;
      assert DigitsValue(t) == b * 10 + d;
      assert Pow10(|t|) == 10 * p;
      ShiftDigit(a, p, b, d);
    }
  }

  /** `Number` ignores leading zeros, so `edit 01` means `edit 1`. */
  lemma {:induction false} LeadingZeroIgnored(s: string)
    requires forall i :: 0 <= i < |s| ==> IsDigit(s[i])
    ensures DigitsValue("0" + s) == DigitsValue(s)
  {
    if s == [] {
      assert "0" + s == "0";
      assert "0"[..0] == [];
    } else {
      var z := "0" + s;
      assert z[..|z| - 1] == "0" + s[..|s| - 1];
      LeadingZeroIgnored(s[..|s| - 1]);
    }
  }

  /** The single-numeric-argument case of `edit`. */
  predicate IsIndexQuery(args: seq<string>)
    ensures IsIndexQuery(args) ==> !NoTitleGiven(args)
  {
    |args| == 1 && IsNumeric(args[0])
  }

  datatype Lookup = NotFound | Ambiguous(matches: seq<string>) | Found(post: string)

  /** The lookup of `edit` after its argument check. */
  function Resolve(files: seq<string>, args: seq<string>): (r: Lookup)
    ensures r.Ambiguous? ==> 1 < |r.matches|
    ensures r.Ambiguous? ==> forall i :: 0 <= i < |r.matches| ==> Contains(r.matches[i], Slug(args))
  {
    if IsIndexQuery(args) then
      var n := DigitsValue(args[0]);
      if 1 <= n <= |files| && files[n - 1] != "" then Found(files[n - 1]) else NotFound
    else
      var post := Matching(files, Slug(args));
      if post == [] then NotFound
      else if |post| > 1 then Ambiguous(post)
      else Found(post[0])
  }

  /** What `edit` reports: a usage error, no match, the highlighted candidates, or the file it opens. */
  datatype EditOutcome = NoTitle | NoMatch | MultipleMatches(report: seq<Highlight>) | Editing(post: string)

  /** The candidate lines of `edit`'s ambiguity report, one per match, in order. */
  function HighlightsOf(matches: seq<string>, query: string): (r: seq<Highlight>)
    requires forall i :: 0 <= i < |matches| ==> Contains(matches[i], query)
    ensures |r| == |matches|
    ensures forall i :: 0 <= i < |r| ==> r[i].before + r[i].hit + r[i].after == matches[i] && r[i].hit == query
    ensures forall i :: 0 <= i < |r| ==> forall j :: 0 <= j < |r[i].before| ==> !OccursAt(matches[i], query, j)
  {
    seq(|matches|, i requires 0 <= i < |matches| => HighlightOf(matches[i], query))
  }

  /** `edit`: the argument check, then the lookup. */
  function EditOf(files: seq<string>, args: seq<string>): (r: EditOutcome)
    ensures r == NoTitle <==> NoTitleGiven(args)
    ensures r.Editing? ==> r.post in files && r.post != ""
    ensures r.MultipleMatches? ==> 1 < |r.report|
  {
    if NoTitleGiven(args) then NoTitle
    else match Resolve(files, args)
      case NotFound => NoMatch
      case Found(p) => Editing(p)
      case Ambiguous(ms) => MultipleMatches(HighlightsOf(ms, Slug(args)))
  }

  /**
   * A lone number `n` opens entry `n - 1` when it exists and is not empty,
   * and finds nothing otherwise; it never reports several files.
   */
  lemma EditByIndex(files: seq<string>, args: seq<string>)
    requires IsIndexQuery(args)
    ensures var n := DigitsValue(args[0]);
      && (EditOf(files, args).Editing? <==> 1 <= n <= |files| && files[n - 1] != "")
      && (EditOf(files, args).Editing? ==> EditOf(files, args).post == files[n - 1])
      && (!EditOf(files, args).Editing? ==> EditOf(files, args) == NoMatch)
  {
  }

  /**
   * A text query selects the files that contain it: none gives no match,
   * one opens that file, more than one reports every match, each split
   * around the first occurrence of the query.
   */
  lemma EditByQuery(files: seq<string>, args: seq<string>)
    requires !NoTitleGiven(args) && !IsIndexQuery(args)
    ensures var q := Slug(args); var ms := Matching(files, q);
      && (EditOf(files, args) == NoMatch <==> forall i :: 0 <= i < |files| ==> !Contains(files[i], q))
      && (EditOf(files, args).Editing? <==> |ms| == 1)
      && (EditOf(files, args).Editing? ==>
            EditOf(files, args).post == ms[0] && EditOf(files, args).post in files
            && Contains(EditOf(files, args).post, q))
      && (EditOf(files, args).MultipleMatches? <==> 1 < |ms|)
      && (EditOf(files, args).MultipleMatches? ==>
            var report := EditOf(files, args).report;
            && |report| == |ms|
            && forall i :: 0 <= i < |report| ==>
                 && report[i].before + report[i].hit + report[i].after == ms[i] && report[i].hit == q
                 && forall j :: 0 <= j < |report[i].before| ==> !OccursAt(ms[i], q, j))
  {
    var q := Slug(args);
    var ms := Matching(files, q);
    if ms != [] {
      assert ms[0] in ms;
    }
  }

  /** A query that only one file contains opens that file. */
  lemma EditFindsUniqueMatch(files: seq<string>, args: seq<string>, k: int)
    requires !NoTitleGiven(args) && !IsIndexQuery(args)
    requires 0 <= k < |files| && Contains(files[k], Slug(args))
    requires forall i :: 0 <= i < |files| && i != k ==> !Contains(files[i], Slug(args))
    ensures EditOf(files, args) == Editing(files[k])
  {
    MatchingSingle(files, Slug(args), k);
  }
}
