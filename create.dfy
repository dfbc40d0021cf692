/**
 * `new`: the file name of a fresh post, and how that name behaves under the
 * other commands.
 */
module Create {
  import opened Slugs
  import opened Search
  import opened Resolution
  import opened Listing

  datatype NewOutcome = MissingTitle | Creating(filename: string)

  /**
   * `new`: a missing or empty first argument is an error; otherwise the
   * file name is the date, `-`, the slug of the words, and `.md`.
   */
  function NewPost(date: string, args: seq<string>): (r: NewOutcome)
    ensures r.MissingTitle? <==> NoTitleGiven(args)
    ensures r.Creating? ==>
      var f := r.filename;
      && |f| == |date| + |Slug(args)| + 4
      && |date| + 5 <= |f|
      && f[..|date| + 1] == date + "-"
      && f[|f| - 3..] == ".md"
      && OccursAt(f, Slug(args), |date| + 1)
  {
    if NoTitleGiven(args) then MissingTitle
    else Creating(date + "-" + Slug(args) + ".md")
  }

  /**
   * `list` shows a new post with the date it was created on and with its
   * slug as title, unless the slug itself holds a date stamp.
   */
  lemma NewThenList(date: string, args: seq<string>, i: nat)
    requires IsDate(date) && !NoTitleGiven(args) && NoStampIn(Slug(args))
    ensures LineOf(i, NewPost(date, args).filename) == Line(i + 1, date, Slug(args))
  {
    LineOfPostName(i, date, Slug(args));
  }

  /**
   * `edit` with the words a post was created with opens that post, provided
   * no other file contains the slug and the words are not a lone number.
   */
  lemma NewThenEdit(date: string, args: seq<string>, files: seq<string>, k: int)
    requires !NoTitleGiven(args) && !IsIndexQuery(args)
    requires 0 <= k < |files| && files[k] == NewPost(date, args).filename
    requires forall i :: 0 <= i < |files| && i != k ==> !Contains(files[i], Slug(args))
    ensures EditOf(files, args) == Editing(files[k])
  {
    assert OccursAt(files[k], Slug(args), |date| + 1);
    EditFindsUniqueMatch(files, args, k);
  }

  /**
   * A post created with a lone number as title is not looked up by that
   * title: `edit` reads the number `n` as a position and opens entry `n - 1`
   * or nothing, whichever files contain the title.
   */
  lemma NumericTitleIsPosition(date: string, title: string, files: seq<string>, k: int)
    requires IsNumeric(title)
    requires 0 <= k < |files| && files[k] == NewPost(date, [title]).filename
    ensures Contains(files[k], Slug([title]))
    ensures var n := DigitsValue(title);
      EditOf(files, [title]) ==
        if 1 <= n <= |files| && files[n - 1] != "" then Editing(files[n - 1]) else NoMatch
  {
    assert OccursAt(files[k], Slug([title]), |date| + 1);
  }

  /** For example, a post titled `3` alone in the listing is not found by `edit 3`. */
  lemma NumericTitleMissed(date: string)
    ensures var files := [NewPost(date, ["3"]).filename];
      && Contains(files[0], Slug(["3"]))
      && EditOf(files, ["3"]) == NoMatch
  {
    assert IsNumeric("3");
    assert DigitsValue("3") == 3 by {
      assert "3"[..0] == "";
    }
    NumericTitleIsPosition(date, "3", [NewPost(date, ["3"]).filename], 0);
  }
}
