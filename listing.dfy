/**
 * What `list` shows: one line per post, numbered from 1, with the date
 * taken from the first ten characters of the file name and the title made
 * by deleting every `YYYY-MM-DD-` stamp and then the last three characters
 * (the `.md`), whatever they are.
 */
module Listing {
  import opened Chars
  import opened Slugs
  import opened Search

  datatype Option<T> = None | Some(value: T)

  /** Position `k` of the pattern `\d{4}-\d{2}-\d{2}-` accepts `c`. */
  predicate StampChar(k: int, c: char) {
    if k == 4 || k == 7 || k == 10 then c == '-' else IsDigit(c)
  }

  /** `t` is matched by `\d{4}-\d{2}-\d{2}-`. */
  predicate IsDateStamp(t: string) {
    |t| == 11 && forall k :: 0 <= k < 11 ==> StampChar(k, t[k])
  }

  /** A stamp starts at position `i` of `s`. */
  predicate StampAt(s: string, i: int) {
    0 <= i && i + 11 <= |s| && IsDateStamp(s[i..i + 11])
  }

  ghost predicate NoStampIn(s: string) {
    forall i :: !StampAt(s, i)
  }

  /** A date as `moment().format('YYYY-MM-DD')` writes it. */
  predicate IsDate(d: string) {
    |d| == 10 && IsDateStamp(d + "-")
  }

  /**
   * `s.replace(/\d{4}-\d{2}-\d{2}-/g, '')`: scanning from the left, a stamp
   * is deleted and the scan goes on after it; otherwise one character is kept.
   */
  function StripDates(s: string): (r: string)
    ensures |r| <= |s|
  {
    if |s| >= 11 && IsDateStamp(s[..11]) then StripDates(s[11..])
    else if s == [] then []
    else [s[0]] + StripDates(s[1..])
  }

  /** A leading stamp is deleted. */
  lemma StripLeadingStamp(t: string, rest: string)
    requires IsDateStamp(t)
    ensures StripDates(t + rest) == StripDates(rest)
  {
    assert (t + rest)[..11] == t;
    assert (t + rest)[11..] == rest;
  }

  /**
   * The replacement is global: a stamp that follows other text is deleted
   * too, provided no stamp starts earlier.
   */
  lemma {:induction false} StripStampAfterText(a: string, t: string, b: string)
    requires IsDateStamp(t)
    requires forall i :: 0 <= i < |a| ==> !StampAt(a + t + b, i)
    ensures StripDates(a + t + b) == a + StripDates(b)
  {
    var s := a + t + b;
    if a == [] {
      assert s == t + b;
      StripLeadingStamp(t, b);
    } else {
      assert !StampAt(s, 0);
      assert |s| >= 11 ==> s[0..11] == s[..11];
      assert s[1..] == a[1..] + t + b;
      forall i | 0 <= i < |a| - 1 ensures !StampAt(a[1..] + t + b, i) {
        assert !StampAt(s, i + 1);
        if i + 11 <= |s| - 1 {
          assert s[1..][i..i + 11] == s[i + 1..i + 12];
        }
      }
      StripStampAfterText(a[1..], t, b);
    }
  }

  /** Text with no stamp in it comes out unchanged. */
  lemma {:induction false} StripUndated(s: string)
    requires NoStampIn(s)
    ensures StripDates(s) == s
  {
    if s != [] {
      assert !StampAt(s, 0);
      assert |s| >= 11 ==> s[0..11] == s[..11];
      assert NoStampIn(s[1..]) by {
        forall i ensures !StampAt(s[1..], i) {
          assert !StampAt(s, i + 1);
          if 0 <= i && i + 11 <= |s| - 1 {
            assert s[1..][i..i + 11] == s[i + 1..i + 12];
          }
        }
      }
      StripUndated(s[1..]);
    }
  }

  /** Appending the `.md` extension cannot create a stamp: `.` is neither a digit nor `-`. */
  lemma NoStampWithExtension(slug: string)
    requires NoStampIn(slug)
    ensures NoStampIn(slug + ".md")
  {
    var s := slug + ".md";
    forall i | 0 <= i && i + 11 <= |s| ensures !StampAt(s, i) {
      var t := s[i..i + 11];
      if i + 11 <= |slug| {
        assert !StampAt(slug, i);
        assert t == slug[i..i + 11];
      } else {
        var k := |slug| - i;
        assert t[k] == '.';
        assert !StampChar(k, t[k]);
      }
    }
  }

  /** `s.slice(0, n)` for `n >= 0`. */
  function SliceTo(s: string, n: nat): (r: string)
    ensures |r| == (if n <= |s| then n else |s|) && r <= s
  {
    if n <= |s| then s[..n] else s
  }

  /** `s.slice(0, -n)` for `n > 0`. */
  function DropLast(s: string, n: nat): (r: string)
    ensures |r| == (if n <= |s| then |s| - n else 0) && r <= s
  {
    if n <= |s| then s[..|s| - n] else ""
  }

  /** One printed line: `N. (date) title`. */
  datatype Line = Line(number: nat, date: string, title: string)

  /** The line for entry `i` (0-based) of the listing. */
  function LineOf(i: nat, fileName: string): (r: Line)
    ensures r.number == i + 1
    ensures |r.date| == (if |fileName| < 10 then |fileName| else 10) && r.date <= fileName
    ensures |r.title| == (if |StripDates(fileName)| < 3 then 0 else |StripDates(fileName)| - 3)
    ensures |r.title| + 3 <= |fileName| || r.title == ""
    ensures r.title <= StripDates(fileName)
  {
    Line(i + 1, SliceTo(fileName, 10), DropLast(StripDates(fileName), 3))
  }

  /** The lines of `list`: entry `i` of `files` is printed as line `i + 1`. */
  function LinesOf(files: seq<string>): (r: seq<Line>)
    ensures |r| == |files|
    ensures forall i :: 0 <= i < |r| ==> r[i].number == i + 1 && r[i] == LineOf(i, files[i])
  {
    seq(|files|, i requires 0 <= i < |files| => LineOf(i, files[i]))
  }

  /**
   * A post named `date-slug.md` is listed with that date and with the slug
   * as its title, provided the slug holds no date stamp of its own.
   */
  lemma LineOfPostName(i: nat, date: string, slug: string)
    requires IsDate(date) && NoStampIn(slug)
    ensures LineOf(i, date + "-" + slug + ".md") == Line(i + 1, date, slug)
  {
    var name := date + "-" + slug + ".md";
    assert name == (date + "-") + (slug + ".md");
    StripLeadingStamp(date + "-", slug + ".md");
    NoStampWithExtension(slug);
    StripUndated(slug + ".md");
    assert (slug + ".md")[..|slug|] == slug;
  }

  /**
   * The posts `list` selects before printing. Called with arguments it
   * filters with a callback that computes the comparison but returns
   * nothing, which `_.select` reads as false.
   */
  function ListSelection(files: seq<string>, args: Option<seq<string>>): (r: seq<string>)
    ensures args.Some? ==> r == []
  {
    if args.None? then files
    else
      var keep := fileName => false;
      SelectNone(files, keep);
      Select(files, keep)
  }

  datatype ListOutcome = NothingListed | Lines(lines: seq<Line>)

  /** `list`: fails when the selection is empty, and otherwise prints a line for every entry of `files`. */
  function ListOf(files: seq<string>, args: Option<seq<string>>): (r: ListOutcome)
    ensures r == NothingListed <==> args.Some? || files == []
    ensures r.Lines? ==> |r.lines| == |files|
  {
    if ListSelection(files, args) == [] then NothingListed
    else Lines(LinesOf(files))
  }

  /** Called with arguments, `list` always reports that nothing matched. */
  lemma ListWithArgsFindsNothing(files: seq<string>, args: seq<string>)
    ensures ListOf(files, Some(args)) == NothingListed
  {
    SelectNone(files, fileName => false);
  }

  /**
   * Called without arguments, `list` fails only on an empty listing, and
   * otherwise prints one line per entry, numbered from 1 in listing order.
   */
  lemma ListWithoutArgs(files: seq<string>)
    ensures ListOf(files, None) == NothingListed <==> files == []
    ensures ListOf(files, None).Lines? ==>
      var lines := ListOf(files, None).lines;
      && |lines| == |files|
      && forall i :: 0 <= i < |files| ==>
           lines[i].number == i + 1
           && (10 <= |files[i]| ==> lines[i].date == files[i][..10])
           && lines[i].title == DropLast(StripDates(files[i]), 3)
  {
  }

  /** The selection `list` evidently means: the files containing the query. */
  function FilteredSelection(files: seq<string>, args: Option<seq<string>>): seq<string> {
    if args.None? then files
    else Matching(files, Slug(args.value))
  }

  /** `list` with the filter returning its comparison and the lines drawn from the selection. */
  function ListFiltered(files: seq<string>, args: Option<seq<string>>): ListOutcome {
    var selected := FilteredSelection(files, args);
    if selected == [] then NothingListed
    else Lines(LinesOf(selected))
  }

  /**
   * The intended `list QUERY`: it fails exactly when no file contains the
   * query, and otherwise prints one numbered line per matching file, in
   * listing order.
   */
  lemma ListFilteredShowsMatches(files: seq<string>, args: seq<string>)
    ensures var q := Slug(args);
      && (ListFiltered(files, Some(args)) == NothingListed <==>
            forall i :: 0 <= i < |files| ==> !Contains(files[i], q))
      && (ListFiltered(files, Some(args)).Lines? ==>
            var lines := ListFiltered(files, Some(args)).lines;
            var ms := Matching(files, q);
            && |lines| == |ms|
            && forall k :: 0 <= k < |ms| ==>
                 lines[k] == LineOf(k, ms[k]) && ms[k] in files && Contains(ms[k], q))
  {
    var ms := Matching(files, Slug(args));
    if ms != [] {
      assert ms[0] in ms;
    }
  }

  /** Without arguments, the only way the command line calls it, `list` behaves as intended. */
  lemma ListAgreesWithoutArgs(files: seq<string>)
    ensures ListFiltered(files, None) == ListOf(files, None)
  {
  }

  /**
   * As written, `list first` fails on a listing that holds a post named
   * `...-first-post.md`, which the intended filter would show.
   */
  lemma ListIgnoresItsQuery()
    ensures var files := ["2023-01-01-first-post.md"];
      && ListOf(files, Some(["first"])) == NothingListed
      && ListFiltered(files, Some(["first"])).Lines?
  {
    var files := ["2023-01-01-first-post.md"];
    ListWithArgsFindsNothing(files, ["first"]);
    assert Slug(["first"]) == "first" by {
      NormalizeFixedPoints("first");
    }
    assert OccursAt(files[0], "first", 11);
    MatchingSingle(files, "first", 0);
  }
}
