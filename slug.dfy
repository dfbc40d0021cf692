/**
 * The title/query builder of the post commands: the words are joined with
 * `-`, lower-cased, and every whitespace character becomes `-`.  The same
 * expression builds the file name of a new post, the query of `edit` and the
 * query of `list`.
 */
module Slugs {
  import opened Chars

  /** `Array.prototype.join`: the words with `sep` between neighbours. */
  function Join(words: seq<string>, sep: string): (r: string)
    ensures words != [] ==> |words[0]| <= |r| && r[..|words[0]|] == words[0]
    ensures |words| == 1 ==> r == words[0]
  {
    if words == [] then ""
    else if |words| == 1 then words[0]
    else words[0] + sep + Join(words[1..], sep)
  }

  /**
   * Joining a concatenation: the two joins with `sep` between them, so every
   * word after the first follows its predecessor and one `sep`.
   */
  lemma {:induction false} JoinAppend(a: seq<string>, b: seq<string>, sep: string)
    requires a != [] && b != []
    ensures Join(a + b, sep) == Join(a, sep) + sep + Join(b, sep)
  {
    if |a| == 1 {
      assert (a + b)[1..] == b;
    } else {
      assert (a + b)[1..] == a[1..] + b;
      JoinAppend(a[1..], b, sep);
    }
  }

  /**
   * The guard of `new` and `edit`: no argument, or an empty first one.
   * When it passes, the joined words are not empty.
   */
  predicate NoTitleGiven(args: seq<string>)
    ensures !NoTitleGiven(args) ==> Join(args, "-") != ""
  {
    args == [] || args[0] == ""
  }

  /** One character of `toLowerCase().replace(/\s/g, '-')`. */
  function NormalizeChar(c: char): (r: char)
    ensures !IsSpace(r) && !IsUpper(r)
    ensures r == c <==> !IsSpace(c) && !IsUpper(c)
    ensures IsSpace(c) ==> r == '-'
  {
    var l := ToLower(c);
    if IsSpace(l) then '-' else l
  }

  /** A capital becomes its own lower-case letter. */
  lemma NormalizeLowers(c: char)
    requires IsUpper(c)
    ensures NormalizeChar(c) == LowerLetters[c as int - 'A' as int]
  {
  }

  /** Text that the normalisation leaves alone: no whitespace, no capitals. */
  predicate IsSlugText(s: string) {
    forall i :: 0 <= i < |s| ==> !IsSpace(s[i]) && !IsUpper(s[i])
  }

  /** `s.toLowerCase().replace(/\s/g, '-')`, character by character. */
  function Normalize(s: string): (r: string)
    ensures |r| == |s|
    ensures IsSlugText(r)
    ensures forall i :: 0 <= i < |s| ==> r[i] == NormalizeChar(s[i])
  {
    if s == [] then [] else [NormalizeChar(s[0])] + Normalize(s[1..])
  }

  /** The texts normalisation leaves unchanged are exactly the slug texts. */
  lemma {:induction false} NormalizeFixedPoints(s: string)
    ensures Normalize(s) == s <==> IsSlugText(s)
  {
    if IsSlugText(s) {
      forall i | 0 <= i < |s| ensures Normalize(s)[i] == s[i] {
        assert !IsSpace(s[i]) && !IsUpper(s[i]);
      }
    }
  }

  /** Normalising twice is normalising once. */
  lemma NormalizeIdempotent(s: string)
    ensures Normalize(Normalize(s)) == Normalize(s)
  {
    NormalizeFixedPoints(Normalize(s));
  }

  /** `args.join('-').toLowerCase().replace(/\s/g, '-')`. */
  function Slug(args: seq<string>): (r: string)
    ensures IsSlugText(r)
    ensures |r| == |Join(args, "-")|
    ensures !NoTitleGiven(args) ==> r != ""
  {
    Normalize(Join(args, "-"))
  }

  /** A slug is a fixed point of the lower-case-and-dash step. */
  lemma SlugIsNormalized(args: seq<string>)
    ensures Normalize(Slug(args)) == Slug(args)
  {
    NormalizeFixedPoints(Slug(args));
  }
}
