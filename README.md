# jekyll-post: post lookup and file names

A model in Dafny of `lib/posts.js`, the `Posts` object behind the `post`
command-line helper for a Jekyll blog. `Posts` holds the posts directory and
its listing, newest first, and offers three commands that do real work on
file names:

- `new` turns the title words into a slug and builds the file name
  `date-slug.md`;
- `edit` finds the post to open. A lone number is a 1-based position in the
  listing. Any other words become a slug query that selects every file
  containing it, and the outcome is no match, several matches (each printed
  with the first occurrence of the query highlighted), or one file;
- `list` prints one line per post: its number, the date from the first ten
  characters of the name, and the title left after every `YYYY-MM-DD-` stamp
  and the last three characters of the name (the `.md`) are removed.

Modules, one per part of `lib/posts.js`:

- `Chars`: the `\s` and `\d` character classes and ASCII lower-casing.
- `Slugs`: the expression `args.join('-').toLowerCase().replace(/\s/g, '-')`.
  It appears three times in the source and is modelled once, as `Slug`.
- `Search`: `indexOf`, lodash's `_.select`, the query filter of `edit`, and
  the highlighting of one candidate.
- `Resolution`: `isNumeric` and the lookup of `edit` as a pure function. The
  lookup returns the tagged value `NotFound | Ambiguous(matches) | Found(post)`.
  The source tells these apart with `_.isUndefined` and `_.isArray` checks.
- `Listing`: stamp removal, the lines of `list`, and `list` itself as
  written. It also holds the corrected version described under Findings.
- `Create`: `new`, with what its file name does under `list` and `edit`.
- `Blog`: the `Posts` class. The constructor stores the reversed listing.
  `Edit` builds the candidate report in a loop, and `List` emits the lines
  in a loop. Each method is proved equal to the pure specification it
  implements.

The slug step keeps `&` and every character other than whitespace and
capitals, and it does not trim. The listing is not filtered by extension.
`list` takes no query that works (see Findings). There are no drafts,
`publish` moves nothing, and `Posts` has no `find` method.

## Model

| member | source | states |
|---|---|---|
| `Chars.IsSpace` | lib/posts.js:73 | the `\s` class with its full JavaScript set; no whitespace character is a capital or `-` |
| `Chars.IsDigit` | lib/posts.js:172 | the `\d` class, the ASCII digits; a digit is neither whitespace nor a capital, so it survives the slug step |
| `Chars.ToLower` | lib/posts.js:73 | lower-casing maps each capital to its own lower-case letter (`A` to `a`, ..., `Z` to `z`), changes nothing else, yields no capital, and never creates or removes whitespace |
| `Slugs.NoTitleGiven` | lib/posts.js:64 | the title check of `new` and `edit` fails on no arguments or an empty first one; when it passes, the joined words are not empty |
| `Slugs.Join` | lib/posts.js:73 | the joined text starts with the first word, and one word joins to itself |
| `Slugs.JoinAppend` | lib/posts.js:110 | joining two non-empty word lists gives their joins with one separator between, so every word follows its predecessor and one `-` (`edit foo bar` searches for `foo-bar`) |
| `Slugs.NormalizeChar` | lib/posts.js:73 | a normalised character is neither whitespace nor a capital, whitespace becomes `-`, and a character is unchanged exactly when it is neither |
| `Slugs.Normalize` | lib/posts.js:73 | the lower-case-and-dash step keeps the length, leaves no whitespace or capital, and acts character by character |
| `Slugs.NormalizeLowers` | lib/posts.js:73 | the slug step turns each capital into its own lower-case letter (`H` to `h`) |
| `Slugs.NormalizeFixedPoints` | lib/posts.js:73 | the texts the step leaves unchanged are exactly those with no whitespace and no capital |
| `Slugs.NormalizeIdempotent` | lib/posts.js:73 | applying the step twice equals applying it once |
| `Slugs.Slug` | lib/posts.js:110 | the slug/query has no whitespace and no capital, is as long as the `-`-joined words, and is non-empty when the first word is |
| `Slugs.SlugIsNormalized` | lib/posts.js:159 | re-applying the lower-case-and-dash step leaves a slug unchanged |
| `Search.IndexFrom` | lib/posts.js:112 | the search from a position returns the first occurrence at or after it, or -1 when there is none |
| `Search.IndexOf` | lib/posts.js:122 | `indexOf` is -1 exactly when the query does not occur, and otherwise the first position where it occurs |
| `Search.Select` | lib/posts.js:111-113 | `_.select` keeps exactly the elements the callback accepts and never grows the list |
| `Search.SelectAppend` | lib/posts.js:111-113 | selecting from a concatenation gives the two selections concatenated, so the order is kept |
| `Search.SelectNone` | lib/posts.js:160-162 | a callback that accepts nothing selects nothing |
| `Search.SelectSingle` | lib/posts.js:111-113 | when exactly one element is accepted, the selection is that element alone |
| `Search.MatchesQuery` | lib/posts.js:111-113 | the filter callback of `edit` accepts a file name exactly when it contains the query |
| `Search.Matching` | lib/posts.js:110-113 | the query filter keeps exactly the files that contain the query |
| `Search.MatchingInOrder` | lib/posts.js:111-113 | the filter splits over concatenation and keeps a single file exactly when it contains the query, so the matches come in `files` order |
| `Search.MatchingSingle` | lib/posts.js:111-113 | when only one file contains the query, the filter returns that file alone |
| `Search.HighlightOf` | lib/posts.js:122-131 | the before, highlighted and after pieces concatenate back to the file name, the middle piece is the query, and it sits at the first occurrence |
| `Resolution.IsNumeric` | lib/posts.js:39-41 | `isNumeric` (narrowed to a non-empty run of ASCII digits); a numeric argument is its own slug |
| `Resolution.IsIndexQuery` | lib/posts.js:105 | the index path is taken for exactly one numeric argument; such an argument always passes the title check |
| `Resolution.DigitsValue` | lib/posts.js:106 | `Number` of a digit run is zero exactly when every digit is `0`, so `edit 0` and `edit 00` find nothing |
| `Resolution.DigitValue` | lib/posts.js:106 | one digit reads as its own value |
| `Resolution.DigitsValueAppend` | lib/posts.js:106 | positional notation: the digits `s + t` read as the value of `s` times `10^|t|` plus the value of `t`, so with `DigitValue` `edit 12` reads 12 |
| `Resolution.LeadingZeroIgnored` | lib/posts.js:106 | a leading zero does not change the index that `Number` reads |
| `Resolution.Resolve` | lib/posts.js:105-138 | an ambiguous lookup has more than one candidate, and every candidate contains the query |
| `Resolution.HighlightsOf` | lib/posts.js:121-132 | the ambiguity report has one entry per match, in order, each splitting that match around the first occurrence of the query |
| `Resolution.EditOf` | lib/posts.js:87-138 | `edit` gives the usage error exactly when the title check fails; a file it opens is a non-empty entry of the listing; a multiple-match report holds more than one candidate |
| `Resolution.EditByIndex` | lib/posts.js:105-119 | a lone number `n` opens `files[n-1]` exactly when `1 <= n <= |files|` and that entry is non-empty; otherwise nothing is found, and it never reports several files |
| `Resolution.EditByQuery` | lib/posts.js:109-138 | a text query finds nothing exactly when no file contains it, opens the match when there is exactly one, and otherwise reports every match split around the first occurrence of the query |
| `Resolution.EditFindsUniqueMatch` | lib/posts.js:109-138 | a query that only one file contains opens that file |
| `Listing.IsDateStamp` | lib/posts.js:172 | the pattern `\d{4}-\d{2}-\d{2}-`: eleven characters, `-` at positions 4, 7 and 10 and digits elsewhere |
| `Listing.StripDates` | lib/posts.js:172 | removing the stamps never lengthens the name |
| `Listing.StripStampAfterText` | lib/posts.js:172 | the replacement is global: a stamp after other text is deleted as well, when no stamp starts earlier (`a-2023-01-01-b.md` becomes `a-b.md`) |
| `Listing.StripLeadingStamp` | lib/posts.js:172 | a leading `YYYY-MM-DD-` stamp is removed |
| `Listing.StripUndated` | lib/posts.js:172 | a name with no stamp in it is left unchanged |
| `Listing.NoStampWithExtension` | lib/posts.js:172 | appending `.md` cannot create a stamp |
| `Listing.SliceTo` | lib/posts.js:171 | `slice(0, n)` keeps the first `n` characters, or all of a shorter text |
| `Listing.DropLast` | lib/posts.js:177 | `slice(0, -n)` keeps all but the last `n` characters, or nothing of a shorter text |
| `Listing.LineOf` | lib/posts.js:171-177 | line `i` is numbered `i+1`; its date is the first `min(10, length)` characters of the name; its title is the stamp-free name without its last 3 characters, or empty when that is shorter than 3 |
| `Listing.LinesOf` | lib/posts.js:170-179 | the loop of `list` prints one line per entry, entry `i` as line `i + 1` |
| `Listing.LineOfPostName` | lib/posts.js:171-177 | the entry `date-slug.md` is listed with that date and the slug as title, when the slug holds no stamp |
| `Listing.ListSelection` | lib/posts.js:158-163 | with any arguments the selection is empty, because the filter callback returns nothing |
| `Listing.ListOf` | lib/posts.js:158-170 | `list` fails exactly when arguments are given or the listing is empty, and otherwise prints one line per entry of the whole listing |
| `Listing.ListWithArgsFindsNothing` | lib/posts.js:158-168 | `list` with any arguments reports that nothing matched, because its filter callback returns nothing |
| `Listing.ListWithoutArgs` | lib/posts.js:165-179 | `list` with no arguments fails only on an empty listing; otherwise it emits one line per entry, numbered from 1, with the first 10 characters as date and the stamp-free name minus 3 characters as title |
| `Listing.ListAgreesWithoutArgs` | lib/posts.js:155-170 | with no arguments, the corrected `list` and the `list` as written agree |
| `Listing.ListIgnoresItsQuery` | lib/posts.js:160-162 | `list first` fails on a listing holding `2023-01-01-first-post.md`, which the corrected filter lists |
| `Listing.ListFilteredShowsMatches` | lib/posts.js:158-179 | the corrected `list QUERY` fails exactly when no file contains the query, and otherwise lists every match in order, numbered from 1 |
| `Create.NewPost` | lib/posts.js:61-82 | `new` fails exactly when the arguments are empty or the first is `""`; otherwise the name is exactly the date, `-`, the slug and `.md`: it starts with the date and `-`, holds the slug right after, ends with `.md`, and is no longer than those four parts |
| `Create.NewThenList` | lib/posts.js:72-74 | when the date has the `YYYY-MM-DD` shape and the slug holds no date stamp, `list` shows a new post with its creation date and its slug as title |
| `Create.NewThenEdit` | lib/posts.js:72-74 | `edit` with the creation words opens the new post when no other file contains the slug and the words are not a lone number |
| `Create.NumericTitleIsPosition` | lib/posts.js:105-106 | for any listing, `edit` with a post's lone-number title `n` opens entry `n-1` or finds nothing, whichever files contain the title |
| `Create.NumericTitleMissed` | lib/posts.js:105-106 | an example: a post titled `3`, alone in the listing, is not found by `edit 3` |
| `Blog.Reversed` | lib/posts.js:53 | the reversed listing has the same length and holds entry `|s|-1-i` at position `i` |
| `Blog.HighlightReport` | lib/posts.js:120-133 | the loop emits one highlighted entry per match, in order |
| `Blog.Posts.constructor` | lib/posts.js:51-54 | a new `Posts` stores the path and the reversed directory listing |
| `Blog.Posts.Edit` | lib/posts.js:84-146 | `edit` returns exactly the outcome its specification `EditOf` gives for the stored files |
| `Blog.Posts.List` | lib/posts.js:152-180 | `list` returns exactly the outcome its specification `ListOf` gives for the stored files |
| `Blog.ListNewestFirst` | lib/posts.js:53 | `list` shows the reversed listing: line `k+1` describes the entry `k` places from the end of the directory listing |
| `Blog.EditIndexIsListNumber` | lib/posts.js:101-106 | `edit N` opens the file that `list` numbers `N` |

## Left out

- The directory read `sh.ls` is replaced by a `listing` parameter of the constructor. The order of that listing is whatever the caller passes.
- The current date, `moment().format('YYYY-MM-DD')`, is replaced by a `date` parameter of `NewPost`. The lemmas that need its shape require `IsDate`.
- Console output, colours and `process.exit` are not modelled. Each command returns an outcome value instead of printing a message and exiting.
- The header `Showing N posts:` of `list` is not modelled. Neither are the two header lines of `edit`'s ambiguity message, whose candidate lines are modelled as `Highlight` values.
- Launching the editor at the end of `edit` is not modelled. Nor is the commented-out editor call in `new`.
- `publish` (`git push`), `finder` (`open`) and `cd` are not modelled. They are shell side effects with no logic of their own. `path` is stored, and only the shell calls read it: the editor launch of `edit` (lib/posts.js:144), `publish`, `finder` and `cd`.
- post.js is not part of this model. It reads `~/.postrc`, maps command names to methods, and calls a `find` method that `Posts` does not define.
- IsNumeric: accepts only a non-empty run of ASCII digits. JavaScript's `!isNaN` also accepts blanks, signs, decimals, exponents and hex forms such as `"1e2"` or `"0x1"`. With those, `edit` would take the index path where the model takes the query path.
- ToLower: lowers ASCII capitals only. `toLowerCase` also lowers non-ASCII letters. `\s` is modelled with its full JavaScript set.
- JavaScript strings count UTF-16 code units, while the model counts Unicode scalar values. So `slice(0, 10)`, `slice(0, -3)`, `indexOf` and the highlight cuts (lib/posts.js:122-130, 171-177) give different pieces for a file name with a character outside the Basic Multilingual Plane, such as an emoji.
- DigitsValue: is exact. `Number` loses precision above 2^53, but such an index is out of range for any listing either way.

## Findings

| source | as written | input that shows it | evidently intended | confidence | as-written member | corrected member |
|---|---|---|---|---|---|---|
| lib/posts.js:160-162 | the filter callback of `list` computes `fileName.indexOf(query) !== -1` but returns nothing, so `_.select` keeps no file. Line 170 would print all of `this.files` even if the filter worked | `list(["first"])` with files `["2023-01-01-first-post.md"]` reports "Not found" | keep the files that contain the query, and print those, numbered from 1 | high; not executed | `Listing.ListIgnoresItsQuery` | `Listing.ListFilteredShowsMatches` |

`Blog.Posts.List` keeps the behaviour as written, because that is what the
program does. The command line calls `list` without arguments (post.js:80-82).
For that call, `Listing.ListAgreesWithoutArgs` shows that the written and the
corrected versions agree.
