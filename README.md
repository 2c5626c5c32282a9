# podcast2youtube, modelled in Dafny

The `podcast2youtube` command turns one episode of the GCP Podcast feed into a
YouTube video. It finds the episode by its number in the RSS feed and asks for
confirmation. It then renders a title card, has ffmpeg loop the card over the
episode's MP3, and uploads the video with a derived title, description and tag list.

This project models the logic of `main.go` that is not I/O:

- `Markup` models `dropHTMLTags`, the markup stripper, as a loop (`DropHtmlTags`).
  The loop is proved equal to a recursive specification, `Stripped`, built
  from a two-state scanner `Scan` and the newline pass `ReplaceNewlines`.
  The proved properties:
  - the result contains no `<` and no newline;
  - plain text comes back with only its newlines changed;
  - an unmatched `<` swallows the rest of the text;
  - a complete tag disappears;
  - the result is a subsequence of the input;
  - stripping is idempotent.
- `Feed` models the scan of the decoded feed in `fetchEpisode`. The loop
  `SelectEpisode` is proved equal to `FindEpisode`, and lemmas show that
  `FindEpisode` returns the first matching item field by field, or the
  not-found error.
- `Decimal` models Go's `%d` (`FormatInt`) and proves that it is injective.
- `Metadata` models the card text, the default video title, the
  description, the tag list and the answer test of the confirmation prompt.
  Lemmas show that number and title can be read back from the card text and
  from the video title, and the link and the stripped summary from the
  description.
- `Pipeline` models `buildAndUpload` and `main` as functions. Their inputs
  are the outcomes of the foreign steps, and they return the exit status and
  the sequence of calls `buildAndUpload` makes (the feed retrieval and
  decoding in `main` are not recorded). The lemmas show:
  - the temporary directory, once created, is removed by the last call on
    every path;
  - the upload happens only right after a successful video build, and
    carries the derived metadata;
  - nothing is built without a found episode and a confirming answer.

Two points where the model follows the code rather than a looser reading of it:

- Newlines are not collapsed. `strings.Replace(..., "\n", " ", -1)` replaces
  each newline with one space, so two newlines become two spaces.
- The title template is a flag. The model fixes it to its default,
  `"%s: GCPPodcast %d"`.

## Model

| member | source | states |
|---|---|---|
| Markup.DropHtmlTags | main.go:156-172 | the character loop with its `inTag` flag and buffer, followed by the newline pass, returns exactly `Stripped(s)` |
| Markup.ReplaceNewlines | main.go:171 | same length as the input; each newline becomes a space and every other character stays in place |
| Markup.ScanAppend | main.go:159-170 | scanning `a + b` is scanning `a`, then `b` from the state `a` leaves (for output and final state) |
| Markup.ReplaceNewlinesAppend | main.go:171 | the newline pass distributes over concatenation |
| Markup.ScanHasNoOpen | main.go:161-162 | the scanner never copies a `<`, from either state |
| Markup.ScanPlainText | main.go:160-169 | outside a tag, text without `<` is copied verbatim, including a stray `>`, and the scanner stays outside |
| Markup.ScanInsideTag | main.go:163-169 | inside a tag, text without `>` is dropped entirely and the scanner stays inside |
| Markup.ScanIsSubsequence | main.go:159-170 | the scanner's output is a subsequence of its input |
| Markup.ReplaceNewlinesKeepsSubsequence | main.go:171 | the newline pass maps a subsequence to a subsequence |
| Markup.SubsequenceBounds | main.go:159-171 | a subsequence is no longer than the whole and holds only its characters |
| Markup.StrippedHasNoOpenOrNewline | main.go:159-171 | the result of `dropHTMLTags` holds no `<` and no newline |
| Markup.StrippedPlainText | main.go:160-171 | input without `<` comes back with only newlines turned into spaces (a stray `>` is kept) |
| Markup.StrippedUnmatchedOpen | main.go:161-169 | for `a + "<" + b` with no `<` in `a` and no `>` in `b`, only `a` (newlines replaced) survives |
| Markup.ScanClosedTag | main.go:161-166 | a complete tag `<t>` read outside a tag copies nothing and ends outside |
| Markup.ScanDropsTag | main.go:159-170 | plain text, a complete tag, then any rest: the text is kept and the rest is scanned as from the start |
| Markup.StrippedDropsTag | main.go:156-172 | a complete tag after plain text is removed with both brackets, and the rest is stripped on its own |
| Markup.StrippedIsSubsequence | main.go:159-171 | the result is a subsequence of the input with newlines replaced: never longer, no character invented |
| Markup.StrippedIdempotent | main.go:156-172 | stripping the result again changes nothing |
| Markup.StrippedExampleTags | main.go:156-172 | `a<b>c</b>d` becomes `acd` |
| Markup.StrippedExampleNewline | main.go:171 | `line1\nline2` becomes `line1 line2` |
| Markup.StrippedExampleUnterminated | main.go:161-169 | `x<unterminated` becomes `x` |
| Markup.StrippedExampleParagraph | main.go:156-172 | `<p>Hi</p>` becomes `Hi` |
| Feed.SelectEpisode | main.go:98-111 | the scan of the first channel with early return gives exactly `FindEpisode` of its items; a feed without a channel is excluded, as the source indexes `Channel[0]` unchecked |
| Feed.FindEpisodeFirstMatch | main.go:98-108 | a successful lookup returns the first item in feed order with the requested number, every field copied (`MP3` from the enclosure URL, `Tags` from the categories) |
| Feed.FindEpisodeNotFound | main.go:98-111 | the lookup fails exactly when no item has the number, and the error is not-found naming that number |
| Feed.FindEpisodeNumber | main.go:99-102 | the episode returned carries the requested number |
| Feed.FindEpisodeUnique | main.go:98-108 | with unique numbers, the lookup returns the one item that has the number |
| Feed.FetchEpisodeErrors | main.go:72-111 | a failed GET and a failed decode give their own errors; not-found arises exactly for a decoded feed without the number |
| Decimal.NatDigits | main.go:130 | the digits of a natural number: non-empty, decimal digits only, no leading zero |
| Decimal.NatDigitsValue | main.go:130 | reading the printed digits back gives the number |
| Decimal.FormatIntShape | main.go:130 | `%d` starts with `-` exactly for negative numbers and the digits after it spell the magnitude |
| Decimal.FormatIntCharacters | main.go:146 | `%d` output holds only `-` and digits |
| Decimal.FormatIntInjective | main.go:130 | different numbers print differently |
| Decimal.FormatIntExamples | main.go:146 | 5, 42 and -7 print as `5`, `42` and `-7` |
| Metadata.SplitAtFirst | main.go:130 | splitting at the first separator of two equal concatenations gives equal parts |
| Metadata.SplitAtLast | main.go:146-147 | splitting at the last separator of two equal concatenations gives equal parts |
| Metadata.CardTextInjective | main.go:130 | the card text is the decimal number, `": "`, then the title, and both can be read back: distinct (number, title) pairs give distinct card texts |
| Metadata.VideoTitleInjective | main.go:146 | the default title is the title, `": GCPPodcast "` and the decimal number, and both can be read back |
| Metadata.VideoTitleExample | main.go:146 | title `Launch`, number 42 gives `Launch: GCPPodcast 42` |
| Metadata.DescriptionShape | main.go:147 | the description starts with `"Original post: " + link + "\n\n"` and ends with the stripped text, which holds no newline and no `<` |
| Metadata.DescriptionInjective | main.go:147 | the link and the stripped text can be read back from the description |
| Metadata.DescriptionExample | main.go:147 | link `http://x/5` and summary `<p>Hi</p>` give `Original post: http://x/5\n\nHi` |
| Metadata.UploadTags | main.go:148 | the tag list is the episode's tags in order, then `gcppodcast`, then `podcast`: length plus two |
| Metadata.UploadTagsMembers | main.go:148 | the tag list holds exactly the episode's tags and the two labels, with multiplicity |
| Pipeline.BuildStepsPrefix | main.go:125-153 | each failure stops the run at once: the calls are the full sequence cut just after the first failing step (logo, image, PNG, video, upload), the error is that step's (`LogoFailed` with the logo path, `ImageFailed`, `PngFailed` with the slide path, `VideoFailed`, `UploadFailed`), and there is no error only when every step succeeds |
| Pipeline.WorkspaceRemovedOnEveryExit | main.go:115-123 | the temporary directory, once created, is removed by the last call and by no earlier one; if it cannot be created, nothing else is called |
| Pipeline.BuildSucceedsIffAllSteps | main.go:114-154 | `buildAndUpload` returns no error exactly when every foreign step succeeds |
| Pipeline.UploadOnlyAfterVideo | main.go:141-152 | an upload happens only after every earlier step succeeds, at one fixed position right after the video build, with the derived title, description, tags and the video in the directory |
| Pipeline.ImageGetsCardText | main.go:130-131 | the title card is rendered from `"<number>: <title>"` with the configured colours and size |
| Pipeline.NothingBuiltWithoutEpisodeAndConsent | main.go:41-56 | a build step is called exactly when the episode is found and the answer confirms; a lookup error exits with status 1, a refusal with status 0, both with no build step called |
| Pipeline.ConfirmationGate | main.go:51-56 | for a found episode, a build step is called exactly when the answer is `Y`, `y` or empty; every other answer (`yes`, `Yes`, `n` among them) returns with status 0 and no build step called |
| Pipeline.ExitStatus | main.go:41-59 | the exit status is 0 exactly when the episode is found and either the user declines or every step succeeds |
| Pipeline.ScenarioPublish | main.go:34-154 | episode 5 of a one-item feed is uploaded with title `Test: GCPPodcast 5`, its description and tags `a, gcppodcast, podcast`, then the directory is removed |
| Pipeline.ScenarioNotFound | main.go:98-111 | asking for episode 999 exits with status 1 and no build step is called |
| Pipeline.ScenarioVideoFails | main.go:119-144 | when ffmpeg fails, the run exits with status 1, makes no upload, and still removes the directory |

## Left out

- HTTP retrieval and XML decoding of the feed (main.go:72-96) are network I/O and a library decoder. They are given as a `FeedSource` (unreachable, malformed, or decoded channels).
- `podcast2youtube.CreateImage`, `CreateVideo` and `UploadToYouTube` are foreign calls whose source is not part of this model. Each is modelled as a recorded call whose success is given by the environment.
- `loadPNG` and `writePNG` (main.go:174-207) are file I/O and PNG coding. Each is reduced to a step that succeeds or fails.
- The temporary directory (main.go:115-123) is modelled only as the creation call, its path and the deferred removal call. The removal's own failure is only logged by the source, so it does not affect the result and is not modelled.
- Flag parsing, the prompts and the reading from stdin (main.go:24-39, 47-50) are I/O. The configuration, the number and the answer token are parameters.
- General `fmt.Sprintf` template expansion is not modelled: the title uses the default template only.
- Error message texts are replaced by one error constructor per failing step, carrying the path or number the message names.
- `Join` is plain concatenation with `/`. The path cleaning that `filepath.Join` does is not modelled.
- Go's `int` is 64-bit. The model uses unbounded integers, which also matches printing number values within that range.
- Strings are sequences of characters. Go's UTF-8 rune decoding (invalid bytes becoming U+FFFD) is not modelled.
- `append` in main.go:148 may write into the spare capacity of the episode's tag slice. The source never reads that slice again, so the model treats the tag list as a value.
- The program's crash on a feed without a channel (main.go:98) is excluded by a precondition, not modelled as an outcome.
