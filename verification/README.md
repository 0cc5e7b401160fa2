# aimdb scoring and report pipeline, modelled in Dafny

aimdb rates a film in several steps:

1. It extracts frames and a soundtrack from the film.
2. It lays the frames out on contact sheets.
3. It transcribes the soundtrack in chunks.
4. It asks a language model for category scores out of 30 and for a final review.
5. It prints a report.

This project models the deterministic core of that pipeline, with the
model calls, file system, images and sound as parameters. The core consists of:

- **Score parser.** The score parser turns a free-text model reply into a
  bounded number. It tries four stages in order: a case-insensitive
  `score: N/30`, any `N/30`, the first in-range number on the first line,
  and finally half the maximum.
- **Tier lookup.** A fixed table of 13 integer bands maps scores to
  tiers. The report actually prints the percentage ladders of
  `get_rating_tier`, `get_final_rating_emoji` and `get_score_emoji`.
- **Text analyzer.** It counts the sentences split on ". ", the
  whitespace words and the dialogue sentences (any sentence holding a
  quote).
- **Category scoring and the report.**
  - The category scores have fixed fallbacks.
  - The 100-point total is the mean of the two category scores, rescaled,
    and is shown with a ±3 band.
  - Long titles are truncated and the verdict is wrapped at 80 characters.
  - The report parses the final review into sections and each section into
    bullet points.
- **Contact sheets.** The sorted `.jpg` frames are cut into sheets of
  200. Each sheet is a 10 × 20 grid of 160 × 90 cells in row-major order.
  A frame that fails to open leaves its cell black.
- **Audio.** The extracted soundtrack's path is derived from the film's
  name. The audio bytes are cut into fixed-size chunks with sequential
  names, and the chunk transcripts are joined by spaces.
- **Expert panel.** Usable reviews are kept in parallel lists, and the
  final score is their mean, or 0 when none is kept.

Python's string operations are written out as Dafny functions in `Text`
and `Paths`:

- `split(sep)`, `split()`, `strip()`, `strip(chars)` and `join`;
- `str(n)` and `{n:02d}`;
- `os.path.basename`, `os.path.dirname`, `os.path.join` and `os.path.splitext`.

A call outside the model is an `Attempt<T>`: either `Returned(value)` or
`Raised`. The loops of the source are methods proved against specification
functions:

- `parse_review_sections` and `parse_bullet_points`;
- the sheet loops and `_create_sheet`;
- `split_audio` and `transcribe_audio`;
- `run_expert_panel`.

The images the source pastes into in place are modelled by a `Sheet`
class whose `cells` map is updated by `Paste`.

Where the code and its documentation disagree, the model follows the code
(the one exception, the expert panel's unreachable fallback, is modelled
both as written and as intended; see "## Findings"):

- A score such as 94.999 falls between the integer bands (90–94 and
  95–100) and is "Unrated".
- The screenplay fallback is the literal 15, not half of the maximum.
- `_parse_score` is defined twice in `ExpertReviewSystem`, with the same
  body. The model has one parser, `ScoreParser.ParseScore`.

## Model

| member | source | states |
|---|---|---|
| ScoreParser.ParseScore | rating_system.py:389-422 | for a non-negative maximum the parsed score always lies in [0, max_points] |
| ScoreParser.LabelledFirst | rating_system.py:393-397 | the leftmost case-insensitive `score:`-whitespace-number-`/30` match decides the score, clamped to [0, max_points] |
| ScoreParser.BareSecond | rating_system.py:399-404 | with no labelled match, the leftmost `number/30` decides, clamped |
| ScoreParser.FirstLineStage | rating_system.py:406-418 | with no `/30` match, the result is the first number of the first line lying in [0, max_points], or max_points * 0.5 |
| ScoreParser.LabelledImpliesBare | rating_system.py:393-404 | every labelled match also contains a bare match, so the bare stage runs only when no labelled match exists |
| ScoreParser.NoDigitsDefault | rating_system.py:415-418 | a reply without digits scores exactly half the maximum |
| ScoreParser.NoColonNoLabel | rating_system.py:393-394 | without a ':' the labelled pattern cannot match |
| ScoreParser.NoSlashNoMatch | rating_system.py:393-402 | without a '/' neither `/30` pattern matches |
| ScoreParser.Clamp | rating_system.py:397 | `min(max(0, s), max_points)` lies in [0, max_points] and leaves an in-range score unchanged |
| ScoreParser.FirstInRange | rating_system.py:410-413 | returns a token that is in range, and returns None only when no token is in range |
| ScoreParser.FirstLine | rating_system.py:407 | the first line is a prefix of the reply and holds no newline |
| ScoreParser.NumberAt | rating_system.py:408 | a number token starts exactly where a digit starts and has a non-negative value |
| ScoreParser.Search | rating_system.py:394 | `re.search` finds the leftmost position where the pattern matches |
| ScoreParser.ExplicitScoreWins | rating_system.py:393-397 | "Score: 22/30, pacing 15/30" scores 22 |
| ScoreParser.ExplicitScoreClamped | rating_system.py:397 | "SCORE:45/30" scores 30 |
| ScoreParser.UnanchoredDenominator | rating_system.py:400-404 | "Rated 5/300" scores 5, because the match is not anchored after 30 |
| ScoreParser.OutOfRangeLine | rating_system.py:407-409 | the first line of "45 20\n9" is "45 20", which holds the tokens 45 and 20 |
| ScoreParser.FirstLineSkipsOutOfRange | rating_system.py:406-413 | "45 20\n9" scores 20: the out-of-range 45 is skipped |
| Tiers.Lookup | rating_system.py:66-70 | the tier is the name of the first band holding the score, and "Unrated" when no band holds it |
| Tiers.TierTableContiguous | rating_system.py:49-63 | the bands run from 100 down to 0, each starting one below the previous one's lower bound |
| Tiers.ContiguousDisjoint | rating_system.py:49-63 | bands of a contiguous table never overlap |
| Tiers.ContiguousCovers | rating_system.py:49-63 | every integer between the lowest and highest bound lies in some band |
| Tiers.TiersDisjoint | rating_system.py:49-63 | no score lies in two of the 13 bands |
| Tiers.GetTierInBand | rating_system.py:66-69 | a score in band i gets band i's name |
| Tiers.TiersCoverScale | rating_system.py:49-70 | every integer score in 0..100 lies in a band and is never "Unrated" |
| Tiers.GetTierUnrated | rating_system.py:66-70 | "Unrated" exactly when no band holds the score |
| Tiers.GetTierBetweenBands | rating_system.py:66-70 | negative scores, scores above 100 and scores strictly between two bands are "Unrated" |
| Tiers.GetTierExamples | rating_system.py:49-70 | 95 is "Timeless Masterpiece", 94.5 is "Unrated", and every score in [0, 29] is "Critically Flawed" |
| Tiers.StepsMonotone | rating_system.py:313-359 | a higher percentage reaches at least as many thresholds of a ladder |
| Tiers.RatingStepsClosedForm | rating_system.py:344-359 | the steps of the 0.9 … 0.4 ladder reached by a percentage, case by case |
| Tiers.EmojiStepsClosedForm | rating_system.py:313-325 | the steps of the 0.8 … 0.2 ladder reached by a percentage, case by case |
| Tiers.RatingAndEmojiAgree | rating_system.py:327-359 | the rating tier and the rating emoji sit on the same step of the ladder, and both only rise with the percentage |
| Tiers.GetScoreEmoji | rating_system.py:313-325 | raises (division by zero) exactly when the maximum is 0 |
| Tiers.ScoreEmojiOutOf30 | rating_system.py:313-325 | out of 30 it never raises, its rank only rises with the score, 24 and up is the camera and below 6 the warning |
| TextAnalyzer.CountDialogue | rating_system.py:115 | the dialogue count is at most the number of sentences; it is 0 exactly when no sentence quotes, and all exactly when every one does |
| TextAnalyzer.Ratio | rating_system.py:103 | a share `r` with r * whole = part, and at most 1 when part ≤ whole |
| TextAnalyzer.DialogueMarkers | rating_system.py:111-121 | the dialogue count over the ". " pieces, and its share, which is at most 1 |
| TextAnalyzer.AnalyzeText | rating_system.py:84-109 | all zeros for a falsy transcription or one without "text"; otherwise at least one sentence, the word count, average = words / sentences, and dialogue ≤ sentences with ratio in [0, 1] |
| TextAnalyzer.SentencesPartitionText | rating_system.py:93 | the sentences joined with ". " give back the text, and no sentence holds ". " |
| TextAnalyzer.EmptyTextOneSentence | rating_system.py:93-103 | the empty text has one sentence and no words |
| TextAnalyzer.DialogueExampleSplit | rating_system.py:93 | `He said "hi". She left.` splits into two sentences |
| TextAnalyzer.DialogueExampleCount | rating_system.py:115 | of those two sentences, one is dialogue |
| TextAnalyzer.DialogueExample | rating_system.py:84-121 | that text has 2 sentences, 1 dialogue sentence and ratio 0.5 |
| Text.Split | rating_system.py:93 | `str.split(sep)` gives at least one piece |
| Text.SplitJoin | rating_system.py:93 | splitting and joining with the same separator is the identity, and no piece holds the separator |
| Text.StripTrims | rating_system.py:582 | `str.strip()` neither starts nor ends with whitespace |
| Text.StripCharsMiddle | rating_system.py:590 | `str.strip(chars)` is a contiguous middle part of the text, neither starting nor ending with a character of `chars`; everything removed on either side is in `chars` |
| Text.WordsPartition | rating_system.py:94 | the `split()` words hold no whitespace, and together they hold all non-whitespace characters of the text, in order |
| Text.NatToStringRoundTrip | audio_extractor.py:97 | `str(i)` is a non-empty digit string without a leading zero, and reading it back gives i |
| Text.ZeroPad2 | sheet_generator.py:51 | `{k:02d}` has at least two digits and reads back as k |
| Text.ZeroPad2Injective | sheet_generator.py:51 | distinct sheet numbers pad differently |
| Paths.BaseName | audio_extractor.py:19 | the basename is a '/'-free suffix of the path |
| Paths.DirName | sheet_generator.py:19 | the dirname is a prefix of the path |
| Paths.JoinBaseName | sheet_generator.py:51 | joining a plain file name onto a directory gives a path whose basename is that name |
| Paths.StemOf | audio_extractor.py:19 | `splitext(name)[0]` is a prefix of the name |
| Paths.StemExamples | audio_extractor.py:19 | "movie.mp4" → "movie", "my.movie.mkv" → "my.movie", ".hidden" and "noext" unchanged |
| ReviewParser.Lines | rating_system.py:581 | `split('\n')` always gives at least one line |
| ReviewParser.HeaderNameTrimmed | rating_system.py:590 | the section name is the header with its leading and trailing '*' and ':' removed: it neither starts nor ends with either, and only those were cut |
| ReviewParser.FlushSection | rating_system.py:588-596 | closing the scan adds the open section's key when there is one with a non-empty name |
| ReviewParser.ParseReviewSections | rating_system.py:575-598 | the loop computes the specified section map |
| ReviewParser.ScanSectionsSplit | rating_system.py:581-593 | scanning a prefix and then the rest equals scanning the whole |
| ReviewParser.SectionPersists | rating_system.py:586-593 | a stored section survives the lines that do not re-open it |
| ReviewParser.SectionCollects | rating_system.py:591-596 | an open section collects the following non-blank, non-header lines, joined by '\n' |
| ReviewParser.LastHeaderWins | rating_system.py:581-598 | a section's text is the body after its last header, so a repeated header overwrites the earlier body |
| ReviewParser.SectionNamesFromHeaders | rating_system.py:587-590 | every section name comes from a header line |
| ReviewParser.SectionKeys | rating_system.py:586-596 | a name is a section key exactly when some header line carries it and it is not empty |
| ReviewParser.NoHeaderNoSections | rating_system.py:586-598 | text without a header yields no sections |
| ReviewParser.PreambleDropped | rating_system.py:586-598 | lines before the first header belong to no section: the result equals parsing the lines from the first header on |
| ReviewParser.PointText | rating_system.py:614 | the point text is no longer than its line |
| ReviewParser.FlushPoint | rating_system.py:612-619 | closing the scan adds one point exactly when the current point is non-empty |
| ReviewParser.ParseBulletPoints | rating_system.py:600-621 | the loop computes the specified bullet list, or raises where the source does |
| ReviewParser.ScanRaisesIff | rating_system.py:605-616 | the scan raises exactly when a stripped line is a single digit |
| ReviewParser.BulletsRaiseIff | rating_system.py:611 | `parse_bullet_points` raises IndexError exactly when some stripped line is one digit |
| ReviewParser.MarkersAndLeadingBound | rating_system.py:605-619 | markers plus a leading unmarked run never outnumber the non-blank lines |
| ReviewParser.BulletCount | rating_system.py:600-621 | the number of points is the number of marker lines, plus one when unmarked text comes first, and never exceeds the non-blank lines |
| ReviewParser.PlainLinesJoin | rating_system.py:615-616 | unmarked lines are appended to the current point |
| ReviewParser.UnmarkedTextIsOnePoint | rating_system.py:615-621 | text without markers is one point, its non-blank lines joined by spaces, or no point when blank |
| ReviewSystem.AnalyzeVisuals | rating_system.py:424-440 | a failure (including no expert to choose) gives (15, "Visual analysis failed"); otherwise the parsed reply out of 30; always in [0, 30] |
| ReviewSystem.AnalyzeScreenplay | rating_system.py:459-475 | a falsy transcription gives (0, "No transcription available"); a failure gives (15, "Screenplay analysis failed"); otherwise the parsed reply; always in [0, 30] |
| ReviewSystem.TruncateTitle | rating_system.py:201-203 | titles of at most 50 characters are kept; longer ones become their first 47 characters plus "...", 50 in all |
| ReviewSystem.Total100 | rating_system.py:206-211 | the total is (visual + screenplay) * 5 / 3, in [0, 100] for category scores in [0, 30] |
| ReviewSystem.ConfidenceRange | rating_system.py:214 | the band is 6 wide and centred on the total |
| ReviewSystem.WrapVerdict | rating_system.py:297-299 | the verdict lines concatenate back to the stripped verdict; there are ceil(len / 80) of them, each 1–80 long, all but the last exactly 80 |
| ReviewSystem.WrapVerdictSlices | rating_system.py:299 | line i is `verdict[80 i : 80 i + 80]` |
| ReviewSystem.ScoreCardFacts | rating_system.py:205-244 | the total is (v + s) * 5 / 3, the band is total ± 3, and the printed rating and emoji sit on the same ladder step. Rating and category emoji only rise with the scores. The total lies in [0, 100] for scores in [0, 30], and 27 and 27 give a Masterpiece |
| ReviewSystem.SectionPoints | rating_system.py:273-289 | a missing section gives no list; a present one raises exactly when its bullet parse raises |
| ReviewSystem.FormatReviewOutput | rating_system.py:198-311 | the printed report, built step by step, is the specified report |
| ReviewSystem.ReportRaisesIff | rating_system.py:273-289 | formatting raises exactly when the strengths or improvements section is present and its bullet parse raises |
| ReviewSystem.ReportHeader | rating_system.py:200-244 | the report shows the truncated title (at most 50 characters) and the score section of the two category scores |
| ReviewSystem.ReportSections | rating_system.py:263-300 | strengths and improvements appear exactly when their sections exist, as their bullet lists; the verdict appears exactly when present, wrapped back to its stripped text |
| ReviewSystem.GenerateExpertReview | rating_system.py:477-510 | None exactly when no expert can be chosen, the final call raises or formatting raises; otherwise the category scores in [0, 30], a missing screenplay score reported as 0, and the printed report |
| Common.CeilDiv | sheet_generator.py:36 | `(n + k - 1) // k` is the least q with q * k ≥ n |
| Common.ChunksRoundTrip | audio_extractor.py:92-101 | the chunks concatenate back to the input; each is 1 to size long, all but the last exactly size |
| Common.ChunksCount | audio_extractor.py:87-92 | there are ceil(n / size) chunks |
| Common.ChunkAt | audio_extractor.py:92-93 | chunk i is the slice starting at offset i * size, cut at the end |
| Common.ChunksStep | audio_extractor.py:92-93 | cutting one chunk off at offset pos leaves the chunks of the rest |
| SheetGenerator.CellInBounds | sheet_generator.py:67-81 | for idx < 200 the 160 × 90 cell at ((idx % 10) * 160, (idx // 10) * 90) lies inside the 1600 × 1800 sheet |
| SheetGenerator.CellsDisjoint | sheet_generator.py:77-81 | distinct indices get distinct, non-overlapping cells |
| SheetGenerator.Sheet.Blank | sheet_generator.py:72 | a new sheet has the given size and nothing pasted |
| SheetGenerator.Sheet.Paste | sheet_generator.py:86 | pasting records the frame at the offset and changes nothing else |
| SheetGenerator.PlacedCells | sheet_generator.py:75-90 | the cell of frame i shows frame i exactly when it opened; no other cells are painted |
| SheetGenerator.FailureIsolation | sheet_generator.py:83-90 | a frame that fails leaves its cell black and every other frame where it would otherwise be |
| SheetGenerator.CreateSheet | sheet_generator.py:64-96 | a 1600 × 1800 sheet with every frame that opens in its cell; None when no canvas can be created |
| SheetGenerator.LexTotal | sheet_generator.py:24 | Python's string order compares any two strings |
| SheetGenerator.Insert | sheet_generator.py:24-28 | inserting into a sorted list keeps it sorted and adds exactly the element |
| SheetGenerator.SortStrings | sheet_generator.py:24-28 | `sorted` gives a sorted permutation of its input |
| SheetGenerator.JpgPaths | sheet_generator.py:24-28 | exactly the `.jpg` entries are kept, joined onto the frames directory, one path per such entry |
| SheetGenerator.SheetSlicing | sheet_generator.py:35-46 | sheet k gets `frames[200k : min(200k + 200, n)]`; there are (n + 199) // 200 such slices, each 1–200 long, and together in order they are the frame list |
| SheetGenerator.SheetNamesDistinct | sheet_generator.py:51 | distinct sheet numbers give distinct file names |
| SheetGenerator.SavedSheetsCount | sheet_generator.py:43-53 | at most one file per sheet, and exactly one per sheet when every canvas is created |
| SheetGenerator.SavedSheetsInOrder | sheet_generator.py:43-53 | when every canvas is created, file j is `sheet_{j:02d}.jpg` |
| SheetGenerator.SavedSheetsNamedBySheet | sheet_generator.py:49-53 | every saved file comes from a sheet whose canvas was created, carries that sheet's own number and shows that sheet's slice, so a missing sheet leaves a gap in the numbering |
| SheetGenerator.SaveSheets | sheet_generator.py:41-55 | the loop saves the specified sheets |
| SheetGenerator.GenerateSheets | sheet_generator.py:13-62 | None exactly when listing raises or finds no `.jpg` frame, and nothing is saved then; otherwise the "sheets" directory beside the frames directory, with the specified sheets saved |
| AudioExtractor.ExtractAudio | audio_extractor.py:16-68 | "<stem>/audio/audio.wav" exactly when ffmpeg returns 0 and the file exists; None otherwise |
| AudioExtractor.DirNameOfChild | audio_extractor.py:74 | the dirname of "a/b" is a, for a plain name b |
| AudioExtractor.PathJoinChild | audio_extractor.py:74 | joining a relative name onto a directory puts exactly one '/' between them |
| AudioExtractor.AudioFileName | audio_extractor.py:19-24 | the extracted file is called "audio.wav" |
| AudioExtractor.AudioChunksDir | audio_extractor.py:19-24 | the chunks of the extracted audio go to "<stem>/audio/chunks" |
| AudioExtractor.TotalChunksCount | audio_extractor.py:85-92 | the logged `total_chunks` is ceil(len / size), the number of chunks written |
| AudioExtractor.ChunkNames | audio_extractor.py:97 | name i is `{chunks_dir}/chunk_{i}.wav` |
| AudioExtractor.ChunkNamesDistinct | audio_extractor.py:97 | distinct chunks get distinct names |
| AudioExtractor.SplitAudio | audio_extractor.py:70-109 | no chunks when the file cannot be read or the chunk size is 0 or negative; otherwise the consecutive chunks of the bytes, with sequential names |
| AudioExtractor.WriteChunks | audio_extractor.py:92-102 | the loop writes the consecutive `chunk_size` slices of the frames, in order and covering all of them, and names the i-th one `{chunks_dir}/chunk_{i}.wav` |
| AudioExtractor.ChunkSlicing | audio_extractor.py:92-101 | there are `total_chunks` chunks, and chunk i is `frames[i*size : i*size + size]` |
| AudioExtractor.Texts | audio_extractor.py:118-135 | one transcript per chunk, in chunk order: text i is chunk i's transcript |
| AudioExtractor.TranscribeAudio | audio_extractor.py:111-151 | None exactly when there are no chunks or one fails; otherwise "text" is the transcripts joined by single spaces |
| AudioExtractor.TranscriptLength | audio_extractor.py:134-136 | the combined text is the transcripts plus one space between each two |
| AudioExtractor.TranscriptAnalyzable | audio_extractor.py:134-136 | a combined transcript is a truthy dictionary with "text", which the analyzer reads as at least one sentence |
| ExpertReview.GenerateReviewAsWritten | expert_review.py:17-29 | a failing call raises; a successful one gives (review, score) |
| ExpertReview.GenerateReview | expert_review.py:17-29 | a failing call gives (None, 0.0); a successful one gives (review, score) |
| ExpertReview.FallbackUnreachable | expert_review.py:21-29 | on failure the code as written raises where (None, 0.0) was meant; on success the two agree |
| ExpertReview.Scores | expert_review.py:40-41 | the scores list is parallel to the reviews list |
| ExpertReview.Smallest | expert_review.py:44 | the least kept score |
| ExpertReview.Largest | expert_review.py:44 | the greatest kept score |
| ExpertReview.SumBounds | expert_review.py:44 | n * lo ≤ sum ≤ n * hi for scores in [lo, hi] |
| ExpertReview.MeanBetween | expert_review.py:44 | the mean lies between any lower and upper bound of the scores |
| ExpertReview.KeptEntries | expert_review.py:37-42 | the entries are indexed by strictly increasing profile positions: entry m is the name, review and score of its profile, each with a non-empty review and a non-zero score, and every profile left out has a failed call, an empty review or a zero score |
| ExpertReview.KeptStep | expert_review.py:38-41 | a failed, empty or zero-scored answer adds nothing; a usable one appends its entry |
| ExpertReview.AllUsableAllKept | expert_review.py:37-42 | when every answer is usable, every profile is kept, in order |
| ExpertReview.RunExpertPanel | expert_review.py:31-45 | with the intended `generate_review`: the kept entries, their scores in the same order, and the mean score: 0 when nothing is kept, otherwise between the least and the greatest kept score |
| ExpertReview.RunExpertPanelAsWritten | expert_review.py:27-45 | as written (`print_error` is never imported): the panel raises if and only if some reviewer call fails (the NameError escapes the loop); otherwise the same entries, scores and mean as `RunExpertPanel` |

## Left out

- Language-model calls, the speech-to-text service, ffmpeg, PIL and `wave` are left out. Their outcomes are parameters (`Attempt` values, or `opens` and `canvasOk` predicates).
  - Prompt texts are not modelled.
  - Image pixels are not modelled: a sheet records which frame sits at which offset.
- The random choice of an expert is left out, because it only picks which profile is used. Only whether a profile exists is modelled: with none, `random.choice` raises.
- `calculate_confidence_interval` and `format_final_summary` are left out. They rely on numpy floating-point statistics.
- The star rating computed in `format_review_output` is left out: it is never printed.
- Colours, emoji rendering, the expert-panel lines of the report and the logging calls are left out. The report keeps the labels and numbers it shows.
- Numbers are exact reals, not binary floating point. The ±3 band and the ladder thresholds are therefore exact.
- `\d`, `isdigit` and case-insensitive matching cover ASCII plus the 'ſ' that `(?i)` folds to 's'. Other Unicode digits are not modelled.
- The following failures are not modelled:
  - creating directories fails;
  - saving a sheet fails;
  - writing a chunk file fails;
  - writing the transcription file fails.
- RunExpertPanel: follows the corrected `generate_review`, which skips a profile whose reviewer call fails; the code as written raises NameError on the first failing call and aborts the panel, which `RunExpertPanelAsWritten` models.
- SplitAudio: the `if not chunk_frames: break` guard is not modelled, because the slice at an offset below the length is never empty.
- The frame extraction module, the command-line entry point and the utility module are not part of this model.

## Findings

| source | as written | input that shows it | evidently intended | confidence | as-written member | corrected member |
|---|---|---|---|---|---|---|
| expert_review.py:3, 27-29 | the error branch calls `print_error`, which the module never imports, so a failing reviewer call raises NameError | any reviewer call that raises, e.g. an unparsable score | return `(None, 0.0)` so that `run_expert_panel` skips the profile | not executed | ExpertReview.GenerateReviewAsWritten (exhibited by ExpertReview.FallbackUnreachable; at panel level ExpertReview.RunExpertPanelAsWritten) | ExpertReview.GenerateReview (used by ExpertReview.RunExpertPanel) |
