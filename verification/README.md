# Hebrew image-generation evaluation, modelled in Dafny

The repository evaluates how well text-to-image models render Hebrew
words. Two scripts (`run_eval.py` for series 1 and `run_eval_series2.py`
for series 2) send the same two test words, שלום and פירגון, to a list of
models. Each job skips a model whose annotated output already exists. For
every other model it asks the provider for an image, extracts the image
URL from the reply, downloads the image and saves it as a raw file. It
then pastes the image onto a taller canvas with the model name captioned
in a bar underneath, and deletes the raw file. `main` records one flag per
(word, model) pair. `create_hero.py` arranges four outputs in a 2x2 grid
with verdict marks and labels. `create_pdf.py` prints the hand-scored
result tables, with Hebrew words reversed run by run so that a
left-to-right renderer shows them correctly.

The model is functional. The file system is the set of existing file
paths. The provider's reply is a loosely typed JSON-like value. Every
outside effect is a parameter: directory creation, the test for an
existing output, the reply, the download, each save and the delete in `Job.Env`, text bounding boxes
measured by PIL in `Caption.BBox`, and loadable font files as a set of
paths.

Modules:

- `Seqs`: reversal, substring search and the insertion-ordered dict used for `results`.
- `Hebrew`: `reverse_hebrew` of the report generator, with a reference definition, a positional contract and the scanning loop.
- `Naming`: `safe_name`, the raw and final artifact paths, and `normalize_model_name`.
- `Response`: the reply value and the ordered URL lookup.
- `Job`: the request-size choice, one call of `generate_image`, and the summary lines.
- `Batch`: the nested loops of `main` and the `results` dict they build.
- `Config`: the word and model lists of both scripts.
- `Fonts`: the try-each-font-file loops.
- `Caption`: the caption arithmetic of `annotate_image`.
- `Hero`: the grid of `create_hero.py`.
- `Report`: the result tables and headings of `create_pdf.py`.

The code behaves as follows in four places where a reader might expect
otherwise, and the model follows the code:

- Artifact names are not collision-free: "Flux 2" and "Flux.2" share the
  safe name `flux-2`. Distinct paths are proved only for the two shipped
  model lists.
- A job that returns `False` can still leave its final artifact (and its
  raw file) on disk. The annotated image is written before the raw file is
  deleted, and a failing delete lands in the exception handler.
- `mkdir` and `exists` run outside the job's `try`. A failing directory
  creation, or a test for the output that raises (a directory that cannot
  be searched), therefore ends the whole program rather than yielding
  `False`.
- A bare URL string as the first `images` entry makes `.get` raise. The
  job then fails although the reply holds a usable URL.

## Model

| member | source | states |
|---|---|---|
| Seqs.ReverseInvolution | create_hero.py:7-10 | reversing a sequence twice gives it back |
| Seqs.ReverseConcat | create_pdf.py:32-36 | the reverse of a + b is the reverse of b followed by the reverse of a |
| Seqs.Contains | run_eval.py:82-98 | Python's `sub in s` holds exactly when `sub` occurs at some index of `s` |
| Seqs.Put | run_eval.py:156-160 | `d[k] = v` appends a new key at the end; for an existing key it keeps the length and every entry of another key; k is present afterwards |
| Seqs.GetPut | run_eval.py:156-160 | after `d[k] = v`, reading k gives v |
| Seqs.LastEntry | run_eval.py:156-160 | when the last entry is the only one for k, reading k gives its value and assigning k replaces that entry in place |
| Seqs.FromDistinctPairs | run_eval.py:156-160 | a dict built by assigning pairs with distinct keys holds exactly those pairs, in order |
| Hebrew.HebrewRangeInclusive | create_pdf.py:28 | U+0590 and U+05FF are Hebrew; U+058F and U+0600 are not |
| Hebrew.ReverseRuns | create_pdf.py:22-37 | the reversal keeps the length of its input (so the empty string maps to itself) |
| Hebrew.ReverseRunsMeetsContract | create_pdf.py:27-36 | every non-Hebrew character keeps its index, and every maximal Hebrew run is written back reversed in its own index span |
| Hebrew.ContractCharacterisesReverseRuns | create_pdf.py:27-36 | that positional contract has exactly one solution, the reference definition |
| Hebrew.ReverseHebrew | create_pdf.py:22-37 | the buffer-and-flush scan, including the final flush of a trailing run, meets the positional contract and equals the reference definition |
| Hebrew.NoHebrewUnchanged | create_pdf.py:27-34 | a string without Hebrew characters is returned unchanged |
| Hebrew.AllHebrewReversed | create_pdf.py:28-36 | a string of Hebrew characters only is fully reversed |
| Hebrew.ReverseRunsInvolution | create_pdf.py:28-36 | applying the reversal twice restores the string |
| Hebrew.ReverseRunsConcat | create_pdf.py:35-36 | f(a + b) == f(a) + f(b) whenever the join is not between two Hebrew characters |
| Hebrew.WordThenOther | create_pdf.py:181 | a Hebrew word followed by text without Hebrew: only the word is reversed |
| Hebrew.MixedLabelExample | create_pdf.py:22-37 | "שלום world 123" becomes "םולש world 123" |
| Hebrew.ShalomReversed | create_pdf.py:151 | the first header word is shown as its full reverse |
| Hebrew.FirgunReversed | create_pdf.py:151 | the second header word is shown as its full reverse |
| Naming.CaseFacts | run_eval.py:70 | ASCII case conversion keeps letters letters and leaves every other character alone |
| Naming.SafeNameShape | run_eval.py:70 | the safe name rewrites each character separately: blanks and dots become dashes, capitals become lower case; so it has no blank, no dot and no capital |
| Naming.SafeNameIdempotent | run_eval.py:70 | a safe name is its own safe name |
| Naming.SafeNameNotInjective | run_eval.py:70 | two different display names can share one safe name |
| Naming.JobPaths | run_eval.py:67-72 | both paths sit in `<base>/<word>/` and are named after the safe name; the raw path is the final path's stem plus `_raw` and never equals it |
| Naming.FinalPathInjective | run_eval.py:67-72 | with slash-free word names, two final paths coincide exactly when the words and the safe names do |
| Naming.RawNeverFinal | run_eval.py:67-72 | with slash-free word names and no underscore in the model name, no raw path equals any final path |
| Naming.SafeNamePlain | run_eval.py:70-72 | a safe name is a segment `pathlib` keeps as written (non-empty, not ".", slash-free) exactly when the display name is non-empty and slash-free |
| Naming.LastSegment | run_eval.py:35 | `split("/")[-1]` is a slash-free suffix that is the whole string or follows a slash |
| Naming.LastSegmentUnique | run_eval.py:35 | any slash-free suffix that is the whole string or follows a slash is the last segment |
| Naming.TitleAt | run_eval.py:37 | `title()` lower-cases a letter after a letter and upper-cases every other character |
| Naming.TitleIdempotent | run_eval.py:37 | title-casing twice changes nothing more |
| Naming.TitleShape | run_eval.py:37 | title-casing keeps the length, keeps every non-letter where it is, turns each letter into its lower- or upper-case form, adds no '/', '-' or '_', and upper-cases exactly the letters that start a word |
| Naming.NormalizedNameShape | run_eval.py:33-37 | a normalised name is one path segment long, contains no '/', '-' or '_', and capitalises exactly its word starts |
| Naming.NormalizeExample | run_eval.py:33-37 | "fal-ai/flux-2" normalises to "Flux 2" |
| Response.Len | run_eval.py:117 | `len` raises on None, booleans and integers; otherwise it is zero exactly for a falsy value |
| Response.ExtractUrl | run_eval.py:116-127 | a non-dict reply is stringified; the lookup finds nothing exactly when `images` is absent or empty and neither `image` nor `output` is present |
| Response.ExtractUrlIsFirstMatch | run_eval_series2.py:81-92 | the nested conditionals equal an ordered list of strategies (images, image, output) in which the first that applies wins |
| Response.EmptyImagesFallsThrough | run_eval.py:117-120 | an empty `images` list does not stop the lookup; `image` is used |
| Response.BareStringEntryRaises | run_eval.py:118 | a bare string as the first `images` entry raises |
| Response.ImagesUrlLocated | run_eval.py:117-118 | the `url` of the first `images` entry is taken |
| Job.ChooseSizeByFamily | run_eval.py:82-113 | series 1 asks for 16:9 exactly when the lower-cased id contains "imagen", "gemini" or "ideogram", and for 1920x1080 otherwise (the recraft branch included); series 2 always asks for 1920x1080 |
| Job.ChooseSizeIgnoresCase | run_eval.py:82-98 | the size choice does not depend on the case of the model id |
| Job.ReplyUrlText | run_eval.py:115-130 | a string reply is downloaded as it is; any other reply that is not a dict (None, a number, a list) yields no usable URL; a dict with none of the known keys never reaches the download |
| Job.GenerateImage | run_eval.py:65-144 | a job raises exactly when creating its directory or testing for its final artifact raises; it sends a request exactly when the final artifact is missing, and that request holds the word's prompt and the size chosen for the model |
| Job.JobEffects | run_eval.py:74-140 | an existing artifact means success and no file change; otherwise the job succeeds exactly when every step does, and then the final artifact exists and the raw file is gone; only the job's own two files change |
| Job.FailedJobCanLeaveArtifact | run_eval.py:135-144 | a failing delete gives `False` with both files on disk, and the next run skips the job and reports success |
| Job.SummaryLineShows | run_eval.py:167-171 | a summary line starts with the job's mark, ends with the model name and differs between success and failure |
| Batch.Record | run_eval.py:158-160 | recording a returned flag stores it under the word and the model, keeps every other word's entry and appends the request sent, if any; the state is crashed exactly when the job raised |
| Batch.CrashIffUnhandled | run_eval.py:67-76 | the program ends with an exception exactly when, for some job it reaches, creating the directory or testing for the final artifact raises |
| Batch.SeparatedByNames | run_eval_series2.py:57-62 | distinct slash-free word names, distinct safe names and names without underscores give every job its own final artifact, never the raw file of any job |
| Batch.RunSummary | run_eval.py:150-160 | `results` lists every word in order, each with every model in order and one flag per pair; the flag is set exactly when the artifact pre-existed or every step succeeded; each flagged artifact exists at the end; one request is sent per missing artifact, in loop order |
| Batch.RowIsAssigned | run_eval.py:156-160 | a word's dict, filled by one assignment per model in model order, has distinct keys, so no assignment overwrites another and it lists every model once, in order |
| Batch.ResultsShape | run_eval_series2.py:114-125 | the results dict has one entry per word and one flag per model, in order |
| Batch.RerunIsNoOp | run_eval.py:74-76 | once every artifact exists, a run sends no request, changes no file and reports every job as a success |
| Config.Series2IsSubset | run_eval_series2.py:15-26 | series 2 runs four of the twelve series-1 models on the same two words, with different prompts |
| Config.Series1Results | run_eval.py:150-160 | a series-1 run without an unhandled exception writes "shalom" then "firgun", each with twelve flags named after the series-1 models in order, each flag as the job's outcome predicts |
| Config.Series2Results | run_eval_series2.py:114-125 | a series-2 run without an unhandled exception writes the same two words, each with four flags named after the series-2 models in order |
| Config.ShippedPathsPlain | run_eval_series2.py:15-28 | every word name and model safe name of both shipped scripts is a segment `pathlib` keeps as written |
| Config.SafeNamesApart | run_eval.py:70 | display names told apart by length or by first letter have distinct safe names |
| Config.ScriptsSeparated | run_eval_series2.py:15-28 | both shipped scripts give every (word, model) pair its own final artifact |
| Fonts.FirstLoadable | create_hero.py:45-51 | the loop stops at the first path that loads, or at none exactly when no path loads |
| Fonts.TryFonts | create_hero.py:57-63 | with no fallback the font is None exactly when no path loads, otherwise the first loadable file at the given size |
| Fonts.FontOrDefault | create_hero.py:45-54 | the built-in font is used exactly when no path loads, otherwise the first loadable file |
| Fonts.SameFileAtEverySize | create_hero.py:45-63 | two scans of the same list settle on the same file whatever the size |
| Caption.Centre | run_eval.py:58-59 | `(extent - size) // 2` leaves margins that differ by at most one pixel |
| Caption.CentreInside | run_eval.py:58-59 | a centred box starts inside the extent exactly when it fits, and then ends inside it too; a wider one starts before 0 and reaches at least the far end, ending past it when at least two pixels too wide |
| Caption.CentredOnlyWithoutOffset | run_eval.py:56-61 | along one axis, ink drawn at the centred position of its box is centred exactly when the box starts at the draw origin |
| Caption.CentredOriginCentres | run_eval.py:56-61 | moving the draw origin back by the box's offset centres every ink span that fits |
| Caption.CaptionInBar | run_eval_series2.py:45-50 | for a caption no wider than the picture and no taller than 60 pixels, the box placed at the draw origin is centred in the bar under the picture; the drawn ink is centred horizontally exactly when the box's left offset is 0 and vertically exactly when its top offset is 0 |
| Caption.CaptionDrawnLow | run_eval.py:56-61 | a caption box starting 9 pixels below the origin puts the ink 25 pixels below the picture and 8 pixels above the canvas edge |
| Caption.CaptionDrawnOffCanvas | run_eval.py:56-61 | a caption box starting 40 pixels below the origin puts the ink 20 pixels past the canvas |
| Caption.CentredCaptionInBar | run_eval.py:55-61 | with the offsets subtracted, every fitting caption's ink lies in the bar, centred both ways to within a pixel |
| Caption.CaptionClipped | run_eval.py:56-58 | a caption wider than the picture starts left of the canvas |
| Caption.CaptionFont | run_eval.py:50-53 | the caption uses DejaVu Sans Bold at 36 points if it loads, else the built-in font |
| Hero.ReverseWhole | create_hero.py:7-10 | the whole-text reversal keeps the length |
| Hero.ReverseWholeInvolution | create_hero.py:7-10 | applying it twice restores the text |
| Hero.ReverseWholeOnHebrew | create_hero.py:7-10 | on purely Hebrew text it agrees with the run-wise reversal |
| Hero.ReverseWholeOnMixed | create_hero.py:7-10 | on mixed text it differs from the run-wise reversal, because Latin letters and digits are reversed too |
| Hero.Compose | create_hero.py:65-100 | one tile is drawn per entry |
| Hero.TileIndex | create_hero.py:66-67 | index and (row, column) determine each other, and the first cols * rows indices are exactly those in the grid's rows |
| Hero.TileAt | create_hero.py:66-67 | the tile of row r and column c has index r * cols + c |
| Hero.TileOnCanvas | create_hero.py:31-32 | a grid tile lies on the canvas with at least `padding` pixels before it and `padding - 1` after it (the label rectangle includes its far corner), its label strip directly under its thumbnail |
| Hero.TilesApart | create_hero.py:69-70 | tiles in different cells share no pixel |
| Hero.PlacesApart | create_hero.py:65-70 | distinct entries get tiles that share no pixel |
| Hero.LabelInStrip | create_hero.py:94-100 | for a label that fits, the box placed at the draw origin lies in its strip, centred to within a pixel; the drawn ink is centred horizontally exactly when the box's left offset is 0 and vertically exactly when its top offset is 0 |
| Hero.LabelDrawnOffCanvas | create_hero.py:94-100 | a bottom-row label box starting 40 pixels below the origin puts the ink 17 pixels past the canvas |
| Hero.CentredLabelInStrip | create_hero.py:94-100 | with the offsets subtracted, every fitting label's ink lies in its strip, centred both ways to within a pixel |
| Hero.MarkOnPicture | create_hero.py:80-85 | the mark's anchor lies inside the thumbnail, 70 pixels in from its right and bottom edges; it is a green tick for a good output and a red cross otherwise |
| Hero.HeroLayout | create_hero.py:14-32 | the canvas is 1624 x 1024 and the good outputs fill the top row |
| Hero.HeroTiles | create_hero.py:65-89 | every tile of the hero image lies on the canvas and no two share a pixel |
| Hero.HeroFonts | create_hero.py:45-63 | the checkmark font is missing exactly when the label font fell back to the built-in one; in which case the mark is drawn with `font=None`, PIL's default; otherwise both come from the same file |
| Report.TotalsBounded | create_pdf.py:70-83 | with consistent tables and 0/1 flags, every total lies in [0, 2] and is 2 exactly when both tests passed |
| Report.ReportConsistent | create_pdf.py:40-83 | the three shipped tables agree row by row on model and flags, each total is the sum of the flags, and every flag is 0 or 1 |
| Report.ReportOrderPermutes | create_pdf.py:40-83 | the report's model order is a permutation of the twelve series-1 positions |
| Report.ReportCoversSeries1 | create_pdf.py:70-83 | the report scores every series-1 model exactly once |
| Report.NatDecimal | create_pdf.py:157 | `str(n)` of a natural number is a non-empty digit string without a leading zero |
| Report.DecimalRoundTrip | create_pdf.py:157 | reading back the decimal text of an integer gives the integer |
| Report.ScoreCellRoundTrip | create_pdf.py:157 | the score cell `f"{total}/2"` reads back as the total |
| Report.MarkShowsFlag | create_pdf.py:155-156 | a cell shows a tick exactly for a non-zero flag and a cross exactly for zero |
| Report.OverallTableShape | create_pdf.py:151-159 | the overall table has a header and one row per entry; each row shows the model, ticks matching the flags, a score reading back as the total, and the notes |
| Report.TestTableShape | create_pdf.py:183-185 | a test table has a header and one row per entry, with a tick exactly when the test passed |
| Report.OverallAgreesWithTests | create_pdf.py:151-207 | with consistent tables, each overall row shows the same model and marks as the two test tables |
| Report.HeadingIsRunWise | create_pdf.py:181 | `prefix + reverse_hebrew(word) + suffix` with no Hebrew around it equals the run-wise reversal of the whole heading |

## Left out

- Calls to fal_client, requests, PIL and reportlab are not modelled. Their
  observable outcomes are parameters: the reply, whether the download
  decodes, whether each save and the delete succeed, text bounding boxes,
  and the set of font files that load.
- All `print` output is left out, including the progress lines, the error
  message of the handler and the `keys()` listing of an unrecognised
  reply. Only the summary line format is modelled (`Job.SummaryLine`).
- Pixel contents are not modelled: resizing, pasting, colours of the
  canvas and the bar, and how PIL clips text drawn outside the canvas.
- `compress_image` and the page fitting of `create_pdf.py` are left out.
  They use floating-point division and resampling.
- reportlab document building, styles, font registration and table styles
  are left out. They are library configuration.
- Temp-file cleanup and the image pages' directory listing of
  `create_pdf.py` are left out; they are file-system I/O.
- Floating-point JSON values in a reply are not modelled. The lookup does
  test the truthiness of a `url` field, which could be a float; either way
  the download then fails, because a float is not a string URL and the
  dict it falls back to is not one either.
- Job.UrlText: a non-string value handed to `requests.get` is taken to
  raise. Python's printed form of a list, dict, number or None has no URL
  scheme, so the download fails.
- Naming.TitleAt: `str.lower`, `str.title` and the safe name treat only
  ASCII letters as cased. Python also cases other scripts; Hebrew has no
  case, and the shipped names are ASCII.
- Config.ScriptsSeparated: the size chosen for each shipped series-1
  model id is not evaluated one by one. The general rule is proved for
  every id (`Job.ChooseSizeByFamily`).
- Hero.Compose: the four image paths of the hero are data. They are not
  tied to the job's final-path rule, and opening them is left to PIL.
- Fonts.FirstLoadable: whether a font file loads is taken to be
  independent of the point size requested.
- Batch.RunSummary: it assumes no directory creation and no test for a
  final artifact raises. Either ends the program, which
  `Batch.CrashIffUnhandled` states.
- Naming.FinalPath: paths are joined as text, `base + "/" + word + "/" +
  name`. `pathlib` drops empty and "." segments and restarts at a segment
  that begins with "/"; the model does not. The two agree when every
  segment is plain (`Naming.PlainSegment`), which holds for both shipped
  scripts (`Config.ShippedPathsPlain`).
- Naming.JobPaths: it places both paths under `<base>/<word>/` by text
  only. A word name or safe name that is empty, ".", or begins with "/"
  would put the files elsewhere under `pathlib`.
- Naming.FinalPathInjective: it holds for the textual join. Under
  `pathlib` the word names "" and "." give the same directory.
- Concurrent runs of the scripts on the same directories are not modelled.

## Findings

| source | as written | input that shows it | evidently intended | confidence | as-written member | corrected member |
|---|---|---|---|---|---|---|
| run_eval.py:56-61 | the caption origin centres the text box measured at (0, 0), ignoring its left and top offsets, which PIL adds when drawing | a box (0, 9, 150, 36) under a 450-pixel picture: ink 25 pixels below the picture, 8 above the edge | origin moved back by `bbox[0]` and `bbox[1]`, so the ink is centred | medium, not executed | Caption.CaptionDrawnLow | Caption.CentredCaptionInBar |
| run_eval_series2.py:45-50 | the same placement as series 1 | a box (0, 40, 10, 60): ink 20 pixels past the canvas | as above | medium, not executed | Caption.CaptionDrawnOffCanvas | Caption.CentredCaptionInBar |
| create_hero.py:94-100 | the label origin centres the box measured at (0, 0), ignoring its offsets | a bottom-row box (0, 40, 10, 60): ink 17 pixels past the canvas | origin moved back by the offsets | medium, not executed | Hero.LabelDrawnOffCanvas | Hero.CentredLabelInStrip |
