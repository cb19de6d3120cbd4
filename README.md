# ema-audio-conv: the conversion loop of `convert-mat-audio.py`

`convert-mat-audio.py` converts EMA recordings stored as MATLAB `.mat` files into
wave files. For every file matched by a glob it does four things in order:

- it loads the file and picks out the single user record;
- it takes the audio from the first sub-field tagged `AUDIO`, at the file's own
  sample rate or at the `forceBitrate` override;
- it works out the destination path from the `wavPath` and `wavFnFormat`
  settings;
- it writes the WAV file, with scipy or through ffmpeg.

Before overwriting an existing file it asks on the console. The replies are yes,
all (overwrite without asking from then on), quit, and anything else (skip this
file).

This project models that decision logic and proves what it promises. The
outside world enters as values:

- the files the glob yielded, each with what `loadmat` made of it (or nothing,
  when loading raised);
- the set of paths that exist beforehand;
- the replies that will be typed, one per prompt.

A run yields the writes it performs, in order, why it stopped, and the state it
left. Each write is a destination, a sample rate, the samples and the writer.
The state is the paths that now exist, the replies not yet read and the
`overwriteAll` flag.

Modules:

- `Optional` (`optional.dfy`): the `Option` and `Result` types.
- `Paths` (`paths.dfy`): the part of `pathlib.PurePosixPath` the script uses.
  That is parsing a string into a root flag and components, printing, `joinpath`,
  `.parent`, `.name`, `.stem` and `.suffix`.
- `FileNameFormat` (`format.dfy`): `wavFnFormat.format(fileName=stem)`. It is
  checked against an independent description of templates as sequences of
  pieces.
- `MatRecord` (`matrecord.dfy`): record selection, the `AUDIO` scan and the
  sample-rate override.
- `OverwritePrompt` (`prompt.dfy`): how a reply is read. It is lowercased and cut
  to its first character.
- `Batch` (`batch.dfy`): one file up to the prompt (`Prepare`), the overwrite gate
  (`Gate`), the run as a specification function (`Run`), the lemmas about runs,
  and the loop itself (`ProcessBatch`).

`ProcessBatch` is a `for` loop that mutates `overwriteAll`, leaves through
`continue` and `break`, and calls the `AUDIO` scan, which is a `for` loop with its
own `break`. It is proved equal to `Run`, and the rest of the promises are proved
about `Run`.

Where the code and its description differ, the model follows the code:

- A file that cannot be loaded, has no single record, or has no `AUDIO` field
  raises in the script. That ends the whole run, not just that file, and the model
  aborts the run the same way.
- The ffmpeg return code is never checked, so a failed encode goes unnoticed. The
  model treats every write as done.
- Zero remaining keys trip the same assertion as two or more, whatever its
  message says.

## Model

| member | source | states |
|---|---|---|
| MatRecord.SelectRecord | convert-mat-audio.py:65-68 | the record is found exactly when one key remains once `__header__`, `__version__` and `__globals__` are removed, and it is that key's value; otherwise the failure carries the number of keys left, which is never 1 |
| MatRecord.SelectIgnoresMetadata | convert-mat-audio.py:57-65 | whatever `loadmat` stores under the three metadata keys has no effect on which record is chosen or on the count reported |
| MatRecord.FirstAudio | convert-mat-audio.py:71-75 | the index found has tag `AUDIO` and no earlier sub-field does; no index is found exactly when no sub-field is tagged `AUDIO` |
| MatRecord.FirstAudioWins | convert-mat-audio.py:70-76 | with no `AUDIO` tag before a sub-field tagged `AUDIO`, that sub-field's samples are taken whatever follows, including further `AUDIO` sub-fields; the rate is the override when set, else the sub-field's own rate |
| MatRecord.ScanAudio | convert-mat-audio.py:70-76 | the loop's result is the first `AUDIO` sub-field's audio, and it finds nothing exactly when no sub-field is tagged `AUDIO` |
| Paths.Parse | convert-mat-audio.py:78 | a parsed path has only real components (no empty or `.` pieces, no `/` inside one) and is absolute exactly when the string starts with `/` |
| Paths.ParseText | convert-mat-audio.py:78-80 | printing a well-formed path and parsing the text gives the same path back |
| Paths.TextInjective | convert-mat-audio.py:82 | two well-formed paths print the same exactly when they are equal, so a set of paths records which spellings have been written |
| Paths.JoinText | convert-mat-audio.py:79-80 | joining a relative path with components onto a path with components yields the text of the first, a `/`, and the text of the second |
| Paths.JoinAssoc | convert-mat-audio.py:79-80 | joining is associative, so the three-part `PurePath('/').joinpath(dir, name)` is the same however it is grouped, as the nested joins of `Destination` assume |
| Paths.ParentJoinName | convert-mat-audio.py:79 | a path with components is its `.parent` joined with its `.name` |
| Paths.RFind | convert-mat-audio.py:80 | the index returned is -1 or holds the character, and no later index holds it |
| Paths.StemSuffix | convert-mat-audio.py:78-80 | `.stem` followed by `.suffix` is the name, and a suffix is empty or a dot followed by at least one character with no further dot |
| Paths.StemOfExtension | convert-mat-audio.py:29-31 | a non-empty base, a dot and an extension without dots has the base as `.stem` and the dot plus extension as `.suffix` |
| Paths.StemEdgeCases | convert-mat-audio.py:29-31 | under pathlib's rule up to Python 3.13, a leading dot (`.mat`) or a trailing dot (`take.`) is not a suffix, only the last extension is removed (`a.b.mat` has stem `a.b`), and a name without a dot is its own stem |
| FileNameFormat.FormatSpell | convert-mat-audio.py:79-80 | every template spelled from literal characters (braces doubled) and `{fileName}` placeholders formats to exactly those characters with the stem put in |
| FileNameFormat.FormatOnlySpelled | convert-mat-audio.py:80 | every template that formats without raising is such a spelling, so the previous row describes every successful format |
| FileNameFormat.FormatLiteral | convert-mat-audio.py:79-80 | a template without braces comes out unchanged |
| FileNameFormat.FormatWavTemplate | convert-mat-audio.py:31-32 | the shipped template `{fileName}.wav` turns any stem into the stem plus `.wav` |
| FileNameFormat.FormatUnknownField | convert-mat-audio.py:80 | a template that starts with a replacement field other than `{fileName}` (brace-free name) fails in the modelled subset of `str.format`, whatever follows it and whatever the stem |
| Batch.Destination | convert-mat-audio.py:78-80 | a destination exists exactly when the template formats with the source's stem, and it is always absolute and well formed |
| Batch.DestinationShape | convert-mat-audio.py:78-80 | when the formatted name is a plain file name, the destination is that name inside `wavPath` when it is set, else inside the source's parent, with the root added |
| Batch.DefaultDestination | convert-mat-audio.py:78-80 | with the shipped settings, `<dir>/<base>.mat` is written to `<dir>/<base>.wav` under the root, so a relative source directory lands under `/` |
| Batch.Prepare | convert-mat-audio.py:61-80 | a prepared write goes to the file's `Destination`, which is absolute; it uses the writer the `compress` setting picks and, with an override set, the override rate; a failure names the file and is never the end-of-input failure |
| Batch.PrepareFailures | convert-mat-audio.py:61-80 | the four failures, in the script's order: no contents, a key count other than one (with the count), no `AUDIO` sub-field, and a template that cannot be formatted exactly when the earlier steps succeed and `Destination` fails |
| Batch.PrepareUsesFirstAudio | convert-mat-audio.py:65-76 | a prepared file had exactly one record, its samples come from that record's first `AUDIO` sub-field, and without an override so does its rate |
| Batch.PrepareFile | convert-mat-audio.py:59-80 | the loop body up to the prompt computes what `Prepare` specifies |
| OverwritePrompt.Decide | convert-mat-audio.py:83-93 | the reply means yes exactly when it starts with `y` or `Y`, all with `a`/`A`, quit with `q`/`Q`, and skip when it is empty or starts with anything else |
| OverwritePrompt.DecideFirstCharacter | convert-mat-audio.py:84 | two replies with the same first character mean the same thing |
| Batch.GateTable | convert-mat-audio.py:82-93 | the gate's transitions: a failed preparation aborts; a missing destination or a set flag means a write with no reply read; otherwise one reply is read (yes writes, all writes and sets the flag, quit stops, anything else skips) and no reply left aborts; the flag is never cleared and only leading replies are used |
| Batch.AskOverwrite | convert-mat-audio.py:82-93 | the prompting code does what `Gate` specifies |
| Batch.RunKeepsOverwriteAll | convert-mat-audio.py:87-88 | once `overwriteAll` is set it is still set at the end of the run: nothing resets it |
| Batch.RunExisting | convert-mat-audio.py:82-107 | after a run the existing paths are those that existed before plus every destination written |
| Batch.RunConsumesReplies | convert-mat-audio.py:83-84 | the replies left over are a suffix of those given: replies are read one per prompt, in order, none twice |
| Batch.RunJobsInOrder | convert-mat-audio.py:59-107 | each write is the one its position in the list of prepared files calls for, and the writes follow the list's order with each entry used at most once |
| Batch.RunWritesInOrder | convert-mat-audio.py:59-107 | every write of a run is what its source file calls for, the files being written in glob order, each at most once |
| Batch.RunOverrideRate | convert-mat-audio.py:74 | with an override set, every write in the run uses the override rate |
| Batch.RunAppend | convert-mat-audio.py:59-93 | a run over two lists of files in a row is the run over the first followed, only when it reached its end and from the state it left, by the run over the second; a quit or abort in the first means the second is never looked at |
| Batch.NoPromptAt | convert-mat-audio.py:82-109 | a file reached with its destination missing or `overwriteAll` set is written with no reply read, and the run goes on with the next file |
| Batch.PromptAt | convert-mat-audio.py:82-93 | a file reached with its destination existing and the flag unset reads one reply: yes writes it and goes on, all writes it and goes on with the flag set, quit ends the run with nothing more written, anything else skips only this file and goes on with the flag unchanged; with no reply left the run aborts |
| Batch.AbortAt | convert-mat-audio.py:66-76 | a file that fails ends the whole run: the earlier writes remain and no later file is considered |
| Batch.Actions | convert-mat-audio.py:95-107 | when every file prepares, there is one write per file, each the one that file calls for |
| Batch.RunOverwriteAll | convert-mat-audio.py:82-88 | when every remaining file prepares and `overwriteAll` is set, each is written in order, no reply is read, and the run goes to the end |
| Batch.AllReplyWritesRest | convert-mat-audio.py:82-88 | when every file prepares, an `a` reply to the first prompt writes that file and every later one with no further prompt, and reads only that reply |
| Batch.RunWithoutCollisions | convert-mat-audio.py:82-93 | when every file prepares, no destination exists beforehand and no two files share one, every file is written in order and no reply is read |
| Batch.ProcessBatch | convert-mat-audio.py:56-109 | the loop computes `Run`: with an override every write uses its rate, and the paths that exist afterwards are those before plus every destination written |

## Left out

- File discovery with `glob` is not modelled: the matched files are an input
  sequence, in the order the glob yields them.
- `scipy.io.loadmat` and the MAT format are a foreign parser. A file's contents
  are a map from variable name to record, or nothing when loading raises.
- `np.squeeze` and the sample values are not modelled: samples are opaque 64-bit
  patterns that are passed through unchanged.
- The encoders are not modelled. The ffmpeg command line, `scipy.io.wavfile.write`,
  and any failure of either become one write action tagged with the writer.
  ffmpeg's exit status is not checked by the script either.
- `Path.exists` is modelled as a set of paths that gains every destination
  written. A destination that exists as a directory, and files changed by anyone
  else during the run, are not modelled.
- `input` and `print` are not modelled as console I/O. Replies are a sequence with
  one reply per prompt. End of input (`EOFError`) ends the run, and the messages
  printed are not modelled.
- Running under `python -O`, which removes the assertions, is not modelled: the
  model always aborts where the script asserts.
- The settings block is configuration, so the settings are a parameter. The glob
  pattern `matPath` is not among them, and neither is the script rebinding the
  name `matPath` inside the loop, which has no effect on the loop.
- OverwritePrompt.Decide: `str.lower` is modelled for ASCII letters only.
  Non-ASCII replies are compared unlowered, which matters only for characters
  that lowercase to `y`, `a` or `q`.
- FileNameFormat.Format: only `{{`, `}}` and `{fileName}` are modelled. Any other
  use of a brace is treated as an error. That includes conversions and format
  specs such as `{fileName!r}` or `{fileName:>10}`, which Python accepts.
- Existing paths are compared by their spelling. Two spellings of one file are
  not modelled: a directory reached twice through a symbolic link, a `..`
  component, or a case-insensitive file system. In those cases the script finds
  the second spelling already on disk and prompts, while the model writes it
  without a prompt.
- Paths.Stem: `.stem` and `.suffix` follow pathlib up to Python 3.13. There, a dot
  that is the first or the last character of a name does not start a suffix.
  Python 3.14's change, which counts a trailing dot as a suffix, is not modelled.
- Paths.Parse: POSIX's special case of exactly two leading slashes (`//x`), which
  pathlib keeps as a separate root, is treated as a single root.
- The sample rate is an unbounded integer. The script's `str(srate)` for ffmpeg
  and numpy's integer types are not modelled.
