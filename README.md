# scratch-note, modelled in Dafny

scratch-note is a small terminal tool for quick notes. Run with no argument,
it creates an empty Markdown file named after the current second
(`2025-08-16_143045.md`) in a configured notes directory. Run with a title, it
appends the title after cleaning it (`2025-08-16_143045_meeting-notes.md`).
Either way it then opens the file in the configured editor. `--config` opens
the configuration file and `--help` prints usage.

This project models the deterministic heart of the tool and proves what it
promises.

- **Timestamps** (`timestamps.dfy`): the `YYYY-MM-DD_HHMMSS` layout, with
  every field zero-padded and a 24-hour clock. A parser for the layout
  serves as the formatter's inverse. The two are proved to round-trip in both
  directions.
- **Utils** (`utils.dfy`): `cleanTitle` as its four stages:
  1. spaces become `-`;
  2. the nine special characters `/ \ : * ? " < > |` become `-`;
  3. runs of `-` collapse into one;
  4. `-` is trimmed from both ends.

  `Tidy` is an independent one-pass reference definition. The pipeline is
  proved equal to it, and both are proved to produce clean titles that keep
  every other character in order. `GenerateFileName` and a reader for the
  names it produces are proved to be inverses.
- **Configuration** (`configuration.dfy`): the configuration record, its
  defaults, and `ExpandPath`. The home directory is a parameter whose
  `None` means it cannot be resolved.
- **ScratchNote** (`scratch_note.dfy`):
  - argument parsing, proved against a canonical argument-vector builder;
  - the editor-name default;
  - the error values and their messages;
  - `CreateScratchNote`, a method over two objects. `FileSystem` holds the
    directories, file contents and injected faults. `EditorLauncher`
    mirrors the test double that records each launch.
- **FilePath** (`filepath.dfy`): `filepath.Join` without cleaning, and the
  last element of a path.
- **Wrappers** (`wrappers.dfy`): `Option` and `Result`.

## Model

| member | source | states |
|---|---|---|
| Timestamps.FormatTimestamp | utils/file.go:13 | the timestamp is 17 characters: `-` at positions 4 and 7, `_` at position 10, and digits everywhere else |
| Timestamps.ParseFormatted | utils/file_test.go:69-80 | reading a formatted timestamp back with the same layout recovers exactly the same fields |
| Timestamps.FormatParsed | utils/file_test.go:69-80 | the only text that parses as a given timestamp is that timestamp formatted, so the layout is unambiguous |
| Timestamps.Pad2OfNumber | utils/file.go:13 | two digits read as a number and zero-padded back give the same two digits |
| Timestamps.Pad4OfNumber | utils/file.go:13 | four digits read as a number and zero-padded back give the same four digits |
| Timestamps.NumberOfConcatPair | utils/file.go:13 | appending two digits multiplies the value read so far by one hundred |
| Utils.ReplaceSpaces | utils/file.go:27 | the length is unchanged, each space becomes `-` and every other character stays, so no space remains |
| Utils.ReplaceSpecials | utils/file.go:30-31 | the length is unchanged, each of `/ \ : * ? " < > \|` becomes `-` and every other character stays, so no special character remains |
| Utils.CollapseHyphens | utils/file.go:34-35 | no two hyphens are adjacent afterwards; the first and last character and the sequence of non-hyphen characters are unchanged; text without a double hyphen is returned as is |
| Utils.CollapseIsDropDoubled | utils/file.go:34-35 | collapsing equals the position-wise reference `DropDoubled`, which keeps each character except a hyphen directly after another hyphen, so each run of hyphens leaves exactly one |
| Utils.DropDoubledCons | utils/file.go:34-35 | read from the left, the reference drops the first of two leading hyphens instead of the second, with the same result |
| Utils.TrimHyphens | utils/file.go:38 | the result neither starts nor ends with `-`; text with no edge hyphen is returned as is; having no double hyphen is preserved |
| Utils.TrimHyphensSpan | utils/file.go:38 | trimming keeps a contiguous middle slice of the input, and everything removed before and after it is hyphens |
| Utils.TrimHyphensEmpty | utils/file.go:38 | trimming leaves nothing exactly when the text consists of hyphens only |
| Utils.CleanTitle | utils/file.go:25-40 | the result equals the reference `Tidy` and is a clean title: no space, no special character, no `--`, no edge `-`; its non-separator characters are the title's, in order; it is empty exactly when the title has no such character |
| Utils.Tidy | utils/file.go:25-40 | the one-pass reference yields a clean title that keeps every non-separator character in order, and is empty exactly when there is none |
| Utils.PipelineIsTidy | utils/file.go:25-40 | the four stages applied in order compute exactly `Tidy` |
| Utils.CollapseTrimIsTidy | utils/file.go:33-38 | on text with no space or special character, collapsing and then trimming hyphens computes `Tidy` |
| Utils.TidySeesOnlySeparatorPositions | utils/file.go:27-31 | two titles that agree on which positions hold a separator, and on every other character, clean to the same result, which is why every separator acts alike |
| Utils.TidyKeepsCleanTitle | utils/file.go:25-40 | a title that is already clean is returned unchanged |
| Utils.CleanTitleFixpoint | utils/file.go:25-40 | a title is returned unchanged if and only if it is already clean |
| Utils.CleanTitleIdempotent | utils/file.go:25-40 | cleaning a cleaned title changes nothing |
| Utils.GenerateFileName | utils/file.go:11-22 | the first 17 characters are the formatted timestamp and the last three are `.md`; the name has 20 characters exactly when the title is empty; otherwise `_` and the cleaned title come between the two |
| Utils.UntitledFileName | utils/file.go:15-17 | an empty title yields exactly the formatted timestamp followed by `.md` |
| Utils.TitledFileName | utils/file.go:20-21 | a non-empty title yields the timestamp, `_`, the cleaned title and `.md` |
| Utils.SeparatorsOnlyTitle | utils/file.go:15-21 | a non-empty title made only of spaces, special characters and hyphens yields a 21-character name ending in `_.md` |
| Utils.FileNameRoundTrip | utils/file.go:11-22 | a generated name reads back as its timestamp and its cleaned title, or as no title when the title was empty |
| Utils.FileNameFromParsed | utils/file.go:11-22 | every name that reads back with a clean non-empty title, or with none, is the name generated from that title and timestamp |
| Utils.FileNameIsPlain | utils/file.go:11-22 | a generated name is non-empty and contains no `/` |
| Utils.PaddedFieldsExample | utils/file_test.go:29-32 | 9:05:30 on 2025-12-25 is formatted as `2025-12-25_090530` |
| Utils.UntitledExample | utils/file_test.go:16-21 | 14:30:45 on 2025-08-16 with no title gives `2025-08-16_143045.md` |
| Utils.HyphenatedTitleExample | utils/file_test.go:22-27 | `shopping-list` is kept as it is |
| Utils.SpacedTitleExample | utils/file_test.go:28-33 | `my daily notes` becomes `my-daily-notes` |
| Utils.SpecialCharactersExample | utils/file_test.go:34-39 | `notes/with\special:chars` becomes `notes-with-special-chars` |
| Utils.CleanLiteral | utils/file.go:25-40 | a clean title laid out like the input, with separators in exactly the same positions, is what cleaning the input produces |
| Configuration.DefaultConfig | config/config.go:33-39 | the default directory is `~/scratch-notes` and the default editor is `vi` |
| Configuration.ExpandPath | config/config.go:41-51 | the path changes only when it starts with `~/` and the home directory is known; in that case it becomes `Join(home, rest)` |
| Configuration.ExpandOnlyFirstTilde | config/config.go:48 | exactly the two-character prefix is consumed, and a second `~/` after it is kept as text |
| Configuration.ExpandWithoutHome | config/config.go:44-47 | without a home directory every path comes back unchanged |
| Configuration.ExpandPathIdempotent | config/config.go:41-51 | expanding twice equals expanding once when the home directory is absolute (starts with `/`) |
| Configuration.DefaultDirectoryExpansion | config/config.go:36 | the default directory expands to `Join(home, "scratch-notes")`, and stays `~/scratch-notes` without a home directory |
| Configuration.ExpandPathExamples | config/config_test.go:126-134 | absolute and relative paths, a bare `~` and `~user/...` are left alone |
| FilePath.JoinLastElement | main.go:99 | joining a directory and a plain, non-empty file name gives a path whose last element is that name |
| ScratchNote.ParseArgs | main.go:62-88 | an empty second argument panics, and nothing else does; an error is returned exactly for no arguments, more than two, or an unknown flag; `--config` gives Config and `--help` or `-h` gives Help, each with an empty title; otherwise Create carries the second argument unchanged, or the empty title for the program name alone |
| ScratchNote.ParseArgv | main.go:62-88 | every reachable command is produced by its canonical argument vector |
| ScratchNote.ArgvOfParsed | main.go:62-88 | every parsed command is reachable, and its argument vector is the canonical one, or `-h` for help |
| ScratchNote.ParseArgsMessages | main.go:76-87 | the messages are `unknown command` for no arguments, `too many arguments` for more than two whatever they are, and `unknown flag: ` followed by the flag |
| ScratchNote.ParseArgsExamples | main_test.go:24-67 | the argument vectors exercised for the parser give the expected commands and errors, and `-h` also asks for help |
| ScratchNote.EditorName | main.go:185-189 | the editor name is never empty: the configured one when set, the default `vi` otherwise |
| ScratchNote.EditorErrorMessage | main.go:58-60 | the editor error message names the editor at position 8 and ends with the reason |
| ScratchNote.DirectoryNotFoundMessage | main.go:93-95 | the missing-directory message contains `does not exist` and ends with the directory |
| ScratchNote.FileSystem.Stat | main.go:93 | a path is found exactly when it is an existing directory or file; it is reported absent exactly when it is neither and its lookup has no fault |
| ScratchNote.FileSystem.WriteFile | main.go:102 | writing creates or truncates the file with the given contents, unless the path has a write fault; then the fault is returned and nothing changes |
| ScratchNote.EditorLauncher.Mock | main_test.go:11-22 | the test double is named `mock-editor`, fails with `command not found` when asked to, and has no calls yet |
| ScratchNote.EditorLauncher.Outcome | main_test.go:16-22 | a launch fails exactly when a failure is set, with an editor error naming this editor and that failure |
| ScratchNote.EditorLauncher.Launch | main_test.go:16-22 | every launch appends its path to the call log and returns the launcher's outcome |
| ScratchNote.NotePathLastElement | main.go:97-99 | the note lands directly in the directory, under the generated file name |
| ScratchNote.CreateScratchNote | main.go:90-114 | a missing directory gives the directory error and touches nothing; a failed write gives the write error and never calls the editor; otherwise the note path holds empty contents, the editor was called once more with that path, and the result is that path or the editor's own error |
| ScratchNote.UntitledNoteScenario | main_test.go:125-176 | in an existing directory with a working editor, an untitled note succeeds; the returned path names a 20-character file that exists and is empty; the editor was called exactly once, with that path |
| ScratchNote.EditorFailureScenario | main_test.go:180-198 | with a failing editor the error is the editor's own, the empty note stays on disk, and the editor was still called once |
| ScratchNote.MissingDirectoryScenario | integration_test.go:127-141 | with a missing directory the error mentions `does not exist`, and no file is created and no editor called |

## Left out

- `RealEditor.Launch` (main.go:39-50) runs the editor as a child process attached to the terminal. The model keeps only its outcome: the `EditorLauncher` constructor takes the editor's name and whether its run fails.
- `LoadConfig` and `CreateDefaultConfig` (config/config.go:17-70) are YAML decoding and encoding plus file I/O. They are not part of this model.
- `main`, `printUsage`, `getConfigPath`, `handleConfigCommand` and `handleCreateCommand` (main.go:116-239) are process exit, console output and home-directory lookup. The editor-name default they both apply is modelled as `EditorName`.
- The clock and time zones are not modelled. A note's instant arrives as local calendar fields.
- GenerateFileName: years are limited to 0..9999. The layout's year field zero-pads to four digits, so years 0..999 are covered (`0999`). Years above 9999 take five digits and negative years gain a leading `-`, so the name's timestamp no longer has 17 characters. `CreateScratchNote` and the other members that take a timestamp inherit this precondition.
- Utils.CollapseHyphens: the function's own contract does not fix its result; `CollapseIsDropDoubled` does, against an independent reference, and the proof stays out of the function's contract to keep every use of it cheap.
- Utils.TrimHyphens: the function's own contract does not fix its result; `TrimHyphensSpan` and `TrimHyphensEmpty` do, kept out of the function's contract for the same reason.
- Join: the lexical cleaning that `filepath.Join` applies (`..`, `.`, repeated `/`) is not modelled. So no claim is made that an expanded path stays under the home directory.
- FileSystem.Stat: lookup is abstract. It finds existing directories and files, and reports configured faults as errors other than absence. As in the source, only absence stops `CreateScratchNote`.
- FileSystem.WriteFile: a write fails only at paths with a configured fault. Parent directories and permissions are not modelled.
- Notes created by concurrent invocations in the same second can collide. This is not modelled.
- Titles are sequences of characters. The byte length Go reports for non-ASCII titles is not modelled.
- Utils.HyphenatedTitleExample, Utils.SpacedTitleExample, Utils.SpecialCharactersExample: the three titled test vectors are stated for the cleaned title. Together with `TitledFileName` they fix the whole name. They do not evaluate the full literal name.
