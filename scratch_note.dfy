/**
 * The command-line front end of scratch-note: interpreting the argument
 * vector, the editor-name default, the error values, and the creation of a
 * note. Creating a note works on an abstract filesystem (directories, file
 * contents and injected faults) and an editor launcher that records every
 * path it is asked to open.
 */
module ScratchNote {
  import opened Wrappers
  import opened FilePath
  import opened Timestamps
  import opened Utils
  import Configuration

  // ---------------------------------------------------------------------------
  // Commands and argument parsing

  /** What the program was asked to do. */
  datatype CommandType = Create | Config | Help

  /** A parsed command; `title` is only meaningful for `Create`. */
  datatype Command = Command(kind: CommandType, title: string)

  /**
   * The outcome of interpreting the argument vector: a command, an error with
   * its message, or the index-out-of-range panic that an empty second
   * argument provokes when its first byte is inspected.
   */
  datatype ParseResult = Parsed(cmd: Command) | ArgError(message: string) | IndexPanic

  /** A second argument that names one of the known flags. */
  predicate IsKnownFlag(arg: string)
  {
    arg == "--config" || arg == "--help" || arg == "-h"
  }

  /** A second argument rejected as an unknown flag. */
  predicate IsUnknownFlag(arg: string)
  {
    arg != "" && arg[0] == '-' && !IsKnownFlag(arg)
  }

  /** Interprets `args`, whose first element is the program name. */
  function ParseArgs(args: seq<string>): (r: ParseResult)
    ensures r.IndexPanic? <==> |args| == 2 && args[1] == ""
    ensures r.ArgError? <==> |args| == 0 || |args| > 2 || (|args| == 2 && IsUnknownFlag(args[1]))
    ensures r.Parsed? ==> |args| == 1 || |args| == 2
    ensures r.Parsed? && r.cmd.kind != Create ==> |args| == 2 && IsKnownFlag(args[1]) && r.cmd.title == ""
    ensures |args| == 2 && args[1] == "--config" ==> r == Parsed(Command(Config, ""))
    ensures |args| == 2 && (args[1] == "--help" || args[1] == "-h") ==> r == Parsed(Command(Help, ""))
    ensures r.Parsed? && r.cmd.kind == Create ==> r.cmd.title == (if |args| == 1 then "" else args[1])
  {
    if |args| == 1 then
      Parsed(Command(Create, ""))
    else if |args| == 2 then
      var arg := args[1];
      if arg == "--config" then Parsed(Command(Config, ""))
      else if arg == "--help" || arg == "-h" then Parsed(Command(Help, ""))
      else if arg == "" then IndexPanic
      else if arg[0] == '-' then ArgError("unknown flag: " + arg)
      else Parsed(Command(Create, arg))
    else if |args| > 2 then
      ArgError("too many arguments")
    else
      ArgError("unknown command")
  }

  /** The commands some argument vector produces. */
  predicate Reachable(cmd: Command)
  {
    if cmd.kind == Create then cmd.title == "" || cmd.title[0] != '-'
    else cmd.title == ""
  }

  /** The canonical argument vector that asks for `cmd`. */
  function Argv(prog: string, cmd: Command): (args: seq<string>)
    ensures |args| >= 1 && args[0] == prog
  {
    match cmd.kind
    case Create => if cmd.title == "" then [prog] else [prog, cmd.title]
    case Config => [prog, "--config"]
    case Help => [prog, "--help"]
  }

  /** Every reachable command is produced by its canonical argument vector. */
  lemma ParseArgv(prog: string, cmd: Command)
    requires Reachable(cmd)
    ensures ParseArgs(Argv(prog, cmd)) == Parsed(cmd)
  {
    if cmd.kind == Create && cmd.title != "" {
      assert !IsKnownFlag(cmd.title) by {
        assert cmd.title[0] != '-';
      }
    }
  }

  /**
   * Conversely, every command that parses is reachable, and the argument
   * vector it came from is its canonical one, or `-h` for help.
   */
  lemma ArgvOfParsed(args: seq<string>, cmd: Command)
    requires ParseArgs(args) == Parsed(cmd)
    ensures Reachable(cmd)
    ensures Argv(args[0], cmd) == args || (cmd.kind == Help && args == [args[0], "-h"])
  {
    if |args| == 2 && cmd.kind == Create {
      assert args == [args[0], args[1]];
    } else if |args| == 2 {
      assert args == [args[0], args[1]];
    } else {
      assert args == [args[0]];
    }
  }

  /** The error messages, by argument count and second argument. */
  lemma ParseArgsMessages(args: seq<string>)
    ensures |args| == 0 ==> ParseArgs(args) == ArgError("unknown command")
    ensures |args| > 2 ==> ParseArgs(args) == ArgError("too many arguments")
    ensures |args| == 2 && IsUnknownFlag(args[1]) ==> ParseArgs(args) == ArgError("unknown flag: " + args[1])
  {
  }

  /** The argument vectors exercised for the parser, with their expected commands. */
  lemma ParseArgsExamples(prog: string)
    ensures ParseArgs([prog]) == Parsed(Command(Create, ""))
    ensures ParseArgs([prog, "my notes"]) == Parsed(Command(Create, "my notes"))
    ensures ParseArgs([prog, "--config"]) == Parsed(Command(Config, ""))
    ensures ParseArgs([prog, "--help"]) == Parsed(Command(Help, ""))
    ensures ParseArgs([prog, "-h"]) == Parsed(Command(Help, ""))
    ensures ParseArgs([prog, "arg1", "arg2"]) == ArgError("too many arguments")
    ensures ParseArgs([prog, "--unknown"]) == ArgError("unknown flag: --unknown")
  {
  }

  // ---------------------------------------------------------------------------
  // Editor name and errors

  /** The editor to launch: the configured one, or the default `vi` when none is set. */
  function EditorName(cfg: Configuration.Config): (name: string)
    ensures name != ""
    ensures cfg.editor != "" ==> name == cfg.editor
    ensures cfg.editor == "" ==> name == Configuration.DefaultConfig().editor
  {
    if cfg.editor == "" then "vi" else cfg.editor
  }

  /** Whether `sub` occurs in `s` starting at index `i`. */
  predicate OccursAt(s: string, sub: string, i: int)
  {
    0 <= i && i + |sub| <= |s| && s[i..i + |sub|] == sub
  }

  /** Whether `sub` occurs somewhere in `s`. */
  predicate Contains(s: string, sub: string)
  {
    exists i | 0 <= i <= |s| :: OccursAt(s, sub, i)
  }

  /** The failure of an editor to open a file: the editor's name and the reason. */
  datatype EditorError = EditorError(editor: string, err: string)
  {
    /** The text the error reports. */
    function Message(): string
    {
      "Editor '" + editor + "' not found: " + err
    }
  }

  /** The editor error message names the editor and ends with the reason. */
  lemma EditorErrorMessage(e: EditorError)
    ensures OccursAt(e.Message(), e.editor, 8)
    ensures OccursAt(e.Message(), e.err, |e.Message()| - |e.err|)
  {
    var m := e.Message();
    assert m[8..8 + |e.editor|] == e.editor;
    assert m[|m| - |e.err|..] == e.err;
  }

  /** The ways creating a note can fail. */
  datatype NoteError =
    | DirectoryNotFound(directory: string)
    | FileCreateFailed(cause: string)
    | EditorFailed(editorError: EditorError)
  {
    /** The text the error reports; an editor failure reports the editor's own text. */
    function Message(): string
    {
      match this
      case DirectoryNotFound(d) => "scratch-note directory does not exist: " + d
      case FileCreateFailed(cause) => "failed to create file: " + cause
      case EditorFailed(e) => e.Message()
    }
  }

  /** A missing directory is reported with a message saying that it does not exist, naming the directory. */
  lemma DirectoryNotFoundMessage(d: string)
    ensures Contains(DirectoryNotFound(d).Message(), "does not exist")
    ensures OccursAt(DirectoryNotFound(d).Message(), d, 39)
  {
    var m := DirectoryNotFound(d).Message();
    assert OccursAt(m, "does not exist", 23);
    assert m[39..39 + |d|] == d;
  }

  // ---------------------------------------------------------------------------
  // The filesystem and the editor

  /** What looking a path up reports. */
  datatype StatResult = Found | NotFound | StatError(cause: string)

  /**
   * The part of the filesystem note creation touches: the existing
   * directories, the contents of existing files, the paths whose lookup fails
   * for a reason other than absence, and the paths a write to which fails,
   * each with the error it reports.
   */
  class FileSystem {
    var dirs: set<string>
    var files: map<string, string>
    var statFaults: map<string, string>
    var writeFaults: map<string, string>

    constructor (dirs: set<string>, files: map<string, string>,
                 statFaults: map<string, string>, writeFaults: map<string, string>)
      ensures this.dirs == dirs && this.files == files
      ensures this.statFaults == statFaults && this.writeFaults == writeFaults
    {
      this.dirs := dirs;
      this.files := files;
      this.statFaults := statFaults;
      this.writeFaults := writeFaults;
    }

    /** Looks `path` up: an existing directory or file is found; a faulty lookup reports its fault. */
    function Stat(path: string): (r: StatResult)
      reads this
      ensures r == Found <==> path in dirs || path in files
      ensures r == NotFound <==> path !in dirs && path !in files && path !in statFaults
    {
      if path in dirs || path in files then Found
      else if path in statFaults then StatError(statFaults[path])
      else NotFound
    }

    /** Writes `contents` to `path`, creating or truncating the file, unless a write there fails. */
    method WriteFile(path: string, contents: string) returns (err: Option<string>)
      modifies this`files
      ensures path in writeFaults ==> err == Some(writeFaults[path]) && files == old(files)
      ensures path !in writeFaults ==> err == None && files == old(files)[path := contents]
    {
      if path in writeFaults {
        err := Some(writeFaults[path]);
      } else {
        files := files[path := contents];
        err := None;
      }
    }
  }

  /**
   * An editor launcher whose outcome is fixed in advance: it records every
   * path it is asked to open and fails with `failure` when that is set.
   */
  class EditorLauncher {
    const editorName: string
    const failure: Option<string>
    var calledWith: seq<string>

    /** The test double: named `mock-editor`, failing with `command not found` when asked to. */
    constructor Mock(shouldFail: bool)
      ensures editorName == "mock-editor"
      ensures failure == if shouldFail then Some("command not found") else None
      ensures calledWith == []
    {
      editorName := "mock-editor";
      failure := if shouldFail then Some("command not found") else None;
      calledWith := [];
    }

    /** A launcher for the named editor whose run ends with the given outcome. */
    constructor (editorName: string, failure: Option<string>)
      ensures this.editorName == editorName && this.failure == failure
      ensures calledWith == []
    {
      this.editorName := editorName;
      this.failure := failure;
      calledWith := [];
    }

    /** The error this launcher reports, if any. */
    function Outcome(): (r: Option<EditorError>)
      ensures r.Some? <==> failure.Some?
      ensures r.Some? ==> r.value.editor == editorName && r.value.err == failure.value
    {
      match failure
      case None => None
      case Some(cause) => Some(EditorError(editorName, cause))
    }

    /** Opens `path` in the editor. */
    method Launch(path: string) returns (err: Option<EditorError>)
      modifies this`calledWith
      ensures calledWith == old(calledWith) + [path]
      ensures err == Outcome()
    {
      calledWith := calledWith + [path];
      err := Outcome();
    }
  }

  // ---------------------------------------------------------------------------
  // Creating a note

  /** Where the note for `title` created at `t` in `directory` is stored. */
  function NotePath(directory: string, title: string, t: Timestamp): string
    requires ValidTimestamp(t)
  {
    Join(directory, GenerateFileName(title, t))
  }

  /** The note lands directly in `directory`, under the generated file name. */
  lemma NotePathLastElement(directory: string, title: string, t: Timestamp)
    requires ValidTimestamp(t)
    ensures LastElement(NotePath(directory, title, t)) == GenerateFileName(title, t)
  {
    FileNameIsPlain(title, t);
    JoinLastElement(directory, GenerateFileName(title, t));
  }

  /**
   * Creates an empty note in `directory` and opens it in the editor.
   * A missing directory fails before anything happens; a failed write fails
   * before the editor is launched; otherwise the file is created (or
   * truncated), the editor is launched once with its path, and either the
   * path or the editor's error is returned. The file stays when the editor
   * fails.
   */
  method CreateScratchNote(title: string, directory: string, t: Timestamp,
                           fs: FileSystem, editor: EditorLauncher)
    returns (result: Result<string, NoteError>)
    requires ValidTimestamp(t)
    modifies fs`files, editor`calledWith
    ensures old(fs.Stat(directory)) == NotFound ==>
      result == Failure(DirectoryNotFound(directory))
      && fs.files == old(fs.files) && editor.calledWith == old(editor.calledWith)
    ensures old(fs.Stat(directory)) != NotFound && NotePath(directory, title, t) in fs.writeFaults ==>
      result == Failure(FileCreateFailed(fs.writeFaults[NotePath(directory, title, t)]))
      && fs.files == old(fs.files) && editor.calledWith == old(editor.calledWith)
    ensures old(fs.Stat(directory)) != NotFound && NotePath(directory, title, t) !in fs.writeFaults ==>
      fs.files == old(fs.files)[NotePath(directory, title, t) := ""]
      && editor.calledWith == old(editor.calledWith) + [NotePath(directory, title, t)]
      && result == (if editor.failure.Some?
                    then Failure(EditorFailed(EditorError(editor.editorName, editor.failure.value)))
                    else Success(NotePath(directory, title, t)))
  {
    if fs.Stat(directory) == NotFound {
      return Failure(DirectoryNotFound(directory));
    }
    var filename := GenerateFileName(title, t);
    var filePath := Join(directory, filename);
    var writeErr := fs.WriteFile(filePath, "");
    if writeErr.Some? {
      return Failure(FileCreateFailed(writeErr.value));
    }
    var launchErr := editor.Launch(filePath);
    if launchErr.Some? {
      return Failure(EditorFailed(launchErr.value));
    }
    return Success(filePath);
  }

  /**
   * An untitled note in an existing directory with a working editor: the
   * returned path names a 20-character file inside the directory, the file
   * exists and is empty, and the editor was called once, with that path.
   */
  method UntitledNoteScenario(directory: string, t: Timestamp)
    returns (result: Result<string, NoteError>, files: map<string, string>, calls: seq<string>)
    requires ValidTimestamp(t)
    ensures result.Success?
    ensures |LastElement(result.value)| == 20
    ensures result.value in files && files[result.value] == ""
    ensures calls == [result.value]
  {
    var fs := new FileSystem({directory}, map[], map[], map[]);
    var editor := new EditorLauncher.Mock(false);
    result := CreateScratchNote("", directory, t, fs, editor);
    NotePathLastElement(directory, "", t);
    files := fs.files;
    calls := editor.calledWith;
  }

  /**
   * A failing editor: the error is the editor's own, the empty note stays on
   * disk, and the editor was still called once.
   */
  method EditorFailureScenario(directory: string, t: Timestamp)
    returns (result: Result<string, NoteError>, files: map<string, string>, calls: seq<string>)
    requires ValidTimestamp(t)
    ensures result == Failure(EditorFailed(EditorError("mock-editor", "command not found")))
    ensures NotePath(directory, "", t) in files && files[NotePath(directory, "", t)] == ""
    ensures |calls| == 1
  {
    var fs := new FileSystem({directory}, map[], map[], map[]);
    var editor := new EditorLauncher.Mock(true);
    result := CreateScratchNote("", directory, t, fs, editor);
    files := fs.files;
    calls := editor.calledWith;
  }

  /** A missing directory: an error saying so, no file and no editor call. */
  method MissingDirectoryScenario(directory: string, t: Timestamp)
    returns (result: Result<string, NoteError>, files: map<string, string>, calls: seq<string>)
    requires ValidTimestamp(t)
    ensures result.Failure? && Contains(result.error.Message(), "does not exist")
    ensures files == map[] && calls == []
  {
    var fs := new FileSystem({}, map[], map[], map[]);
    var editor := new EditorLauncher.Mock(false);
    result := CreateScratchNote("", directory, t, fs, editor);
    DirectoryNotFoundMessage(directory);
    files := fs.files;
    calls := editor.calledWith;
  }
}
