/**
 * The configuration record of scratch-note, its built-in defaults and the
 * expansion of a leading `~/` in the notes directory. The home directory is
 * a parameter: `None` stands for a home directory that cannot be resolved.
 */
module Configuration {
  import opened Wrappers
  import opened FilePath

  /** The two settings read from the configuration file. */
  datatype Config = Config(scratchNoteDir: string, editor: string)

  /** The configuration used when none has been written yet. */
  function DefaultConfig(): (c: Config)
    ensures c.scratchNoteDir == "~/scratch-notes"
    ensures c.editor == "vi"
    ensures HasHomePrefix(c.scratchNoteDir)
  {
    Config("~/scratch-notes", "vi")
  }

  /** Whether `path` begins with the two characters `~/`. */
  predicate HasHomePrefix(path: string)
  {
    |path| >= 2 && path[0] == '~' && path[1] == '/'
  }

  /**
   * Replaces a leading `~/` by the home directory. Everything else (absolute
   * and relative paths, the empty path, a bare `~`, `~user/...`) and every
   * path when the home directory is unknown comes back unchanged.
   */
  function ExpandPath(path: string, home: Option<string>): (r: string)
    ensures r != path ==> HasHomePrefix(path) && home.Some?
    ensures HasHomePrefix(path) && home.Some? ==> r == Join(home.value, path[2..])
  {
    if HasHomePrefix(path) then
      match home
      case None => path
      case Some(h) => Join(h, path[2..])
    else path
  }

  /** Exactly the two-character prefix is consumed, and a second `~/` after it is kept as text. */
  lemma ExpandOnlyFirstTilde(h: string, rest: string)
    ensures ExpandPath("~/" + rest, Some(h)) == Join(h, rest)
    ensures ExpandPath("~/~/" + rest, Some(h)) == Join(h, "~/" + rest)
  {
    assert ("~/" + rest)[2..] == rest;
    assert ("~/~/" + rest)[2..] == "~/" + rest;
  }

  /** Without a home directory, no path changes. */
  lemma ExpandWithoutHome(path: string)
    ensures ExpandPath(path, None) == path
  {
  }

  /**
   * Expanding twice is expanding once, provided the home directory is
   * absolute: an expanded path then starts with `/`, so it no longer starts
   * with `~/`. (An absolute path stays absolute under the lexical cleaning
   * `filepath.Join` applies, which this model leaves out.)
   */
  lemma ExpandPathIdempotent(path: string, home: Option<string>)
    requires home.Some? ==> home.value != "" && home.value[0] == '/'
    ensures ExpandPath(ExpandPath(path, home), home) == ExpandPath(path, home)
  {
    var r := ExpandPath(path, home);
    if r != path {
      var h := home.value;
      assert r == Join(h, path[2..]);
      assert r[0] == h[0];
      assert !HasHomePrefix(r);
    }
  }

  /** The default notes directory lands directly under the home directory. */
  lemma DefaultDirectoryExpansion(h: string)
    ensures ExpandPath(DefaultConfig().scratchNoteDir, Some(h)) == Join(h, "scratch-notes")
    ensures ExpandPath(DefaultConfig().scratchNoteDir, None) == "~/scratch-notes"
  {
    assert DefaultConfig().scratchNoteDir[2..] == "scratch-notes";
  }

  /** Absolute and relative paths are left alone whatever the home directory. */
  lemma ExpandPathExamples(home: Option<string>)
    ensures ExpandPath("/absolute/path", home) == "/absolute/path"
    ensures ExpandPath("relative/path", home) == "relative/path"
    ensures ExpandPath("~", home) == "~"
    ensures ExpandPath("~user/notes", home) == "~user/notes"
  {
  }
}
