/**
 * The part of Go's `path/filepath` the core relies on. `Join` is modelled as
 * plain concatenation with the separator `/`, skipping empty elements as Go
 * does; the lexical cleaning Go applies afterwards (`..`, `.`, repeated
 * separators) is not modelled.
 */
module FilePath {

  /** `filepath.Join(dir, name)` without cleaning. */
  function Join(dir: string, name: string): string
  {
    if dir == "" then name
    else if name == "" then dir
    else dir + "/" + name
  }

  /**
   * The text after the last `/` of a path. For a non-empty path that does
   * not end in `/`, this is the file name `filepath.Base` reports.
   */
  function LastElement(path: string): string
  {
    if path == [] || path[|path| - 1] == '/' then []
    else LastElement(path[..|path| - 1]) + [path[|path| - 1]]
  }

  /** A path with no separator is its own last element. */
  lemma {:induction false} LastElementOfPlainName(name: string)
    requires '/' !in name
    ensures LastElement(name) == name
  {
    if name != [] {
      var init := name[..|name| - 1];
      assert '/' !in init by {
        forall c | c in init ensures c != '/' { assert c in name; }
      }
      LastElementOfPlainName(init);
      assert init + [name[|name| - 1]] == name;
    }
  }

  /** Whatever `prefix` is, the last element of `prefix + name` is `name` when `name` holds no separator. */
  lemma {:induction false} LastElementOfSuffix(prefix: string, name: string)
    requires '/' !in name
    ensures LastElement(prefix + "/" + name) == name
  {
    if name == [] {
      assert (prefix + "/" + name)[|prefix + "/" + name| - 1] == '/';
    } else {
      var init := name[..|name| - 1];
      assert '/' !in init by {
        forall c | c in init ensures c != '/' { assert c in name; }
      }
      var whole := prefix + "/" + name;
      assert whole[..|whole| - 1] == prefix + "/" + init;
      assert whole[|whole| - 1] == name[|name| - 1];
      LastElementOfSuffix(prefix, init);
      assert init + [name[|name| - 1]] == name;
    }
  }

  /**
   * Joining a directory and a plain, non-empty file name yields a path whose
   * last element is that file name: the file lands directly in the directory.
   */
  lemma JoinLastElement(dir: string, name: string)
    requires name != "" && '/' !in name
    ensures LastElement(Join(dir, name)) == name
  {
    if dir == "" {
      LastElementOfPlainName(name);
    } else {
      LastElementOfSuffix(dir, name);
    }
  }
}
