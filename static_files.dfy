/** `include_static_files` (the `builder-inited` hook): the packaged stylesheet and
    scripts are added to the HTML static path, each only if it is not there yet. Where a
    packaged file lives (`sphinx_problog.get_static_path`) is given as a function. */
module StaticFiles {
  import opened Environment

  const StaticCssFiles: seq<string> := ["sphinx-problog.css"]
  const StaticJsFiles: seq<string> :=
    ["ace.js", "mode-problog.js", "problog_editor_advanced.js", "jquery-fix.js"]
  /** The stylesheet first, then the scripts. */
  const StaticFileNames: seq<string> := StaticCssFiles + StaticJsFiles

  /** No entry occurs twice. */
  predicate NoDuplicates(s: seq<string>) {
    forall i, j :: 0 <= i < j < |s| ==> s[i] != s[j]
  }

  /** The packaged paths of `names`, in order. */
  function Resolve(names: seq<string>, staticPathOf: string -> string): (r: seq<string>)
    ensures |r| == |names|
    ensures forall i :: 0 <= i < |names| ==> r[i] == staticPathOf(names[i])
  {
    if names == [] then []
    else Resolve(names[..|names| - 1], staticPathOf) + [staticPathOf(names[|names| - 1])]
  }

  /** `path` after appending each of `items`, in order, unless it is already present. The
      old entries keep their places, every item is present afterwards, and what is added
      is new and added once. */
  function AppendAbsent(path: seq<string>, items: seq<string>): (r: seq<string>)
    ensures |path| <= |r| && r[..|path|] == path
    ensures forall x :: x in r <==> x in path || x in items
    ensures NoDuplicates(r[|path|..])
    ensures forall i :: |path| <= i < |r| ==> r[i] !in path
    decreases |items|
  {
    if items == [] then path
    else
      var q := AppendAbsent(path, items[..|items| - 1]);
      var x := items[|items| - 1];
      assert forall y :: y in items <==> y in items[..|items| - 1] || y == x by {
        assert items == items[..|items| - 1] + [x];
      }
      if x in q then q
      else
        assert (q + [x])[|path|..] == q[|path|..] + [x];
        q + [x]
  }

  /** A path list without duplicates stays without duplicates. */
  lemma AppendAbsentNoDuplicates(path: seq<string>, items: seq<string>)
    requires NoDuplicates(path)
    ensures NoDuplicates(AppendAbsent(path, items))
  {
  }

  /** Appending items that are all present already changes nothing. */
  lemma {:induction false} AppendPresent(path: seq<string>, items: seq<string>)
    requires forall x :: x in items ==> x in path
    ensures AppendAbsent(path, items) == path
    decreases |items|
  {
    if items != [] {
      assert items[|items| - 1] in items;
      AppendPresent(path, items[..|items| - 1]);
    }
  }

  /** Running the hook twice leaves the same static path as running it once. */
  lemma AppendAbsentIdempotent(path: seq<string>, items: seq<string>)
    ensures AppendAbsent(AppendAbsent(path, items), items) == AppendAbsent(path, items)
  {
    AppendPresent(AppendAbsent(path, items), items);
  }

  /** `include_static_files`. */
  method IncludeStaticFiles(config: Config, staticPathOf: string -> string)
    modifies config`htmlStaticPath
    ensures config.htmlStaticPath ==
              AppendAbsent(old(config.htmlStaticPath), Resolve(StaticFileNames, staticPathOf))
  {
    for i := 0 to |StaticFileNames|
      invariant config.htmlStaticPath ==
                  AppendAbsent(old(config.htmlStaticPath), Resolve(StaticFileNames[..i], staticPathOf))
    {
      var filePath := staticPathOf(StaticFileNames[i]);
      assert StaticFileNames[..i + 1][..i] == StaticFileNames[..i];
      if filePath !in config.htmlStaticPath {
        config.htmlStaticPath := config.htmlStaticPath + [filePath];
      }
    }
    assert StaticFileNames[..|StaticFileNames|] == StaticFileNames;
  }
}
