/** Three small build scenarios, each on its own environment: a box with inline code, a
    box loading `dice.pl` from the code directory, and a parallel worker's record merged
    into the main environment before documents are resolved. Each shows what the hooks'
    contracts let a caller conclude. */
module Build {
  import opened Wrappers
  import opened Environment
  import opened Directive
  import opened Footer
  import Paths
  import Usage

  /** `problog:coin` is an acceptable identifier. */
  lemma CoinAccepted()
    ensures CodeFilename("problog:coin").Success?
  {
    assert "problog:coin"[..8] == Namespace && "problog:coin"[9..] != Extension;
  }

  /** `problog:dice` names the file `dice.pl`. */
  lemma DiceFilename()
    ensures CodeFilename("problog:dice") == Success("dice.pl")
  {
    assert "problog:dice"[..8] == Namespace && "problog:dice"[9..] != Extension;
    assert "problog:dice"[8..] + Extension == "dice.pl";
  }

  /** The existing relative directory `code` localises to itself. */
  lemma CodeLocalised(pathExists: string -> bool)
    requires pathExists("code")
    ensures Paths.LocaliseCodeDirectory(Some("code"), Some(Paths.DefaultRequestType), pathExists) == Success("code")
  {
    assert "code"[..1] == "c";
  }

  /** `dice.pl` in `code` is `code/dice.pl`. */
  lemma DicePath()
    ensures Paths.PathJoin("code", "dice.pl") == "code/dice.pl"
  {
    assert "dice.pl"[..1] == "d" && "code"[3..] == "e";
    assert "code" + "/" + "dice.pl" == "code/dice.pl";
  }

  /** The file names and paths involved, worked out once. */
  lemma DiceNames(pathExists: string -> bool)
    requires pathExists("code")
    ensures CodeFilename("problog:coin").Success?
    ensures CodeFilename("problog:dice") == Success("dice.pl")
    ensures Paths.LocaliseCodeDirectory(Some("code"), Some(Paths.DefaultRequestType), pathExists) == Success("code")
    ensures Paths.PathJoin("code", "dice.pl") == "code/dice.pl"
  {
    CoinAccepted();
    DiceFilename();
    CodeLocalised(pathExists);
    DicePath();
  }

  /** A box with inline code in document `index` of a fresh build: the box is made, no
      dependency is noted, and the document is recorded. */
  method InlineBox() returns (box: Result<ProblogBox, DirectiveError>, dependencies: seq<string>,
                               usage: Usage.UsageSet)
    ensures box.Success? && box.value.name == "problog:coin"
    ensures dependencies == []
    ensures usage == Some({"index"})
  {
    var config := new Config([]);
    var env := new BuildEnvironment("index", config);
    var pathExists := (p: string) => false;
    var readFile := (p: string) => "";
    CoinAccepted();
    assert {} + {"index"} == {"index"};
    box := Run(env, "problog:coin", ["0.5::heads.", "query(heads)."], pathExists, readFile);
    dependencies := env.dependencies;
    usage := env.hasProblog;
  }

  /** A box loading `dice.pl` from the code directory `code`: the box is made and exactly
      that file becomes a dependency. */
  method FileBox() returns (box: Result<ProblogBox, DirectiveError>, dependencies: seq<string>)
    ensures box.Success? && box.value.name == "problog:dice"
    ensures dependencies == ["code/dice.pl"]
  {
    var config := new Config([]);
    config.codeDirectory := Some("code");
    var env := new BuildEnvironment("index", config);
    var pathExists := (p: string) => p == "code" || p == "code/dice.pl";
    var readFile := (p: string) => "\n1/6::dice(1).\n";
    DiceNames(pathExists);
    var expansion := Expand("problog:dice", [], Some("code"), pathExists, readFile);
    assert expansion.Success? && expansion.value.dependency == Some("code/dice.pl");
    box := Run(env, "problog:dice", [], pathExists, readFile);
    dependencies := env.dependencies;
  }

  /** A parallel worker reads a document with a box; once its record is merged in, the
      resolved document gets exactly one footer script, and a document without boxes none. */
  method MergedWorker(serverUrl: string) returns (page: seq<Node>, other: seq<Node>)
    ensures page == [Raw(FooterScript(serverUrl), FooterScript(serverUrl), "html")]
    ensures other == []
  {
    var config := new Config([]);
    config.executionServerUrl := serverUrl;
    var main := new BuildEnvironment("", config);
    var worker := new BuildEnvironment("index", config);
    worker.hasProblog := Some({"index"});
    MergeProblogDetect(main, worker);

    var indexTree := new Doctree([]);
    InjectProblogDetect(main, indexTree, "index");
    page := indexTree.children;

    var aboutTree := new Doctree([]);
    InjectProblogDetect(main, aboutTree, "about");
    other := aboutTree.children;
  }
}
