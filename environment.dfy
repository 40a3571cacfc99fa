/** The parts of Sphinx's application config and build environment that the extension
    reads and writes, and the two hooks that maintain the usage record. */
module Environment {
  import opened Wrappers
  import Usage

  /** `app.config` / `env.config`: the extension's two settings and the HTML static path. */
  class Config {
    var codeDirectory: Option<string>      // sphinx_problog_code_directory
    var executionServerUrl: string         // sphinx_problog_execution_server_url
    var htmlStaticPath: seq<string>        // html_static_path

    /** The settings as registered by the extension: no code directory, no server URL. */
    constructor (htmlStaticPath: seq<string>)
      ensures codeDirectory == None && executionServerUrl == ""
      ensures this.htmlStaticPath == htmlStaticPath
    {
      codeDirectory := None;
      executionServerUrl := "";
      this.htmlStaticPath := htmlStaticPath;
    }
  }

  /** `app.builder.env`: the document being read, the dependencies noted for it and
      the usage record (`None` while the attribute has not been set). */
  class BuildEnvironment {
    var hasProblog: Usage.UsageSet        // sphinx_problog_has_problog
    var docname: string                   // env.docname
    var dependencies: seq<string>         // paths given to env.note_dependency, in order
    const config: Config

    /** A fresh environment, before any hook of the extension has run. */
    constructor (docname: string, config: Config)
      ensures hasProblog == None && dependencies == []
      ensures this.docname == docname && this.config == config
    {
      hasProblog := None;
      this.docname := docname;
      dependencies := [];
      this.config := config;
    }
  }

  /** `purge_problog_detect` (the `env-purge-doc` hook): forget that `docname` has a box. */
  method PurgeProblogDetect(env: BuildEnvironment, docname: string)
    modifies env`hasProblog
    ensures env.hasProblog == Usage.Purge(old(env.hasProblog), docname)
  {
    if env.hasProblog.Some? {
      if docname in env.hasProblog.value {
        env.hasProblog := Some(env.hasProblog.value - {docname});
      }
    }
  }

  /** `merge_problog_detect` (the `env-merge-info` hook): fold a parallel worker's record
      into this environment's. The other environment is read after this one's attribute
      has been created, as in the source, so passing the same environment twice is safe. */
  method MergeProblogDetect(env: BuildEnvironment, other: BuildEnvironment)
    modifies env`hasProblog
    ensures env.hasProblog == Usage.Merge(old(env.hasProblog), old(other.hasProblog))
  {
    if env.hasProblog.None? {
      env.hasProblog := Some({});
    }
    if other.hasProblog.Some? {
      assert env == other ==> env.hasProblog.value + env.hasProblog.value == env.hasProblog.value;
      env.hasProblog := Some(env.hasProblog.value + other.hasProblog.value);
    }
  }
}
