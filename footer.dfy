/** `inject_problog_detect` (the `doctree-resolved` hook): documents that contain a
    ProbLog box get a raw HTML script calling `problog.init` appended to their doctree. */
module Footer {
  import opened Wrappers
  import opened Text
  import Usage
  import opened Environment

  /** The script up to the opening parenthesis of the `problog.init` call. */
  const ScriptHead := "\n\n    <script type=\"text/javascript\">\n        $(document).ready(function() {\n            problog.init("
  /** The script from the closing parenthesis of the `problog.init` call on. */
  const ScriptTail := ");\n        });\n    </script>\n"

  /** The argument of `problog.init`: the server URL in single quotes when one is set,
      nothing otherwise (the library then uses its built-in server). */
  function InitArgument(serverUrl: string): (r: string)
    ensures r == [] <==> serverUrl == []
    ensures r != [] ==> |r| == |serverUrl| + 2 && r[0] == '\'' && r[|r| - 1] == '\''
                        && r[1..|r| - 1] == serverUrl
  {
    if serverUrl != [] then "'" + serverUrl + "'" else ""
  }

  /** The footer script for a server-URL setting. */
  function FooterScript(serverUrl: string): (r: string)
    ensures StartsWith(r, ScriptHead) && EndsWith(r, ScriptTail)
    ensures |r| == |ScriptHead| + |InitArgument(serverUrl)| + |ScriptTail|
  {
    var r := ScriptHead + InitArgument(serverUrl) + ScriptTail;
    assert r[..|ScriptHead|] == ScriptHead;
    assert r[|r| - |ScriptTail|..] == ScriptTail;
    r
  }

  /** Reads the server URL back out of a footer script: `None` when the text is not of
      that shape. */
  function ServerUrlOf(script: string): Option<string> {
    if |script| < |ScriptHead| + |ScriptTail| || !StartsWith(script, ScriptHead) || !EndsWith(script, ScriptTail) then None
    else
      var argument := script[|ScriptHead|..|script| - |ScriptTail|];
      if argument == [] then Some([])
      else if |argument| >= 2 && argument[0] == '\'' && argument[|argument| - 1] == '\'' then
        Some(argument[1..|argument| - 1])
      else None
  }

  /** The script determines the setting it was made from: nothing is lost by quoting. */
  lemma FooterScriptRoundTrip(serverUrl: string)
    ensures ServerUrlOf(FooterScript(serverUrl)) == Some(serverUrl)
  {
  }

  /** Different settings give different scripts. */
  lemma FooterScriptInjective(url1: string, url2: string)
    requires FooterScript(url1) == FooterScript(url2)
    ensures url1 == url2
  {
    FooterScriptRoundTrip(url1);
    FooterScriptRoundTrip(url2);
  }

  /** A doctree child: a raw node (source, text and output format) or anything else. */
  datatype Node =
    | Raw(rawSource: string, text: string, format: string)
    | Other(description: string)

  /** The resolved doctree of one document, as the list of its top-level children. */
  class Doctree {
    var children: seq<Node>

    constructor (children: seq<Node>)
      ensures this.children == children
    {
      this.children := children;
    }
  }

  /** The nodes the hook appends: one raw HTML script exactly when the usage record
      exists and holds the document. */
  function FooterNodes(usage: Usage.UsageSet, docname: string, serverUrl: string): (r: seq<Node>)
    ensures |r| <= 1
    ensures |r| == 1 <==> Usage.Uses(usage, docname)
    ensures forall i :: 0 <= i < |r| ==>
              r[i] == Raw(FooterScript(serverUrl), FooterScript(serverUrl), "html")
  {
    if usage.None? then []
    else if docname !in usage.value then []
    else
      var script := FooterScript(serverUrl);
      [Raw(script, script, "html")]
  }

  /** `inject_problog_detect`: appends the footer script to `doctree` for a document the
      usage record holds, and leaves it unchanged otherwise. */
  method InjectProblogDetect(env: BuildEnvironment, doctree: Doctree, docname: string)
    modifies doctree
    ensures doctree.children ==
              old(doctree.children) + FooterNodes(env.hasProblog, docname, env.config.executionServerUrl)
  {
    if env.hasProblog.None? {
      return;
    }
    if docname !in env.hasProblog.value {
      return;
    }
    var serverUrl := env.config.executionServerUrl;
    var call := if serverUrl != [] then "'" + serverUrl + "'" else "";
    var script := ScriptHead + call + ScriptTail;
    doctree.children := doctree.children + [Raw(script, script, "html")];
  }
}
