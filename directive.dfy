/** The `problog` directive (`ProbLog.run`): records that the current document uses
    ProbLog, checks the code-box identifier, picks the code (inline content or a `.pl`
    file in the configured directory) and builds the box. File-system access is given
    as two functions: `pathExists` (for `os.path.exists` and `sphinx_problog.file_exists`)
    and `readFile` (the text of a file). */
module Directive {
  import opened Wrappers
  import opened Text
  import opened Paths
  import Usage
  import opened Environment

  /** Every code-box identifier starts with this namespace. */
  const Namespace := "problog:"
  /** Code files carry this extension; identifiers must not. */
  const Extension := ".pl"

  /** Why the directive fails. */
  datatype DirectiveError =
    | MissingNamespace(identifier: string)   // identifier lacks the `problog:` prefix
    | CarriesExtension(identifier: string)   // identifier ends with `.pl`
    | CodeDirectory(cause: LocaliseError)    // directory setting unset or missing
    | FileMissing(path: string)              // the code file does not exist

  /** The inner node: the code, stripped of surrounding whitespace as its raw source. */
  datatype ProblogCode = ProblogCode(rawSource: string, text: string, codeLabel: string)

  /** The outer node, carrying the identifier as its reference name. */
  datatype ProblogBox = ProblogBox(name: string, code: ProblogCode)

  /** The identifier a code file name stands for: the namespace followed by the file
      name without its extension. */
  function IdentifierOf(filename: string): string
    requires EndsWith(filename, Extension)
  {
    Namespace + filename[..|filename| - |Extension|]
  }

  /** The file name a code-box identifier refers to. */
  function CodeFilename(identifier: string): (r: Result<string, DirectiveError>)
    ensures r.Success? <==> StartsWith(identifier, Namespace) && !EndsWith(identifier, Extension)
    ensures !StartsWith(identifier, Namespace) ==> r == Failure(MissingNamespace(identifier))
    ensures StartsWith(identifier, Namespace) && EndsWith(identifier, Extension) ==>
              r == Failure(CarriesExtension(identifier))
    ensures r.Success? ==> EndsWith(r.value, Extension) && IdentifierOf(r.value) == identifier
  {
    if !StartsWith(identifier, Namespace) then Failure(MissingNamespace(identifier))
    else if EndsWith(identifier, Extension) then Failure(CarriesExtension(identifier))
    else
      var filename := identifier[8..] + Extension;
      assert filename[..|filename| - |Extension|] == identifier[8..];
      assert identifier == Namespace + identifier[8..];
      Success(filename)
  }

  /** Every file name with the extension comes from exactly one accepted identifier. */
  lemma {:induction false} IdentifierOfRoundTrip(filename: string)
    requires EndsWith(filename, Extension)
    requires !EndsWith(IdentifierOf(filename), Extension)
    ensures CodeFilename(IdentifierOf(filename)) == Success(filename)
  {
    var identifier := IdentifierOf(filename);
    assert StartsWith(identifier, Namespace);
    assert identifier[8..] == filename[..|filename| - |Extension|];
    assert identifier[8..] + Extension == filename;
  }

  /** What a directive invocation produces: the box and the dependency it notes, if any. */
  datatype Expansion = Expansion(box: ProblogBox, dependency: Option<string>)

  /** The outcome of the directive for an identifier, inline content lines (empty when
      the directive has no body) and the code-directory setting. */
  function Expand(identifier: string, content: seq<string>, codeDirectory: Option<string>,
                  pathExists: string -> bool, readFile: string -> string)
    : (r: Result<Expansion, DirectiveError>)
    ensures CodeFilename(identifier).Failure? ==> r == Failure(CodeFilename(identifier).error)
    ensures r.Success? ==>
              && r.value.box.name == identifier
              && r.value.box.code.codeLabel == identifier
              && r.value.box.code.rawSource == Strip(r.value.box.code.text, PythonWhitespace)
    ensures CodeFilename(identifier).Success? && content != [] ==>
              && r.Success?
              && r.value.dependency == None
              && r.value.box.code.text == Join(content, '\n')
    ensures CodeFilename(identifier).Success? && content == [] ==>
              var directory := LocaliseCodeDirectory(codeDirectory, Some(DefaultRequestType), pathExists);
              && (directory.Failure? ==> r == Failure(CodeDirectory(directory.error)))
              && (directory.Success? ==>
                    var path := PathJoin(directory.value, CodeFilename(identifier).value);
                    && (r.Success? <==> pathExists(path))
                    && (!pathExists(path) ==> r == Failure(FileMissing(path)))
                    && (r.Success? ==>
                          && r.value.dependency == Some(path)
                          && r.value.box.code.text == Strip(readFile(path), Newline)))
  {
    match CodeFilename(identifier)
    case Failure(e) => Failure(e)
    case Success(filename) =>
      if content != [] then Success(Expansion(MakeBox(identifier, Join(content, '\n')), None))
      else
        match LocaliseCodeDirectory(codeDirectory, Some(DefaultRequestType), pathExists)
        case Failure(e) => Failure(CodeDirectory(e))
        case Success(directory) =>
          var path := PathJoin(directory, filename);
          if pathExists(path) then
            Success(Expansion(MakeBox(identifier, Strip(readFile(path), Newline)), Some(path)))
          else Failure(FileMissing(path))
  }

  /** The box for `identifier` around `text`: named and labelled by the identifier, it
      keeps the text, and its raw source is the text stripped of Python whitespace (see
      `StripPadded`), so it has no surrounding whitespace left and is empty exactly when
      the text is all whitespace. */
  function MakeBox(identifier: string, text: string): (r: ProblogBox)
    ensures r.name == identifier && r.code.codeLabel == identifier && r.code.text == text
    ensures r.code.rawSource == Strip(text, PythonWhitespace)
    ensures Strip(r.code.rawSource, PythonWhitespace) == r.code.rawSource
    ensures r.code.rawSource == [] <==> forall i :: 0 <= i < |text| ==> text[i] in PythonWhitespace
  {
    StripIdempotent(text, PythonWhitespace);
    ProblogBox(identifier, ProblogCode(Strip(text, PythonWhitespace), text, identifier))
  }

  /** `ProbLog.run`: the document is recorded as using ProbLog before anything is checked,
      so a failing directive still marks it; a dependency is noted only for code read
      from a file. */
  method Run(env: BuildEnvironment, identifier: string, content: seq<string>,
             pathExists: string -> bool, readFile: string -> string)
    returns (r: Result<ProblogBox, DirectiveError>)
    modifies env`hasProblog, env`dependencies
    ensures env.hasProblog == Usage.Mark(old(env.hasProblog), env.docname)
    ensures var e := Expand(identifier, content, env.config.codeDirectory, pathExists, readFile);
            && r == (if e.Success? then Success(e.value.box) else Failure(e.error))
            && env.dependencies == old(env.dependencies) +
                 (if e.Success? && e.value.dependency.Some? then [e.value.dependency.value] else [])
  {
    if env.hasProblog.None? {
      env.hasProblog := Some({});
    }
    if env.docname !in env.hasProblog.value {
      env.hasProblog := Some(env.hasProblog.value + {env.docname});
    }

    var directory := env.config.codeDirectory;
    var checked := CodeFilename(identifier);
    if checked.Failure? {
      return Failure(checked.error);
    }
    var filename := checked.value;

    var contents: string;
    if content != [] {
      contents := Join(content, '\n');
    } else {
      var localised := LocaliseCodeDirectory(directory, Some(DefaultRequestType), pathExists);
      if localised.Failure? {
        return Failure(CodeDirectory(localised.error));
      }
      var path := PathJoin(localised.value, filename);
      if !pathExists(path) {
        return Failure(FileMissing(path));
      }
      env.dependencies := env.dependencies + [path];
      contents := Strip(readFile(path), Newline);
    }
    r := Success(MakeBox(identifier, contents));
  }
}
