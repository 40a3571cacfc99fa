# sphinx-problog bookkeeping, in Dafny

The sphinx-problog extension adds a `problog` directive to Sphinx. The directive embeds
an interactive ProbLog code box in a page. This project models the bookkeeping under the
extension, with Sphinx and docutils abstracted away:

- **Usage record.** The environment attribute `sphinx_problog_has_problog` is absent
  until first used. It holds the names of the documents that contain a box. The
  directive adds to it, `purge_problog_detect` removes from it, and
  `merge_problog_detect` unions in a parallel worker's record. `Usage` gives the meaning
  of each step as functions on `Option<set<string>>`. `Environment` holds the
  `BuildEnvironment` and `Config` classes and the two hooks as methods that update the
  attribute in place.
- **The directive** (`ProbLog.run`, module `Directive`). It checks the identifier
  (`problog:` prefix, no `.pl` suffix) and derives the code file name. It then takes the
  inline content, or it localises the code directory and loads the file. Only the file
  path records a dependency.
- **`localise_code_directory`** and POSIX `os.path.join` (module `Paths`).
- **The footer script** and `inject_problog_detect` (module `Footer`). A resolved
  document's doctree gets one raw HTML script, and only when the usage record holds the
  document.
- **`assign_reference_title`** (module `Labels`). Each box gets a titled label
  `(docname, id, "ProbLog code box")` in the standard domain's label map.
- **`include_static_files`** (module `StaticFiles`). This is a duplicate-safe append of
  the packaged files onto `html_static_path`.
- `Text` models the Python string operations involved: `startswith`, `endswith`,
  `strip` and `'\n'.join`. `Build` holds client methods that use the hooks' contracts on
  small concrete documents.

The file system is passed in as functions. `pathExists` stands for `os.path.exists`
and `sphinx_problog.file_exists`. `readFile` gives a file's text. `staticPathOf`
stands for `sphinx_problog.get_static_path`. The source's `assert` statements and
`RuntimeError`s become error values (`Result`, `Outcome`).

The model follows the code in three places a reader might not expect:

- Inline content becomes the lines joined by `\n` with nothing trimmed
  (`sphinx_problog/problog.py:167`). Only the node's raw source is whitespace-stripped
  (line 185).
- File content is stripped of newline characters only (`strip('\n')`, line 183). A
  leading or trailing line made of spaces stays.
- The document is added to the usage record before the identifier is checked
  (lines 142-145). A directive that then fails has still marked its document.

## Model

| member | source | states |
|---|---|---|
| Text.Strip | sphinx_problog/problog.py:183-185 | the stripped text neither starts nor ends with a stripped character, and it is empty exactly when every character is one |
| Text.StripPadded | sphinx_problog/problog.py:183-185 | an independent description of `strip`: any padding of stripped characters around a core that does not start or end with one is removed, and the core is returned |
| Text.StripIdempotent | sphinx_problog/problog.py:183-185 | stripping twice equals stripping once |
| Text.JoinEnds | sphinx_problog/problog.py:167 | no lines join to the empty text; otherwise the text starts with the first line and ends with the last |
| Text.SplitJoin | sphinx_problog/problog.py:166-167 | inline content joined by `\n` splits back into the same lines when no line holds a newline |
| Text.JoinSplit | sphinx_problog/problog.py:166-167 | splitting on `\n` and joining again gives back the text |
| Paths.PathJoin | sphinx_problog/problog.py:172 | an absolute file name replaces the directory; otherwise the result is the directory and the file name with at most one `/` between them, added only when the directory is non-empty and does not already end with `/` |
| Paths.LocaliseCodeDirectory | sphinx_problog/problog.py:201-218 | an unset directory is an error naming the request type (default `ProbLog box content`); a result is never absolute, exists, and is the setting or `.` + the setting; a leading `/` gets the `.` prefix, any other path is kept; a missing localised directory is an error naming it |
| Paths.LocaliseIdempotent | sphinx_problog/problog.py:209-218 | a localised directory fed back as the setting localises to itself |
| Usage.Mark | sphinx_problog/problog.py:142-145 | afterwards the record exists and holds exactly the old documents plus the current one |
| Usage.Purge | sphinx_problog/problog.py:230-234 | the record stays absent or present as it was, and holds exactly the old documents minus the purged one |
| Usage.Merge | sphinx_problog/problog.py:245-249 | afterwards the record exists and holds exactly the documents of either record, an absent record counting as empty |
| Usage.MarkIdempotent | sphinx_problog/problog.py:142-145 | marking a document twice equals marking it once |
| Usage.MarkRecorded | sphinx_problog/problog.py:144-145 | marking a document already recorded leaves the record unchanged |
| Usage.PurgeUnrecorded | sphinx_problog/problog.py:230-234 | purging a document the record lacks, or purging an absent record, changes nothing |
| Usage.MergeAbsent | sphinx_problog/problog.py:245-247 | merging a worker without a record only creates this record, with its old contents |
| Usage.MergeCommutes | sphinx_problog/problog.py:245-249 | merging two workers' records in either order gives the same record |
| Usage.MarkMergeCommute | sphinx_problog/problog.py:142-249 | marking a document commutes with merging a worker's record |
| Usage.PurgeThenMark | sphinx_problog/problog.py:142-234 | purging a document and reading it again leaves the same record as marking alone, also when the record was absent |
| Usage.MarkPurgeMergeExample | sphinx_problog/problog.py:142-249 | on a fresh build, mark(A); mark(A); purge(B); merge({B, C}) records {A, B, C}, also when A and B are the same document |
| Environment.Config.constructor | sphinx_problog/problog.py:340-341 | the code directory starts unset and the server URL empty |
| Environment.PurgeProblogDetect | sphinx_problog/problog.py:221-234 | the environment's record becomes `Usage.Purge` of the old record; nothing else changes |
| Environment.MergeProblogDetect | sphinx_problog/problog.py:237-249 | the record becomes `Usage.Merge` of the two old records, also when both arguments are the same environment |
| Directive.CodeFilename | sphinx_problog/problog.py:152-163 | an identifier is accepted exactly when it starts with `problog:` and does not end with `.pl`; the missing prefix is reported first; an accepted identifier gives a `.pl` file name from which the identifier is read back |
| Directive.IdentifierOfRoundTrip | sphinx_problog/problog.py:156-163 | every `.pl` file name whose identifier is acceptable is what that identifier derives |
| Directive.MakeBox | sphinx_problog/problog.py:185-194 | the box is named and labelled by the identifier and keeps the text; its raw source is the text stripped of Python whitespace, so it is already stripped and empty exactly when the text is all whitespace |
| Directive.Expand | sphinx_problog/problog.py:151-188 | a bad identifier fails with its error; inline content succeeds with the lines joined by `\n` and no dependency; otherwise a directory error is passed on, a missing file fails naming the joined path, and success reads that file, strips newlines and records that path as the one dependency; the box carries the identifier, and its raw source is the whitespace-stripped text |
| Directive.Run | sphinx_problog/problog.py:136-198 | the record becomes `Usage.Mark` of the old record on every path; the result is that of `Expand`; the dependency list grows by that path for a file-based box and otherwise stays as it was |
| Footer.InitArgument | sphinx_problog/problog.py:269-273 | the argument is empty exactly when the URL is empty; otherwise it is the URL between single quotes |
| Footer.FooterScript | sphinx_problog/problog.py:274-279 | the script is the fixed head, the init argument and the fixed tail |
| Footer.FooterScriptRoundTrip | sphinx_problog/problog.py:268-279 | the URL setting can be read back from the script |
| Footer.FooterScriptInjective | sphinx_problog/problog.py:268-279 | different URL settings give different scripts |
| Footer.FooterNodes | sphinx_problog/problog.py:261-283 | at most one node is added, exactly when the record exists and holds the document; that node is a raw `html` node holding the script |
| Footer.InjectProblogDetect | sphinx_problog/problog.py:252-283 | the doctree's children become the old children followed by `FooterNodes` |
| Labels.CheckBox | sphinx_problog/problog.py:296-314 | a box passes exactly when it has one name, which starts with `problog:`, and one id, and its anonymous label is `(docname, id)` |
| Labels.AssignTitles | sphinx_problog/problog.py:295-318 | no label is removed, and the only names that gain a label are names the boxes carry |
| Labels.AssignTitlesOutcome | sphinx_problog/problog.py:295-314 | the walk succeeds exactly when every box passes; a failure is the error of the first failing box |
| Labels.AssignTitlesFrame | sphinx_problog/problog.py:316-318 | labels for names that no box carries are unchanged |
| Labels.AssignTitlesFailureFrame | sphinx_problog/problog.py:295-318 | when a box fails its checks, the entry of every name that no earlier box carries is unchanged, even if a later box carries that name |
| Labels.AssignTitlesKeepsTitled | sphinx_problog/problog.py:312-318 | a name that already has its titled label keeps it, even if a later box has the same name |
| Labels.AssignTitlesLabels | sphinx_problog/problog.py:295-318 | every box before the first failing one ends with the label `(docname, id, "ProbLog code box")` |
| Labels.AssignReferenceTitle | sphinx_problog/problog.py:286-318 | the label map and the outcome are those of `AssignTitles` on the old map |
| StaticFiles.Resolve | sphinx_problog/problog.py:329-330 | one resolved path per packaged file, in order |
| StaticFiles.AppendAbsent | sphinx_problog/problog.py:329-332 | old entries keep their places; afterwards every file is present; nothing else is added; added entries were absent before and are added once |
| StaticFiles.AppendAbsentNoDuplicates | sphinx_problog/problog.py:329-332 | a static path without duplicates stays without duplicates |
| StaticFiles.AppendPresent | sphinx_problog/problog.py:331-332 | appending files that are all present changes nothing |
| StaticFiles.AppendAbsentIdempotent | sphinx_problog/problog.py:329-332 | running the hook twice leaves the same static path as running it once |
| StaticFiles.IncludeStaticFiles | sphinx_problog/problog.py:324-332 | the static path becomes `AppendAbsent` of the old path and the resolved packaged files (the stylesheet, then the four scripts) |
| Build.DiceNames | sphinx_problog/problog.py:156-172 | `problog:coin` is accepted, `problog:dice` names `dice.pl`, and the directory `code` localises to itself and joins to `code/dice.pl` |
| Build.InlineBox | sphinx_problog/problog.py:136-198 | on a fresh build, an inline box in `index` is made, notes no dependency, and leaves the record holding just `index` |
| Build.FileBox | sphinx_problog/problog.py:136-198 | a box loading `dice.pl` from the directory `code` is made and notes `code/dice.pl` as the only dependency |
| Build.MergedWorker | sphinx_problog/problog.py:237-283 | after a worker's record holding `index` is merged in, `index` gets exactly the footer script node and a document without boxes gets nothing |

## Left out

- Rendering (lines 37-99) is left out: the HTML visitors, and the LaTeX and text
  visitors that raise `NotImplemented`. Of the node construction at lines 185-196, only
  the `ids` from `nodes.make_id` are left out; `Directive.MakeBox` models the rest (name,
  raw source, text and label).
- Directive.MakeBox: the box's name is the identifier as written. docutils' `add_name`
  (line 193) stores the name lower-cased with runs of whitespace collapsed; that
  normalisation is not modelled.
- `setup` (lines 335-381) is left out, except the two config defaults (lines 340-341),
  which `Environment.Config.constructor` models. The rest only registers things with
  Sphinx: nodes, JavaScript and CSS files, and hooks. `DEPENDENCIES`,
  `is_js_registered` and `is_css_registered` go with it.
- File-system access is given as functions. `sphinx_problog.file_exists` is not part
  of this model; it is taken to fail exactly when the path does not exist. A file that
  exists but cannot be read or decoded is not modelled.
- `env.note_dependency` is modelled as appending the path to a list. Sphinx's own
  dependency tracking is not modelled.
- The assertion `len(self.arguments) == 1` (line 152) is not modelled: docutils passes
  the directive exactly one argument.
- The `str`-or-`None` assertion on the code-directory setting (line 149) is not
  modelled. A non-string setting, such as a `pathlib.Path`, fails every directive at
  line 149, even one with inline content, after its document is marked. The model's
  `Option<string>` rules this case out.
- The server URL is a string. A non-string setting, such as `None`, is not modelled.
- Error messages are not modelled as text. Each error value carries the data its
  message names.
- Sphinx's parallel worker processes are not modelled. Only the union in
  `merge_problog_detect` is.
- Python `assert`s are modelled as always on. A run under `python -O`, where they are
  skipped, is not modelled.
