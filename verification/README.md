# dors core, modelled in Dafny

dors generates a README-style Markdown document for a Go package. It fetches the
package's documentation, post-processes it, and fetches its sub-packages. It
then renders the result through a text template, whose output passes a filter
that thins out blank lines. This project models the logic of that pipeline and
proves its properties. The modules are:

- `TemplateFilter` (`pkg/gen/template/template.go`): `multiNewLineEliminator`.
  - It is a class with the `newLines` counter that persists across `Write` calls.
  - `Write` is a loop over the bytes.
  - It is proved against a reference function `Filtered(k, s)` over the whole
    stream.
- `TemplateFuncs` (same file): the template helpers.
  - `gocode`, `code`, `inlineCode`.
  - The two ellipsis helpers. The greedy regular expression `{(?s).*}` is
    written out as a string function, `CollapseBraces`.
  - `hasSection`, `importPath`, `fullName`, and the `NoPos` guards of `filename`
    and `lineNumber`.
- `Gen` (`pkg/gen/types.go`):
  - the configuration;
  - `Gen.get`: sort the sub-directories, promote function and type examples,
    rename a command package, apply the title override, fetch the sub-packages;
  - the sub-package fetcher `subPkgFetcher`;
  - `WithConfig`.

  `get` mutates the fetched package in place. `Gen.Adjust` does the same to a
  `Doc.Package` object and is proved equal to the value function `PostProcess`.
- `Common` (`pkg/common/common.go`): the filtering loop of `CollectGoFiles` and
  the `GoFile` record.
- `Run` (`pkg/gen/run.go`): `docGet` and `workaroundLocalSubDirs`.
- `Doc`: the parts of the documentation library's package, function, type and
  example records that the core reads and writes.
- Support modules:
  - `Strings` and `Sorting`: the library functions used (`HasPrefix`,
    `TrimPrefix`, `slices.Contains`, string order, sorting);
  - `Errors`;
  - `Wrappers`.

Calls into code the model does not see are parameters of the operations that
use them:

| Go call | parameter |
|---|---|
| `doc.Get` (documentation service over HTTP) | `Env.load` |
| `os.ReadDir` | `readDir` |
| `filepath.Base` | `base` |
| `filepath.Rel` | `rel` |
| `filepath.Join` | `join` |
| `token.FileSet.Position` | `position` |

Three behaviours of the code are easy to misread:

- The blank-line filter does not collapse a run of newlines to one line break.
  A run of two or more newlines before another byte comes out as exactly two
  newlines (one blank line). A trailing run comes out as one newline until more
  data arrives.
- An empty `IncludeSections` runs both example promotions. The field's doc
  comment says an empty list means "all sections included"
  (`pkg/gen/types.go:37`).
- When any sub-package fails to load, `get` returns the gathered errors and
  no package, not a package with the sub-packages that did load.

## Model

| member | source | states |
|---|---|---|
| TemplateFilter.MultiNewLineEliminator.constructor | pkg/gen/template/template.go:20-23 | a fresh filter has no pending newline and has passed nothing on |
| TemplateFilter.MultiNewLineEliminator.Write | pkg/gen/template/template.go:25-45 | keeps the invariant that `newLines` is the length of the trailing newline run of everything written so far, and that the output so far is `Filtered(0, everything written)`; what one call hands on is the reference output of its input from the carried-over counter, and the count it returns is that output's length |
| TemplateFilter.WriteAppends | pkg/gen/template/template.go:20-45 | one `Write` extends the output of all earlier writes by exactly its own output, and leaves the counter that the whole stream would leave |
| TemplateFilter.FilteredSplit | pkg/gen/template/template.go:25-45 | splitting the input across two writes gives the same concatenated output as one write, because the counter carries over |
| TemplateFilter.PendingSplit | pkg/gen/template/template.go:25-45 | the counter after `a + b` is the counter after `b` started from the counter `a` left |
| TemplateFilter.PendingIsTrailing | pkg/gen/template/template.go:28-40 | from a fresh start the counter equals the length of the trailing run of newlines of everything written |
| TemplateFilter.FilteredStep | pkg/gen/template/template.go:28-43 | a newline read with a newline already pending is dropped; a first newline passes; another byte after two or more newlines gets one extra newline before it |
| TemplateFilter.FilterKeepsOtherBytes | pkg/gen/template/template.go:28-43 | deleting every newline from the output gives the input with every newline deleted: other bytes pass unchanged and in order |
| TemplateFilter.FilteredRun | pkg/gen/template/template.go:29-33 | a run of newlines emits one newline only when none was pending, and the counter grows by the run's length |
| TemplateFilter.RunThenByte | pkg/gen/template/template.go:29-41 | from a fresh start, a run of n newlines followed by another byte comes out as min(n, 2) newlines and that byte |
| TemplateFilter.RunBeforeByte | pkg/gen/template/template.go:29-41 | after a non-newline byte, a single newline between two other bytes is emitted unchanged and a run of two or more becomes exactly two |
| TemplateFilter.TrailingRun | pkg/gen/template/template.go:29-33 | a run of newlines at the end of what was written comes out as one newline until more data arrives |
| TemplateFilter.NoTripleInOutput | pkg/gen/template/template.go:30-38 | the output never holds three consecutive newlines, and starts with at most two (one when a newline is pending) |
| TemplateFilter.FilterIdempotent | pkg/gen/template/template.go:28-43 | running the output through the filter again, from the matching counter, changes nothing |
| TemplateFuncs.GoCode | pkg/gen/template/template.go:77-79 | the result opens with a Go fence and closes with a newline and a fence, and is 11 characters longer than the snippet |
| TemplateFuncs.GoCodeRoundTrip | pkg/gen/template/template.go:77-79 | removing the Go fence from `gocode(s)` gives back exactly `s` |
| TemplateFuncs.Code | pkg/gen/template/template.go:80-85 | the result is a plain fence whose body always ends in a newline; it is 8 characters longer than `s` when `s` ends in a newline and 9 otherwise |
| TemplateFuncs.CodeRoundTrip | pkg/gen/template/template.go:80-85 | removing the fences of `code(s)` gives `s` when `s` ends in a newline and `s` plus one newline otherwise |
| TemplateFuncs.CodeCollisions | pkg/gen/template/template.go:80-85 | two snippets give the same block exactly when they are equal or one is the other plus its missing final newline |
| TemplateFuncs.InlineCode | pkg/gen/template/template.go:86-88 | the result is two characters longer than `s` and starts and ends with a backtick |
| TemplateFuncs.InlineCodeRoundTrip | pkg/gen/template/template.go:86-88 | removing the backticks of `inlineCode(s)` gives back exactly `s` |
| TemplateFuncs.CollapseBraces | pkg/gen/template/template.go:89-92 | with no `{` before a `}` the string is unchanged; otherwise the span from the first `{` to the last `}` (nothing of either outside it) is replaced by `{ ... }` and the rest is kept |
| TemplateFuncs.CollapseIdempotent | pkg/gen/template/template.go:89-98 | collapsing a collapsed string changes nothing |
| TemplateFuncs.CollapseGreedy | pkg/gen/template/template.go:89-92 | for any strings around two brace pairs (no `{` before the first, no `}` after the last), the two pairs and everything between them collapse into one `{ ... }` |
| TemplateFuncs.CollapseNoPair | pkg/gen/template/template.go:89-92 | any string whose every `}` comes before its first `{` has no match and stays as it is |
| TemplateFuncs.InlineCodeEllipsis | pkg/gen/template/template.go:89-93 | removing the backticks from the result gives the collapsed string |
| TemplateFuncs.GoCodeEllipsis | pkg/gen/template/template.go:94-98 | removing the Go fence from the result gives the collapsed string |
| TemplateFuncs.HasSection | pkg/gen/template/template.go:74-76 | true exactly when the section is one of the listed sections |
| TemplateFuncs.FullName | pkg/gen/template/template.go:99-104 | with a leading "github.com/", the result is the import path without that one prefix; otherwise it is the import path unchanged |
| TemplateFuncs.FullNameSuffix | pkg/gen/template/template.go:102-104 | the full name is always a suffix of the import path, either as long or 11 characters shorter |
| TemplateFuncs.FullNameTrimsOnce | pkg/gen/template/template.go:102-104 | for every `x`, the full name of "github.com/" + `x` is `x`: exactly one leading "github.com/" is removed |
| TemplateFuncs.Filename | pkg/gen/template/template.go:114-120 | NoPos gives the empty string; any other position gives the base name of the file the file set places it in |
| TemplateFuncs.LineNumber | pkg/gen/template/template.go:122-128 | NoPos gives 0; any other position gives the line the file set places it on |
| Sorting.SortBy | pkg/gen/types.go:141 | the result is sorted ascending by the key and is a permutation of the input |
| Sorting.SortByMap | pkg/gen/types.go:88 | sorting the sub-packages by path and then taking their paths is the same as sorting their paths |
| Sorting.SortedUnique | pkg/gen/types.go:88 | two sorted string sequences holding the same strings are equal, so the sort's result does not depend on the order of its input |
| Strings.LessTotal | pkg/gen/types.go:88 | Go's `<` on strings orders any two different strings one way or the other |
| Strings.LessTransitive | pkg/gen/types.go:88 | Go's `<` on strings is transitive |
| Gen.Inherit | pkg/gen/types.go:146-152 | a promoted example takes the owner's name only when its own is empty and the owner's doc only when its own is empty; code and output are unchanged |
| Gen.InheritAll | pkg/gen/types.go:145-155 | one promoted copy per example of the owner |
| Gen.InheritAllAt | pkg/gen/types.go:145-155 | the k-th promoted copy is the k-th example with the owner's name and doc filled in |
| Gen.PromoteExamples | pkg/gen/types.go:143-173 | promotion changes only the package's examples, and the existing examples stay as a prefix |
| Gen.PromotedAt | pkg/gen/types.go:143-157 | the k-th example of the i-th owner lands right after all examples of the earlier owners and the owner's earlier examples: owners in order, then example order |
| Gen.PromotedLength | pkg/gen/types.go:143-173 | every example of every owner is promoted exactly once |
| Gen.PromotedAppend | pkg/gen/types.go:143-173 | promoting the owners of `a + b` is promoting `a`, then `b` |
| Gen.PromotionBySection | pkg/gen/types.go:143-173 | a section that is not included appends its examples after the existing ones (functions first, then types), and an included one appends nothing |
| Gen.EmptySectionsPromoteAll | pkg/gen/types.go:143-173 | with no sections listed both promotions run, although the doc comment at line 37 documents an empty list as "all included" |
| Gen.RenameCommand | pkg/gen/types.go:175-178 | a command package is named after the base of the requested name and loses one leading "Package main is " from its doc; any other package is unchanged |
| Gen.ApplyTitle | pkg/gen/types.go:180-182 | a non-empty title replaces the name unconditionally; an empty one changes nothing |
| Gen.PostProcess | pkg/gen/types.go:141-182 | the sub-directories are sorted and a permutation of the originals; the title wins over the command rename; a non-command without a title keeps its name and doc; import path, functions, types and existing examples are kept; the examples are those promotion gives for the configured sections; a command's doc loses one leading "Package main is " |
| Gen.AppendInherited | pkg/gen/types.go:145-155 | the inner promotion loop appends the promoted copies of one owner's examples and changes nothing else of the package |
| Gen.AppendPromoted | pkg/gen/types.go:143-173 | the promotion loops append `Promoted(owners)` to the package's examples and change nothing else |
| Gen.ErrorOrNil | pkg/gen/types.go:89 | no error exactly when no error was gathered |
| Gen.SubPkgFetcher.constructor | pkg/gen/types.go:187-191 | a fetcher for the import path, with no packages and no errors gathered |
| Gen.SubPkgFetcher.FetchOne | pkg/gen/types.go:92-110 | a failed load appends one wrapped error; a load with a name appends one sub-package at `importPath + "/" + subDir` that holds what `docGet` returns; a load without a name adds nothing |
| Gen.SubPkgFetcher.FetchEach | pkg/gen/types.go:84-86 | after the loop, the errors and paths gathered are those of every sub-directory in order, appended to what was there, and every new sub-package is freshly loaded |
| Gen.SubPkgFetcher.Fetch | pkg/gen/types.go:83-90 | the packages come back sorted by path, their paths are the sorted fetched paths, and the error is the gathered errors or none |
| Gen.FetchedPathsMembers | pkg/gen/types.go:92-110 | a path is among the fetched packages exactly when it is `importPath + "/" + d` for a sub-directory `d` that loads as a package with a non-empty name |
| Gen.FetchErrorsFailures | pkg/gen/types.go:101-104 | no error is gathered exactly when every sub-directory loads; each sub-directory adds at most one package or one error |
| Gen.FetchedPathsAppend | pkg/gen/types.go:84-86 | fetching `a + b` gathers the paths of `a`, then those of `b` |
| Gen.FetchedPathsPermutation | pkg/gen/types.go:84-86 | loading the sub-directories in another order gathers the same paths, in another order |
| Gen.FetchOrderIndependent | pkg/gen/types.go:83-110 | the sorted result of the concurrent loads is the same for every completion order |
| Gen.FetchErrorsPermutation | pkg/gen/types.go:83-110 | permuting the sub-directories permutes the gathered errors: the same errors arise whatever the load order |
| Gen.Gen.constructor | pkg/gen/types.go:117-119 | a new generator has the zero configuration |
| Gen.Gen.WithConfig | pkg/gen/types.go:121-124 | sets the configuration and returns the same generator |
| Gen.Gen.Adjust | pkg/gen/types.go:141-182 | the in-place steps of `get` leave the package equal to `PostProcess` of what was fetched |
| Gen.Gen.FetchSubPkgs | pkg/gen/types.go:186-197 | the fetch fails exactly when some sub-directory fails to load, with all such errors; otherwise the sub-packages' paths are the sorted fetched paths and every sub-package is fresh and as loaded |
| Gen.Gen.Get | pkg/gen/types.go:135-205 | a failed fetch of the package is returned as is; otherwise the package is the post-processed fetch; with `SkipSubPkgs` there are no sub-packages; without it, any sub-package failure fails the call, and success gives the sorted loadable sub-packages |
| Common.CollectGoFiles | pkg/common/common.go:18-41 | a listing failure gives the wrapped error; otherwise the result is what the loop yields over the listing, `CollectFrom` |
| Common.CollectedFilesAreSources | pkg/common/common.go:25-38 | every returned file's name ends in ".go" and not in "_test.go", its URL is empty, and at the top level (`subDir == ""`) its path is its name |
| Common.CollectedNames | pkg/common/common.go:25-38 | the returned names are exactly the source entries' names in listing order |
| Common.SourceNamesSingle | pkg/common/common.go:26 | one entry contributes its name exactly when it is a source file; a directory never does, whatever its name |
| Common.SourceNamesAppend | pkg/common/common.go:25-38 | the selection keeps listing order across any split of the listing |
| Common.TopLevelNeverFails | pkg/common/common.go:27-28 | without a sub-directory no relative path is computed, so collection never fails |
| Common.RelFailureFails | pkg/common/common.go:29-32 | a relative-path failure on any source entry fails the whole call, and no files are returned |
| Common.PrefixErrorSticks | pkg/common/common.go:29-32 | once part of the listing has failed, the whole call fails with that same error |
| Run.Workaround | pkg/gen/run.go:27-43 | a non-local name leaves the package unchanged with no error; success changes only the sub-directories and keeps the existing ones as a prefix; an error happens exactly for a local name whose directory cannot be read, and it is that read error wrapped as ImportPathReadFailed; a readable local directory appends the names of its sub-directories in listing order |
| Run.LocalWorkaroundAppends | pkg/gen/run.go:32-41 | for a readable local directory, the listed directories' names are appended after the existing sub-directories |
| Run.DirNamesMembers | pkg/gen/run.go:37-41 | every directory entry's name is appended, and every appended name belongs to a directory entry |
| Run.DirNamesSkipsFiles | pkg/gen/run.go:38 | a listing without directories adds nothing, whatever the file names |
| Run.DirNamesAppend | pkg/gen/run.go:37-41 | the appended names keep listing order across any split of the listing |
| Run.WorkaroundLocalSubDirs | pkg/gen/run.go:27-43 | the loop leaves the package as `Workaround` describes; on a read error it returns that error and the package is unchanged |
| Run.DocGetSpec | pkg/gen/run.go:16-25 | success exactly when both the fetch and the workaround succeed; for a non-local name the package is the fetched one |
| Run.DocGet | pkg/gen/run.go:16-25 | no package whenever the fetch or the workaround fails; otherwise a fresh package holding what `DocGetSpec` describes |

## Left out

- The goroutines, `sync.WaitGroup` and mutex of `subPkgFetcher` (`pkg/gen/types.go:77-109`): the loads run one after the other. `Gen.FetchOrderIndependent` shows that the sorted paths do not depend on the completion order.
- Gen.Gen.Get: the model fixes the order of the errors in the returned multierror to sub-directory order. In the source each goroutine appends its error under the mutex when it finishes (`pkg/gen/types.go:96-104`), so that order is not determined. `Gen.FetchErrorsPermutation` shows that the same errors arise whatever the order.
- Gen.SubPkgFetcher.Fetch: the model sorts with a stable insertion sort, while Go's `sort.Slice` is not stable. The two can differ only in the order of sub-packages with equal paths.
- `doc.Get` and its HTTP client, `gosrc.SetLocalDevMode`, `os.ReadDir`, `filepath.Rel`/`Join`/`Base`/`Abs` and `token.FileSet.Position` are foreign calls. They are parameters.
- The text of errors (`fmt.Errorf`, `errors.Wrapf`, multierror's formatting) is not modelled. Errors are the structured values in `Errors.Error`.
- The writer under the blank-line filter is modelled by the `sink` sequence. Its write errors and short writes are not modelled.
- TemplateFilter.MultiNewLineEliminator.Write: `newLines` is an unbounded `nat`. Go's `int` counter could overflow only after 2^63 consecutive newlines.
- Gen.PostProcess: leaves the functions' and types' own example lists unchanged. If the documentation library holds examples by pointer (golang/gddo's does), filling in `Name` and `Doc` during promotion also changes those shared examples.
- Template parsing and execution (`Execute`, the embedded `*.md.gotmpl` files, `markdown.ToMarkdown` behind `doc`, and `config`) are left out: they are library code and files that are not part of this model.
- `Execute`'s type assertion on its data (`pkg/gen/template/template.go:52-55`) is not modelled.
- `Create`, the `Called` methods, `getArgs`, logging and the verbose JSON dump have no logical content to verify.
- `cmd/gen.go` (flag wiring) and `pkg/gen/config.go` (a duplicate `Config` struct) are not part of this model.
- `ExcludePaths`, `RespectCase`, `Short`, `PrintSource`, `Unexported`, `Output` and `Verbose` are carried in `Gen.Config` but never read by the modelled code. `recursive` is stored in the fetcher but never read.
- `Doc.PackageInfo` keeps only the package fields the core reads or writes. The other fields of the documentation library's package are left out.
- TemplateFuncs.ImportPath: carries no contract of its own because it is the field itself. `TemplateFuncs.FullName` is stated in terms of it.
