# Base MCP server: documentation text and CLI executor

This project models the core of the Base MCP server, a Go program that serves
documentation for the Base web framework to MCP clients and can run the Base
command-line tool on a client's behalf. The model covers two parts.

- **Documents** (`main.go`).
  - `readMarkdownFile` reads a markdown page from the embedded file system and
    drops its YAML front matter.
  - `handleBaseCLI` serves the CLI reference page, or an error text in its place.
  - `handleBaseDocs` builds the combined documentation: the index page, the
    core-modules header, one titled section per core module that can be read
    (in the fixed order router, emitter, storage, middleware, logger,
    websocket, auth, email), and the configuration page last.
- **Executor** (`executor.go`).
  - `ExecutorService` records where the Base CLI was found: a binary
    (`basePath`) and a source directory to `go run` (`cmdPath`). Both are
    fixed when the service is created.
  - The `Execute*` methods build the argument list of a CLI command and pass it
    to `executeBaseCommand`. That method runs the binary, else `go run` on the
    sources, else reports that no CLI was found.
  - `IsBaseAvailable` and `GetStatus` report on the two locations.

Files:
- `wrappers.dfy` holds `Option` and `Result`.
- `go_strings.dfy` (module `GoStrings`) models the Go `strings` functions the
  code relies on. `readMarkdownFile` uses `HasPrefix`, `Index` (inside
  `SplitN`), `SplitN` and `TrimSpace`. `GetStatus` uses `Join`. `Index`,
  `SplitN` and the two halves of `TrimSpace` carry their defining properties
  as contracts, and lemmas state the properties of `TrimSpace`. `Join` has no
  contract of its own. `SplitN`'s contract relates it to `Join`: the pieces
  join back to the input.
- `docs.dfy` (module `Docs`) models the document tools. The embedded file
  system is a `map` from path to text.
- `executor.dfy` (module `Executor`) models the executor as a class with two
  constant fields. The environment is passed in as parameters:
  - the PATH lookup result;
  - an `os.Stat` oracle that reports found (directory or not), missing, or
    failed;
  - a run oracle that maps a command line to its combined output and error.

Notable facts the model proves:
- **Front-matter stripping.** A page that does not start with `---`, or that has
  no second `---`, comes back unchanged. Otherwise the body is the trimmed text
  after the second `---`. Because the code splits on the substring `---`, not
  on a delimiter line, a `---` inside the metadata already ends the front
  matter (`Docs.DashesInMetadataEndFrontMatter`).
- **Front matter of the usual form.** The body of
  `"---\n" + meta + "\n---\n" + body` is `TrimSpace(body)`. This needs the
  metadata itself to hold no `---`; the body's own shape does not matter.
- **The binary is always chosen.** `findBasePath` falls back to the name
  `"base"`, so every service built by `NewExecutorService` has a non-empty
  `basePath` (assuming a PATH hit is never empty). Such a service always runs
  the binary. For it, the `go run` fallback and the "base CLI not found"
  answers cannot occur (`Executor.CreatedServiceAlwaysRunsBinary`).

## Model

| member | source | states |
|---|---|---|
| GoStrings.IndexFrom | main.go:308 | the result is the first occurrence of the separator at or after the start position, or none when there is no occurrence there |
| GoStrings.Index | main.go:308 | the result is the first occurrence of the separator; it is absent exactly when the separator does not occur |
| GoStrings.HasPrefix | main.go:307 | `s` starts with `prefix` (a predicate with no contract of its own) |
| GoStrings.Join | executor.go:180 | strings.Join: the pieces with `sep` between each pair (no contract of its own; SplitN's contract states that its pieces join back to the input) |
| GoStrings.IndexFindsFirstOccurrence | main.go:308 | an occurrence of the separator with none before it is the one Index returns |
| GoStrings.SplitN | main.go:308 | between 1 and n pieces; joining them with the separator gives back the input; every piece but the last ends where the first occurrence of the separator in the remaining text begins; when fewer than n pieces come out, the last holds no separator |
| GoStrings.SplitStep | main.go:308 | cutting at the first occurrence and splitting the rest into at most n - 1 pieces gives at most n pieces that meet SplitN's promise |
| GoStrings.SplitPiecesHoldNoSeparator | main.go:308 | no piece but the last holds the separator |
| GoStrings.TrimLeftSpace | main.go:310 | the result is a suffix of the input, everything dropped is white space, and the result does not start with white space |
| GoStrings.TrimRightSpace | main.go:310 | the result is a prefix of the input, everything dropped is white space, and the result does not end with white space |
| GoStrings.IsSpace | main.go:310 | the white-space set of unicode.IsSpace, which TrimSpace drops at both ends (no contract of its own; the contracts of TrimLeftSpace and TrimRightSpace, TrimSpaceIsMiddle and TrimSpaceSkipsLeadingSpace state what is dropped) |
| GoStrings.TrimSpace | main.go:310 | strings.TrimSpace as TrimRightSpace after TrimLeftSpace (no contract of its own; the lemmas below state its properties) |
| GoStrings.TrimSpaceIsMiddle | main.go:310 | TrimSpace removes white space only, from both ends, and leaves none at either end |
| GoStrings.TrimSpaceSkipsLeadingSpace | main.go:310 | a leading white-space character does not change the result of TrimSpace |
| GoStrings.TrimSpaceIdempotent | main.go:310 | trimming twice is the same as trimming once |
| Docs.StripFrontMatter | main.go:305-312 | the front-matter rule: split on "---" into at most three pieces when the text starts with "---", and keep the trimmed third piece if there is one (no contract of its own; StripUnchanged and StripAfterSecondDelimiter characterise it) |
| Docs.ReadErrorMessage | main.go:302 | the error text for a path that is not stored: "failed to read embedded file", the path, and the embedded file system's own "open <path>: file does not exist" (no contract of its own; ReadMarkdownFile's contract states that it names the path) |
| Docs.ReadMarkdownFile | main.go:298-315 | reading succeeds exactly when the path is stored; on success the result is the stored text with front matter stripped; on failure the error message names the path |
| Docs.StripUnchanged | main.go:306-314 | text that does not start with "---", or that has no further "---", is returned unchanged and untrimmed |
| Docs.StripAfterSecondDelimiter | main.go:307-311 | for text that starts with "---", the result is the trimmed text after the next "---" |
| Docs.ClosingDelimiter | main.go:308 | the closing "---" is found right after metadata that holds no "---" and does not end in '-' |
| Docs.StripFirstBlock | main.go:307-311 | "---" + meta + "---" + body strips to TrimSpace(body) when meta holds no "---" and does not end in '-' |
| Docs.FrontMatterBlock | main.go:307-311 | "---\n" + meta + "\n---\n" + body strips to TrimSpace(body) whenever meta holds no "---" |
| Docs.CliPageExample | main.go:307-311 | "---\ntitle: x\n---\nUsage: base g" strips to "Usage: base g" |
| Docs.DashesInMetadataEndFrontMatter | main.go:307-311 | a "---" inside the metadata ends the front matter there, so the rest of the metadata and the real closing line stay in the body |
| Docs.HandleBaseCli | main.go:65-81 | the CLI tool answers with the stripped CLI page when it is stored, and otherwise with "Error reading CLI documentation: " followed by the read error |
| Docs.BaseDocs | main.go:83-121 | the combined documentation: the index section, the core header, the module sections in list order, the configuration section (no contract of its own; IndexComesFirst, CoreHeaderAfterIndex, SectionAtItsPlace, MissingModuleContributesNothing and ConfigurationComesLast state its shape) |
| Docs.Title | main.go:103 | strings.Title on one word: its first character upper-cased when that character is a lower-case ASCII letter, the word unchanged otherwise (no contract of its own; CoreModuleTitles states its effect on the core modules) |
| Docs.ModulePath | main.go:102 | the page path "md/docs/<name>.md" of a module (no contract of its own; CorePagesAreDistinct states that no core module's path is the index or configuration page) |
| Docs.Section | main.go:88-114 | an optional page's contribution: heading, stripped page and a blank line when the page is stored, nothing otherwise (no contract of its own; IndexComesFirst, ConfigurationComesLast and MissingModuleContributesNothing state it for the index, configuration and module pages) |
| Docs.ModuleSection | main.go:101-107 | one module's section under its "## " + Title(name) heading (no contract of its own; SectionAtItsPlace and MissingModuleContributesNothing state where it sits and when it is empty) |
| Docs.ModuleSections | main.go:101-107 | the loop's sections for the modules in list order (no contract of its own; ModuleSectionsAppend, ModuleSectionsFrame and SectionAtItsPlace state its order and what it depends on) |
| Docs.HandleBaseDocs | main.go:83-121 | the document built section by section equals the combined-documentation function: index, core header, module sections in list order, configuration |
| Docs.ModuleSectionsAppend | main.go:101-107 | the module sections of two module lists one after the other are the sections of the first list followed by those of the second |
| Docs.ModuleSectionsFrame | main.go:101-107 | the module sections depend only on the stored entries of the modules' own pages |
| Docs.CorePagesAreDistinct | main.go:88-111 | no core module's page is the index page or the configuration page |
| Docs.IndexComesFirst | main.go:87-91 | the index section (stripped index text and a blank line, when stored) is a prefix, and the rest does not depend on the index page |
| Docs.CoreHeaderFirstWithoutIndex | main.go:87-99 | without an index page the document starts with "# Core Framework Modules\n\n" |
| Docs.CoreHeaderAfterIndex | main.go:87-99 | the core-modules header is always present, right after the index section |
| Docs.ConfigurationComesLast | main.go:110-115 | the configuration section ("# Configuration\n\n", the stripped page and a blank line) comes last, and only when that page is stored |
| Docs.SectionAtItsPlace | main.go:101-107 | each module's section sits between those of the modules before and after it in the list |
| Docs.MissingModuleContributesNothing | main.go:101-107 | a module whose page is not stored contributes nothing: the result equals that of the list without it |
| Docs.CoreModuleTitles | main.go:94-104 | each core module's heading is its name with the first letter capitalised and the rest unchanged |
| Executor.FindBasePath | executor.go:30-53 | the PATH lookup result when there is one, else the first install location that exists in the listed order, else "base" |
| Executor.FindCmdPath | executor.go:56-70 | the first of ../cmd, ./cmd, ../../cmd that exists and is a directory, else "" |
| Executor.BasePathChoiceIsUnique | executor.go:30-53 | the search for the binary has exactly one possible outcome |
| Executor.BasePathIsNeverEmpty | executor.go:30-53 | the binary path is never empty when the PATH lookup does not report an empty path |
| Executor.CmdPathEmptyIffNoDirectory | executor.go:56-70 | the source directory is "" exactly when none of the candidates is an existing directory |
| Executor.ExecutorService.constructor | executor.go:18-27 | a new service holds the outcome of both searches |
| Executor.Args | executor.go:73-113 | the argument list each Execute* method builds (no contract of its own; CommandRoundTrip pins each list and the Execute* methods are proved to issue it) |
| Executor.CommandRoundTrip | executor.go:73-113 | each command's argument list reads back as that command: fields in order, "-r" exactly when reloading and "-d" exactly when serving docs, in that order, and "--path" exactly when a path is given |
| Executor.JoinPath | executor.go:137 | filepath.Join of a directory and a file name, dropping a leading "./" (no contract of its own; MainGoOfCandidates states its results) |
| Executor.MainGoOfCandidates | executor.go:136-137 | main.go is looked for at ../cmd/main.go, cmd/main.go and ../../cmd/main.go |
| Executor.Complete | executor.go:119-125 | a refusal is reported as its error; a launched command succeeds exactly when its run reports no error, and its result is then the command's output |
| Executor.FailureText | executor.go:122 | the error of a failed run: "base command failed: " or "go run failed: ", the error, then "\nOutput: " and the output (no contract of its own; used by Complete) |
| Executor.ExecutorService.IsBaseAvailable | executor.go:160-162 | the service is available exactly when GetStatus has a location line to report |
| Executor.ExecutorService.GoDirectPlan | executor.go:136-149 | executeGoDirect's decision: refuse with "base CLI main.go not found at " and the path only when the stat reports it missing, otherwise run go with "run", cmdPath/main.go and the arguments inside cmdPath (no contract of its own; ExecuteGoDirect, MainGoOfCandidates and ForwardsTheCommand state it) |
| Executor.ExecutorService.Dispatch | executor.go:116-133 | executeBaseCommand's branch choice: the binary when basePath is set, else go run when cmdPath is set, else the "base CLI not found" error (no contract of its own; DispatchPriority and AvailableIffDispatchFindsCli state the priority and the refusal) |
| Executor.ExecutorService.ExecuteGoDirect | executor.go:136-157 | refuses with "base CLI main.go not found at" and the path when main.go does not exist; otherwise runs go with "run", the main.go path and the arguments, inside the source directory |
| Executor.ExecutorService.ExecuteBaseCommand | executor.go:116-133 | runs what the dispatch rule chooses and wraps its outcome |
| Executor.ExecutorService.ExecuteGenerate | executor.go:73-78 | issues "generate", the name and the fields in their order |
| Executor.ExecutorService.ExecuteStart | executor.go:81-92 | issues "start", then "-r" if reloading, then "-d" if serving docs |
| Executor.ExecutorService.ExecuteNew | executor.go:95-103 | issues "new" and the name, then "--path" and the path if the path is not empty |
| Executor.ExecutorService.ExecuteDestroy | executor.go:106-108 | issues "destroy" and the name |
| Executor.ExecutorService.ExecuteDocs | executor.go:111-113 | issues "docs" |
| Executor.ExecutorService.GetStatus | executor.go:165-181 | the status built line by line is the status text of the two locations |
| Executor.ExecutorService.StatusLines | executor.go:165-177 | the status lines, the binary's before the source directory's, each present only when its path is set (no contract of its own; StatusReflectsAvailability and IsBaseAvailable state it) |
| Executor.ExecutorService.Status | executor.go:165-181 | the status text: "Base CLI not found" with no lines, else the lines joined by "\n" (no contract of its own; GetStatus and StatusReflectsAvailability state it) |
| Executor.DispatchPriority | executor.go:116-133 | a known binary always runs with the arguments unchanged; otherwise a known source directory goes to go run; otherwise "base CLI not found" |
| Executor.ForwardsTheCommand | executor.go:116-148 | whatever runs, binary or go run, receives exactly the command's argument list, which reads back as that command |
| Executor.AvailableIffDispatchFindsCli | executor.go:116-162 | the service is available exactly when dispatch does not answer "base CLI not found" |
| Executor.StatusReflectsAvailability | executor.go:160-181 | the status is "Base CLI not found" exactly when the service is unavailable; otherwise it is the binary line and then the source line, joined by a newline |
| Executor.CreatedServiceAlwaysRunsBinary | executor.go:18-53 | a service built by the constructor is always available, always runs the binary and reports the binary first in its status |

## Left out

- `main` (main.go:19-55) is left out. It registers tools with the external MCP library, picks the transport from the `PORT` environment variable and serves HTTP or stdio, all of which is I/O and library plumbing.
- `serveInstaller` and `serveInstallScript` (main.go:123-296) only write fixed HTML and a shell script to an HTTP response.
- `handleBaseInfo` (main.go:57-63) returns one fixed sentence.
- `html.go` holds two HTML string constants and no logic. The `base_cmd_context`, `base_framework_docs` and `base_doc_file` tools it advertises have no handlers in this code.
- Logging and the wrapping of texts into MCP tool results are left out. A tool result is modelled as its text.
- What `exec.LookPath`, `os.Stat` and running a command actually do is outside the model. They are parameters: an optional path, a stat oracle and a run oracle. The model fixes which command line is issued and how its outcome is wrapped. It does not model:
  - the command's effects;
  - the Go error value's own formatting, which is modelled as a string;
  - how `go run` resolves the `main.go` path against the working directory it is given.
- Go strings are byte sequences. The model uses sequences of Unicode code points, so invalid UTF-8 is not modelled. The white-space set is Go's `unicode.IsSpace`.
- GoStrings.SplitN: models `strings.SplitN` only for n ≥ 1 and a non-empty separator, the only way the code calls it.
- Docs.ReadMarkdownFile: a read failure is modelled as a missing path, with the error text the embedded file system gives for that case. Other failures, such as reading a directory, are not modelled.
- Executor.JoinPath: models `filepath.Join` only for relative directories whose only redundant part is a leading "./", which covers every source-directory candidate.
- Docs.Title: models `strings.Title` as upper-casing the first character of a word when that character is a lower-case ASCII letter, and leaving the word unchanged otherwise. That is exact for the lower-case module names it receives.
- Executor.ParseCommand: is a reference reading of the argument lists the executor builds, used to state the round trip. It is not a model of the Base CLI's own parser, which is not part of this model.
