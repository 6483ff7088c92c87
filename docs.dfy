/**
 * The document text served by the MCP tools of main.go: reading a markdown
 * file from the embedded store with its front matter stripped
 * (readMarkdownFile), the CLI reference tool (handleBaseCLI) and the
 * combined framework documentation (handleBaseDocs).
 *
 * The embedded file system is a map from path to file text; a path that is
 * not a key cannot be read.
 */
module Docs {
  import opened Wrappers
  import opened GoStrings

  type Storage = map<string, string>

  const Delimiter := "---"

  // ---------------------------------------------------------------------------
  // readMarkdownFile

  /**
   * The front-matter rule of readMarkdownFile: text that starts with "---"
   * is split on the substring "---" into at most three pieces, and when
   * three come out the trimmed third piece is the body; any other text is
   * kept as it is.
   */
  function StripFrontMatter(content: string): string {
    if HasPrefix(content, Delimiter) then
      var parts := SplitN(content, Delimiter, 3);
      if |parts| >= 3 then TrimSpace(parts[2]) else content
    else content
  }

  /** The error text of a failed read: the wrapper of main.go around the embedded store's not-found error. */
  function ReadErrorMessage(path: string): string {
    "failed to read embedded file " + path + ": open " + path + ": file does not exist"
  }

  /** readMarkdownFile: the stripped text of `path`, or an error naming `path`. */
  function ReadMarkdownFile(fs: Storage, path: string): (r: Result<string, string>)
    ensures r.Success? <==> path in fs
    ensures r.Success? ==> r.value == StripFrontMatter(fs[path])
    ensures r.Failure? ==> r.error == ReadErrorMessage(path) && Contains(r.error, path)
  {
    if path in fs then Success(StripFrontMatter(fs[path]))
    else
      var msg := ReadErrorMessage(path);
      assert OccursAt(msg, path, 29);
      Failure(msg)
  }

  /** The search for "---" in text that starts with "---" finds the leading one. */
  lemma DelimiterAtStart(content: string)
    requires HasPrefix(content, Delimiter)
    ensures Index(content, Delimiter) == Some(0)
    ensures content[..0] == "" && content[|Delimiter|..] == content[3..]
  {
    assert Contains(content, Delimiter);
  }

  /**
   * Text without a leading "---", or with a leading "---" and no second
   * one, is returned unchanged and untrimmed.
   */
  lemma {:induction false} StripUnchanged(content: string)
    requires !HasPrefix(content, Delimiter) || !Contains(content[3..], Delimiter)
    ensures StripFrontMatter(content) == content
  {
    if HasPrefix(content, Delimiter) {
      DelimiterAtStart(content);
      var rest := content[3..];
      assert Index(rest, Delimiter).None?;
      assert SplitN(rest, Delimiter, 2) == [rest];
      assert SplitN(content, Delimiter, 3) == [""] + [rest];
    }
  }

  /**
   * With a leading "---" and a second one found at offset `k` after it, the
   * body is the trimmed text that follows the second "---".
   */
  lemma {:induction false} StripAfterSecondDelimiter(content: string, k: nat)
    requires HasPrefix(content, Delimiter)
    requires Index(content[3..], Delimiter) == Some(k)
    ensures k + 6 <= |content|
    ensures StripFrontMatter(content) == TrimSpace(content[k + 6..])
  {
    DelimiterAtStart(content);
    var rest := content[3..];
    assert rest[k + 3..] == content[k + 6..];
    assert SplitN(rest[k + 3..], Delimiter, 1) == [content[k + 6..]];
    assert SplitN(rest, Delimiter, 2) == [rest[..k]] + [content[k + 6..]];
    assert SplitN(content, Delimiter, 3) == [""] + [rest[..k]] + [content[k + 6..]];
  }

  /**
   * After the leading "---", the next "---" is found right after any text `a`
   * that holds no "---" and does not end in '-'.
   */
  lemma ClosingDelimiter(a: string, b: string)
    requires !Contains(a, Delimiter)
    requires a == [] || a[|a| - 1] != '-'
    ensures Index(a + Delimiter + b, Delimiter) == Some(|a|)
  {
    var rest := a + Delimiter + b;
    assert rest[|a|..|a| + 3] == Delimiter;
    forall j: nat | j < |a|
      ensures !OccursAt(rest, Delimiter, j)
    {
      if j + 3 <= |a| {
        assert rest[j..j + 3] == a[j..j + 3];
        assert !OccursAt(a, Delimiter, j);
      } else if j + 3 <= |rest| {
        assert rest[|a| - 1] == a[|a| - 1];
        assert rest[j..j + 3][|a| - 1 - j] == rest[|a| - 1];
      }
    }
    IndexFindsFirstOccurrence(rest, Delimiter, |a|);
  }

  /**
   * Text "---" + a + "---" + b, where `a` holds no "---" and does not end in
   * '-', has `a` as its front matter and the trimmed `b` as its body.
   */
  lemma {:induction false} StripFirstBlock(a: string, b: string)
    requires !Contains(a, Delimiter)
    requires a == [] || a[|a| - 1] != '-'
    ensures StripFrontMatter(Delimiter + a + Delimiter + b) == TrimSpace(b)
  {
    var content := Delimiter + a + Delimiter + b;
    var k := |a|;
    assert HasPrefix(content, Delimiter) && Index(content[3..], Delimiter) == Some(k) by {
      assert content[..3] == Delimiter;
      assert content[3..] == a + Delimiter + b;
      ClosingDelimiter(a, b);
    }
    assert StripFrontMatter(content) == TrimSpace(content[k + 6..]) by {
      StripAfterSecondDelimiter(content, k);
    }
    assert content[k + 6..] == b;
  }

  /** Lines around a text without "---" do not create one. */
  lemma NewlinesKeepNoDelimiter(meta: string)
    requires !Contains(meta, Delimiter)
    ensures !Contains("\n" + meta + "\n", Delimiter)
  {
    var a := "\n" + meta + "\n";
    var m := |meta|;
    assert a[0] == '\n' && a[m + 1] == '\n';
    forall j: nat | j <= |a|
      ensures !OccursAt(a, Delimiter, j)
    {
      if 1 <= j && j + 2 <= m {
        assert a[j..j + 3] == meta[j - 1..j + 2];
        assert !OccursAt(meta, Delimiter, j - 1);
      } else if j + 3 <= |a| {
        assert a[j..j + 3][0] == a[j] && a[j..j + 3][2] == a[j + 2];
      }
    }
  }

  /**
   * A metadata block "---\n" + meta + "\n---\n" whose lines hold no "---" is
   * dropped, and the body after it is returned trimmed.
   */
  lemma {:induction false} FrontMatterBlock(meta: string, body: string)
    requires !Contains(meta, Delimiter)
    ensures StripFrontMatter("---\n" + meta + "\n---\n" + body) == TrimSpace(body)
  {
    var a := "\n" + meta + "\n";
    NewlinesKeepNoDelimiter(meta);
    assert "---\n" + meta + "\n---\n" + body == Delimiter + a + Delimiter + (['\n'] + body);
    StripFirstBlock(a, ['\n'] + body);
    TrimSpaceSkipsLeadingSpace('\n', body);
  }

  /** Text without a '-' holds no "---". */
  lemma NoDashNoDelimiter(s: string)
    requires forall i :: 0 <= i < |s| ==> s[i] != '-'
    ensures !Contains(s, Delimiter)
  {
    forall j: nat | j <= |s|
      ensures !OccursAt(s, Delimiter, j)
    {
      if j + 3 <= |s| {
        assert s[j..j + 3][0] == s[j];
      }
    }
  }

  /** The body of the CLI example, "\nUsage: base g", trims to "Usage: base g". */
  lemma CliExampleBody(body: string)
    requires body == "\nUsage: base g"
    ensures TrimSpace(body) == body[1..]
  {
    var usage := body[1..];
    assert IsSpace(body[0]) && !IsSpace(usage[0]) && !IsSpace(usage[|usage| - 1]);
    assert TrimLeftSpace(body) == TrimLeftSpace(usage) == usage;
    assert TrimRightSpace(usage) == usage;
  }

  /**
   * A typical CLI page: "---\ntitle: x\n---\nUsage: base g"
   * has the body "Usage: base g". The pieces are parameters pinned by the
   * precondition so that the verifier does not evaluate the whole literal.
   */
  lemma CliPageExample(meta: string, body: string)
    requires meta == "\ntitle: x\n" && body == "\nUsage: base g"
    ensures StripFrontMatter(Delimiter + meta + Delimiter + body) == "Usage: base g"
  {
    NoDashNoDelimiter(meta);
    StripFirstBlock(meta, body);
    CliExampleBody(body);
  }

  /**
   * The split is on the substring "---", not on a line of its own: in
   * "---\ntitle: a---b\n---\nbody" the "---" inside the metadata value ends
   * the front matter, and what follows it, including the intended closing
   * line, is kept as the body.
   */
  lemma DashesInMetadataEndFrontMatter()
    ensures StripFrontMatter("---\ntitle: a---b\n---\nbody") == "b\n---\nbody"
  {
    var meta, rest := "\ntitle: a", "b\n---\nbody";
    assert "---\ntitle: a---b\n---\nbody" == Delimiter + meta + Delimiter + rest;
    assert !Contains(meta, Delimiter) && meta[|meta| - 1] != '-' by {
      NoDashNoDelimiter(meta);
    }
    assert TrimSpace(rest) == rest by {
      assert !IsSpace(rest[0]) && !IsSpace(rest[|rest| - 1]);
      TrimSpaceKeepsTrimmed(rest);
    }
    StripFirstBlock(meta, rest);
  }

  // ---------------------------------------------------------------------------
  // handleBaseCLI

  const CliPath := "md/docs/cli.md"
  const CliErrorPrefix := "Error reading CLI documentation: "

  /**
   * handleBaseCLI: the stripped CLI page, or, when it cannot be read, an
   * explanatory text in its place; the tool itself never fails.
   */
  function HandleBaseCli(fs: Storage): (text: string)
    ensures CliPath in fs ==> text == StripFrontMatter(fs[CliPath])
    ensures CliPath !in fs ==> text == CliErrorPrefix + ReadErrorMessage(CliPath)
  {
    match ReadMarkdownFile(fs, CliPath)
    case Failure(err) => CliErrorPrefix + err
    case Success(content) => content
  }

  // ---------------------------------------------------------------------------
  // handleBaseDocs

  const IndexPath := "md/index.md"
  const ConfigPath := "md/docs/configuration.md"
  const CoreHeader := "# Core Framework Modules\n\n"
  const ConfigHeader := "# Configuration\n\n"
  const CoreModules: seq<string> :=
    ["router", "emitter", "storage", "middleware", "logger", "websocket", "auth", "email"]

  /** The path of a module page, as `fmt.Sprintf("md/docs/%s.md", name)` builds it. */
  function ModulePath(name: string): string {
    "md/docs/" + name + ".md"
  }

  /** strings.Title for one word: the first character upper-cased when it is a lower-case ASCII letter. */
  function Title(word: string): string {
    if word != [] && 'a' <= word[0] <= 'z' then [(word[0] as int - 32) as char] + word[1..]
    else word
  }

  /**
   * What one optional page contributes to the combined documentation: the
   * heading, the stripped page and a blank line when the page can be read,
   * nothing otherwise.
   */
  function Section(fs: Storage, heading: string, path: string): string {
    match ReadMarkdownFile(fs, path)
    case Success(content) => heading + content + "\n\n"
    case Failure(_) => ""
  }

  /** The section of one core module, under a "## Title" heading. */
  function ModuleSection(fs: Storage, name: string): string {
    Section(fs, "## " + Title(name) + "\n\n", ModulePath(name))
  }

  /** The sections of `modules`, in their order. */
  function ModuleSections(fs: Storage, modules: seq<string>): string {
    if modules == [] then "" else ModuleSection(fs, modules[0]) + ModuleSections(fs, modules[1..])
  }

  /**
   * The combined documentation: the index page, the core-modules header,
   * the module sections in their fixed order and the configuration page.
   */
  function BaseDocs(fs: Storage): string {
    Section(fs, "", IndexPath) + CoreHeader + ModuleSections(fs, CoreModules)
      + Section(fs, ConfigHeader, ConfigPath)
  }

  /** The sections of two lists of modules, one after the other. */
  lemma {:induction false} ModuleSectionsAppend(fs: Storage, a: seq<string>, b: seq<string>)
    ensures ModuleSections(fs, a + b) == ModuleSections(fs, a) + ModuleSections(fs, b)
  {
    if a == [] {
      assert a + b == b;
    } else {
      var first := ModuleSection(fs, a[0]);
      assert (a + b)[0] == a[0] && (a + b)[1..] == a[1..] + b;
      calc {
        ModuleSections(fs, a + b);
        first + ModuleSections(fs, a[1..] + b);
        { ModuleSectionsAppend(fs, a[1..], b); }
        first + (ModuleSections(fs, a[1..]) + ModuleSections(fs, b));
        { Associative(first, ModuleSections(fs, a[1..]), ModuleSections(fs, b)); }
        ModuleSections(fs, a) + ModuleSections(fs, b);
      }
    }
  }

  // Sequence facts stated as lemmas so that the proofs below, whose contexts
  // are large, use them without redoing the extensionality argument.

  lemma Associative(a: string, b: string, c: string)
    ensures (a + b) + c == a + (b + c)
  {
  }

  lemma Associative3(a: string, b: string, c: string, d: string)
    ensures ((a + b) + c) + d == a + ((b + c) + d)
  {
  }

  lemma PrefixSnoc(s: seq<string>, i: nat)
    requires i < |s|
    ensures s[..i + 1] == s[..i] + [s[i]]
  {
  }

  lemma PrefixWhole(s: seq<string>)
    ensures s[..|s|] == s
  {
  }

  /** One more module adds its section at the end. */
  lemma ModuleSectionsSnoc(fs: Storage, modules: seq<string>, name: string)
    ensures ModuleSections(fs, modules + [name]) == ModuleSections(fs, modules) + ModuleSection(fs, name)
  {
    ModuleSectionsAppend(fs, modules, [name]);
    assert ModuleSections(fs, [name]) == ModuleSection(fs, name) + ModuleSections(fs, []);
  }

  /** handleBaseDocs: builds the combined documentation piece by piece; it never fails. */
  method HandleBaseDocs(fs: Storage) returns (docs: string)
    ensures docs == BaseDocs(fs)
  {
    var allDocs := "";
    var index := ReadMarkdownFile(fs, IndexPath);
    if index.Success? {
      allDocs := allDocs + index.value;
      allDocs := allDocs + "\n\n";
    }
    assert allDocs == Section(fs, "", IndexPath);
    allDocs := allDocs + CoreHeader;
    ghost var header := allDocs;
    for i := 0 to |CoreModules|
      invariant allDocs == header + ModuleSections(fs, CoreModules[..i])
    {
      var name := CoreModules[i];
      ghost var before := allDocs;
      var content := ReadMarkdownFile(fs, ModulePath(name));
      if content.Success? {
        var heading := "## " + Title(name) + "\n\n";
        allDocs := allDocs + heading;
        allDocs := allDocs + content.value;
        allDocs := allDocs + "\n\n";
        Associative3(before, heading, content.value, "\n\n");
      }
      assert allDocs == before + ModuleSection(fs, name);
      PrefixSnoc(CoreModules, i);
      ModuleSectionsSnoc(fs, CoreModules[..i], name);
      Associative(header, ModuleSections(fs, CoreModules[..i]), ModuleSection(fs, name));
    }
    PrefixWhole(CoreModules);
    ghost var modules := allDocs;
    var config := ReadMarkdownFile(fs, ConfigPath);
    if config.Success? {
      allDocs := allDocs + ConfigHeader;
      allDocs := allDocs + config.value;
      allDocs := allDocs + "\n\n";
      Associative3(modules, ConfigHeader, config.value, "\n\n");
    }
    assert allDocs == modules + Section(fs, ConfigHeader, ConfigPath);
    docs := allDocs;
  }

  // ---------------------------------------------------------------------------
  // Properties of the combined documentation

  /** `fs` and `fs2` agree on whether `path` exists and on its text. */
  predicate SameEntry(fs: Storage, fs2: Storage, path: string) {
    (path in fs <==> path in fs2) && (path in fs ==> fs[path] == fs2[path])
  }

  /** The module sections depend only on the module pages. */
  lemma {:induction false} ModuleSectionsFrame(fs: Storage, fs2: Storage, modules: seq<string>)
    requires forall k :: 0 <= k < |modules| ==> SameEntry(fs, fs2, ModulePath(modules[k]))
    ensures ModuleSections(fs, modules) == ModuleSections(fs2, modules)
  {
    if modules != [] {
      assert SameEntry(fs, fs2, ModulePath(modules[0]));
      ModuleSectionsFrame(fs, fs2, modules[1..]);
    }
  }

  /** No core module page is the index page or the configuration page. */
  lemma CorePagesAreDistinct()
    ensures forall k :: 0 <= k < |CoreModules| ==>
      ModulePath(CoreModules[k]) != IndexPath && ModulePath(CoreModules[k]) != ConfigPath
  {
    forall k | 0 <= k < |CoreModules|
      ensures ModulePath(CoreModules[k]) != IndexPath && ModulePath(CoreModules[k]) != ConfigPath
    {
      var name := CoreModules[k];
      assert ModulePath(name)[3] == 'd' != IndexPath[3];
      assert |ModulePath(name)| < |ConfigPath|;
    }
  }

  /** Removing the index or the configuration page leaves the module sections alone. */
  lemma CoreSectionsIgnore(fs: Storage, path: string)
    requires path == IndexPath || path == ConfigPath
    ensures ModuleSections(fs - {path}, CoreModules) == ModuleSections(fs, CoreModules)
  {
    CorePagesAreDistinct();
    ModuleSectionsFrame(fs, fs - {path}, CoreModules);
  }

  /**
   * The index page, when it can be read, comes first as its stripped text and
   * a blank line; without it the document is otherwise the same.
   */
  lemma IndexComesFirst(fs: Storage)
    ensures BaseDocs(fs) == Section(fs, "", IndexPath) + BaseDocs(fs - {IndexPath})
    ensures IndexPath in fs ==> Section(fs, "", IndexPath) == StripFrontMatter(fs[IndexPath]) + "\n\n"
  {
    var rest := fs - {IndexPath};
    var modules := ModuleSections(fs, CoreModules);
    var config := Section(fs, ConfigHeader, ConfigPath);
    CoreSectionsIgnore(fs, IndexPath);
    assert Section(rest, ConfigHeader, ConfigPath) == config;
    assert Section(rest, "", IndexPath) == "";
    assert "" + CoreHeader == CoreHeader;
    assert BaseDocs(rest) == (CoreHeader + modules) + config;
    Associative3(Section(fs, "", IndexPath), CoreHeader, modules, config);
    if IndexPath in fs {
      var content := StripFrontMatter(fs[IndexPath]);
      assert "" + content == content;
    }
  }

  /** Without an index page the document starts with the core-modules header. */
  lemma CoreHeaderFirstWithoutIndex(fs: Storage)
    requires IndexPath !in fs
    ensures HasPrefix(BaseDocs(fs), CoreHeader)
  {
    var tail := ModuleSections(fs, CoreModules) + Section(fs, ConfigHeader, ConfigPath);
    assert Section(fs, "", IndexPath) == "";
    Associative("" + CoreHeader, ModuleSections(fs, CoreModules), Section(fs, ConfigHeader, ConfigPath));
    assert BaseDocs(fs) == CoreHeader + tail;
    assert (CoreHeader + tail)[..|CoreHeader|] == CoreHeader;
  }

  /**
   * The core-modules header is always there: right after the index section
   * (the index text and a blank line), or first when there is no index page.
   */
  lemma CoreHeaderAfterIndex(fs: Storage)
    ensures OccursAt(BaseDocs(fs), CoreHeader, |Section(fs, "", IndexPath)|)
    ensures Contains(BaseDocs(fs), CoreHeader)
  {
    var index := Section(fs, "", IndexPath);
    var rest := BaseDocs(fs - {IndexPath});
    IndexComesFirst(fs);
    CoreHeaderFirstWithoutIndex(fs - {IndexPath});
    assert (index + rest)[|index|..|index| + |CoreHeader|] == rest[..|CoreHeader|];
    assert OccursAt(BaseDocs(fs), CoreHeader, |index|);
  }

  /**
   * The configuration section comes last, and only when the configuration
   * page can be read; without it the document is otherwise the same.
   */
  lemma ConfigurationComesLast(fs: Storage)
    ensures BaseDocs(fs) == BaseDocs(fs - {ConfigPath}) + Section(fs, ConfigHeader, ConfigPath)
    ensures ConfigPath in fs ==>
      Section(fs, ConfigHeader, ConfigPath) == ConfigHeader + StripFrontMatter(fs[ConfigPath]) + "\n\n"
  {
    var rest := fs - {ConfigPath};
    CoreSectionsIgnore(fs, ConfigPath);
    assert Section(rest, "", IndexPath) == Section(fs, "", IndexPath);
    assert Section(rest, ConfigHeader, ConfigPath) == "";
  }

  /**
   * Module sections appear in the order of the module list: the section of
   * the i-th module sits after those of the modules before it and before
   * those of the modules after it.
   */
  lemma SectionAtItsPlace(fs: Storage, modules: seq<string>, i: nat)
    requires i < |modules|
    ensures ModuleSections(fs, modules)
      == ModuleSections(fs, modules[..i]) + ModuleSection(fs, modules[i]) + ModuleSections(fs, modules[i + 1..])
  {
    var before, after := modules[..i], modules[i + 1..];
    assert modules == before + ([modules[i]] + after);
    ModuleSectionsAppend(fs, before, [modules[i]] + after);
    assert ModuleSections(fs, [modules[i]] + after) == ModuleSection(fs, modules[i]) + ModuleSections(fs, after) by {
      assert ([modules[i]] + after)[1..] == after;
    }
    Associative(ModuleSections(fs, before), ModuleSection(fs, modules[i]), ModuleSections(fs, after));
  }

  /** A module whose page cannot be read contributes nothing. */
  lemma MissingModuleContributesNothing(fs: Storage, modules: seq<string>, i: nat)
    requires i < |modules| && ModulePath(modules[i]) !in fs
    ensures ModuleSections(fs, modules) == ModuleSections(fs, modules[..i] + modules[i + 1..])
  {
    var before, after := ModuleSections(fs, modules[..i]), ModuleSections(fs, modules[i + 1..]);
    assert ModuleSections(fs, modules) == before + "" + after by {
      SectionAtItsPlace(fs, modules, i);
      assert ModuleSection(fs, modules[i]) == "";
    }
    assert before + "" == before;
    ModuleSectionsAppend(fs, modules[..i], modules[i + 1..]);
  }

  /**
   * Every core module is a lower-case word, so its heading is its name with
   * the first letter turned into the matching capital and the rest unchanged.
   */
  lemma CoreModuleTitles()
    ensures forall k :: 0 <= k < |CoreModules| ==>
      var name := CoreModules[k];
      var title := Title(name);
      |title| == |name| > 0 && 'A' <= title[0] <= 'Z' && title[0] as int == name[0] as int - 32
      && title[1..] == name[1..]
  {
    forall k | 0 <= k < |CoreModules|
      ensures CoreModules[k] != [] && 'a' <= CoreModules[k][0] <= 'z'
    {
    }
  }
}
