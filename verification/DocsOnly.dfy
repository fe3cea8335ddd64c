/** Classifying a pull request as a change of documentation files only; every doubt means a full run. */
module DocsOnly {
  import opened Wrappers
  import opened Sequences
  import opened Splitting
  import opened SqlText
  import opened Text
  import opened NameStatus

  datatype ChangeMode = Full | DocsOnlyMode

  // ----- Paths

  predicate PathChar(c: char) {
    'A' <= c <= 'Z' || 'a' <= c <= 'z' || '0' <= c <= '9' || c == '.' || c == '_' || c == '-'
  }

  predicate PathChars(s: string) {
    forall i :: 0 <= i < |s| ==> PathChar(s[i])
  }

  /** One component of the path pattern. */
  predicate IsComponent(s: string) {
    s != "" && PathChars(s)
  }

  predicate IsMarkdownName(s: string) {
    |s| >= 4 && PathChars(s) && s[|s| - 3..] == ".md"
  }

  predicate IsDots(s: string) {
    s == "." || s == ".."
  }

  /** The path pattern, read component by component, and the ban on dot components. */
  predicate IsDocsMarkdownPath(path: string) {
    var parts := Split(path, '/');
    && |parts| >= 2 && parts[0] == "docs"
    && (forall i :: 1 <= i < |parts| - 1 ==> IsComponent(parts[i]))
    && IsMarkdownName(parts[|parts| - 1])
    && forall i :: 0 <= i < |parts| ==> !IsDots(parts[i])
  }

  /** A path that walks from docs through named directories to a Markdown file. */
  predicate SpellsDocsPath(path: string, directories: seq<string>, stem: string) {
    && (forall i :: 0 <= i < |directories| ==> IsComponent(directories[i]) && !IsDots(directories[i]))
    && IsComponent(stem)
    && path == "docs/" + Terminated(directories, '/') + stem + ".md"
  }

  lemma ComponentsWithout(parts: seq<string>)
    requires forall i :: 0 <= i < |parts| ==> PathChars(parts[i])
    ensures AllWithout(parts, '/')
  {
  }

  lemma {:induction false} JoinedPath(directories: seq<string>, name: string)
    ensures Joined(directories + [name], '/') == Terminated(directories, '/') + name
  {
    if directories == [] {
      assert directories + [name] == [name];
    } else {
      JoinedPath(directories[1..], name);
      assert (directories + [name])[1..] == directories[1..] + [name];
    }
  }

  lemma DocsJoined(directories: seq<string>, name: string)
    ensures Joined(["docs"] + directories + [name], '/') == "docs/" + Terminated(directories, '/') + name
  {
    hide Joined, Terminated;
    JoinedPath(directories, name);
    var rest := directories + [name];
    assert ["docs"] + directories + [name] == ["docs"] + rest;
    JoinedCons("docs", rest, '/');
    assert "docs" + ['/'] == "docs/";
  }

  lemma StemChars(stem: string)
    ensures IsMarkdownName(stem + ".md") <==> IsComponent(stem)
    ensures !IsDots(stem + ".md")
  {
    var name := stem + ".md";
    assert name[|name| - 3..] == ".md";
    assert PathChars(name) ==> PathChars(stem) by {
      assert forall i :: 0 <= i < |stem| ==> stem[i] == name[i];
    }
  }

  lemma DocsPathSpelled(path: string)
    requires IsDocsMarkdownPath(path)
    ensures exists directories, stem :: SpellsDocsPath(path, directories, stem)
  {
    hide Split, Joined, Terminated, IsComponent, IsMarkdownName, IsDots;
    var parts := Split(path, '/');
    var name := parts[|parts| - 1];
    var directories := parts[1..|parts| - 1];
    var stem := MarkdownStem(name);
    SplitJoined(path, '/');
    assert parts == ["docs"] + directories + [name];
    DocsJoined(directories, name);
    StemChars(stem);
    assert "docs/" + Terminated(directories, '/') + name == "docs/" + Terminated(directories, '/') + stem + ".md";
    assert SpellsDocsPath(path, directories, stem);
  }

  lemma MarkdownStem(name: string) returns (stem: string)
    requires IsMarkdownName(name)
    ensures name == stem + ".md"
  {
    stem := name[..|name| - 3];
  }

  lemma SpelledIsDocsPath(path: string, directories: seq<string>, stem: string)
    requires SpellsDocsPath(path, directories, stem)
    ensures IsDocsMarkdownPath(path)
  {
    hide Split, Joined, Terminated, IsMarkdownName, IsDots, PathChars;
    var name := stem + ".md";
    var parts := ["docs"] + directories + [name];
    StemChars(stem);
    DocsJoined(directories, name);
    assert "docs/" + Terminated(directories, '/') + name == "docs/" + Terminated(directories, '/') + stem + ".md";
    DocsComponent();
    NameChars(name);
    forall i | 0 <= i < |parts| ensures PathChars(parts[i]) {
      if 0 < i < |parts| - 1 { assert parts[i] == directories[i - 1]; }
    }
    ComponentsWithout(parts);
    JoinedSplit(parts, '/');
    forall i | 1 <= i < |parts| - 1 ensures IsComponent(parts[i]) && !IsDots(parts[i]) {
      assert parts[i] == directories[i - 1];
    }
  }

  lemma DocsComponent()
    ensures PathChars("docs") && !IsDots("docs")
  {
  }

  lemma NameChars(name: string)
    ensures IsMarkdownName(name) ==> PathChars(name)
  {
  }

  /** The check accepts exactly the Markdown files under docs, however deep. */
  lemma DocsPathExact(path: string)
    ensures IsDocsMarkdownPath(path) <==> exists directories, stem :: SpellsDocsPath(path, directories, stem)
  {
    hide IsDocsMarkdownPath, SpellsDocsPath;
    if IsDocsMarkdownPath(path) { DocsPathSpelled(path); }
    if directories, stem :| SpellsDocsPath(path, directories, stem) { SpelledIsDocsPath(path, directories, stem); }
  }

  // ----- Regular files

  /** Reads `ls-tree -z` output for one path. */
  predicate ShowsRegularFile(output: string, path: string) {
    var suffix := ['\t'] + path + [NUL];
    && EndsWith(output, suffix)
    && var metadata := Split(output[..|output| - |suffix|], ' ');
       |metadata| == 3 && (metadata[0] == "100644" || metadata[0] == "100755") && metadata[1] == "blob"
  }

  /** It shows a regular file exactly when it is one blob entry with a file mode, for that path. */
  lemma RegularFileExact(output: string, path: string)
    ensures ShowsRegularFile(output, path)
            <==> exists mode, hash :: (mode == "100644" || mode == "100755") && Without(hash, ' ')
                   && output == Joined([mode, "blob", hash], ' ') + (['\t'] + path + [NUL])
  {
    hide Split, Joined, Without;
    var suffix := ['\t'] + path + [NUL];
    ModesWithout();
    if ShowsRegularFile(output, path) {
      var head := output[..|output| - |suffix|];
      var metadata := Split(head, ' ');
      SplitJoined(head, ' ');
      SplitWithout(head, ' ');
      assert metadata == [metadata[0], "blob", metadata[2]];
      assert output == head + suffix;
    }
    if mode, hash :| (mode == "100644" || mode == "100755") && Without(hash, ' ')
                       && output == Joined([mode, "blob", hash], ' ') + suffix {
      var head := Joined([mode, "blob", hash], ' ');
      JoinedSplit([mode, "blob", hash], ' ');
      assert output[..|output| - |suffix|] == head;
    }
  }

  lemma ModesWithout()
    ensures Without("100644", ' ') && Without("100755", ' ') && Without("blob", ' ')
  {
  }

  // ----- The decision

  /** The answers of the local repository; None is a failed command. */
  datatype Git = Git(
    commitExists: string -> bool,
    mergeBase: Option<string>,
    nameStatus: Option<string>,
    listTree: (string, string) -> Option<string>)

  predicate RegularAt(git: Git, commit: string, path: string) {
    git.listTree(commit, path).Some? && ShowsRegularFile(git.listTree(commit, path).value, path)
  }

  /** A regular file on every side on which the status says the path exists. */
  predicate RegularOnEachSide(e: Entry, git: Git, mergeBase: string, head: string)
    requires WellFormed(e)
  {
    if e.status == "A" then RegularAt(git, head, e.paths[0])
    else if e.status == "M" then RegularAt(git, mergeBase, e.paths[0]) && RegularAt(git, head, e.paths[0])
    else if e.status == "D" then RegularAt(git, mergeBase, e.paths[0])
    else RegularAt(git, mergeBase, e.paths[0]) && RegularAt(git, head, e.paths[1])
  }

  predicate DocsEntry(e: Entry, git: Git, mergeBase: string, head: string) {
    && WellFormed(e)
    && (forall i :: 0 <= i < |e.paths| ==> IsDocsMarkdownPath(e.paths[i]))
    && RegularOnEachSide(e, git, mergeBase, head)
  }

  method IsRegularFile(git: Git, commit: string, path: string) returns (regular: Option<bool>)
    ensures regular == Some(true) <==> RegularAt(git, commit, path)
  {
    hide ShowsRegularFile;
    var output := git.listTree(commit, path);
    if output.None? { return None; }
    regular := Some(ShowsRegularFile(output.value, path));
  }

  /** None when a command failed. */
  method EntriesAreDocsOnly(entries: seq<Entry>, git: Git, mergeBase: string, head: string) returns (docs: Option<bool>)
    requires AllWellFormed(entries)
    ensures docs == Some(true)
            <==> entries != [] && forall i :: 0 <= i < |entries| ==> DocsEntry(entries[i], git, mergeBase, head)
  {
    hide IsDocsMarkdownPath, RegularAt;
    if entries == [] { return Some(false); }
    for k := 0 to |entries|
      invariant forall i :: 0 <= i < k ==> DocsEntry(entries[i], git, mergeBase, head)
    {
      var e := entries[k];
      assert WellFormed(e);
      var markdown := AllMarkdown(e.paths);
      if !markdown { return Some(false); }
      var first, second := Some(true), Some(true);
      if e.status == "A" {
        first := IsRegularFile(git, head, e.paths[0]);
      } else if e.status == "M" {
        first := IsRegularFile(git, mergeBase, e.paths[0]);
        if first == Some(true) { second := IsRegularFile(git, head, e.paths[0]); }
      } else if e.status == "D" {
        first := IsRegularFile(git, mergeBase, e.paths[0]);
      } else {
        first := IsRegularFile(git, mergeBase, e.paths[0]);
        if first == Some(true) { second := IsRegularFile(git, head, e.paths[1]); }
      }
      if first != Some(true) { return first; }
      if second != Some(true) { return second; }
    }
    docs := Some(true);
  }

  method AllMarkdown(paths: seq<string>) returns (all: bool)
    ensures all <==> forall i :: 0 <= i < |paths| ==> IsDocsMarkdownPath(paths[i])
  {
    hide IsDocsMarkdownPath;
    for i := 0 to |paths|
      invariant forall k :: 0 <= k < i ==> IsDocsMarkdownPath(paths[k])
    {
      if !IsDocsMarkdownPath(paths[i]) { return false; }
    }
    all := true;
  }

  predicate IsSha(s: string) {
    |s| == 40 && forall i :: 0 <= i < 40 ==> '0' <= s[i] <= '9' || 'a' <= s[i] <= 'f'
  }

  predicate IsAscii(s: string) {
    forall i :: 0 <= i < |s| ==> s[i] < 128 as char
  }

  /** The merge base that git names, if it names a commit. */
  function MergeBaseOf(git: Git): Option<string> {
    if git.mergeBase.Some? && IsAscii(git.mergeBase.value) && IsSha(Strip(git.mergeBase.value))
    then Some(Strip(git.mergeBase.value)) else None
  }

  /** The whole diff is Markdown under docs, regular files on every side. */
  ghost predicate OnlyDocs(git: Git, mergeBase: string, head: string) {
    exists entries ::
      && git.nameStatus == Some(Print(entries)) && entries != [] && AllWellFormed(entries)
      && forall i :: 0 <= i < |entries| ==> DocsEntry(entries[i], git, mergeBase, head)
  }

  /** A run is skipped exactly when the event, the commits and the whole diff are as required. */
  method ClassifyChange(event: string, baseSha: string, headSha: string, git: Git) returns (mode: ChangeMode)
    ensures mode == DocsOnlyMode
            <==> && event == "pull_request" && IsSha(baseSha) && IsSha(headSha)
                 && git.commitExists(baseSha) && git.commitExists(headSha)
                 && MergeBaseOf(git).Some? && OnlyDocs(git, MergeBaseOf(git).value, headSha)
  {
    hide IsSha, MergeBaseOf, Print, AllWellFormed, DocsEntry, ParseOutput;
    if event != "pull_request" || !IsSha(baseSha) || !IsSha(headSha) { return Full; }
    if !git.commitExists(baseSha) || !git.commitExists(headSha) { return Full; }
    var mergeBase := MergeBaseOf(git);
    if mergeBase.None? { return Full; }
    if git.nameStatus.None? { return Full; }
    var entries := ParseNameStatus(git.nameStatus.value);
    forall es { ParseInvertsPrint(git.nameStatus.value, es); }
    if entries.None? { return Full; }
    var docs := EntriesAreDocsOnly(entries.value, git, mergeBase.value, headSha);
    if docs == Some(true) { return DocsOnlyMode; }
    mode := Full;
  }
}
