/** Which files of a repository tree the conversion endpoint fetches: blobs whose path ends
    in a recognised source-code extension, the first fifty of them in tree order. */
module Selection {
  import opened JsValues
  import opened Strings

  /** The alternatives of the extension pattern, in the order the pattern lists them. */
  const CodeExtensions: seq<string> :=
    ["ts", "tsx", "js", "jsx", "py", "cs", "java", "go", "rs", "php", "rb", "kt", "scala",
     "sql", "sh", "yml", "yaml", "json"]

  /** The number of files a single conversion run fetches at most. */
  const MaxFiles: nat := 50

  /** `isCodeFile`: the pattern `\.(ts|tsx|…|json)$` with the `i` flag, that is, the path ends
      with a '.' followed by one of the extensions, letters compared without case. */
  predicate IsCodeFile(path: string) {
    exists ext :: ext in CodeExtensions && EndsWith(Lower(path), "." + ext)
  }

  /** The index of the last '.' of `s`, if there is one. */
  function LastDot(s: string): (r: Option<nat>)
    ensures r.Some? ==> r.value < |s| && s[r.value] == '.'
    ensures r.Some? ==> forall j :: r.value < j < |s| ==> s[j] != '.'
    ensures r.None? ==> forall j :: 0 <= j < |s| ==> s[j] != '.'
  {
    if s == [] then None
    else if s[|s| - 1] == '.' then Some(|s| - 1)
    else LastDot(s[..|s| - 1])
  }

  /** The usual reading of a file's extension, independent of the pattern: the text after
      the last '.', folded to lower case, is one of the listed extensions. */
  predicate HasCodeExtension(path: string) {
    var d := LastDot(path);
    d.Some? && Lower(path[d.value + 1..]) in CodeExtensions
  }

  /** Every listed extension is a non-empty word of lower-case ASCII letters. */
  predicate IsLowerWord(ext: string) {
    forall i :: 0 <= i < |ext| ==> 'a' <= ext[i] <= 'z'
  }

  lemma ExtensionsAreLowerWords(ext: string)
    requires ext in CodeExtensions
    ensures IsLowerWord(ext)
  {
  }

  lemma LastDotAt(s: string, j: nat)
    requires j < |s| && s[j] == '.'
    requires forall k :: j < k < |s| ==> s[k] != '.'
    ensures LastDot(s) == Some(j)
  {
  }

  lemma CodeExtensionIsCodeFile(path: string)
    requires HasCodeExtension(path)
    ensures IsCodeFile(path)
  {
    var low := Lower(path);
    var d := LastDot(path).value;
    var ext := Lower(path[d + 1..]);
    LowerSuffix(path, d + 1);
    assert low[d..] == "." + ext;
  }

  /** When a path's lower-case form ends in a '.' and a word of letters, that '.' is the
      path's last. */
  lemma DotBeforeExtension(path: string, ext: string)
    requires IsLowerWord(ext) && EndsWith(Lower(path), "." + ext)
    ensures LastDot(path).Some? && LastDot(path).value == |path| - |ext| - 1
  {
    NoDotInTail(path, ext);
    LastDotAt(path, |path| - |ext| - 1);
  }

  lemma NoDotInTail(path: string, ext: string)
    requires IsLowerWord(ext) && EndsWith(Lower(path), "." + ext)
    ensures path[|path| - |ext| - 1] == '.'
    ensures forall k :: |path| - |ext| - 1 < k < |path| ==> path[k] != '.'
  {
    var j := |path| - |ext| - 1;
    var t := "." + ext;
    FoldedTail(path, t);
    assert AsciiLower(path[j + 0]) == t[0] == '.';
    forall k | j < k < |path|
      ensures path[k] != '.'
    {
      assert AsciiLower(path[j + (k - j)]) == t[k - j];
    }
  }

  /** The characters of a path whose lower-case form ends in `t` fold to those of `t`. */
  lemma FoldedTail(path: string, t: string)
    requires EndsWith(Lower(path), t)
    ensures forall i :: 0 <= i < |t| ==> AsciiLower(path[|path| - |t| + i]) == t[i]
  {
    var low := Lower(path);
    var d := |path| - |t|;
    forall i | 0 <= i < |t|
      ensures AsciiLower(path[d + i]) == t[i]
    {
      assert low[d..][i] == low[d + i];
    }
  }

  /** The extension the pattern matched is the text after the path's last '.', folded. */
  lemma MatchedExtensionIsLast(path: string, ext: string)
    requires IsLowerWord(ext) && EndsWith(Lower(path), "." + ext)
    ensures LastDot(path).Some? && Lower(path[LastDot(path).value + 1..]) == ext
  {
    DotBeforeExtension(path, ext);
    FoldedSuffix(path, ".", ext);
    var k := LastDot(path).value + 1;
    FoldsAfterLastDot(path, ext, k);
  }

  lemma FoldsAfterLastDot(path: string, ext: string, k: nat)
    requires LastDot(path).Some? && LastDot(path).value + 1 == k
    requires k <= |path| && Lower(path[k..]) == ext
    ensures Lower(path[LastDot(path).value + 1..]) == ext
  {
  }

  /** A path whose lower-case form ends in `a + b` has a last `|b|` characters that fold to `b`. */
  lemma FoldedSuffix(path: string, a: string, b: string)
    requires EndsWith(Lower(path), a + b)
    ensures Lower(path[|path| - |b|..]) == b
  {
    EndsWithSuffix(Lower(path), a, b);
    LowerSuffix(path, |path| - |b|);
  }

  lemma CodeFileHasCodeExtension(path: string)
    requires IsCodeFile(path)
    ensures HasCodeExtension(path)
  {
    var ext :| ext in CodeExtensions && EndsWith(Lower(path), "." + ext);
    ExtensionsAreLowerWords(ext);
    MatchedExtensionIsLast(path, ext);
  }

  /** The pattern accepts exactly the paths whose last extension is a listed one. */
  lemma IsCodeFileIffCodeExtension(path: string)
    ensures IsCodeFile(path) <==> HasCodeExtension(path)
  {
    if HasCodeExtension(path) {
      CodeExtensionIsCodeFile(path);
    }
    if IsCodeFile(path) {
      CodeFileHasCodeExtension(path);
    }
  }

  /** Case never matters: a path is a code file exactly when its lower-case form is. */
  lemma IsCodeFileIgnoresCase(path: string)
    ensures IsCodeFile(path) <==> IsCodeFile(Lower(path))
  {
    LowerIdempotent(path);
  }

  lemma UpperCaseExtensionIsCodeFile()
    ensures IsCodeFile("src/App.TSX")
  {
    var p := "src/App.TSX";
    assert Lower(p)[7..] == ".tsx";
    assert "tsx" in CodeExtensions;
  }

  lemma MarkdownIsNotCodeFile()
    ensures !IsCodeFile("README.md")
  {
    var p := "README.md";
    LastDotAt(p, 6);
    assert Lower(p[7..]) == "md";
    IsCodeFileIffCodeExtension(p);
  }

  /** Only the last extension counts: a backup copy of a source file is not selected. */
  lemma BackupCopyIsNotCodeFile()
    ensures !IsCodeFile("main.ts.orig")
  {
    var p := "main.ts.orig";
    LastDotAt(p, 7);
    var ext := Lower(p[8..]);
    assert ext == "orig";
    assert forall i :: 0 <= i < |CodeExtensions| ==> CodeExtensions[i] != ext by {
      forall i | 0 <= i < |CodeExtensions| ensures CodeExtensions[i] != ext {
        assert |CodeExtensions[i]| != 4 || CodeExtensions[i][0] != 'o';
      }
    }
    IsCodeFileIffCodeExtension(p);
  }

  /** A path without any '.' is never a code file. */
  lemma NoExtensionIsNotCodeFile(path: string)
    requires forall j :: 0 <= j < |path| ==> path[j] != '.'
    ensures !IsCodeFile(path)
  {
    IsCodeFileIffCodeExtension(path);
  }

  /** An entry of the recursive tree listing; `kind` is its `type` ("blob", "tree", "commit"). */
  datatype TreeNode = TreeNode(kind: string, path: string)

  /** The filter callback: a blob whose path is a code file. */
  predicate IsSelectable(n: TreeNode) {
    n.kind == "blob" && IsCodeFile(n.path)
  }

  /** `nodes.filter(IsSelectable)` */
  function Candidates(nodes: seq<TreeNode>): (r: seq<TreeNode>)
    ensures |r| <= |nodes|
    ensures forall n :: n in r ==> n in nodes && IsSelectable(n)
    ensures forall n :: n in nodes && IsSelectable(n) ==> n in r
  {
    if nodes == [] then []
    else (if IsSelectable(nodes[0]) then [nodes[0]] else []) + Candidates(nodes[1..])
  }

  /** Filtering distributes over concatenation, so it keeps tree order. */
  lemma {:induction false} CandidatesAppend(a: seq<TreeNode>, b: seq<TreeNode>)
    ensures Candidates(a + b) == Candidates(a) + Candidates(b)
  {
    if a == [] {
      assert a + b == b;
    } else {
      assert (a + b)[1..] == a[1..] + b;
      CandidatesAppend(a[1..], b);
    }
  }

  /** `(tree.tree || []).filter(IsSelectable).slice(0, 50)`; `None` is a listing without a `tree` array. */
  function SelectFiles(tree: Option<seq<TreeNode>>): (r: seq<TreeNode>)
    ensures tree.None? ==> r == []
    ensures tree.Some? ==> |r| == (if |Candidates(tree.value)| < MaxFiles then |Candidates(tree.value)| else MaxFiles)
    ensures tree.Some? ==> r == Candidates(tree.value)[..|r|]
    ensures forall n :: n in r ==> IsSelectable(n)
  {
    var c := Candidates(if tree.Some? then tree.value else []);
    if |c| <= MaxFiles then c else c[..MaxFiles]
  }

  /** Once fifty files have been found, whatever follows in the tree is never fetched. */
  lemma SelectionIgnoresLaterNodes(a: seq<TreeNode>, b: seq<TreeNode>)
    requires |Candidates(a)| >= MaxFiles
    ensures SelectFiles(Some(a + b)) == SelectFiles(Some(a))
  {
    CandidatesAppend(a, b);
    assert (Candidates(a) + Candidates(b))[..MaxFiles] == Candidates(a)[..MaxFiles];
  }

  /** Below the cap every selectable node is fetched. */
  lemma SmallTreeSelectsAll(nodes: seq<TreeNode>, n: TreeNode)
    requires |Candidates(nodes)| <= MaxFiles
    requires n in nodes && IsSelectable(n)
    ensures n in SelectFiles(Some(nodes))
  {
  }
}
