/** The open-files hook: XML paths go to kate, the others to the default handler. */
module OpenFilesHook {
  import opened Text
  import opened Tokens

  const KATE := "/usr/bin/kate"

  predicate IsXml(path: string) {
    |path| > 4 && path[|path| - 4..] == ".xml"
  }

  /** The paths of one kind, in order. */
  function Select(paths: seq<string>, xml: bool): seq<string> {
    if paths == [] then []
    else
      var n := |paths| - 1;
      Select(paths[..n], xml) + if IsXml(paths[n]) == xml then [paths[n]] else []
  }

  // ----- splitting at white space -----

  function AllWords(paths: seq<string>): seq<string> {
    if paths == [] then [] else Words(paths[0]) + AllWords(paths[1..])
  }

  method SplitWords(s: string) returns (words: seq<string>)
    ensures words == Words(s)
  {
    words := [];
    var i := 0;
    while i < |s|
      invariant 0 <= i <= |s|
      invariant words + Words(s[i..]) == Words(s)
    {
      if IsBlank(s[i]) {
        assert s[i..][1..] == s[i + 1..];
        i := i + 1;
      } else {
        var n := WordLength(s[i..]);
        assert s[i..][..n] == s[i..i + n] && s[i..][n..] == s[i + n..];
        words := words + [s[i..i + n]];
        i := i + n;
      }
    }
  }

  // ----- the argument vector -----

  /** A C string pointer; None is the null pointer. */
  function Argv(files: seq<string>): seq<Option<string>> {
    [Some(KATE)] + seq(|files|, i requires 0 <= i < |files| => Some(files[i])) + [None]
  }

  /** What execvp reads from an argument vector: the strings before the first null. */
  function UpToNull(argv: seq<Option<string>>): seq<string> {
    if argv == [] || argv[0].None? then [] else [argv[0].value] + UpToNull(argv[1..])
  }

  lemma {:induction false} UpToNullIs(strings: seq<string>, argv: seq<Option<string>>)
    requires |argv| > |strings| && argv[|strings|] == None
    requires forall i :: 0 <= i < |strings| ==> argv[i] == Some(strings[i])
    ensures UpToNull(argv) == strings
  {
    if strings != [] {
      UpToNullIs(strings[1..], argv[1..]);
      assert strings == [strings[0]] + strings[1..];
    }
  }

  /** execvp sees the program and then every file. */
  lemma {:induction false} ArgvRead(files: seq<string>)
    ensures UpToNull(Argv(files)) == ["/usr/bin/kate"] + files
    ensures |Argv(files)| == |files| + 2 && Argv(files)[|files| + 1] == None
  {
    UpToNullIs(["/usr/bin/kate"] + files, Argv(files));
  }

  method BuildArgv(files: seq<string>) returns (argv: array<Option<string>>)
    ensures fresh(argv) && argv[..] == Argv(files)
    ensures UpToNull(argv[..]) == ["/usr/bin/kate"] + files
    ensures argv.Length == |files| + 2 && argv[|files| + 1] == None
  {
    ArgvRead(files);
    argv := new Option<string>[|files| + 2](_ => None);
    argv[0] := Some(KATE);
    for i := 0 to |files|
      invariant argv[0] == Some(KATE)
      invariant forall k :: 0 <= k < i ==> argv[k + 1] == Some(files[k])
    {
      argv[i + 1] := Some(files[i]);
    }
    argv[|files| + 1] := None;
    forall k | 0 <= k < |files| + 2 ensures argv[k] == Argv(files)[k] {
      if 1 <= k <= |files| {
        assert argv[(k - 1) + 1] == Some(files[k - 1]);
      }
    }
  }

  // ----- the hook -----

  /** The caller's list of paths that are left to the default handler. */
  class PathList {
    var items: seq<string>
    constructor (items: seq<string>) ensures this.items == items { this.items := items; }
    method PushBack(path: string)
      modifies this
      ensures items == old(items) + [path]
    {
      items := items + [path];
    }
  }

  /** `launched` is the argument vector of the child process, if one was forked. */
  method OpenFiles(srcPaths: seq<string>, ignorePaths: PathList, kateRunnable: bool, forkSucceeds: bool)
      returns (handled: bool, launched: Option<seq<Option<string>>>)
    modifies ignorePaths
    ensures ignorePaths.items == old(ignorePaths.items) + if kateRunnable then Select(srcPaths, false) else []
    ensures handled <==> kateRunnable && forkSucceeds && Select(srcPaths, true) != []
    ensures launched == if handled then Some(Argv(AllWords(Select(srcPaths, true)))) else None
    ensures handled ==> UpToNull(launched.value) == ["/usr/bin/kate"] + AllWords(Select(srcPaths, true))
  {
    hide Select, Join, Words, AllWords, Argv, UpToNull;
    if !kateRunnable {
      return false, None;
    }
    NothingSelected();
    var xmlFiles, hasXml := "", false;
    for i := 0 to |srcPaths|
      invariant ignorePaths.items == old(ignorePaths.items) + Select(srcPaths[..i], false)
      invariant xmlFiles == Join(Select(srcPaths[..i], true), ' ')
      invariant hasXml <==> Select(srcPaths[..i], true) != []
    {
      var path := srcPaths[i];
      SelectSnoc(srcPaths[..i], path, true);
      SelectSnoc(srcPaths[..i], path, false);
      assert srcPaths[..i + 1] == srcPaths[..i] + [path];
      JoinSnoc(Select(srcPaths[..i], true), path, ' ');
      if |path| > 4 && path[|path| - 4..] == ".xml" {
        if hasXml {
          xmlFiles := xmlFiles + " ";
        }
        xmlFiles := xmlFiles + path;
        hasXml := true;
      } else {
        ignorePaths.PushBack(path);
      }
    }
    assert srcPaths[..|srcPaths|] == srcPaths;
    if !hasXml {
      return false, None;
    }
    if !forkSucceeds {
      return false, None;
    }
    WordsOfJoin(Select(srcPaths, true));
    var files := SplitWords(xmlFiles);
    var argv := BuildArgv(files);
    return true, Some(argv[..]);
  }

  lemma {:induction false} NothingSelected()
    ensures Select([], true) == [] && Select([], false) == [] && Join([], ' ') == ""
  {
  }

  lemma {:induction false} SelectSnoc(paths: seq<string>, path: string, xml: bool)
    ensures Select(paths + [path], xml) == if IsXml(path) == xml then Select(paths, xml) + [path] else Select(paths, xml)
  {
    assert (paths + [path])[..|paths|] == paths;
  }

  lemma {:induction false} JoinSnoc(xs: seq<string>, x: string, c: char)
    ensures Join(xs + [x], c) == if xs == [] then x else Join(xs, c) + [c] + x
  {
    if xs != [] {
      assert (xs + [x])[1..] == xs[1..] + [x];
      JoinSnoc(xs[1..], x, c);
    } else {
      assert xs + [x] == [x];
    }
  }

  // ----- conservation -----

  /** Every path is either an XML path or left to the default handler. */
  lemma {:induction false} Partition(paths: seq<string>)
    ensures multiset(Select(paths, true)) + multiset(Select(paths, false)) == multiset(paths)
    ensures forall p :: p in Select(paths, true) <==> p in paths && IsXml(p)
    ensures forall p :: p in Select(paths, false) <==> p in paths && !IsXml(p)
    decreases |paths|
  {
    if paths != [] {
      var n := |paths| - 1;
      Partition(paths[..n]);
      assert paths == paths[..n] + [paths[n]];
    }
  }

  /** The XML paths are those of a non-empty name followed by ".xml". */
  lemma {:induction false} XmlPaths(path: string)
    ensures IsXml(path) <==> exists stem :: stem != "" && path == stem + ".xml"
  {
    if IsXml(path) {
      var stem := path[..|path| - 4];
      assert stem != "" && path == stem + ".xml";
    }
  }

  /** The selected paths, with where they stand in the given list. */
  lemma {:induction false} SelectedInOrder(paths: seq<string>, xml: bool) returns (at: seq<nat>)
    ensures |at| == |Select(paths, xml)|
    ensures forall k :: 0 <= k < |at| ==> at[k] < |paths| && paths[at[k]] == Select(paths, xml)[k]
    ensures forall j, k :: 0 <= j < k < |at| ==> at[j] < at[k]
    ensures forall i :: 0 <= i < |paths| && IsXml(paths[i]) == xml ==> i in at
    decreases |paths|
  {
    if paths == [] {
      at := [];
    } else {
      var n := |paths| - 1;
      at := SelectedInOrder(paths[..n], xml);
      forall i | 0 <= i < n && IsXml(paths[i]) == xml ensures i in at {
        assert paths[..n][i] == paths[i];
      }
      if IsXml(paths[n]) == xml {
        at := at + [n];
      }
    }
  }

  // ----- join and split -----

  /** The child splits the joined string into the words of each path in turn. */
  lemma {:induction false} WordsOfJoin(paths: seq<string>)
    ensures Words(Join(paths, ' ')) == AllWords(paths)
  {
    if |paths| == 1 {
      assert AllWords(paths[1..]) == [];
    } else if |paths| > 1 {
      WordsOfJoin(paths[1..]);
      WordsSplit(paths[0], Join(paths[1..], ' '));
    }
  }

  lemma {:induction false} AllWordsMember(paths: seq<string>, w: string)
    requires w in AllWords(paths)
    ensures exists p :: p in paths && w in Words(p)
  {
    if w !in Words(paths[0]) {
      AllWordsMember(paths[1..], w);
    } else {
      assert paths[0] in paths;
    }
  }

  lemma {:induction false} CleanPathsKept(paths: seq<string>)
    requires forall p :: p in paths ==> p != [] && !HasBlank(p)
    ensures AllWords(paths) == paths
  {
    if paths != [] {
      assert paths[0] in paths && forall p :: p in paths[1..] ==> p in paths;
      SingleWord(paths[0]);
      CleanPathsKept(paths[1..]);
    }
  }

  lemma {:induction false} BlankPathLost(paths: seq<string>, p: string)
    requires p in paths && HasBlank(p)
    ensures p !in AllWords(paths)
  {
    if p in AllWords(paths) {
      AllWordsMember(paths, p);
      var q :| q in paths && p in Words(q);
      WordsHaveNoBlank(q, p);
    }
  }

  /** Kate is given exactly the XML paths if and only if none of them contains
      white space: what execvp reads is the program, then the paths. */
  lemma {:induction false} KateGetsThePaths(srcPaths: seq<string>)
    ensures UpToNull(Argv(AllWords(Select(srcPaths, true)))) == ["/usr/bin/kate"] + Select(srcPaths, true)
       <==> forall p :: p in srcPaths && IsXml(p) ==> !exists c :: c in p && c in " \t\n\U{B}\U{C}\r"
  {
    var xml := Select(srcPaths, true);
    Partition(srcPaths);
    ArgvRead(AllWords(xml));
    forall p ensures HasBlank(p) <==> exists c :: c in p && c in " \t\n\U{B}\U{C}\r" {
      BlankIn(p);
    }
    if forall p :: p in srcPaths && IsXml(p) ==> !HasBlank(p) {
      CleanPathsKept(xml);
    } else {
      var p :| p in srcPaths && IsXml(p) && HasBlank(p);
      BlankPathLost(xml, p);
      assert (["/usr/bin/kate"] + AllWords(xml))[1..] == AllWords(xml) && (["/usr/bin/kate"] + xml)[1..] == xml;
    }
  }

  lemma {:induction false} BlankIn(p: string)
    ensures HasBlank(p) <==> exists c :: c in p && c in " \t\n\U{B}\U{C}\r"
  {
    forall c: char ensures IsBlank(c) <==> c in " \t\n\U{B}\U{C}\r" {
      BlankCharacters(c);
    }
    hide IsBlank;
  }
}
