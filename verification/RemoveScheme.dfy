/** Turning a file URL back into a path. */
module RemoveScheme {
  import opened Text

  const MARK := "://"

  /** `removeScheme`: the part from the first slash after "://" on, if there is one. */
  function Strip(url: string): string {
    match Find(url, MARK, 0)
    case None => url
    case Some(i) =>
      match Find(url, "/", i + 3)
      case None => url
      case Some(k) => url[k..]
  }

  lemma {:induction false} FirstSlash(head: string, middle: string, tail: string)
    requires '/' !in middle
    ensures Find(head + middle + "/" + tail, "/", |head|) == Some(|head| + |middle|)
  {
    var s := head + middle + "/" + tail;
    var k := |head| + |middle|;
    assert s[k..k + 1] == "/";
    forall j: nat | |head| <= j < k ensures !At(s, "/", j) {
      assert s[j] == middle[j - |head|];
      assert s[j..j + 1] == [s[j]];
      assert middle[j - |head|] in middle;
    }
    FindIs(s, "/", |head|, k);
  }

  /** A text free of "://" followed by "://": the mark is found at the join. */
  lemma {:induction false} FirstMark(scheme: string, rest: string)
    requires forall k: nat :: !At(scheme, MARK, k)
    ensures Find(scheme + MARK + rest, MARK, 0) == Some(|scheme|)
  {
    var s := scheme + MARK + rest;
    var n := |scheme|;
    assert s[n..n + 3] == MARK;
    forall k: nat | k < n ensures !At(s, MARK, k) {
      assert s == scheme + (MARK + rest);
      if k + 3 <= n {
        AtPrefix(scheme, MARK + rest, MARK, k);
      } else {
        assert s[n] == ':';
        assert s[k..k + 3][n - k] == s[n];
        assert MARK[n - k] == '/';
      }
    }
    FindIs(s, MARK, 0, n);
  }

  /** Stripping inverts building a URL from a scheme, an authority and an absolute
      path (the shape of section 3 of RFC 3986) exactly when the authority holds
      no slash. */
  lemma {:induction false} StripInvertsBuild(scheme: string, authority: string, path: string)
    requires forall k: nat :: !At(scheme, MARK, k)
    requires path != [] && path[0] == '/'
    ensures Strip(scheme + MARK + authority + path) == path <==> '/' !in authority
  {
    var url := scheme + MARK + authority + path;
    assert url == scheme + MARK + (authority + path);
    FirstMark(scheme, authority + path);
    if '/' !in authority {
      assert path == "/" + path[1..];
      assert url == (scheme + MARK) + authority + "/" + path[1..];
      FirstSlash(scheme + MARK, authority, path[1..]);
    } else {
      var k := FirstIndex(authority, '/');
      assert url == (scheme + MARK) + authority[..k] + "/" + (authority[k + 1..] + path);
      FirstSlash(scheme + MARK, authority[..k], authority[k + 1..] + path);
      assert |Strip(url)| > |path|;
    }
  }

  lemma {:induction false} FirstIndex(s: string, c: char) returns (k: nat)
    requires c in s
    ensures k < |s| && s[k] == c && c !in s[..k]
  {
    k := 0;
    while s[k] != c
      invariant k < |s| && c !in s[..k] && c in s[k..]
      decreases |s| - k
    {
      k := k + 1;
    }
  }

  /** A "://" at `i`, and a slash at `k` after it. */
  predicate MarkAndSlash(url: string, i: nat, k: nat) {
    At(url, MARK, i) && i + 3 <= k < |url| && url[k] == '/'
  }

  /** Whether there is something to strip: a "://" with a slash after it. */
  ghost predicate Strippable(url: string) {
    exists i: nat, k: nat :: MarkAndSlash(url, i, k)
  }

  /** Stripping changes exactly the strippable strings, and then yields a proper
      suffix that starts with a slash. Plain paths that hold "://" are no exception. */
  lemma {:induction false} StripChanges(url: string)
    ensures Strip(url) == url <==> !Strippable(url)
    ensures Strippable(url) ==>
              && |Strip(url)| < |url| && Strip(url)[0] == '/'
              && url == url[..|url| - |Strip(url)|] + Strip(url)
  {
    match Find(url, MARK, 0)
    case None =>
    case Some(i) =>
      forall k: nat | k < |url| ensures At(url, "/", k) == (url[k] == '/') {
        assert url[k..k + 1] == [url[k]];
      }
      match Find(url, "/", i + 3) {
        case None =>
        case Some(k) =>
          assert MarkAndSlash(url, i, k);
      }
  }

  /** A mark, a slash after it, and from that slash on another mark with a slash
      after it. */
  ghost predicate StrippableTwice(url: string) {
    exists i: nat, k: nat, j: nat, l: nat ::
      MarkAndSlash(url, i, k) && k <= j && MarkAndSlash(url, j, l)
  }

  /** Stripping cuts at the first slash after the first mark. */
  lemma {:induction false} CutPosition(url: string) returns (i: nat, k: nat)
    requires Strippable(url)
    ensures MarkAndSlash(url, i, k) && Strip(url) == url[k..]
    ensures forall i': nat, k': nat :: MarkAndSlash(url, i', k') ==> k <= k'
  {
    var i0: nat, k0: nat :| MarkAndSlash(url, i0, k0);
    forall k: nat | k < |url| ensures At(url, "/", k) == (url[k] == '/') {
      assert url[k..k + 1] == [url[k]];
    }
    i := Find(url, MARK, 0).value;
    k := Find(url, "/", i + 3).value;
  }

  lemma {:induction false} SuffixMark(head: string, tail: string, i: nat, k: nat)
    ensures MarkAndSlash(tail, i, k) == MarkAndSlash(head + tail, |head| + i, |head| + k)
  {
    AtSuffix(head, tail, MARK, i);
  }

  lemma {:induction false} SuffixStrippable(url: string, k: nat)
    requires k <= |url|
    ensures Strippable(url[k..]) <==> exists j: nat, l: nat :: k <= j && MarkAndSlash(url, j, l)
  {
    var head, tail := url[..k], url[k..];
    assert url == head + tail && |head| == k;
    if Strippable(tail) {
      var j: nat, l: nat :| MarkAndSlash(tail, j, l);
      SuffixMark(head, tail, j, l);
    }
    if j: nat, l: nat :| k <= j && MarkAndSlash(url, j, l) {
      SuffixMark(head, tail, j - k, l - k);
      assert k + (j - k) == j && k + (l - k) == l;
    }
    hide MarkAndSlash;
  }

  /** Stripping again changes nothing exactly when the URL does not hold a mark
      and a slash twice over. */
  lemma {:induction false} StripTwice(url: string)
    ensures Strip(Strip(url)) == Strip(url) <==> !StrippableTwice(url)
  {
    StripChanges(url);
    StripChanges(Strip(url));
    if Strippable(url) {
      var i, k := CutPosition(url);
      SuffixStrippable(url, k);
      hide Strip;
    }
  }

  /** Of a URL built from its parts, stripping twice still gives the path exactly
      when the path itself holds nothing to strip. */
  lemma {:induction false} StripTwiceBuild(scheme: string, authority: string, path: string)
    requires forall k: nat :: !At(scheme, MARK, k)
    requires path != [] && path[0] == '/' && '/' !in authority
    ensures Strip(Strip(scheme + MARK + authority + path)) == path <==> !Strippable(path)
  {
    StripInvertsBuild(scheme, authority, path);
    StripChanges(path);
  }

  /** A URL whose path is itself stripped. */
  lemma {:induction false} StripTwiceExample()
    ensures Strip("a://b/c://d/e") == "/c://d/e" && Strip("/c://d/e") == "/e"
  {
    hide Strip;
    StripInvertsBuild("a", "b", "/c://d/e");
    StripInvertsBuild("/c", "d", "/e");
    assert "a" + MARK + "b" + "/c://d/e" == "a://b/c://d/e";
    assert "/c" + MARK + "d" + "/e" == "/c://d/e";
  }
}
