/** What `stream >> word` extracts from a string, over and over. */
module Tokens {
  import opened Text

  predicate HasBlank(s: string) { exists c :: c in s && IsBlank(c) }

  /** The six characters at which `stream >> word` stops. */
  lemma {:induction false} BlankCharacters(c: char)
    ensures IsBlank(c) <==> c in " \t\n\U{B}\U{C}\r"
  {
  }

  function WordLength(s: string): (n: nat)
    ensures n <= |s|
    ensures forall i :: 0 <= i < n ==> !IsBlank(s[i])
    ensures n < |s| ==> IsBlank(s[n])
  {
    if s == [] || IsBlank(s[0]) then 0 else 1 + WordLength(s[1..])
  }

  /** What `while (stream >> word)` extracts. */
  function Words(s: string): seq<string> {
    if s == [] then []
    else if IsBlank(s[0]) then Words(s[1..])
    else
      var n := WordLength(s);
      [s[..n]] + Words(s[n..])
  }

  lemma {:induction false} WordsSplit(a: string, b: string)
    ensures Words(a + " " + b) == Words(a) + Words(b)
    decreases |a|
  {
    var s := a + " " + b;
    if a == [] {
      assert s[0] == ' ' && s[1..] == b;
    } else if IsBlank(a[0]) {
      assert s[1..] == a[1..] + " " + b;
      WordsSplit(a[1..], b);
    } else {
      var n := WordLength(a);
      WordEnds(a, b);
      assert s[..n] == a[..n] && s[n..] == a[n..] + " " + b;
      WordsSplit(a[n..], b);
      assert [a[..n]] + (Words(a[n..]) + Words(b)) == [a[..n]] + Words(a[n..]) + Words(b);
    }
  }

  lemma {:induction false} WordEnds(a: string, b: string)
    ensures WordLength(a + " " + b) == WordLength(a)
  {
    var n, m := WordLength(a), WordLength(a + " " + b);
    assert forall i :: 0 <= i < |a| ==> (a + " " + b)[i] == a[i];
    assert (a + " " + b)[|a|] == ' ';
  }

  lemma {:induction false} SingleWord(s: string)
    requires s != [] && !HasBlank(s)
    ensures Words(s) == [s]
  {
    var n := WordLength(s);
    assert forall i :: 0 <= i < |s| ==> s[i] in s;
    assert n == |s|;
    assert s[..n] == s && s[n..] == [];
  }

  lemma {:induction false} WordsHaveNoBlank(s: string, w: string)
    requires w in Words(s)
    ensures !HasBlank(w) && w != []
    decreases |s|
  {
    if IsBlank(s[0]) {
      WordsHaveNoBlank(s[1..], w);
    } else if w != s[..WordLength(s)] {
      WordsHaveNoBlank(s[WordLength(s)..], w);
    }
  }

  /** What one `stream >> word` reads, the empty string if there is no word. */
  function FirstWord(s: string): string {
    if Words(s) == [] then "" else Words(s)[0]
  }

  /** A line written by echo is read back exactly when it holds no white space. */
  lemma {:induction false} EchoReadsBack(text: string)
    ensures FirstWord(text + "\n") == text <==> !HasBlank(text)
  {
    var s := text + "\n";
    if HasBlank(text) {
      if Words(s) != [] {
        WordsHaveNoBlank(s, Words(s)[0]);
      } else {
        assert !HasBlank("");
      }
    } else if text == [] {
      assert s[1..] == [] && Words(s[1..]) == [];
    } else {
      assert forall i :: 0 <= i < |text| ==> s[i] == text[i] && text[i] in text;
      assert s[|text|] == '\n';
      assert WordLength(s) == |text|;
      assert s[..|text|] == text;
    }
  }
}
