/** A backtracking regular-expression matcher in the style of Python's `re`.
    A pattern denotes, at each position, the list of its matches in the order
    in which a backtracking engine tries them; `search` takes the first match
    at the leftmost position that has one. */
module Regex {
  import opened Text

  datatype Pattern =
    | Lit(text: string)
    | Class(accepts: char -> bool)
    | Exactly(accepts: char -> bool, count: nat)   // [...]{count}
    | Star(accepts: char -> bool, greedy: bool)    // [...]* and [...]*?
    | Cat(first: Pattern, second: Pattern)
    | Maybe(body: Pattern)                         // (?:...)? , greedy
    | Group(number: nat, body: Pattern)

  /** Where a match ends and what its groups captured. */
  datatype Match = Match(end: nat, groups: map<nat, (nat, nat)>)

  predicate AllAccepted(accepts: char -> bool, s: string, i: nat, count: nat) {
    i + count <= |s| && forall k :: i <= k < i + count ==> accepts(s[k])
  }

  /** All matches of `p` at `m.end`, best first. */
  function Matches(p: Pattern, s: string, m: Match): seq<Match>
    decreases p, 0, 0
  {
    match p
    case Lit(text) =>
      if At(s, text, m.end) then [m.(end := m.end + |text|)] else []
    case Class(accepts) =>
      if m.end < |s| && accepts(s[m.end]) then [m.(end := m.end + 1)] else []
    case Exactly(accepts, count) =>
      if AllAccepted(accepts, s, m.end, count) then [m.(end := m.end + count)] else []
    case Star(accepts, greedy) =>
      StarMatches(accepts, greedy, s, m)
    case Cat(first, second) =>
      Each(second, s, Matches(first, s, m))
    case Maybe(body) =>
      Matches(body, s, m) + [m]
    case Group(number, body) =>
      Capture(number, m.end, Matches(body, s, m))
  }

  function StarMatches(accepts: char -> bool, greedy: bool, s: string, m: Match): (r: seq<Match>)
    ensures |r| >= 1
    decreases |s| - m.end
  {
    if m.end < |s| && accepts(s[m.end]) then
      var longer := StarMatches(accepts, greedy, s, m.(end := m.end + 1));
      if greedy then longer + [m] else [m] + longer
    else
      [m]
  }

  /** Continues with `p` after each of the matches, in order. */
  function Each(p: Pattern, s: string, ms: seq<Match>): seq<Match>
    decreases p, 1, |ms|
  {
    if ms == [] then [] else Matches(p, s, ms[0]) + Each(p, s, ms[1..])
  }

  function Capture(number: nat, start: nat, ms: seq<Match>): (r: seq<Match>)
    ensures |r| == |ms|
    ensures forall i :: 0 <= i < |ms| ==> r[i] == ms[i].(groups := ms[i].groups[number := (start, ms[i].end)])
  {
    if ms == [] then []
    else [ms[0].(groups := ms[0].groups[number := (start, ms[0].end)])] + Capture(number, start, ms[1..])
  }

  function Start(i: nat): Match { Match(i, map[]) }

  /** `re.search`: the leftmost position with a match, and its best match. */
  function Search(p: Pattern, s: string, from: nat): Option<(nat, Match)>
    decreases |s| - from
  {
    if |s| < from then None
    else
      var ms := Matches(p, s, Start(from));
      if ms != [] then Some((from, ms[0])) else Search(p, s, from + 1)
  }

  lemma {:induction false} SearchIs(p: Pattern, s: string, from: nat, i: nat)
    requires from <= i <= |s|
    requires forall k: nat :: from <= k < i ==> Matches(p, s, Start(k)) == []
    requires Matches(p, s, Start(i)) != []
    ensures Search(p, s, from) == Some((i, Matches(p, s, Start(i))[0]))
    decreases i - from
  {
    if from < i {
      SearchIs(p, s, from + 1, i);
    }
  }

  lemma {:induction false} SearchNone(p: Pattern, s: string, from: nat)
    requires forall k: nat :: from <= k <= |s| ==> Matches(p, s, Start(k)) == []
    ensures Search(p, s, from) == None
    decreases |s| - from
  {
    if from <= |s| {
      SearchNone(p, s, from + 1);
    }
  }

  // ----- one step of the engine at a time -----

  lemma {:induction false} CatMatches(first: Pattern, second: Pattern, s: string, m: Match)
    ensures Matches(Cat(first, second), s, m) == Each(second, s, Matches(first, s, m))
  {
  }

  lemma {:induction false} MaybeMatches(body: Pattern, s: string, m: Match)
    ensures Matches(Maybe(body), s, m) == Matches(body, s, m) + [m]
  {
  }

  lemma {:induction false} GroupMatches(number: nat, body: Pattern, s: string, m: Match)
    ensures Matches(Group(number, body), s, m) == Capture(number, m.end, Matches(body, s, m))
  {
  }

  lemma {:induction false} StarIs(accepts: char -> bool, greedy: bool, next: Pattern, s: string, m: Match)
    ensures Matches(Cat(Star(accepts, greedy), next), s, m) == Each(next, s, StarMatches(accepts, greedy, s, m))
  {
  }

  // ----- how continuations distribute -----

  lemma {:induction false} EachOne(p: Pattern, s: string, m: Match)
    ensures Each(p, s, [m]) == Matches(p, s, m)
  {
    assert [m][1..] == [];
    assert Each(p, s, []) == [];
  }

  lemma {:induction false} Associative<T>(a: seq<T>, b: seq<T>, c: seq<T>)
    ensures a + (b + c) == (a + b) + c
  {
  }

  lemma {:induction false} EachAppend(p: Pattern, s: string, a: seq<Match>, b: seq<Match>)
    ensures Each(p, s, a + b) == Each(p, s, a) + Each(p, s, b)
    decreases |a|
  {
    if a == [] {
      assert a + b == b;
    } else {
      var tail := a + b;
      assert tail != [] && tail[0] == a[0] && tail[1..] == a[1..] + b;
      assert Each(p, s, tail) == Matches(p, s, a[0]) + Each(p, s, a[1..] + b);
      EachAppend(p, s, a[1..], b);
      Associative(Matches(p, s, a[0]), Each(p, s, a[1..]), Each(p, s, b));
    }
  }

  /** A greedy star after which only the longest run can go on: the engine
      ends up exactly where a plain scan over the run would. */
  lemma {:induction false} GreedyRun(accepts: char -> bool, next: Pattern, s: string, m: Match, stop: nat)
    requires m.end <= stop <= |s|
    requires forall k :: m.end <= k < stop ==> accepts(s[k])
    requires stop < |s| ==> !accepts(s[stop])
    requires forall k: nat :: m.end <= k < stop ==> Matches(next, s, m.(end := k)) == []
    ensures Matches(Cat(Star(accepts, true), next), s, m) == Matches(next, s, m.(end := stop))
    decreases stop - m.end
  {
    hide Matches;
    StarIs(accepts, true, next, s, m);
    EachOne(next, s, m);
    assert m == m.(end := m.end);
    if m.end < stop {
      var m' := m.(end := m.end + 1);
      GreedyRun(accepts, next, s, m', stop);
      StarIs(accepts, true, next, s, m');
      EachAppend(next, s, StarMatches(accepts, true, s, m'), [m]);
    }
  }

  /** A lazy star goes on at the first position where the rest matches. */
  lemma {:induction false} LazyRun(accepts: char -> bool, next: Pattern, s: string, m: Match, stop: nat)
    requires m.end <= stop <= |s|
    requires forall k :: m.end <= k < stop ==> accepts(s[k])
    requires forall k: nat :: m.end <= k < stop ==> Matches(next, s, m.(end := k)) == []
    requires Matches(next, s, m.(end := stop)) != []
    ensures Matches(Cat(Star(accepts, false), next), s, m) != []
    ensures Matches(Cat(Star(accepts, false), next), s, m)[0] == Matches(next, s, m.(end := stop))[0]
    decreases stop - m.end
  {
    hide Matches;
    assert m == m.(end := m.end);
    StarIs(accepts, false, next, s, m);
    EachOne(next, s, m);
    if m.end < |s| && accepts(s[m.end]) {
      var m' := m.(end := m.end + 1);
      EachAppend(next, s, [m], StarMatches(accepts, false, s, m'));
      if m.end < stop {
        LazyRun(accepts, next, s, m', stop);
        StarIs(accepts, false, next, s, m');
      }
    }
  }

  /** A star followed by something that matches nowhere in its run matches nothing. */
  lemma {:induction false} StarDead(accepts: char -> bool, greedy: bool, next: Pattern, s: string, m: Match)
    requires forall k: nat :: m.end <= k ==> Matches(next, s, m.(end := k)) == []
    ensures Matches(Cat(Star(accepts, greedy), next), s, m) == []
    decreases |s| - m.end
  {
    hide Matches;
    assert m == m.(end := m.end);
    StarIs(accepts, greedy, next, s, m);
    EachOne(next, s, m);
    if m.end < |s| && accepts(s[m.end]) {
      var m' := m.(end := m.end + 1);
      StarDead(accepts, greedy, next, s, m');
      StarIs(accepts, greedy, next, s, m');
      var longer := StarMatches(accepts, greedy, s, m');
      if greedy {
        EachAppend(next, s, longer, [m]);
      } else {
        EachAppend(next, s, [m], longer);
      }
    }
  }

  // ----- substitution -----

  /** `re.sub(p, template, s, count=1)` where the template is the text of group 1
      followed by a literal. */
  function SubOnce(p: Pattern, s: string, after: string): string {
    match Search(p, s, 0)
    case None => s
    case Some((i, m)) =>
      if i <= m.end <= |s| && 1 in m.groups && m.groups[1].0 <= m.groups[1].1 <= |s|
      then s[..i] + s[m.groups[1].0..m.groups[1].1] + after + s[m.end..]
      else s
  }
}
