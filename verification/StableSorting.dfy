/** What a stable sort by a strict weak order must return. */
module StableSorting {

  ghost predicate StrictWeakOrder<T(!new)>(less: (T, T) -> bool) {
    && (forall a, b :: less(a, b) ==> !less(b, a))
    && (forall a, b, c :: less(a, c) ==> less(a, b) || less(b, c))
  }

  predicate Sorted<T>(less: (T, T) -> bool, s: seq<T>) {
    forall i, j :: 0 <= i < j < |s| ==> !less(s[j], s[i])
  }

  predicate Equivalent<T>(less: (T, T) -> bool, a: T, b: T) {
    !less(a, b) && !less(b, a)
  }

  /** The elements of `s` that `less` does not distinguish from `e`, in order. */
  function ClassOf<T>(less: (T, T) -> bool, e: T, s: seq<T>): seq<T> {
    if s == [] then []
    else (if Equivalent(less, e, s[0]) then [s[0]] else []) + ClassOf(less, e, s[1..])
  }

  /** `r` is `s` sorted, equivalent elements keeping their order. */
  ghost predicate StablySorted<T(!new)>(less: (T, T) -> bool, s: seq<T>, r: seq<T>) {
    Sorted(less, r) && forall e :: ClassOf(less, e, r) == ClassOf(less, e, s)
  }

  function Insert<T>(less: (T, T) -> bool, x: T, s: seq<T>): seq<T> {
    if s != [] && less(s[0], x) then [s[0]] + Insert(less, x, s[1..]) else [x] + s
  }

  function StableSort<T>(less: (T, T) -> bool, s: seq<T>): seq<T> {
    if s == [] then [] else Insert(less, s[0], StableSort(less, s[1..]))
  }

  // ----- StableSort is a stable sort -----

  lemma {:induction false} InsertMembers<T>(less: (T, T) -> bool, x: T, s: seq<T>)
    ensures multiset(Insert(less, x, s)) == multiset{x} + multiset(s)
  {
    if s != [] && less(s[0], x) {
      InsertMembers(less, x, s[1..]);
      assert s == [s[0]] + s[1..];
    }
  }

  lemma {:induction false} InsertSorted<T(!new)>(less: (T, T) -> bool, x: T, s: seq<T>)
    requires StrictWeakOrder(less) && Sorted(less, s)
    ensures Sorted(less, Insert(less, x, s))
  {
    if s != [] && less(s[0], x) {
      var rest := Insert(less, x, s[1..]);
      InsertSorted(less, x, s[1..]);
      InsertMembers(less, x, s[1..]);
      forall y | y in rest ensures !less(y, s[0]) {
        assert y in multiset(rest);
        assert y == x || y in s[1..];
      }
    } else if s != [] {
      forall j | 0 <= j < |s| ensures !less(s[j], x) {
        if j > 0 {
          assert !less(s[j], s[0]);
        }
      }
    }
  }

  lemma {:induction false} InsertClass<T(!new)>(less: (T, T) -> bool, e: T, x: T, s: seq<T>)
    requires StrictWeakOrder(less) && Sorted(less, s)
    ensures ClassOf(less, e, Insert(less, x, s)) == ClassOf(less, e, [x] + s)
  {
    assert ([x] + s)[1..] == s;
    if s != [] && less(s[0], x) {
      var rest := Insert(less, x, s[1..]);
      InsertClass(less, e, x, s[1..]);
      assert ([s[0]] + rest)[1..] == rest;
      assert ([x] + s[1..])[1..] == s[1..];
      if Equivalent(less, e, s[0]) {
        assert !Equivalent(less, e, x);
      }
    }
  }

  lemma {:induction false} StableSortCorrect<T(!new)>(less: (T, T) -> bool, s: seq<T>)
    requires StrictWeakOrder(less)
    ensures StablySorted(less, s, StableSort(less, s))
    ensures multiset(StableSort(less, s)) == multiset(s)
  {
    if s != [] {
      var rest := StableSort(less, s[1..]);
      StableSortCorrect(less, s[1..]);
      InsertSorted(less, s[0], rest);
      InsertMembers(less, s[0], rest);
      assert s == [s[0]] + s[1..];
      forall e ensures ClassOf(less, e, StableSort(less, s)) == ClassOf(less, e, s) {
        InsertClass(less, e, s[0], rest);
        assert ([s[0]] + rest)[1..] == rest;
      }
    }
  }

  // ----- any stable sort returns the same -----

  lemma {:induction false} ClassMember<T>(less: (T, T) -> bool, e: T, s: seq<T>, x: T)
    ensures x in ClassOf(less, e, s) <==> x in s && Equivalent(less, e, x)
  {
    if s != [] {
      ClassMember(less, e, s[1..], x);
      assert s == [s[0]] + s[1..];
    }
  }

  /** The first element of a sorted sequence heads its own class in any sorted
      sequence with the same classes. */
  lemma {:induction false} SameHead<T(!new)>(less: (T, T) -> bool, r: seq<T>, t: seq<T>)
    requires StrictWeakOrder(less) && Sorted(less, r) && Sorted(less, t)
    requires forall e :: ClassOf(less, e, r) == ClassOf(less, e, t)
    requires r != []
    ensures t != [] && t[0] == r[0]
  {
    var x := r[0];
    ClassMember(less, x, r, x);
    ClassMember(less, x, t, x);
    var y := t[0];
    ClassMember(less, y, t, y);
    ClassMember(less, y, r, y);
    var i :| 0 <= i < |t| && t[i] == x;
    var j :| 0 <= j < |r| && r[j] == y;
    assert !less(x, y) && !less(y, x);
    assert ClassOf(less, x, r)[0] == x;
    assert ClassOf(less, x, t)[0] == y;
  }

  /** The contract of std::stable_sort leaves no choice. */
  lemma {:induction false} StableSortUnique<T(!new)>(less: (T, T) -> bool, r: seq<T>, t: seq<T>)
    requires StrictWeakOrder(less) && Sorted(less, r) && Sorted(less, t)
    requires forall e :: ClassOf(less, e, r) == ClassOf(less, e, t)
    ensures r == t
    decreases |r|
  {
    if r == [] {
      if t != [] {
        ClassMember(less, t[0], t, t[0]);
        ClassMember(less, t[0], r, t[0]);
      }
    } else {
      SameHead(less, r, t);
      forall e ensures ClassOf(less, e, r[1..]) == ClassOf(less, e, t[1..]) {
        SameTailClass(less, e, r, t);
      }
      StableSortUnique(less, r[1..], t[1..]);
      assert r == [r[0]] + r[1..] && t == [t[0]] + t[1..];
    }
  }

  lemma {:induction false} SameTailClass<T>(less: (T, T) -> bool, e: T, r: seq<T>, t: seq<T>)
    requires r != [] && t != [] && r[0] == t[0]
    requires ClassOf(less, e, r) == ClassOf(less, e, t)
    ensures ClassOf(less, e, r[1..]) == ClassOf(less, e, t[1..])
  {
    var a, b := ClassOf(less, e, r[1..]), ClassOf(less, e, t[1..]);
    var head := if Equivalent(less, e, r[0]) then [r[0]] else [];
    assert ClassOf(less, e, r) == head + a;
    assert ClassOf(less, e, t) == head + b;
    assert a == (head + a)[|head|..] && b == (head + b)[|head|..];
  }

  lemma {:induction false} StableSortIs<T(!new)>(less: (T, T) -> bool, s: seq<T>, r: seq<T>)
    requires StrictWeakOrder(less)
    ensures StablySorted(less, s, r) <==> r == StableSort(less, s)
  {
    StableSortCorrect(less, s);
    if StablySorted(less, s, r) {
      StableSortUnique(less, r, StableSort(less, s));
    }
  }

  // ----- when two orders sort a sequence the same way -----

  /** The orders agree on every later element against every earlier one. */
  ghost predicate Agree<T>(less: (T, T) -> bool, other: (T, T) -> bool, s: seq<T>) {
    forall i, j :: 0 <= i < j < |s| ==> less(s[j], s[i]) == other(s[j], s[i])
  }

  /** The sort compares nothing but later elements with earlier ones. */
  lemma {:induction false} AgreeingSorts<T>(less: (T, T) -> bool, other: (T, T) -> bool, s: seq<T>)
    requires Agree(less, other, s)
    ensures StableSort(less, s) == StableSort(other, s)
    ensures multiset(StableSort(less, s)) == multiset(s)
  {
    if s != [] {
      var rest := StableSort(less, s[1..]);
      AgreeingSorts(less, other, s[1..]);
      assert s == [s[0]] + s[1..];
      forall y | y in rest ensures less(y, s[0]) == other(y, s[0]) {
        assert y in multiset(rest);
        var j :| 0 <= j < |s[1..]| && s[1..][j] == y;
        assert s[j + 1] == y;
      }
      SameInsert(less, other, s[0], rest);
      InsertMembers(less, s[0], rest);
    }
  }

  lemma {:induction false} SameInsert<T>(less: (T, T) -> bool, other: (T, T) -> bool, x: T, s: seq<T>)
    requires forall y :: y in s ==> less(y, x) == other(y, x)
    ensures Insert(less, x, s) == Insert(other, x, s)
  {
    if s != [] {
      assert s[0] in s;
      SameInsert(less, other, x, s[1..]);
    }
  }

  /** `x` goes in front of the first element that is not less. */
  lemma {:induction false} InsertPlace<T>(less: (T, T) -> bool, x: T, s: seq<T>) returns (k: nat)
    ensures k <= |s| && Insert(less, x, s) == s[..k] + [x] + s[k..]
    ensures forall i :: 0 <= i < k ==> less(s[i], x)
  {
    if s != [] && less(s[0], x) {
      var k' := InsertPlace(less, x, s[1..]);
      k := k' + 1;
      assert s[..k] == [s[0]] + s[1..][..k'] && s[k..] == s[1..][k'..];
    } else {
      k := 0;
    }
  }

  /** Two elements not out of order stay in their order. */
  lemma {:induction false} OrderKept<T>(less: (T, T) -> bool, s: seq<T>, i: nat, j: nat) returns (p: nat, q: nat)
    requires i < j < |s| && !less(s[j], s[i])
    ensures p < q < |StableSort(less, s)|
    ensures StableSort(less, s)[p] == s[i] && StableSort(less, s)[q] == s[j]
  {
    var rest := StableSort(less, s[1..]);
    var k := InsertPlace(less, s[0], rest);
    if i > 0 {
      var p', q' := OrderKept(less, s[1..], i - 1, j - 1);
      p, q := if p' < k then p' else p' + 1, if q' < k then q' else q' + 1;
    } else {
      var q' := Sorts(less, s[1..], j - 1);
      p, q := k, q' + 1;
    }
  }

  lemma {:induction false} Sorts<T>(less: (T, T) -> bool, s: seq<T>, j: nat) returns (q: nat)
    requires j < |s|
    ensures q < |StableSort(less, s)| && StableSort(less, s)[q] == s[j]
  {
    var k := InsertPlace(less, s[0], StableSort(less, s[1..]));
    if j == 0 {
      q := k;
    } else {
      var q' := Sorts(less, s[1..], j - 1);
      q := if q' < k then q' else q' + 1;
    }
  }

  lemma {:induction false} DisagreeingSorts<T(!new)>(less: (T, T) -> bool, other: (T, T) -> bool, s: seq<T>, i: nat, j: nat)
    requires StrictWeakOrder(less)
    requires i < j < |s| && less(s[j], s[i]) && !other(s[j], s[i])
    ensures StableSort(less, s) != StableSort(other, s)
  {
    StableSortCorrect(less, s);
    var p, q := OrderKept(other, s, i, j);
  }

  /** Two orders sort a sequence the same way exactly when they agree on every
      later element against every earlier one. */
  lemma {:induction false} SameSortIff<T(!new)>(less: (T, T) -> bool, other: (T, T) -> bool, s: seq<T>)
    requires StrictWeakOrder(less) && StrictWeakOrder(other)
    ensures StableSort(less, s) == StableSort(other, s) <==> Agree(less, other, s)
  {
    if Agree(less, other, s) {
      AgreeingSorts(less, other, s);
    } else {
      var i: nat, j: nat :| i < j < |s| && less(s[j], s[i]) != other(s[j], s[i]);
      if less(s[j], s[i]) {
        DisagreeingSorts(less, other, s, i, j);
      } else {
        DisagreeingSorts(other, less, s, i, j);
      }
    }
  }
}
