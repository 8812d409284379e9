/** String primitives of the Go standard library that the agents build on:
    ordering, sorting, joining, splitting and whitespace trimming. A `char` is
    a Unicode scalar value, so a `string` is a valid UTF-8 text; Go's bytewise
    order on such texts is the code point order used here. */
module Text {

  // ---------------------------------------------------------------- order

  predicate Leq(a: string, b: string) {
    a == [] || (b != [] && (a[0] < b[0] || (a[0] == b[0] && Leq(a[1..], b[1..]))))
  }

  lemma LeqTotal(a: string, b: string)
    ensures Leq(a, b) || Leq(b, a)
  {
  }

  lemma LeqAntisymmetric(a: string, b: string)
    requires Leq(a, b) && Leq(b, a)
    ensures a == b
  {
    if a != [] {
      LeqAntisymmetric(a[1..], b[1..]);
      assert a == [a[0]] + a[1..] && b == [b[0]] + b[1..];
    }
  }

  lemma LeqTransitive(a: string, b: string, c: string)
    requires Leq(a, b) && Leq(b, c)
    ensures Leq(a, c)
  {
  }

  predicate Sorted(xs: seq<string>) {
    forall i, j :: 0 <= i < j < |xs| ==> Leq(xs[i], xs[j])
  }

  /** sort.Strings, as insertion sort. */
  function Sort(xs: seq<string>): (r: seq<string>)
    ensures Sorted(r) && multiset(r) == multiset(xs) && |r| == |xs|
  {
    if xs == [] then []
    else
      assert xs == [xs[0]] + xs[1..];
      Insert(xs[0], Sort(xs[1..]))
  }

  function Insert(x: string, xs: seq<string>): (r: seq<string>)
    requires Sorted(xs)
    ensures Sorted(r) && multiset(r) == multiset{x} + multiset(xs) && |r| == |xs| + 1
  {
    if xs == [] then [x]
    else if Leq(x, xs[0]) then
      assert Sorted([x] + xs) by { SortedFront(x, xs); }
      [x] + xs
    else
      assert xs == [xs[0]] + xs[1..];
      var rest := Insert(x, xs[1..]);
      assert Sorted([xs[0]] + rest) by { SortedLater(x, xs, rest); }
      [xs[0]] + rest
  }

  lemma SortedFront(x: string, xs: seq<string>)
    requires Sorted(xs) && (xs != [] ==> Leq(x, xs[0]))
    ensures Sorted([x] + xs)
  {
    hide Leq;
    forall j | 0 <= j < |xs| ensures Leq(x, xs[j]) {
      if j > 0 { LeqTransitive(x, xs[0], xs[j]); }
    }
  }

  lemma SortedLater(x: string, xs: seq<string>, rest: seq<string>)
    requires xs != [] && Sorted(xs) && Sorted(rest) && multiset(rest) == multiset{x} + multiset(xs[1..]) && !Leq(x, xs[0])
    ensures Sorted([xs[0]] + rest)
  {
    hide Leq;
    LeqTotal(x, xs[0]);
    forall j | 0 <= j < |rest| ensures Leq(xs[0], rest[j]) {
      assert rest[j] in multiset(rest);
      if rest[j] != x { assert rest[j] in xs[1..]; }
    }
  }

  lemma HeadIsLeast(a: seq<string>, x: string)
    requires Sorted(a) && x in a
    ensures Leq(a[0], x)
  {
    var i :| 0 <= i < |a| && a[i] == x;
    LeqTotal(x, x);
  }

  lemma TailMultiset(a: seq<string>)
    requires a != []
    ensures multiset(a[1..]) == multiset(a) - multiset{a[0]}
  {
    assert a == [a[0]] + a[1..];
  }

  /** A sorted sequence is determined by its elements. */
  lemma {:induction false} SortedUnique(a: seq<string>, b: seq<string>)
    requires Sorted(a) && Sorted(b) && multiset(a) == multiset(b)
    ensures a == b
  {
    assert |multiset(a)| == |a| && |multiset(b)| == |b|;
    if a != [] {
      assert a[0] in multiset(b) && b[0] in multiset(a);
      HeadIsLeast(a, b[0]);
      HeadIsLeast(b, a[0]);
      LeqAntisymmetric(a[0], b[0]);
      TailMultiset(a);
      TailMultiset(b);
      SortedUnique(a[1..], b[1..]);
      assert a == [a[0]] + a[1..] && b == [b[0]] + b[1..];
    }
  }

  predicate IsLeast(m: string, s: set<string>) {
    m in s && forall x :: x in s ==> Leq(m, x)
  }

  lemma LeastExists(s: set<string>)
    requires s != {}
    ensures exists m :: IsLeast(m, s)
  {
    var x :| x in s;
    if s == {x} {
      LeqTotal(x, x);
      assert IsLeast(x, s);
    } else {
      LeastExists(s - {x});
      var m :| IsLeast(m, s - {x});
      LeqTotal(x, m);
      LeqTotal(x, x);
      if Leq(m, x) {
        assert IsLeast(m, s);
      } else {
        forall y | y in s ensures Leq(x, y) {
          if y != x { LeqTransitive(x, m, y); }
        }
        assert IsLeast(x, s);
      }
    }
  }

  lemma LeastUnique(m: string, n: string, s: set<string>)
    requires IsLeast(m, s) && IsLeast(n, s)
    ensures m == n
  {
    LeqAntisymmetric(m, n);
  }

  function Least(s: set<string>): (m: string)
    requires s != {}
    ensures IsLeast(m, s)
  {
    LeastExists(s);
    assert forall m, n :: IsLeast(m, s) && IsLeast(n, s) ==> m == n by {
      forall m, n | IsLeast(m, s) && IsLeast(n, s) ensures m == n { LeastUnique(m, n, s); }
    }
    var m :| IsLeast(m, s);
    m
  }

  /** The keys of a map in ascending order. */
  function SortedKeys(s: set<string>): (r: seq<string>)
    ensures Sorted(r)
    ensures forall k :: k in r <==> k in s
    ensures forall i, j :: 0 <= i < j < |r| ==> r[i] != r[j]
  {
    if s == {} then []
    else
      var m := Least(s);
      [m] + SortedKeys(s - {m})
  }

  lemma SortedKeysMultiset(s: set<string>)
    ensures multiset(SortedKeys(s)) == multiset(s)
  {
    if s != {} {
      var m := Least(s);
      SortedKeysMultiset(s - {m});
      assert multiset(s) == multiset{m} + multiset(s - {m});
    }
  }

  /** Go ranges over a map in any order and then sorts: every enumeration of a
      key set sorts to the same sequence. */
  lemma SortCanonical(enumeration: seq<string>, s: set<string>)
    requires multiset(enumeration) == multiset(s)
    ensures Sort(enumeration) == SortedKeys(s)
  {
    SortedKeysMultiset(s);
    SortedUnique(Sort(enumeration), SortedKeys(s));
  }

  // ------------------------------------------------------- join and split

  function Join(parts: seq<string>, sep: string): string {
    if parts == [] then ""
    else if |parts| == 1 then parts[0]
    else parts[0] + sep + Join(parts[1..], sep)
  }

  function Split(s: string, c: char): (r: seq<string>)
    ensures r != []
  {
    if s == "" then [""]
    else
      var rest := Split(s[1..], c);
      if s[0] == c then [""] + rest else Extend(s[0], rest)
  }

  /** One more character at the front of the first piece. */
  function Extend(c: char, pieces: seq<string>): (r: seq<string>)
    requires pieces != []
    ensures |r| == |pieces|
  {
    [[c] + pieces[0]] + pieces[1..]
  }

  lemma ExtendConcat(c: char, a: seq<string>, b: seq<string>)
    requires a != []
    ensures Extend(c, a + b) == Extend(c, a) + b
  {
    assert (a + b)[1..] == a[1..] + b;
  }

  lemma SplitPlain(s: string, c: char)
    requires c !in s
    ensures Split(s, c) == [s]
  {
    if s != "" {
      SplitPlain(s[1..], c);
      assert s == [s[0]] + s[1..];
    }
  }

  lemma {:induction false} SplitConcat(a: string, c: char, b: string)
    ensures Split(a + [c] + b, c) == Split(a, c) + Split(b, c)
  {
    hide Extend;
    var whole := a + [c] + b;
    if a == "" {
      assert whole[0] == c && whole[1..] == b;
    } else {
      assert whole[0] == a[0] && whole[1..] == a[1..] + [c] + b;
      SplitConcat(a[1..], c, b);
      ExtendConcat(a[0], Split(a[1..], c), Split(b, c));
      assert [""] + (Split(a[1..], c) + Split(b, c)) == [""] + Split(a[1..], c) + Split(b, c);
    }
  }

  lemma {:induction false} SplitPieces(s: string, c: char)
    ensures forall p :: p in Split(s, c) ==> c !in p
    ensures Join(Split(s, c), [c]) == s
  {
    if s != "" {
      SplitPieces(s[1..], c);
      var rest := Split(s[1..], c);
      if s[0] == c {
        assert ([""] + rest)[1..] == rest;
      } else {
        var first := [s[0]] + rest[0];
        assert ([first] + rest[1..])[1..] == rest[1..];
        assert rest == [rest[0]] + rest[1..];
        if |rest| > 1 {
          assert Join([first] + rest[1..], [c]) == first + [c] + Join(rest[1..], [c]);
          assert first + [c] + Join(rest[1..], [c]) == [s[0]] + (rest[0] + [c] + Join(rest[1..], [c]));
        }
      }
    }
  }

  lemma {:induction false} SplitJoin(parts: seq<string>, c: char)
    requires parts != []
    requires forall p :: p in parts ==> c !in p
    ensures Split(Join(parts, [c]), c) == parts
  {
    SplitPlain(parts[0], c);
    if |parts| > 1 {
      SplitJoin(parts[1..], c);
      SplitConcat(parts[0], c, Join(parts[1..], [c]));
    }
  }

  // ----------------------------------------------------------------- trim

  /** unicode.IsSpace. */
  predicate IsSpace(c: char) {
    var n := c as int;
    (0x09 <= n <= 0x0d) || n == 0x20 || n == 0x85 || n == 0xa0 || n == 0x1680 ||
    (0x2000 <= n <= 0x200a) || n == 0x2028 || n == 0x2029 || n == 0x202f || n == 0x205f || n == 0x3000
  }

  function TrimLeft(s: string): (r: string)
    ensures |r| <= |s| && r == s[|s| - |r|..]
    ensures r != "" ==> !IsSpace(r[0])
  {
    if s != "" && IsSpace(s[0]) then TrimLeft(s[1..]) else s
  }

  function TrimRight(s: string): (r: string)
    ensures |r| <= |s| && r == s[..|r|]
    ensures r != "" ==> !IsSpace(r[|r| - 1])
  {
    if s != "" && IsSpace(s[|s| - 1]) then TrimRight(s[..|s| - 1]) else s
  }

  /** strings.TrimSpace. */
  function Trim(s: string): (r: string)
    ensures r != "" ==> !IsSpace(r[0]) && !IsSpace(r[|r| - 1])
  {
    TrimRight(TrimLeft(s))
  }

  /** A text is unchanged by trimming exactly when no space is at either end. */
  lemma TrimFixed(s: string)
    ensures Trim(s) == s <==> s == "" || (!IsSpace(s[0]) && !IsSpace(s[|s| - 1]))
  {
  }

  lemma TrimIdempotent(s: string)
    ensures Trim(Trim(s)) == Trim(s)
  {
    TrimFixed(Trim(s));
  }

  lemma TrimLeftStep(s: string)
    requires s != ""
    ensures TrimLeft(s) == if IsSpace(s[0]) then TrimLeft(s[1..]) else s
  {
  }

  lemma {:induction false} TrimLeftKeeps(s: string, i: nat)
    requires i < |s| && !IsSpace(s[i])
    ensures TrimLeft(s) != ""
  {
    hide IsSpace, TrimLeft;
    TrimLeftStep(s);
    if i > 0 {
      var rest := s[1..];
      assert rest[i - 1] == s[i];
      TrimLeftKeeps(rest, i - 1);
    }
  }

  lemma {:induction false} TrimRightKeeps(s: string, i: nat)
    requires i < |s| && !IsSpace(s[i])
    ensures TrimRight(s) != ""
  {
    hide IsSpace;
    if i < |s| - 1 { TrimRightKeeps(s[..|s| - 1], i); }
  }

  /** Only blank texts are trimmed to nothing. */
  lemma TrimKeepsText(s: string, i: nat)
    requires i < |s| && !IsSpace(s[i])
    ensures Trim(s) != ""
  {
    hide IsSpace;
    TrimLeftKeeps(s, i);
    TrimRightKeeps(TrimLeft(s), 0);
  }

  lemma {:induction false} TrimLeftExact(s: string) returns (i: nat)
    ensures i <= |s| && TrimLeft(s) == s[i..] && forall k :: 0 <= k < i ==> IsSpace(s[k])
  {
    hide IsSpace, TrimLeft;
    if s == "" {
      EmptyTrims();
      return 0;
    }
    TrimLeftStep(s);
    if IsSpace(s[0]) {
      var j := TrimLeftExact(s[1..]);
      i := j + 1;
    } else {
      i := 0;
    }
  }

  lemma EmptyTrims()
    ensures TrimLeft("") == "" && TrimRight("") == ""
  {
  }

  lemma TrimRightStep(s: string)
    requires s != ""
    ensures TrimRight(s) == if IsSpace(s[|s| - 1]) then TrimRight(s[..|s| - 1]) else s
  {
  }

  lemma {:induction false} TrimRightExact(s: string) returns (j: nat)
    ensures j <= |s| && TrimRight(s) == s[..j] && forall k :: j <= k < |s| ==> IsSpace(s[k])
  {
    hide IsSpace, TrimRight;
    if s == "" {
      EmptyTrims();
      return 0;
    }
    TrimRightStep(s);
    if IsSpace(s[|s| - 1]) {
      j := TrimRightExact(s[..|s| - 1]);
    } else {
      j := |s|;
    }
  }

  /** Trimming cuts off spaces at both ends and nothing else. */
  lemma TrimExact(s: string) returns (i: nat, j: nat)
    ensures i <= j <= |s| && Trim(s) == s[i..j]
    ensures forall k :: 0 <= k < i || j <= k < |s| ==> IsSpace(s[k])
    ensures i < j ==> !IsSpace(s[i]) && !IsSpace(s[j - 1])
  {
    hide IsSpace, TrimLeft, TrimRight;
    i := TrimLeftExact(s);
    var n := TrimRightExact(TrimLeft(s));
    j := i + n;
    assert s[i..][..n] == s[i..j];
    forall k | j <= k < |s| ensures IsSpace(s[k]) {
      assert s[i..][k - i] == s[k];
    }
  }

  /** The first difference of two texts is at `i`, and the first text is less there. */
  ghost predicate LessAt(a: string, b: string, i: nat) {
    i < |a| && i < |b| && a[i] < b[i] && a[..i] == b[..i]
  }

  lemma LessAtTail(a: string, b: string, i: nat)
    requires a != "" && b != "" && a[0] == b[0]
    ensures i > 0 ==> (LessAt(a, b, i) <==> LessAt(a[1..], b[1..], i - 1))
    ensures !LessAt(a, b, 0)
    ensures a <= b <==> a[1..] <= b[1..]
  {
    if 0 < i <= |a| && i <= |b| {
      assert a[..i] == [a[0]] + a[1..][..i - 1] && b[..i] == [b[0]] + b[1..][..i - 1];
      assert a[..i][1..] == a[1..][..i - 1] && b[..i][1..] == b[1..][..i - 1];
    }
    assert a == [a[0]] + a[1..] && b == [b[0]] + b[1..];
  }

  /** The order of texts: a prefix comes first, and otherwise the first difference
      decides. */
  lemma {:induction false} LeqExact(a: string, b: string)
    ensures Leq(a, b) <==> a <= b || exists i: nat :: LessAt(a, b, i)
  {
    if a != "" && b != "" && a[0] == b[0] {
      var x, y := a[1..], b[1..];
      LeqExact(x, y);
      LessAtTail(a, b, 0);
      assert Leq(a, b) == Leq(x, y);
      hide Leq, LessAt;
      if exists i: nat :: LessAt(x, y, i) {
        var i: nat :| LessAt(x, y, i);
        LessAtTail(a, b, i + 1);
        assert LessAt(a, b, i + 1);
      }
      if exists i: nat :: LessAt(a, b, i) {
        var i: nat :| LessAt(a, b, i);
        LessAtTail(a, b, i);
        assert LessAt(x, y, i - 1);
      }
    } else if a != "" && b != "" {
      assert a[0] < b[0] ==> LessAt(a, b, 0);
      forall i: nat | LessAt(a, b, i) ensures a[0] < b[0] { if i > 0 { assert a[..i][0] == b[..i][0]; } }
    }
  }
}
