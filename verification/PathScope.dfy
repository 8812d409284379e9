/** Path scopes of the Linux agent: lexical normalisation, containment, the
    sorted NUL-joined list comparison, and what they imply together. */
module PathScope {
  import opened Wrappers
  import opened Text

  // ---------------------------------------------------------- clean paths

  /** strings.ReplaceAll(value, "\\", "/"). */
  function Slashed(s: string): (r: string)
    ensures |r| == |s|
  {
    seq(|s|, i requires 0 <= i < |s| => if s[i] == '\\' then '/' else s[i])
  }

  function Kept(pieces: seq<string>): (r: seq<string>)
    ensures forall p :: p in r ==> p in pieces && p != "" && p != "."
    ensures forall p :: p in pieces && p != "" && p != "." ==> p in r
  {
    if pieces == [] then []
    else
      var rest := Kept(pieces[1..]);
      assert pieces == [pieces[0]] + pieces[1..];
      if pieces[0] == "" || pieces[0] == "." then rest else [pieces[0]] + rest
  }

  /** The components of a path. */
  function Parts(s: string): seq<string> {
    Kept(Split(s, '/'))
  }

  predicate Rooted(s: string) {
    s != "" && s[0] == '/'
  }

  /** filepath.Clean on a path without parent components. */
  function Clean(s: string): (r: string)
    ensures r != ""
  {
    var text := Join(Parts(s), "/");
    if Rooted(s) then "/" + text else if text == "" then "." else text
  }

  /** normalizeAgentScopedPath succeeds on these. */
  predicate Normalizable(value: string) {
    value != "" && '\0' !in value && ".." !in Split(Slashed(value), '/')
  }

  function Normalize(value: string): string
    requires Normalizable(value)
  {
    Clean(Slashed(value))
  }

  ghost predicate CleanPart(p: string) {
    p != "" && p != "." && '/' !in p
  }

  lemma PartsClean(s: string)
    ensures forall p :: p in Parts(s) ==> CleanPart(p)
  {
    SplitPieces(s, '/');
  }

  lemma {:induction false} KeptFixed(parts: seq<string>)
    requires forall p :: p in parts ==> CleanPart(p)
    ensures Kept(parts) == parts
  {
    if parts != [] {
      assert parts[0] in parts;
      KeptFixed(parts[1..]);
      assert parts == [parts[0]] + parts[1..];
    }
  }

  lemma JoinParts(parts: seq<string>)
    requires forall p :: p in parts ==> CleanPart(p)
    ensures Parts(Join(parts, "/")) == parts && Parts("/" + Join(parts, "/")) == parts
    ensures parts != [] ==> Join(parts, "/") != "" && Join(parts, "/")[0] != '/'
  {
    var text := Join(parts, "/");
    if parts == [] {
      assert Split("", '/') == [""];
      SplitConcat("", '/', "");
      assert "" + ['/'] + "" == "/" + "";
      assert ([""] + [""])[1..] == [""] && [""][1..] == [];
      assert Kept([""]) == [];
      assert Kept([""] + [""]) == [];
    } else {
      SplitJoin(parts, '/');
      KeptFixed(parts);
      SplitConcat("", '/', text);
      assert "" + ['/'] + text == "/" + text;
      assert ([""] + parts)[1..] == parts;
      assert parts[0] in parts && parts[0][0] in parts[0];
    }
  }

  /** Cleaning keeps what a path means: its components and its root. */
  lemma CleanKeeps(s: string)
    requires s != ""
    ensures Parts(Clean(s)) == Parts(s) && Rooted(Clean(s)) == Rooted(s)
  {
    PartsClean(s);
    JoinParts(Parts(s));
    if !Rooted(s) && Parts(s) == [] {
      SplitPlain(".", '/');
      assert Kept(["."]) == [];
    }
  }

  // ---------------------------------------------------------- containment

  function CommonPrefix(a: seq<string>, b: seq<string>): (n: nat)
    ensures n <= |a| && n <= |b| && a[..n] == b[..n]
    ensures n < |a| && n < |b| ==> a[n] != b[n]
  {
    if a == [] || b == [] || a[0] != b[0] then 0
    else
      var n := CommonPrefix(a[1..], b[1..]);
      assert a[..n + 1] == [a[0]] + a[1..][..n] && b[..n + 1] == [b[0]] + b[1..][..n];
      n + 1
  }

  function Ups(n: nat): (r: seq<string>)
    ensures |r| == n
  {
    seq(n, i => "..")
  }

  /** filepath.Rel on clean paths without parent components. */
  function Rel(base: string, target: string): Option<string> {
    if Rooted(base) != Rooted(target) then None
    else
      var b, t := Parts(base), Parts(target);
      var n := CommonPrefix(b, t);
      var parts := Ups(|b| - n) + t[n..];
      Some(if parts == [] then "." else Join(parts, "/"))
  }

  /** The test pathScopeContains makes on the relative path. */
  predicate Inside(relative: string) {
    relative == "." || (relative != ".." && !("../" <= relative))
  }

  predicate PathScopeContains(scope: seq<string>, value: string) {
    Normalizable(value) &&
    exists i :: 0 <= i < |scope| && Normalizable(scope[i]) &&
                var r := Rel(Normalize(scope[i]), Normalize(value)); r.Some? && Inside(r.value)
  }

  lemma UpIsOutside(parts: seq<string>)
    requires parts != [] && parts[0] == ".."
    ensures !Inside(Join(parts, "/"))
  {
    if |parts| > 1 {
      var text := Join(parts, "/");
      assert text == ".." + "/" + Join(parts[1..], "/");
      assert text[..3] == "../";
    }
  }

  lemma DownIsInside(parts: seq<string>)
    requires parts != [] && forall p :: p in parts ==> CleanPart(p) && p != ".."
    ensures Inside(Join(parts, "/"))
  {
    var text := Join(parts, "/");
    SplitJoin(parts, '/');
    assert parts[0] in parts;
    if text == ".." {
      SplitPlain("..", '/');
      assert false;
    } else if "../" <= text {
      SplitConcat("..", '/', text[3..]);
      assert text == ".." + ['/'] + text[3..];
      SplitPlain("..", '/');
      assert false;
    }
  }

  lemma {:induction false} NoParentParts(value: string)
    requires Normalizable(value)
    ensures forall p :: p in Parts(Slashed(value)) ==> CleanPart(p) && p != ".."
  {
    PartsClean(Slashed(value));
  }

  /** One scope entry admits a value exactly when both have the same root and the
      entry's components are a prefix of the value's. */
  ghost predicate Admits(item: string, value: string) {
    && item != "" && '\0' !in item && ".." !in Parts(Slashed(item))
    && value != "" && '\0' !in value && ".." !in Parts(Slashed(value))
    && Rooted(Slashed(item)) == Rooted(Slashed(value))
    && Parts(Slashed(item)) <= Parts(Slashed(value))
  }

  lemma RelInside(item: string, value: string)
    requires Normalizable(item) && Normalizable(value)
    ensures var r := Rel(Normalize(item), Normalize(value)); (r.Some? && Inside(r.value)) <==> Admits(item, value)
  {
    CleanKeeps(Slashed(item));
    CleanKeeps(Slashed(value));
    NoParentParts(item);
    NoParentParts(value);
    var b, t := Parts(Slashed(item)), Parts(Slashed(value));
    if Rooted(Slashed(item)) == Rooted(Slashed(value)) {
      var n := CommonPrefix(b, t);
      var parts := Ups(|b| - n) + t[n..];
      if n < |b| {
        assert parts[0] == "..";
        UpIsOutside(parts);
        assert n < |t| ==> b[n] != t[n];
      } else {
        assert parts == t[n..];
        if parts != [] { DownIsInside(parts); }
      }
    }
  }

  /** pathScopeContains is component-prefix containment in some entry. */
  lemma ContainsExact(scope: seq<string>, value: string)
    ensures PathScopeContains(scope, value) <==> exists i :: 0 <= i < |scope| && Admits(scope[i], value)
  {
    if Normalizable(value) {
      forall i | 0 <= i < |scope| && Normalizable(scope[i])
        ensures (var r := Rel(Normalize(scope[i]), Normalize(value)); r.Some? && Inside(r.value)) <==> Admits(scope[i], value)
      {
        RelInside(scope[i], value);
      }
    }
  }

  lemma AdmitsTransitive(a: string, b: string, c: string)
    requires Admits(a, b) && Admits(b, c)
    ensures Admits(a, c)
  {
    var x, y, z := Parts(Slashed(a)), Parts(Slashed(b)), Parts(Slashed(c));
    assert z[..|x|] == y[..|x|] == x;
  }

  /** What a scope admits, it admits together with everything inside. */
  lemma ScopeTransitive(scope: seq<string>, inner: string, value: string)
    requires PathScopeContains(scope, inner) && PathScopeContains([inner], value)
    ensures PathScopeContains(scope, value)
  {
    hide PathScopeContains, Admits;
    ContainsExact(scope, inner);
    ContainsExact([inner], value);
    ContainsExact(scope, value);
    var i :| 0 <= i < |scope| && Admits(scope[i], inner);
    AdmitsTransitive(scope[i], inner, value);
  }

  // ------------------------------------------------------ list comparison

  const NUL := "\0"

  /** sameStringSet. */
  predicate SameStringSet(left: seq<string>, right: seq<string>) {
    Join(Sort(left), NUL) == Join(Sort(right), NUL)
  }

  ghost predicate NulFree(xs: seq<string>) {
    forall x :: x in xs ==> '\0' !in x
  }

  lemma SortMembers(xs: seq<string>, x: string)
    ensures x in Sort(xs) <==> x in xs
  {
    assert x in multiset(Sort(xs)) <==> x in multiset(xs);
  }

  /** A NUL-free entry of a list is a piece of its joined text. */
  lemma {:induction false} EntryIsPiece(parts: seq<string>, x: string)
    requires x in parts && '\0' !in x
    ensures x in Split(Join(parts, NUL), '\0')
  {
    if |parts| == 1 {
      SplitPlain(x, '\0');
    } else {
      SplitConcat(parts[0], '\0', Join(parts[1..], NUL));
      if parts[0] == x {
        SplitPlain(x, '\0');
      } else {
        assert parts == [parts[0]] + parts[1..];
        EntryIsPiece(parts[1..], x);
      }
    }
  }

  /** A nonempty NUL-free entry of one list is an entry of any NUL-free list it
      is taken to be equal to. */
  lemma EntryCarriesOver(left: seq<string>, right: seq<string>, x: string)
    requires SameStringSet(left, right) && NulFree(right) && x in left && x != "" && '\0' !in x
    ensures x in right
  {
    SortMembers(left, x);
    EntryIsPiece(Sort(left), x);
    assert Split("", '\0') == [""];
    if right != [] {
      forall y | y in Sort(right) ensures '\0' !in y { SortMembers(right, y); }
      SplitJoin(Sort(right), '\0');
      SortMembers(right, x);
    }
  }

  /** The NUL-separated pieces of all entries, one after the other; no entry at
      all counts as one empty piece. */
  function Pieces(parts: seq<string>): seq<string> {
    if parts == [] then [""]
    else if |parts| == 1 then Split(parts[0], '\0')
    else Split(parts[0], '\0') + Pieces(parts[1..])
  }

  lemma {:induction false} JoinedPieces(parts: seq<string>)
    ensures Split(Join(parts, NUL), '\0') == Pieces(parts)
  {
    if |parts| > 1 {
      JoinedPieces(parts[1..]);
      SplitConcat(parts[0], '\0', Join(parts[1..], NUL));
    }
  }

  /** For any lists: the comparison sees the pieces of the sorted entries and
      nothing else. */
  lemma SameStringSetExact(left: seq<string>, right: seq<string>)
    ensures SameStringSet(left, right) <==> Pieces(Sort(left)) == Pieces(Sort(right))
  {
    hide Pieces, Sort, Split, Join;
    JoinedPieces(Sort(left));
    JoinedPieces(Sort(right));
    SplitPieces(Join(Sort(left), NUL), '\0');
    SplitPieces(Join(Sort(right), NUL), '\0');
  }

  /** For lists without NUL that is equality as multisets, but for the empty list
      and the list of one empty text, which it cannot tell apart. */
  lemma NulFreeExact(left: seq<string>, right: seq<string>)
    requires NulFree(left) && NulFree(right)
    ensures SameStringSet(left, right) <==>
            multiset(left) == multiset(right) || ((left == [] || left == [""]) && (right == [] || right == [""]))
  {
    forall y | y in Sort(left) ensures '\0' !in y { SortMembers(left, y); }
    forall y | y in Sort(right) ensures '\0' !in y { SortMembers(right, y); }
    if left != [] { SplitJoin(Sort(left), '\0'); }
    if right != [] { SplitJoin(Sort(right), '\0'); }
    assert Split("", '\0') == [""];
    if multiset(left) == multiset(right) {
      SortedUnique(Sort(left), Sort(right));
    } else if SameStringSet(left, right) {
      if left == [] || right == [] {
        OnlyEmptyText(left);
        OnlyEmptyText(right);
      }
    }
  }

  lemma OnlyEmptyText(xs: seq<string>)
    ensures Sort(xs) == [""] ==> xs == [""]
    ensures Sort([""]) == [""] && Sort([]) == []
  {
    if Sort(xs) == [""] {
      assert xs[0] in multiset(Sort(xs));
      assert xs == [xs[0]];
    }
    assert [""][1..] == [];
  }

  /** With NUL inside an entry the comparison confuses different lists. */
  lemma NulConfuses()
    ensures SameStringSet(["a\0b"], ["a", "b"])
  {
    assert Sorted(["a", "b"]) && Sorted(["a\0b"]);
    assert Join(["a", "b"], NUL) == "a" + NUL + "b" by { assert ["a", "b"][1..] == ["b"]; }
    assert Join(["a\0b"], NUL) == "a\0b";
    hide Sort, Sorted, Join, Leq;
    SortedUnique(Sort(["a\0b"]), ["a\0b"]);
    SortedUnique(Sort(["a", "b"]), ["a", "b"]);
  }

  /** validateLocalPolicy on the request's paths. */
  predicate PolicyAdmits(policy: seq<string>, paths: seq<string>) {
    forall i :: 0 <= i < |paths| ==> PathScopeContains(policy, paths[i])
  }

  /** For any lists whatever: if the token's paths compare equal to the request's
      and the policy admits the request's, then every path the token admits is
      admitted by the policy. */
  lemma TokenWithinPolicy(token: seq<string>, request: seq<string>, policy: seq<string>, value: string)
    requires SameStringSet(token, request) && PolicyAdmits(policy, request)
    requires PathScopeContains(token, value)
    ensures PathScopeContains(policy, value)
  {
    ContainsExact(token, value);
    var i :| 0 <= i < |token| && Admits(token[i], value);
    forall x | x in request ensures '\0' !in x {
      var k :| 0 <= k < |request| && request[k] == x;
      assert PathScopeContains(policy, request[k]);
    }
    EntryCarriesOver(token, request, token[i]);
    var k :| 0 <= k < |request| && request[k] == token[i];
    ContainsExact(policy, request[k]);
    var j :| 0 <= j < |policy| && Admits(policy[j], request[k]);
    AdmitsTransitive(policy[j], request[k], value);
    ContainsExact(policy, value);
  }
}
