/**
 Case-insensitive path comparison.  The character tests of path_has_prefix and
 the splicing of migrate_path are shown to mean, on canonical paths, ancestry
 and relocation of case-folded component sequences.
 */
module PathKeys {
  import opened Paths

  /** Case-folded components; what the volume is indexed by. */
  type Key = seq<Name>

  function FoldChar(c: char): char {
    if 'a' <= c <= 'z' then (c as int - 'a' as int + 'A' as int) as char else c
  }

  function FoldName(n: Name): (r: Name)
    ensures |r| == |n|
  {
    seq(|n|, i requires 0 <= i < |n| => FoldChar(n[i]))
  }

  function FoldAll(parts: seq<Name>): (r: Key)
    ensures |r| == |parts|
  {
    seq(|parts|, i requires 0 <= i < |parts| => FoldName(parts[i]))
  }

  function KeyOf(path: string): Key { FoldAll(Components(path)) }

  /** path_has_prefix: equal up to case, then the end or, for descendants, a slash. */
  predicate HasPrefix(path: string, prefix: string, descendants: bool) {
    && |prefix| <= |path|
    && (forall k :: 0 <= k < |prefix| ==> FoldChar(path[k]) == FoldChar(prefix[k]))
    && (|path| == |prefix| || (descendants && path[|prefix|] == '/'))
  }

  /** The comparison loop. A path that ends early differs from the prefix at its
      terminator, because the prefix holds no terminator. */
  method PathHasPrefix(path: string, prefix: string, descendants: bool) returns (r: bool)
    requires '\0' !in prefix
    ensures r == HasPrefix(path, prefix, descendants)
  {
    var index := 0;
    while index < |prefix|
      invariant 0 <= index <= |prefix| && index <= |path|
      invariant forall k :: 0 <= k < index ==> FoldChar(path[k]) == FoldChar(prefix[k])
    {
      var c := if index < |path| then path[index] else '\0';
      if FoldChar(c) != FoldChar(prefix[index]) {
        return false;
      }
      assert prefix[index] in prefix;
      index := index + 1;
    }
    r := |path| == |prefix| || (descendants && path[|prefix|] == '/');
  }

  // ----- Join from the front

  lemma {:induction false} JoinConcat(a: seq<Name>, b: seq<Name>)
    ensures Join(a + b) == Join(a) + Join(b)
    decreases |b|
  {
    if b == [] {
      assert a + b == a;
    } else {
      var n := |b| - 1;
      assert (a + b)[..|a| + n] == a + b[..n];
      JoinConcat(a, b[..n]);
    }
  }

  lemma JoinHead(a: seq<Name>)
    requires a != []
    ensures Join(a) == "/" + a[0] + Join(a[1..])
  {
    assert a == [a[0]] + a[1..];
    JoinConcat([a[0]], a[1..]);
    assert [a[0]][..0] == [];
    assert Join([a[0]]) == "" + "/" + a[0];
  }

  lemma {:induction false} JoinTextOk(a: seq<Name>)
    requires AllNames(a)
    ensures (a == [] <==> Join(a) == "") && (a != [] ==> Join(a)[0] == '/')
  {
    if a != [] {
      JoinHead(a);
    }
  }

  lemma FoldCharSlash(c: char)
    ensures FoldChar(c) == '/' <==> c == '/'
  {
  }

  /** Equal folded components render to texts of equal length, equal up to case. */
  lemma {:induction false} FoldedJoinsAgree(a: seq<Name>, b: seq<Name>)
    requires FoldAll(a) == FoldAll(b)
    ensures |Join(a)| == |Join(b)|
    ensures forall k :: 0 <= k < |Join(a)| ==> FoldChar(Join(a)[k]) == FoldChar(Join(b)[k])
    decreases |a|
  {
    if a != [] {
      var n := |a| - 1;
      assert FoldAll(a)[n] == FoldAll(b)[n];
      assert FoldAll(a[..n]) == FoldAll(a)[..n] == FoldAll(b)[..n] == FoldAll(b[..n]);
      FoldedJoinsAgree(a[..n], b[..n]);
      var base := |Join(a[..n])| + 1;
      forall k | base <= k < |Join(a)|
        ensures FoldChar(Join(a)[k]) == FoldChar(Join(b)[k])
      {
        assert FoldName(a[n])[k - base] == FoldName(b[n])[k - base];
      }
    }
  }

  /** What a rendered non-empty stack looks like around its first component. */
  predicate HeadShape(s: string, name: Name, rest: string) {
    && s == "/" + name + rest && IsName(name)
    && (rest == "" || rest[0] == '/')
  }

  lemma JoinHasHead(a: seq<Name>)
    requires AllNames(a) && a != []
    ensures HeadShape(Join(a), a[0], Join(a[1..]))
  {
    JoinHead(a);
    JoinTextOk(a[1..]);
  }

  /** Matching texts have their first separators at the same place. */
  lemma HeadsHaveOneLength(s: string, m: Name, restS: string, t: string, n: Name, restT: string)
    requires HeadShape(s, m, restS) && HeadShape(t, n, restT) && HasPrefix(s, t, true)
    ensures |m| == |n|
  {
    assert forall k :: 0 <= k < |m| ==> s[1 + k] == m[k] != '/';
    assert forall k :: 0 <= k < |n| ==> t[1 + k] == n[k] != '/';
    assert |s| > 1 + |m| ==> s[1 + |m|] == '/';
    assert |t| > 1 + |n| ==> t[1 + |n|] == '/';
    if |s| > 1 + |m| {
      FoldCharSlash(s[1 + |m|]);
      FoldCharSlash(if |t| > 1 + |m| then t[1 + |m|] else '/');
    }
    if |s| > 1 + |n| {
      FoldCharSlash(s[1 + |n|]);
      FoldCharSlash(if |t| > 1 + |n| then t[1 + |n|] else '/');
    }
  }

  /** Components that are separated at the same place are compared separately. */
  lemma HeadsAgree(s: string, m: Name, restS: string, t: string, n: Name, restT: string)
    requires HeadShape(s, m, restS) && HeadShape(t, n, restT) && HasPrefix(s, t, true)
    ensures FoldName(m) == FoldName(n) && HasPrefix(restS, restT, true)
  {
    HeadsHaveOneLength(s, m, restS, t, n, restT);
    forall k | 0 <= k < |m|
      ensures FoldName(m)[k] == FoldName(n)[k]
    {
      assert s[1 + k] == m[k] && t[1 + k] == n[k];
    }
    assert s[1 + |m|..] == restS && t[1 + |m|..] == restT;
  }

  lemma {:induction false} PrefixGivesAncestor(p: seq<Name>, q: seq<Name>)
    requires AllNames(p) && AllNames(q) && HasPrefix(Join(p), Join(q), true)
    ensures FoldAll(q) <= FoldAll(p)
    decreases |q|
  {
    if q != [] {
      JoinHasHead(q);
      JoinTextOk(p);
      JoinHasHead(p);
      HeadsAgree(Join(p), p[0], Join(p[1..]), Join(q), q[0], Join(q[1..]));
      PrefixGivesAncestor(p[1..], q[1..]);
      assert FoldAll(p) == [FoldName(p[0])] + FoldAll(p[1..]);
      assert FoldAll(q) == [FoldName(q[0])] + FoldAll(q[1..]);
    }
  }

  lemma AncestorGivesPrefix(p: seq<Name>, q: seq<Name>)
    requires AllNames(p) && FoldAll(q) <= FoldAll(p)
    ensures HasPrefix(Join(p), Join(q), true) && Join(p)[|Join(q)|..] == Join(p[|q|..])
  {
    var n := |q|;
    assert p == p[..n] + p[n..];
    JoinConcat(p[..n], p[n..]);
    assert FoldAll(p[..n]) == FoldAll(p)[..n] == FoldAll(q);
    FoldedJoinsAgree(p[..n], q);
    JoinTextOk(p[n..]);
  }

  /** On canonical paths the prefix test with descendants is ancestry of keys. */
  lemma PrefixIsAncestry(path: string, prefix: string)
    requires Canonical(path) && Canonical(prefix) && KeyOf(prefix) != []
    ensures HasPrefix(path, prefix, true) <==> KeyOf(prefix) <= KeyOf(path)
  {
    var p, q := Components(path), Components(prefix);
    JoinTextOk(q);
    if p == [] {
      JoinHead(q);
      assert IsName(q[0]);
    } else {
      if HasPrefix(path, prefix, true) {
        PrefixGivesAncestor(p, q);
      }
      if KeyOf(prefix) <= KeyOf(path) {
        AncestorGivesPrefix(p, q);
      }
    }
  }

  /** Without descendants it is equality of keys. */
  lemma ExactPrefixIsEquality(path: string, prefix: string)
    requires Canonical(path) && Canonical(prefix) && KeyOf(prefix) != []
    ensures HasPrefix(path, prefix, false) <==> KeyOf(prefix) == KeyOf(path)
  {
    var p, q := Components(path), Components(prefix);
    PrefixIsAncestry(path, prefix);
    if HasPrefix(path, prefix, false) {
      AncestorGivesPrefix(p, q);
      JoinTextOk(p[|q|..]);
    } else if KeyOf(prefix) == KeyOf(path) {
      FoldedJoinsAgree(p, q);
    }
  }

  // ----- Migration

  /** migrate_path: the old prefix is replaced, the rest of the text stays. */
  function Migrate(path: string, from: string, to: string, descendants: bool): string {
    if HasPrefix(path, from, descendants) then to + path[|from|..] else path
  }

  /** The same on keys: everything at or below a moves to b. */
  function Rebase(k: Key, a: Key, b: Key): Key {
    if a <= k then b + k[|a|..] else k
  }

  lemma AllNamesSuffix(p: seq<Name>, n: nat, b: seq<Name>)
    requires AllNames(p) && AllNames(b) && n <= |p|
    ensures AllNames(b + p[n..])
  {
  }

  /** The splice of the texts is the splice of the components. */
  lemma SpliceIsRendered(path: string, from: string, to: string)
    requires Canonical(path) && Canonical(from) && Canonical(to) && KeyOf(from) != [] && KeyOf(to) != []
    requires HasPrefix(path, from, true)
    ensures KeyOf(from) <= KeyOf(path)
    ensures var moved := Components(to) + Components(path)[|Components(from)|..];
      AllNames(moved) && Migrate(path, from, to, true) == Render(moved)
  {
    var p, q, r := Components(path), Components(from), Components(to);
    PrefixIsAncestry(path, from);
    AncestorGivesPrefix(p, q);
    JoinConcat(r, p[|q|..]);
    AllNamesSuffix(p, |q|, r);
  }

  /** Migration of a canonical path is relocation of its key, and the result is
      canonical again. */
  lemma MigrateIsRebase(path: string, from: string, to: string)
    requires Canonical(path) && Canonical(from) && Canonical(to) && KeyOf(from) != [] && KeyOf(to) != []
    ensures Canonical(Migrate(path, from, to, true))
    ensures KeyOf(Migrate(path, from, to, true)) == Rebase(KeyOf(path), KeyOf(from), KeyOf(to))
  {
    if HasPrefix(path, from, true) {
      var p, q, r := Components(path), Components(from), Components(to);
      SpliceIsRendered(path, from, to);
      RenderRoundTrip(r + p[|q|..]);
      assert FoldAll(r + p[|q|..]) == FoldAll(r) + FoldAll(p)[|q|..];
    } else {
      PrefixIsAncestry(path, from);
    }
  }

  /** For a file only the path itself migrates. */
  lemma MigrateExactIsRebase(path: string, from: string, to: string)
    requires Canonical(path) && Canonical(from) && Canonical(to) && KeyOf(from) != [] && KeyOf(to) != []
    ensures Canonical(Migrate(path, from, to, false))
    ensures KeyOf(Migrate(path, from, to, false)) == if KeyOf(path) == KeyOf(from) then KeyOf(to) else KeyOf(path)
  {
    ExactPrefixIsEquality(path, from);
    if HasPrefix(path, from, false) {
      assert path[|from|..] == "";
      assert to + "" == to;
    }
  }
}
