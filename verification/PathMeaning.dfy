/**
 What paths mean: how texts split into components and what a stack of components
 obeys, what relative and absolute paths come to, which names are the same, which
 mount a path is on, and that backup names differ.
 */
module PathMeaning {
  import opened Arithmetic
  import opened Errors
  import opened Wrappers
  import opened Paths
  import opened PathKeys
  import opened Volume
  import opened Mounts

  // ----- Components

  /** A text without separators is one component. */
  lemma WordIsComponent(w: string)
    requires w != [] && forall k :: 0 <= k < |w| ==> !IsSeparator(w[k])
    ensures Components(w) == [w]
  {
    WordLengthIs(w, |w|);
    assert w[..|w|] == w && w[|w|..] == [];
  }

  /** Separators, slashes and backslashes, are no component. */
  lemma SeparatorsAreNothing(s: string)
    requires forall k :: 0 <= k < |s| ==> s[k] == '/' || s[k] == '\\'
    ensures Components(s) == []
  {
    SkipSeparators(s, 0, |s|);
    assert s[0..] == s && s[|s|..] == [];
  }

  /** A text splits wherever there is a separator. */
  lemma {:induction false} ComponentsSplit(s: string, t: string)
    requires s == [] || t == [] || IsSeparator(t[0]) || IsSeparator(s[|s| - 1])
    ensures Components(s + t) == Components(s) + Components(t)
    decreases |s|
  {
    if s == [] {
      assert s + t == t;
    } else if IsSeparator(s[0]) {
      assert (s + t)[1..] == s[1..] + t;
      ComponentsSplit(s[1..], t);
    } else {
      var w := WordLength(s);
      WordLengthIs(s + t, w);
      assert (s + t)[..w] == s[..w] && (s + t)[w..] == s[w..] + t;
      ComponentsSplit(s[w..], t);
    }
  }

  // ----- The stack

  /** "." is obeyed by doing nothing, ".." by going up, which fails at the root, and
      anything else by going down. */
  lemma ObeyOne(name: Name, stack: seq<Name>)
    ensures name == "." ==> Fold([name], stack) == Some(stack)
    ensures name == ".." ==> Fold([name], []) == None && Fold([name], stack + [name]) == Some(stack)
    ensures name != "." && name != ".." ==> Fold([name], stack) == Some(stack + [name])
  {
    var up := stack + [name];
    assert [name][1..] == [] && up[..|up| - 1] == stack;
  }

  /** Components are obeyed one after the other. */
  lemma {:induction false} ObeyInTurn(a: seq<Name>, b: seq<Name>, stack: seq<Name>)
    ensures Fold(a + b, stack) == match Fold(a, stack) case None => None case Some(u) => Fold(b, u)
    decreases |a|
  {
    if a == [] {
      assert a + b == b;
    } else {
      assert (a + b)[0] == a[0] && (a + b)[1..] == a[1..] + b;
      if a[0] == "." {
        ObeyInTurn(a[1..], b, stack);
      } else if a[0] == ".." {
        if stack != [] {
          ObeyInTurn(a[1..], b, stack[..|stack| - 1]);
        }
      } else {
        ObeyInTurn(a[1..], b, stack + [a[0]]);
      }
    }
  }

  // ----- Relative and absolute paths

  /** The canonical path of a stack, or EACCES if there is none. */
  function Place(stack: Option<seq<Name>>): Result<string> {
    match stack
    case None => Err(EACCES)
    case Some(names) => Ok(Render(names))
  }

  /** The current directory and the path that follows it, as components. */
  lemma SourceComponents(cwd: string, path: string)
    requires Canonical(cwd) && path != [] && !IsSeparator(path[0])
    ensures |Base(cwd, path)| == |cwd| + if cwd == "/" then 0 else 1
    ensures Components(Base(cwd, path) + path) == Components(cwd) + Components(path)
  {
    CanonicalText(Components(cwd));
    if cwd == "/" {
      assert Base(cwd, path) == cwd;
      ComponentsSplit(cwd, path);
    } else {
      assert Base(cwd, path) == cwd + "/";
      ComponentsSplit(cwd, "/");
      SeparatorsAreNothing("/");
      ComponentsSplit(cwd + "/", path);
      assert Components(cwd) + [] == Components(cwd);
    }
  }

  /** A relative path is obeyed from the current directory on, and is too long if it
      does not fit behind it. */
  lemma RelativePath(cwd: string, path: string)
    requires Canonical(cwd) && path != [] && path[0] != '/' && path[0] != '\\'
    ensures var length := |cwd| + (if cwd == "/" then 0 else 1) + |path|;
      Normalize(cwd, path) ==
        if length >= 256 then Err(ENAMETOOLONG) else Place(Fold(Components(path), Components(cwd)))
  {
    SourceComponents(cwd, path);
    ObeyInTurn(Components(cwd), Components(path), []);
    FoldOfNames(Components(cwd), []);
    assert [] + Components(cwd) == Components(cwd);
  }

  /** A path that starts with a separator is obeyed from the root on. */
  lemma AbsolutePath(cwd: string, path: string)
    requires path != [] && (path[0] == '/' || path[0] == '\\')
    ensures Normalize(cwd, path) == if |path| >= 256 then Err(ENAMETOOLONG) else Place(Fold(Components(path), []))
  {
    assert Base(cwd, path) + path == path;
  }

  /** There is no empty path. */
  lemma EmptyPath(cwd: string)
    ensures Normalize(cwd, "") == Err(ENOENT)
  {
  }

  // ----- Which names are the same

  predicate Lower(c: char) { 97 <= c as int <= 122 }

  /** Equal, or the two cases of one ASCII letter. */
  predicate SameLetter(c: char, d: char) {
    || c == d
    || (Lower(c) && d as int == c as int - 32)
    || (Lower(d) && c as int == d as int - 32)
  }

  lemma LettersFold(c: char, d: char)
    ensures FoldChar(c) == FoldChar(d) <==> SameLetter(c, d)
  {
  }

  /** Names are the same up to the case of ASCII letters. */
  lemma NamesFold(m: Name, n: Name)
    ensures FoldName(m) == FoldName(n) <==> |m| == |n| && forall i :: 0 <= i < |m| ==> SameLetter(m[i], n[i])
  {
    if |m| == |n| {
      forall i | 0 <= i < |m|
        ensures FoldName(m)[i] == FoldName(n)[i] <==> SameLetter(m[i], n[i])
      {
        LettersFold(m[i], n[i]);
      }
    }
  }

  /** Canonical paths have one key if their components have the same names. */
  lemma KeysFold(p: string, q: string)
    ensures KeyOf(p) == KeyOf(q) <==>
      |Components(p)| == |Components(q)| &&
      forall k :: 0 <= k < |Components(p)| ==> FoldName(Components(p)[k]) == FoldName(Components(q)[k])
  {
    if |Components(p)| == |Components(q)| {
      forall k | 0 <= k < |Components(p)|
        ensures KeyOf(p)[k] == FoldName(Components(p)[k]) && KeyOf(q)[k] == FoldName(Components(q)[k])
      {
      }
    }
  }

  // ----- Mounts

  lemma RootKey(path: string)
    requires Canonical(path)
    ensures KeyOf(path) == [] <==> path == "/"
  {
    RenderRoundTrip([]);
    if KeyOf(path) == [] {
      assert Components(path) == [];
    }
  }

  /** A canonical path is the root, or on the mount that its first name is, if that is
      there: the mount itself or an entry below it. */
  lemma PathIsOnMount(path: string, mounted: set<Mount>)
    requires Canonical(path)
    ensures var k := KeyOf(path);
      Resolve(path, mounted) ==
        if k == [] then Ok(VirtualRoot)
        else if k[0] == "FLASH" then OnMount(Flash, |k|, mounted)
        else if k[0] == "SD" then OnMount(Sd, |k|, mounted)
        else Err(ENOENT)
  {
    RootKey(path);
    if KeyOf(path) != [] {
      MountPrefix(path, Flash);
      MountPrefix(path, Sd);
    }
  }

  function OnMount(m: Mount, depth: nat, mounted: set<Mount>): Result<Resolved> {
    if m !in mounted then Err(ENODEV) else if depth == 1 then Ok(MountRoot(m)) else Ok(Local(m))
  }

  lemma MountPrefix(path: string, m: Mount)
    requires Canonical(path) && KeyOf(path) != []
    ensures HasPrefix(path, MountPath(m), true) <==> KeyOf(path)[0] == MountKey(m)
    ensures HasPrefix(path, MountPath(m), true) ==> (|path| == |MountPath(m)| <==> |KeyOf(path)| == 1)
  {
    MountKeys(m);
    PrefixIsAncestry(path, MountPath(m));
    ExactPrefixIsEquality(path, MountPath(m));
    var k := KeyOf(path);
    assert [MountKey(m)] <= k <==> k[0] == MountKey(m);
    assert |k| == 1 && k[0] == MountKey(m) ==> k == [MountKey(m)];
  }

  // ----- Backup names

  /** The five digits are those of the number. */
  lemma DigitsTell(m: nat, n: nat)
    requires m < SEQUENCE_MASK && n < SEQUENCE_MASK && HexDigits(m) == HexDigits(n)
    ensures m == n
  {
    var x, y := HexDigits(m), HexDigits(n);
    DigitTells(m / 65536 % 16, n / 65536 % 16, x[0], y[0]);
    DigitTells(m / 4096 % 16, n / 4096 % 16, x[1], y[1]);
    DigitTells(m / 256 % 16, n / 256 % 16, x[2], y[2]);
    DigitTells(m / 16 % 16, n / 16 % 16, x[3], y[3]);
    DigitTells(m % 16, n % 16, x[4], y[4]);
    FromDigits(m);
    FromDigits(n);
  }

  lemma DigitTells(m: nat, n: nat, c: char, d: char)
    requires m < 16 && n < 16 && c == HexDigit(m) && d == HexDigit(n) && FoldChar(c) == FoldChar(d)
    ensures m == n
  {
  }

  lemma FromDigits(n: nat)
    requires n < SEQUENCE_MASK
    ensures n == ((((n / 65536 % 16) * 16 + n / 4096 % 16) * 16 + n / 256 % 16) * 16 + n / 16 % 16) * 16 + n % 16
  {
    assert n / 16 == n / 256 * 16 + n / 16 % 16;
    assert n / 256 == n / 4096 * 16 + n / 256 % 16;
    assert n / 4096 == n / 65536 * 16 + n / 4096 % 16;
  }

  /** Different numbers give different backup names, whatever the case. */
  lemma BackupNamesDiffer(mount: Mount, m: nat, n: nat)
    requires m < SEQUENCE_MASK && n < SEQUENCE_MASK && KeyOf(BackupPath(mount, m)) == KeyOf(BackupPath(mount, n))
    ensures m == n
  {
    BackupNameIsName(m);
    BackupNameIsName(n);
    EntryKey(mount, BackupName(m));
    EntryKey(mount, BackupName(n));
    var p, q := BackupName(m), BackupName(n);
    assert FoldName(p) == FoldName(q);
    forall i | 0 <= i < 5
      ensures HexDigits(m)[i] == HexDigits(n)[i]
    {
      assert p[3 + i] == HexDigits(m)[i] && q[3 + i] == HexDigits(n)[i];
      assert FoldName(p)[3 + i] == FoldName(q)[3 + i];
      DigitIsUpper(m, i);
      DigitIsUpper(n, i);
    }
    DigitsTell(m, n);
  }

  lemma DigitIsUpper(n: nat, i: nat)
    requires i < 5
    ensures FoldChar(HexDigits(n)[i]) == HexDigits(n)[i]
  {
  }

  /** A backup name is available if and only if one of the names with the next 256
      numbers, modulo 2^20, is free. */
  lemma BackupIsAvailableIff(mount: Mount, t: Tree, sequence: nat)
    ensures BackupAvailable(mount, t, sequence) <==>
      exists i: nat :: i < 256 && KeyOf(BackupPath(mount, Candidate(sequence, i))) !in t
    ensures forall i: nat :: Candidate(sequence, i) == (sequence + i) % 0x10_0000
  {
    if i: nat :| i < 256 && KeyOf(BackupPath(mount, Candidate(sequence, i))) !in t {
      assert !BackupTaken(mount, t, Candidate(sequence, i));
    }
    if BackupAvailable(mount, t, sequence) {
      var i :| 0 <= i < 256 && !BackupTaken(mount, t, Candidate(sequence, i));
    }
  }

  /** The 256 numbers probed for one rename differ. */
  lemma CandidatesDiffer(sequence: nat, i: nat, j: nat)
    requires i < 256 && j < 256 && Candidate(sequence, i) == Candidate(sequence, j)
    ensures i == j
  {
    assert SEQUENCE_MASK == 1048576;
    if i < j {
      CloseNumbers(sequence + i, sequence + j);
    } else if j < i {
      CloseNumbers(sequence + j, sequence + i);
    }
  }

  lemma CloseNumbers(a: nat, b: nat)
    requires a < b < a + 256
    ensures a % SEQUENCE_MASK != b % SEQUENCE_MASK
  {
    assert SEQUENCE_MASK == 1048576;
    assert b % 1048576 == a % 1048576 + (b - a) || b % 1048576 == a % 1048576 + (b - a) - 1048576;
  }
}
