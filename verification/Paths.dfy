/**
 Path normalisation: the cursor loops of normalize_path_unlocked over a fixed
 output buffer, proved against a stack fold over path components.
 */
module Paths {
  import opened Errors
  import opened Wrappers

  type Name = seq<char>

  const MAXIMUM_PATH := 256

  datatype Result<T> = Ok(value: T) | Err(errno: Errno)

  predicate IsSeparator(c: char) { c == '/' || c == '\\' }

  /** Length of the separator-free prefix. */
  function WordLength(s: string): (n: nat)
    ensures n <= |s|
    ensures forall k :: 0 <= k < n ==> !IsSeparator(s[k])
    ensures n == |s| || IsSeparator(s[n])
  {
    if s == [] || IsSeparator(s[0]) then 0 else 1 + WordLength(s[1..])
  }

  /** The non-empty pieces between separators. */
  function Components(s: string): seq<Name>
    decreases |s|
  {
    if s == [] then []
    else if IsSeparator(s[0]) then Components(s[1..])
    else [s[..WordLength(s)]] + Components(s[WordLength(s)..])
  }

  /** The components left on a stack after "." and ".." have been obeyed; None
      when ".." is applied to the root. */
  function Fold(parts: seq<Name>, stack: seq<Name>): Option<seq<Name>>
    decreases |parts|
  {
    if parts == [] then Some(stack)
    else if parts[0] == "." then Fold(parts[1..], stack)
    else if parts[0] == ".." then
      if stack == [] then None else Fold(parts[1..], stack[..|stack| - 1])
    else Fold(parts[1..], stack + [parts[0]])
  }

  function Join(stack: seq<Name>): string {
    if stack == [] then "" else Join(stack[..|stack| - 1]) + "/" + stack[|stack| - 1]
  }

  function Render(stack: seq<Name>): string {
    if stack == [] then "/" else Join(stack)
  }

  /** What the cursor runs over: a relative path behind the current directory. */
  function Base(cwd: string, path: string): string {
    if path != [] && IsSeparator(path[0]) then ""
    else if |cwd| > 1 && cwd[|cwd| - 1] != '/' then cwd + "/"
    else cwd
  }

  function Normalize(cwd: string, path: string): Result<string> {
    if path == [] then Err(ENOENT)
    else if |path| >= MAXIMUM_PATH - |Base(cwd, path)| then Err(ENAMETOOLONG)
    else
      match Fold(Components(Base(cwd, path) + path), [])
      case None => Err(EACCES)
      case Some(stack) => Ok(Render(stack))
  }

  predicate IsName(c: Name) {
    c != [] && c != "." && c != ".." && forall k :: 0 <= k < |c| ==> !IsSeparator(c[k]) && c[k] != '\0'
  }

  predicate AllNames(stack: seq<Name>) { forall k :: 0 <= k < |stack| ==> IsName(stack[k]) }

  /** A canonical path is the rendering of a stack of proper names. */
  predicate Canonical(p: string) {
    p == Render(Components(p)) && AllNames(Components(p))
  }

  // ----- Components and rendering

  lemma {:induction false} SkipSeparators(s: string, i: nat, j: nat)
    requires i <= j <= |s| && forall k :: i <= k < j ==> IsSeparator(s[k])
    ensures Components(s[i..]) == Components(s[j..])
    decreases j - i
  {
    if i < j {
      assert s[i..][1..] == s[i + 1..];
      SkipSeparators(s, i + 1, j);
    }
  }

  lemma {:induction false} WordLengthIs(s: string, n: nat)
    requires n <= |s| && (forall k :: 0 <= k < n ==> !IsSeparator(s[k])) && (n == |s| || IsSeparator(s[n]))
    ensures WordLength(s) == n
  {
  }

  lemma TakeComponent(s: string, i: nat, j: nat)
    requires i < j <= |s| && (forall k :: i <= k < j ==> !IsSeparator(s[k])) && (j == |s| || IsSeparator(s[j]))
    ensures Components(s[i..]) == [s[i..j]] + Components(s[j..])
  {
    WordLengthIs(s[i..], j - i);
    assert s[i..][..j - i] == s[i..j] && s[i..][j - i..] == s[j..];
  }

  lemma ComponentsOfSlashName(name: Name, tail: string)
    requires IsName(name) && (tail == [] || IsSeparator(tail[0]))
    ensures Components("/" + name + tail) == [name] + Components(tail)
  {
    var s := "/" + name + tail;
    assert s[1..] == name + tail;
    TakeComponent(s, 1, 1 + |name|);
    assert s[1..1 + |name|] == name && s[1 + |name|..] == tail;
  }

  lemma JoinSplit(stack: seq<Name>, tail: string)
    requires stack != []
    ensures var n := |stack| - 1; Join(stack) + tail == Join(stack[..n]) + ("/" + stack[n] + tail)
  {
  }

  lemma {:induction false} ComponentsOfJoin(stack: seq<Name>, tail: string)
    requires AllNames(stack) && (tail == [] || IsSeparator(tail[0]))
    ensures Components(Join(stack) + tail) == stack + Components(tail)
    decreases |stack|
  {
    if stack == [] {
      assert Join(stack) + tail == tail;
      assert stack + Components(tail) == Components(tail);
    } else {
      var n := |stack| - 1;
      var rest := "/" + stack[n] + tail;
      calc {
        Components(Join(stack) + tail);
        { JoinSplit(stack, tail); }
        Components(Join(stack[..n]) + rest);
        { ComponentsOfJoin(stack[..n], rest); }
        stack[..n] + Components(rest);
        { ComponentsOfSlashName(stack[n], tail); }
        stack[..n] + ([stack[n]] + Components(tail));
        { assert stack[..n] + [stack[n]] == stack; }
        stack + Components(tail);
      }
    }
  }

  /** Rendering and splitting are inverse on stacks of proper names. */
  lemma RenderRoundTrip(stack: seq<Name>)
    requires AllNames(stack)
    ensures Components(Render(stack)) == stack && Canonical(Render(stack))
  {
    if stack != [] {
      ComponentsOfJoin(stack, []);
      assert Join(stack) + [] == Join(stack);
    } else {
      assert "/"[1..] == [];
      assert Components("/") == [];
    }
  }

  lemma {:induction false} ComponentsAreNames(s: string)
    requires '\0' !in s
    ensures forall k :: 0 <= k < |Components(s)| ==>
      Components(s)[k] == "." || Components(s)[k] == ".." || IsName(Components(s)[k])
    decreases |s|
  {
    if s != [] {
      if IsSeparator(s[0]) {
        ComponentsAreNames(s[1..]);
      } else {
        ComponentsAreNames(s[WordLength(s)..]);
      }
    }
  }

  lemma {:induction false} FoldKeepsNames(parts: seq<Name>, stack: seq<Name>)
    requires AllNames(stack)
    requires forall k :: 0 <= k < |parts| ==> parts[k] == "." || parts[k] == ".." || IsName(parts[k])
    ensures Fold(parts, stack).Some? ==> AllNames(Fold(parts, stack).value)
    decreases |parts|
  {
    if parts != [] {
      if parts[0] == "." {
        FoldKeepsNames(parts[1..], stack);
      } else if parts[0] == ".." {
        if stack != [] {
          FoldKeepsNames(parts[1..], stack[..|stack| - 1]);
        }
      } else {
        FoldKeepsNames(parts[1..], stack + [parts[0]]);
      }
    }
  }

  lemma {:induction false} FoldOfNames(parts: seq<Name>, stack: seq<Name>)
    requires AllNames(parts)
    ensures Fold(parts, stack) == Some(stack + parts)
    decreases |parts|
  {
    if parts == [] {
      assert stack + parts == stack;
    } else {
      FoldOfNames(parts[1..], stack + [parts[0]]);
      assert stack + [parts[0]] + parts[1..] == stack + parts;
    }
  }

  // ----- What the result promises

  /** Textual reading of Canonical: a leading slash, no backslash, no doubled and,
      except for the root, no trailing slash. */
  lemma {:induction false} CanonicalText(stack: seq<Name>)
    requires AllNames(stack)
    ensures var p := Render(stack);
      && p[0] == '/' && '\\' !in p && '\0' !in p
      && (p == "/" || p[|p| - 1] != '/')
      && (forall k :: 0 <= k < |p| - 1 ==> p[k] != '/' || p[k + 1] != '/')
    decreases |stack|
  {
    if stack != [] {
      var n := |stack| - 1;
      var name := stack[n];
      CanonicalText(stack[..n]);
      assert Join(stack) == Join(stack[..n]) + "/" + name;
      assert IsName(name) && name[0] != '/' && name[|name| - 1] != '/';
    }
  }

  /** A successful result is canonical and fits the buffer. */
  lemma NormalizeIsCanonical(cwd: string, path: string)
    requires Canonical(cwd) && '\0' !in path && Normalize(cwd, path).Ok?
    ensures Canonical(Normalize(cwd, path).value) && |Normalize(cwd, path).value| < MAXIMUM_PATH
  {
    var source := Base(cwd, path) + path;
    CanonicalText(Components(cwd));
    ComponentsAreNames(source);
    FoldKeepsNames(Components(source), []);
    RenderRoundTrip(Fold(Components(source), []).value);
    SourceStartsWithSeparator(cwd, path);
    FoldFits(source, 0, []);
    assert source[0..] == source;
  }

  lemma SourceStartsWithSeparator(cwd: string, path: string)
    requires Canonical(cwd) && path != []
    ensures Base(cwd, path) + path != [] && IsSeparator((Base(cwd, path) + path)[0])
  {
    CanonicalText(Components(cwd));
  }

  /** The rendered result is never longer than the text it came from. */
  lemma {:induction false} FoldFits(s: string, i: nat, stack: seq<Name>)
    requires i <= |s| && (i < |s| ==> IsSeparator(s[i])) && (stack == [] || |Join(stack)| <= i) && s != []
    ensures Fold(Components(s[i..]), stack).Some? ==> |Render(Fold(Components(s[i..]), stack).value)| <= |s|
    decreases |s| - i
  {
    if i < |s| {
      var c := i + 1;
      while c < |s| && IsSeparator(s[c])
        invariant i < c <= |s| && forall k :: i <= k < c ==> IsSeparator(s[k])
      {
        c := c + 1;
      }
      SkipSeparators(s, i, c);
      if c < |s| {
        var j := c;
        while j < |s| && !IsSeparator(s[j])
          invariant c <= j <= |s| && forall k :: c <= k < j ==> !IsSeparator(s[k])
        {
          j := j + 1;
        }
        TakeComponent(s, c, j);
        var part := s[c..j];
        if part == "." {
          FoldFits(s, j, stack);
        } else if part == ".." {
          if stack != [] {
            FoldFits(s, j, stack[..|stack| - 1]);
          }
        } else {
          assert (stack + [part])[..|stack|] == stack;
          FoldFits(s, j, stack + [part]);
        }
      } else {
        assert s[c..] == [];
      }
    }
  }

  /** Normalising a canonical path changes nothing, whatever the directory. */
  lemma NormalizeIsIdempotent(cwd: string, p: string)
    requires Canonical(p) && |p| < MAXIMUM_PATH
    ensures Normalize(cwd, p) == Ok(p)
  {
    CanonicalText(Components(p));
    assert Base(cwd, p) + p == p;
    FoldOfNames(Components(p), []);
    assert [] + Components(p) == Components(p);
  }

  /** Pushes minus pops. */
  function Balance(parts: seq<Name>): int {
    if parts == [] then 0
    else Balance(parts[1..]) + if parts[0] == "." then 0 else if parts[0] == ".." then -1 else 1
  }

  /** The fold escapes the root exactly when some prefix pops more than it pushed. */
  lemma {:induction false} EscapesIffPrefixUnderflows(parts: seq<Name>, stack: seq<Name>)
    ensures Fold(parts, stack) == None <==> exists k :: 0 <= k <= |parts| && |stack| + Balance(parts[..k]) < 0
    decreases |parts|
  {
    if parts == [] {
      assert forall k :: 0 <= k <= |parts| ==> Balance(parts[..k]) == 0;
    } else {
      var d := if parts[0] == "." then 0 else if parts[0] == ".." then -1 else 1;
      forall k | 1 <= k <= |parts|
        ensures Balance(parts[..k]) == d + Balance(parts[1..][..k - 1])
      {
        assert parts[..k][1..] == parts[1..][..k - 1];
      }
      if parts[0] == ".." && stack == [] {
        assert parts[1..][..0] == [];
        assert |stack| + Balance(parts[..1]) < 0;
      } else {
        var next := if parts[0] == "." then stack
                    else if parts[0] == ".." then stack[..|stack| - 1]
                    else stack + [parts[0]];
        EscapesIffPrefixUnderflows(parts[1..], next);
        ShiftPrefixes(parts, |stack|, d);
      }
    }
  }

  lemma ShiftPrefixes(parts: seq<Name>, depth: nat, d: int)
    requires parts != [] && depth + d >= 0
    requires forall k :: 1 <= k <= |parts| ==> Balance(parts[..k]) == d + Balance(parts[1..][..k - 1])
    ensures (exists k :: 0 <= k <= |parts| && depth + Balance(parts[..k]) < 0)
       <==> (exists k :: 0 <= k <= |parts| - 1 && depth + d + Balance(parts[1..][..k]) < 0)
  {
    if k :| 0 <= k <= |parts| - 1 && depth + d + Balance(parts[1..][..k]) < 0 {
      assert Balance(parts[..k + 1]) == d + Balance(parts[1..][..k + 1 - 1]);
    }
    if k :| 0 <= k <= |parts| && depth + Balance(parts[..k]) < 0 {
      assert parts[..0] == [];
      assert k >= 1 && depth + d + Balance(parts[1..][..k - 1]) < 0;
    }
  }

  // ----- The buffer and its cursors

  /** The first n characters of the buffer are r and a terminator follows. */
  predicate Holds(buffer: array<char>, n: nat, r: string)
    reads buffer
  {
    n < buffer.Length && buffer[..n] == r && buffer[n] == '\0'
  }

  /** Steps the length back over the last component, as for "..". */
  method DropLast(buffer: array<char>, length: nat, ghost stack: seq<Name>) returns (n: nat)
    requires stack != [] && AllNames(stack) && Holds(buffer, length, Render(stack))
    modifies buffer
    ensures Holds(buffer, n, Render(stack[..|stack| - 1]))
  {
    ghost var prefix := Join(stack[..|stack| - 1]);
    ghost var name := stack[|stack| - 1];
    assert Render(stack) == prefix + "/" + name;
    assert IsName(name);
    n := length - 1;
    while n > 1 && buffer[n - 1] != '/'
      invariant |prefix| + 1 <= n <= length - 1
      invariant buffer[..length] == prefix + "/" + name
    {
      assert buffer[..length][n - 1] == buffer[n - 1];
      n := n - 1;
    }
    assert buffer[..length][n - 1] == buffer[n - 1];
    assert n == |prefix| + 1;
    assert buffer[..length][..|prefix|] == buffer[..|prefix|] == prefix;
    if n > 1 {
      n := n - 1;
    } else {
      assert buffer[..1] == "/" by { assert buffer[..length][0] == '/'; }
    }
    buffer[n] := '\0';
  }

  /** Writes a component behind the current contents, with a slash before it
      unless the buffer holds the root. */
  method AppendName(buffer: array<char>, length: nat, name: Name, ghost stack: seq<Name>) returns (n: nat)
    requires AllNames(stack) && IsName(name) && Holds(buffer, length, Render(stack))
    requires |Render(stack + [name])| < buffer.Length == MAXIMUM_PATH
    modifies buffer
    ensures Holds(buffer, n, Render(stack + [name]))
  {
    assert (stack + [name])[..|stack|] == stack;
    n := length;
    if n != 1 {
      if n + 1 >= MAXIMUM_PATH {
        assert false;  // the first ENAMETOOLONG exit of the loop
      }
      buffer[n] := '/';
      n := n + 1;
    }
    assert stack == [] <==> length == 1 by {
      if stack != [] {
        assert Render(stack) == Join(stack[..|stack| - 1]) + "/" + stack[|stack| - 1];
      }
    }
    assert buffer[..n] == Join(stack) + "/";
    if |name| >= MAXIMUM_PATH - n {
      assert false;  // the second ENAMETOOLONG exit of the loop
    }
    CopyName(buffer, n, name);
    n := n + |name|;
    buffer[n] := '\0';
  }

  /** The memcpy of a component behind the first n characters. */
  method CopyName(buffer: array<char>, n: nat, name: string)
    requires n + |name| <= buffer.Length
    modifies buffer
    ensures buffer[..n + |name|] == old(buffer[..n]) + name
  {
    var i := 0;
    while i < |name|
      invariant 0 <= i <= |name|
      invariant buffer[..n + i] == old(buffer[..n]) + name[..i]
    {
      buffer[n + i] := name[i];
      i := i + 1;
    }
    assert name[..|name|] == name;
  }

  /** Moves the cursor over separators. */
  method SkipRun(s: string, i: nat) returns (j: nat)
    requires i <= |s|
    ensures i <= j <= |s| && (j == |s| || !IsSeparator(s[j]))
    ensures forall k :: i <= k < j ==> IsSeparator(s[k])
  {
    j := i;
    while j < |s| && IsSeparator(s[j])
      invariant i <= j <= |s| && forall k :: i <= k < j ==> IsSeparator(s[k])
    {
      j := j + 1;
    }
  }

  /** Moves the cursor to the end of a component. */
  method ScanName(s: string, i: nat) returns (j: nat)
    requires i <= |s|
    ensures i <= j <= |s| && (j == |s| || IsSeparator(s[j]))
    ensures forall k :: i <= k < j ==> !IsSeparator(s[k])
  {
    j := i;
    while j < |s| && !IsSeparator(s[j])
      invariant i <= j <= |s| && forall k :: i <= k < j ==> !IsSeparator(s[k])
    {
      j := j + 1;
    }
  }

  /** The effect of one component on the stack. */
  function Obey(name: Name, stack: seq<Name>): Option<seq<Name>> {
    if name == "." then Some(stack)
    else if name == ".." then if stack == [] then None else Some(stack[..|stack| - 1])
    else Some(stack + [name])
  }

  lemma FoldOne(name: Name, rest: seq<Name>, stack: seq<Name>)
    ensures Fold([name] + rest, stack) ==
            match Obey(name, stack) case None => None case Some(next) => Fold(rest, next)
  {
    assert ([name] + rest)[1..] == rest;
  }

  /** Obeys the component in the buffer; false means ".." at the root. */
  method ObeyInBuffer(buffer: array<char>, length: nat, name: Name, ghost stack: seq<Name>)
    returns (ok: bool, n: nat)
    requires buffer.Length == MAXIMUM_PATH && AllNames(stack) && Holds(buffer, length, Render(stack))
    requires name == "." || name == ".." || IsName(name)
    requires (if stack == [] then 0 else |Join(stack)|) + 1 + |name| < MAXIMUM_PATH
    modifies buffer
    ensures ok == Obey(name, stack).Some?
    ensures ok ==> AllNames(Obey(name, stack).value) && Holds(buffer, n, Render(Obey(name, stack).value))
  {
    ok, n := true, length;
    if name == "." {
    } else if name == ".." {
      assert stack == [] <==> length == 1 by {
        if stack != [] {
          assert Render(stack) == Join(stack[..|stack| - 1]) + "/" + stack[|stack| - 1];
          assert IsName(stack[|stack| - 1]);
        }
      }
      if length == 1 {
        ok := false;
      } else {
        n := DropLast(buffer, length, stack);
      }
    } else {
      assert (stack + [name])[..|stack|] == stack;
      n := AppendName(buffer, length, name, stack);
    }
  }

  lemma ObeyGrows(name: Name, stack: seq<Name>, i: nat, j: nat)
    requires (stack == [] || |Join(stack)| <= i) && i + 1 + |name| <= j && Obey(name, stack).Some?
    ensures Obey(name, stack).value == [] || |Join(Obey(name, stack).value)| <= j
  {
    if name != "." && name != ".." {
      assert (stack + [name])[..|stack|] == stack;
    }
  }

  lemma ScannedIsName(source: string, i: nat, j: nat)
    requires '\0' !in source && i < j <= |source| && forall k :: i <= k < j ==> !IsSeparator(source[k])
    ensures var name := source[i..j]; name == "." || name == ".." || IsName(name)
  {
    forall k | 0 <= k < j - i
      ensures source[i..j][k] != '\0'
    {
      assert source[i + k] in source;
    }
  }

  /** normalize_path_unlocked.  The buffer receives exactly the rendered stack
      fold; the error cases are the three of Normalize. */
  method NormalizePath(cwd: string, path: string, output: array<char>) returns (error: Errno, length: nat)
    requires output.Length == MAXIMUM_PATH && Canonical(cwd) && '\0' !in path
    modifies output
    ensures match Normalize(cwd, path)
            case Err(e) => error == e
            case Ok(r) => error == EOK && Holds(output, length, r)
  {
    if path == [] {
      return ENOENT, 0;
    }
    var source := Base(cwd, path);
    if |path| >= MAXIMUM_PATH - |source| {
      return ENAMETOOLONG, 0;
    }
    source := source + path;
    SourceStartsWithSeparator(cwd, path);
    CanonicalText(Components(cwd));
    assert '\0' !in source;
    var ok;
    ok, length := NormalizeSource(source, output);
    error := if ok then EOK else EACCES;
  }

  /** The cursor loop over the assembled source text. */
  method NormalizeSource(source: string, output: array<char>) returns (ok: bool, length: nat)
    requires output.Length == MAXIMUM_PATH && '\0' !in source
    requires 0 < |source| < MAXIMUM_PATH && IsSeparator(source[0])
    modifies output
    ensures ok == Fold(Components(source), []).Some?
    ensures ok ==> Holds(output, length, Render(Fold(Components(source), []).value))
  {
    output[0] := '/';
    output[1] := '\0';
    length := 1;
    var i := 0;
    ghost var stack: seq<Name> := [];
    assert source[0..] == source;
    while i < |source|
      invariant 0 <= i <= |source| && (i < |source| ==> IsSeparator(source[i]))
      invariant AllNames(stack) && Holds(output, length, Render(stack)) && (stack == [] || |Join(stack)| <= i)
      invariant Fold(Components(source[i..]), stack) == Fold(Components(source), [])
      decreases |source| - i
    {
      ghost var start := i;
      var component := SkipRun(source, i);
      SkipSeparators(source, start, component);
      i := ScanName(source, component);
      if i != component {
        TakeComponent(source, component, i);
        ScannedIsName(source, component, i);
        var name := source[component..i];
        FoldOne(name, Components(source[i..]), stack);
        ok, length := ObeyInBuffer(output, length, name, stack);
        if !ok {
          return;
        }
        ObeyGrows(name, stack, start, i);
        stack := Obey(name, stack).value;
      }
    }
    assert source[i..] == [];
    ok := true;
  }
}
