/**
 Mount points, the resolution of canonical paths to volumes, and the names under
 which a rename puts a replaced destination aside.
 */
module Mounts {
  import opened Arithmetic
  import opened Errors
  import opened Wrappers
  import opened Paths
  import opened PathKeys
  import opened Volume

  datatype Mount = Flash | Sd

  function MountName(m: Mount): Name { if m.Flash? then "flash" else "sd" }

  function MountPath(m: Mount): string { "/" + MountName(m) }

  function MountKey(m: Mount): Name { if m.Flash? then "FLASH" else "SD" }

  lemma RenderOne(n: Name)
    requires IsName(n)
    ensures Canonical("/" + n) && Components("/" + n) == [n]
  {
    var stack := [n];
    JoinHead(stack);
    assert stack[1..] == [];
    assert "/" + n + "" == "/" + n;
    RenderRoundTrip(stack);
  }

  lemma MountKeys(m: Mount)
    ensures Canonical(MountPath(m)) && KeyOf(MountPath(m)) == [MountKey(m)]
  {
    RenderOne(MountName(m));
    assert FoldName(MountName(m)) == MountKey(m);
  }

  datatype Resolved = VirtualRoot | MountRoot(mount: Mount) | Local(mount: Mount)

  /** resolve_normalized_path: flash is tried before sd. */
  function Resolve(path: string, mounted: set<Mount>): Result<Resolved> {
    if path == "/" then Ok(VirtualRoot)
    else if HasPrefix(path, MountPath(Flash), true) then ResolveOn(path, Flash, mounted)
    else if HasPrefix(path, MountPath(Sd), true) then ResolveOn(path, Sd, mounted)
    else Err(ENOENT)
  }

  function ResolveOn(path: string, m: Mount, mounted: set<Mount>): Result<Resolved> {
    if m !in mounted then Err(ENODEV)
    else if |path| == |MountPath(m)| then Ok(MountRoot(m))
    else Ok(Local(m))
  }

  /** A path that resolves to an entry of a volume has a key below its mount. */
  lemma LocalKey(path: string, mounted: set<Mount>)
    requires Canonical(path) && Resolve(path, mounted).Ok? && Resolve(path, mounted).value.Local?
    ensures |KeyOf(path)| >= 2 && KeyOf(path)[0] == MountKey(Resolve(path, mounted).value.mount)
  {
    var m := Resolve(path, mounted).value.mount;
    MountKeys(m);
    PrefixIsAncestry(path, MountPath(m));
    ExactPrefixIsEquality(path, MountPath(m));
  }

  function HexDigit(n: nat): char
    requires n < 16
  {
    "0123456789ABCDEF"[n]
  }

  /** Five hexadecimal digits, most significant first. */
  function HexDigits(n: nat): string {
    [HexDigit(n / 65536 % 16), HexDigit(n / 4096 % 16), HexDigit(n / 256 % 16), HexDigit(n / 16 % 16), HexDigit(n % 16)]
  }

  function BackupName(sequence: nat): Name { "FXR" + HexDigits(sequence) + ".TMP" }

  function BackupPath(m: Mount, sequence: nat): string { EntryPath(m, BackupName(sequence)) }

  lemma HexDigitIsPlain(n: nat)
    requires n < 16
    ensures !IsSeparator(HexDigit(n)) && HexDigit(n) != '\0'
  {
  }

  lemma BackupNameIsName(sequence: nat)
    ensures IsName(BackupName(sequence))
  {
    var digits := HexDigits(sequence);
    forall k | 0 <= k < 5
      ensures !IsSeparator(digits[k]) && digits[k] != '\0'
    {
      HexDigitIsPlain(sequence / 65536 % 16);
      HexDigitIsPlain(sequence / 4096 % 16);
      HexDigitIsPlain(sequence / 256 % 16);
      HexDigitIsPlain(sequence / 16 % 16);
      HexDigitIsPlain(sequence % 16);
    }
  }

  /** The path of an entry directly below a mount. */
  function EntryPath(m: Mount, n: Name): string { MountPath(m) + "/" + n }

  lemma EntryKey(m: Mount, n: Name)
    requires IsName(n)
    ensures Canonical(EntryPath(m, n)) && KeyOf(EntryPath(m, n)) == [MountKey(m), FoldName(n)]
    ensures HasPrefix(EntryPath(m, n), MountPath(m), true)
  {
    var stack, tail := [MountName(m), n], [n];
    JoinHead(stack);
    assert stack[1..] == tail;
    JoinHead(tail);
    assert tail[1..] == [] && "/" + n + "" == "/" + n;
    assert Render(stack) == "/" + MountName(m) + ("/" + n) == EntryPath(m, n);
    assert IsName(MountName(m));
    RenderRoundTrip(stack);
    MountNameFolds(m);
    assert FoldAll(stack) == [MountKey(m), FoldName(n)];
  }

  lemma MountNameFolds(m: Mount)
    ensures FoldName(MountName(m)) == MountKey(m)
  {
    MountKeys(m);
    RenderOne(MountName(m));
    assert KeyOf(MountPath(m))[0] == FoldName(MountName(m));
  }

  lemma EntryResolves(m: Mount, n: Name, mounted: set<Mount>)
    requires IsName(n) && m in mounted
    ensures Resolve(EntryPath(m, n), mounted) == Ok(Local(m))
  {
    EntryKey(m, n);
    MountKeys(Flash);
    if m.Sd? {
      PrefixIsAncestry(EntryPath(m, n), MountPath(Flash));
    }
  }

  /** A backup path is canonical, short and stands directly below its mount. */
  lemma BackupKey(m: Mount, sequence: nat)
    ensures var p := BackupPath(m, sequence);
      Canonical(p) && |p| < MAXIMUM_PATH && |KeyOf(p)| == 2 && KeyOf(p)[0] == MountKey(m) &&
        HasPrefix(p, MountPath(m), true)
  {
    BackupNameIsName(sequence);
    EntryKey(m, BackupName(sequence));
  }

  lemma BackupResolves(m: Mount, sequence: nat, mounted: set<Mount>)
    requires m in mounted
    ensures Resolve(BackupPath(m, sequence), mounted) == Ok(Local(m))
  {
    BackupNameIsName(sequence);
    EntryResolves(m, BackupName(sequence), mounted);
  }

  const SEQUENCE_LIMIT := 0x1_0000_0000
  const SEQUENCE_MASK := 0x10_0000     // sequence_mask + 1

  /** The i-th number probed when the counter stands at sequence. */
  function Candidate(sequence: nat, i: nat): nat { (sequence + i) % SEQUENCE_MASK }

  predicate BackupTaken(m: Mount, t: Tree, sequence: nat) { KeyOf(BackupPath(m, sequence)) in t }

  /** The first names that would be probed are all in use. */
  predicate AllTaken(m: Mount, t: Tree, sequence: nat, probes: nat) {
    forall i :: 0 <= i < probes ==> BackupTaken(m, t, Candidate(sequence, i))
  }

  lemma OneMoreTaken(m: Mount, t: Tree, sequence: nat, probes: nat)
    requires AllTaken(m, t, sequence, probes) && BackupTaken(m, t, Candidate(sequence, probes))
    ensures AllTaken(m, t, sequence, probes + 1)
  {
  }

  predicate BackupAvailable(m: Mount, t: Tree, sequence: nat) { !AllTaken(m, t, sequence, 256) }

  lemma SequenceWraps(sequence: nat, i: nat)
    ensures (sequence + i) % SEQUENCE_LIMIT % SEQUENCE_MASK == Candidate(sequence, i)
    ensures ((sequence + i) % SEQUENCE_LIMIT + 1) % SEQUENCE_LIMIT == (sequence + i + 1) % SEQUENCE_LIMIT
  {
    var x := sequence + i;
    DivMod(x, SEQUENCE_LIMIT);
    AddMultiple(x % SEQUENCE_LIMIT, (x / SEQUENCE_LIMIT) * 4096, SEQUENCE_MASK);
    ModOfSum(x, 1, SEQUENCE_LIMIT);
  }

  /** What a failed resolution can report. */
  lemma ResolveErrs(path: string, mounted: set<Mount>)
    requires Resolve(path, mounted).Err?
    ensures Resolve(path, mounted).errno == ENODEV || Resolve(path, mounted).errno == ENOENT
  {
  }

  lemma RootKeys(path: string, mounted: set<Mount>)
    requires Canonical(path) && Resolve(path, mounted).Ok? && !Resolve(path, mounted).value.Local?
    ensures |KeyOf(path)| < 2
  {
    if path == "/" {
      RenderRoundTrip([]);
    } else {
      var m := Resolve(path, mounted).value.mount;
      MountKeys(m);
      ExactPrefixIsEquality(path, MountPath(m));
    }
  }
}
