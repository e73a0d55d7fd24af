/** The permission string that Go's `os.FileMode.String` prints, which the configuration
    file's permission gate compares against. */
module FileModes {

  /** The letters Go prints for the file-type and special bits of a mode, in its order. */
  const TypeLetters: string := "dalTLDpSugct?"

  type ModeLetters = s: string | forall i :: 0 <= i < |s| ==> s[i] in TypeLetters

  /** A file mode: the letters of its set type/special bits and its nine permission bits. */
  datatype FileMode = FileMode(kind: ModeLetters, perm: bv9)

  function PermChar(perm: bv9, bit: bv9, c: char): char {
    if perm & bit != 0 then c else '-'
  }

  /** `FileMode.String`: the type letters (or `-` for a plain file), then `rwxrwxrwx`
      with `-` for every permission bit that is clear. */
  function ModeString(m: FileMode): (s: string)
    ensures |s| == (if m.kind == [] then 1 else |m.kind|) + 9
    ensures s[0] == '-' <==> m.kind == []
  {
    (if m.kind == [] then "-" else m.kind) +
    [ PermChar(m.perm, 0x100, 'r'), PermChar(m.perm, 0x80, 'w'), PermChar(m.perm, 0x40, 'x'),
      PermChar(m.perm, 0x20, 'r'), PermChar(m.perm, 0x10, 'w'), PermChar(m.perm, 0x8, 'x'),
      PermChar(m.perm, 0x4, 'r'), PermChar(m.perm, 0x2, 'w'), PermChar(m.perm, 0x1, 'x') ]
  }

  /** The two mode strings the gate admits (config.go:95): owner read-write (0600) and owner
      read-only (0400). */
  const OwnerReadWrite: string := "-rw-------"
  const OwnerReadOnly: string := "-r--------"

  /** An admitted mode string is a plain file's that the owner can read and no one else
      can read, write or execute. */
  predicate Admitted(s: string)
    ensures Admitted(s) ==> |s| == 10 && s[0] == '-' && s[1] == 'r' && forall i :: 4 <= i < 10 ==> s[i] == '-'
  {
    s == OwnerReadWrite || s == OwnerReadOnly
  }

  /** The gate admits exactly plain files whose permission bits are 0600 (0x180) or 0400 (0x100). */
  lemma AdmittedModes(m: FileMode)
    ensures Admitted(ModeString(m)) <==> m.kind == [] && (m.perm == 0x180 || m.perm == 0x100)
  {
    var s := ModeString(m);
    if m.kind == [] {
      assert s[1] == PermChar(m.perm, 0x100, 'r') && s[2] == PermChar(m.perm, 0x80, 'w');
      assert s[3] == PermChar(m.perm, 0x40, 'x') && s[4] == PermChar(m.perm, 0x20, 'r');
      assert s[5] == PermChar(m.perm, 0x10, 'w') && s[6] == PermChar(m.perm, 0x8, 'x');
      assert s[7] == PermChar(m.perm, 0x4, 'r') && s[8] == PermChar(m.perm, 0x2, 'w');
      assert s[9] == PermChar(m.perm, 0x1, 'x');
      if Admitted(s) {
        assert OwnerReadWrite[2] == 'w' && OwnerReadOnly[2] == '-';
        assert m.perm & 0x7F == 0;
      }
    } else {
      assert OwnerReadWrite[0] == '-' && OwnerReadOnly[0] == '-';
    }
  }

  /** A group- and world-readable plain file (mode 0644) is refused. */
  lemma WorldReadableRefused()
    ensures !Admitted(ModeString(FileMode("", 0x1A4)))
  {
    AdmittedModes(FileMode("", 0x1A4));
  }
}
