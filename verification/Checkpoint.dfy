/** Backup and restore of the Linux agent over a path map, with signatures and
    digests as arbitrary functions that fit together. */
module Checkpoint {
  import opened Wrappers
  import opened Text
  import opened PathScope

  datatype File = Regular(content: Bytes, mode: int) | Symlink | Directory

  type Files = map<string, File>

  const SCHEMA := "gcac.linux.signed-checkpoint/v1"
  const SUFFIX := ".gcac-backup"
  const LEDGER := "execution-recovery-ledger"
  const PERM := 512
  const OWNER_ONLY := 384

  /** The mode field of a checkpoint as decoded from JSON. */
  datatype Mode = Missing | NotInteger | Integer(n: int)

  /** What is signed. `existed` is None where the field is not a boolean. */
  datatype Body = Body(schema: string, operationId: string, targetPath: string, backupPath: string,
                       existed: Option<bool>, mode: Mode, sha256: string)

  datatype Signed = Signed(body: Body, keyId: string, signature: string)

  datatype Signer = Signer(keyId: string, key: string, usable: bool)

  datatype Crypto = Crypto(digest: Bytes -> string, sign: (string, Body) -> string, verify: (string, Body, string) -> bool)

  predicate HexChar(c: char) {
    '0' <= c <= '9' || 'a' <= c <= 'f' || 'A' <= c <= 'F'
  }

  predicate IsSha256Hex(s: string) {
    |s| == 64 && forall i :: 0 <= i < |s| ==> HexChar(s[i])
  }

  function Lower(s: string): (r: string)
    ensures |r| == |s|
    ensures forall i :: 0 <= i < |s| ==> !('A' <= r[i] <= 'Z') && (r[i] == s[i] || ('A' <= s[i] <= 'Z' && r[i] as int == s[i] as int + 32))
  {
    seq(|s|, i requires 0 <= i < |s| => if 'A' <= s[i] <= 'Z' then ((s[i] as int) + 32) as char else s[i])
  }

  /** Digests print as lower-case hexadecimal and signatures as nonblank texts
      without outer space. */
  ghost predicate Printable(c: Crypto) {
    && (forall b :: IsSha256Hex(c.digest(b)) && Lower(c.digest(b)) == c.digest(b))
    && (forall k, body :: c.sign(k, body) != "" && Trim(c.sign(k, body)) == c.sign(k, body))
  }

  /** The key set holds a public key that accepts the signer's signatures. */
  ghost predicate Registered(c: Crypto, keys: map<string, string>, signer: Signer) {
    && Trim(signer.keyId) != "" && Trim(signer.keyId) in keys
    && forall body :: c.verify(keys[Trim(signer.keyId)], body, c.sign(signer.key, body))
  }

  /** hasParentPathSegment. */
  predicate HasParent(path: string) {
    ".." in Split(Slashed(path), '/')
  }

  predicate GoodPath(path: string) {
    path != "" && Rooted(path) && !HasParent(path)
  }

  // ------------------------------------------------------------ operations

  /** What the environment decides: cancellation, and whether writes and the
      removal of a directory succeed. */
  datatype World = World(cancelled: bool, writeOk: bool, cancelledAfter: bool, removeOk: bool, linked: Option<Bytes>)

  datatype Desired = NoContent | BadContent | Content(bytes: Bytes)

  /** The input of a backup operation. */
  datatype Order = Order(rawPath: string, ledgerRef: string, operationId: string, desired: Desired)

  datatype BackupResult = Checkpointed(checkpoint: Signed) | AlreadyCurrent | BackupFailed

  function SignCheckpoint(c: Crypto, signer: Signer, body: Body): BackupResult {
    if Trim(signer.keyId) == "" || !signer.usable then BackupFailed
    else Checkpointed(Signed(body, signer.keyId, c.sign(signer.key, body)))
  }

  /** executeFilesystemBackup: the new files and the result. */
  function Backup(c: Crypto, signer: Signer, fs: Files, o: Order, w: World): (Files, BackupResult) {
    var path := Trim(o.rawPath);
    if !GoodPath(path) || Trim(o.ledgerRef) != LEDGER || w.cancelled then (fs, BackupFailed)
    else
      var target := Clean(path);
      var backup := target + SUFFIX;
      if target !in fs then
        (fs, SignCheckpoint(c, signer, Body(SCHEMA, o.operationId, target, backup, Some(false), Integer(0), "")))
      else if !fs[target].Regular? || o.desired.BadContent? then (fs, BackupFailed)
      else
        var content, mode := fs[target].content, fs[target].mode;
        if o.desired == Content(content) then (fs, AlreadyCurrent)
        else if !w.writeOk then (fs, BackupFailed)
        else
          var written := fs[backup := Regular(content, mode)];
          if w.cancelledAfter then (written, BackupFailed)
          else (written, SignCheckpoint(c, signer, Body(SCHEMA, o.operationId, target, backup, Some(true), Integer(mode), c.digest(content))))
  }

  /** validateSignedCheckpoint. */
  predicate Validates(c: Crypto, keys: map<string, string>, path: string, cp: Signed) {
    && Trim(cp.body.schema) == SCHEMA
    && Trim(cp.body.targetPath) == Clean(path)
    && Trim(cp.keyId) != "" && Trim(cp.signature) != "" && Trim(cp.keyId) in keys
    && c.verify(keys[Trim(cp.keyId)], cp.body, Trim(cp.signature))
    && cp.body.existed.Some?
    && (cp.body.existed.value ==>
          && Trim(cp.body.backupPath) == Clean(path) + SUFFIX && Rooted(Trim(cp.body.backupPath)) && !HasParent(Trim(cp.body.backupPath))
          && IsSha256Hex(Trim(cp.body.sha256)) && !cp.body.mode.Missing?)
  }

  /** checkpointMode. */
  function RestoredMode(m: Mode): int {
    if !m.Integer? || m.n <= 0 then OWNER_ONLY else m.n % PERM
  }

  function ReadFile(fs: Files, path: string, w: World): Option<Bytes> {
    if path !in fs || fs[path].Directory? then None else if fs[path].Symlink? then w.linked else Some(fs[path].content)
  }

  /** executeFilesystemRestore: the new files, and whether it succeeded. */
  function Restore(c: Crypto, keys: map<string, string>, fs: Files, rawPath: string, cp: Signed, w: World): (Files, bool) {
    var path := Trim(rawPath);
    if !GoodPath(path) || !Validates(c, keys, path, cp) || w.cancelled then (fs, false)
    else
      var target := Clean(path);
      if target in fs && fs[target].Symlink? then (fs, false)
      else if !cp.body.existed.value then
        if target !in fs then (fs, true)
        else if fs[target].Directory? && !w.removeOk then (fs, false)
        else (fs - {target}, true)
      else
        var content := ReadFile(fs, Trim(cp.body.backupPath), w);
        if content.None? || c.digest(content.value) != Lower(Trim(cp.body.sha256)) || !w.writeOk then (fs, false)
        else (fs[target := Regular(content.value, RestoredMode(cp.body.mode))], true)
  }

  // -------------------------------------------------------- path of backup

  /** A joined path has a parent segment exactly when one of its parts has. */
  lemma {:induction false} ParentInJoin(parts: seq<string>)
    ensures HasParent(Join(parts, "/")) <==> exists i :: 0 <= i < |parts| && HasParent(parts[i])
  {
    if parts == [] {
      assert Split("", '/') == [""];
      assert Slashed("") == "";
    } else if |parts| > 1 {
      var rest := Join(parts[1..], "/");
      ParentInJoin(parts[1..]);
      assert Slashed(parts[0] + "/" + rest) == Slashed(parts[0]) + ['/'] + Slashed(rest);
      SplitConcat(Slashed(parts[0]), '/', Slashed(rest));
      assert HasParent(Join(parts, "/")) <==> HasParent(parts[0]) || HasParent(rest);
      if exists i :: 0 <= i < |parts| && HasParent(parts[i]) {
        var i :| 0 <= i < |parts| && HasParent(parts[i]);
        if i > 0 { assert HasParent(parts[1..][i - 1]); }
      }
      if HasParent(rest) {
        var i :| 0 <= i < |parts[1..]| && HasParent(parts[1..][i]);
        assert HasParent(parts[i + 1]);
      }
    }
  }

  lemma CleanHasNoParent(path: string)
    requires GoodPath(path)
    ensures Rooted(Clean(path)) && !HasParent(Clean(path))
  {
    var pieces, parts := Split(path, '/'), Parts(path);
    SplitPieces(path, '/');
    ParentInJoin(pieces);
    forall i | 0 <= i < |parts| ensures !HasParent(parts[i]) {
      assert parts[i] in pieces;
      var j :| 0 <= j < |pieces| && pieces[j] == parts[i];
    }
    ParentInJoin(parts);
    var text := Join(parts, "/");
    assert Slashed("/" + text) == "" + ['/'] + Slashed(text);
    SplitConcat("", '/', Slashed(text));
    assert Split("", '/') == [""];
  }

  /** The last piece of a split, with more text behind it. */
  function ExtendLast(pieces: seq<string>, b: string): seq<string>
    requires pieces != []
  {
    pieces[..|pieces| - 1] + [pieces[|pieces| - 1] + b]
  }

  lemma {:induction false} SplitSuffix(a: string, b: string)
    requires '/' !in b
    ensures Split(a + b, '/') == ExtendLast(Split(a, '/'), b)
  {
    if a == "" {
      assert a + b == b;
      SplitPlain(b, '/');
      assert "" + b == b;
    } else {
      var rest := Split(a[1..], '/');
      SplitSuffix(a[1..], b);
      assert (a + b)[0] == a[0] && (a + b)[1..] == a[1..] + b;
      if a[0] == '/' {
        assert ExtendLast([""] + rest, b) == [""] + ExtendLast(rest, b);
      } else {
        ExtendBoth(a[0], rest, b);
      }
    }
  }

  lemma ExtendBoth(c: char, rest: seq<string>, b: string)
    requires rest != []
    ensures ExtendLast(Extend(c, rest), b) == Extend(c, ExtendLast(rest, b))
  {
    if |rest| == 1 {
      assert [c] + rest[0] + b == [c] + (rest[0] + b);
    }
  }

  /** The backup path is absolute, has no parent segment and no outer space. */
  lemma BackupPathGood(path: string)
    requires GoodPath(path)
    ensures var backup := Clean(path) + SUFFIX; Rooted(backup) && !HasParent(backup) && Trim(backup) == backup
  {
    hide Trim, Clean, Split;
    CleanHasNoParent(path);
    var clean, backup := Clean(path), Clean(path) + SUFFIX;
    assert Slashed(backup) == Slashed(clean) + SUFFIX;
    SplitSuffix(Slashed(clean), SUFFIX);
    TrimFixed(backup);
    assert backup[|backup| - 1] == SUFFIX[11] == 'p';
  }

  lemma HexHasNoSpace(s: string)
    requires IsSha256Hex(s)
    ensures Trim(s) == s
  {
    TrimFixed(s);
  }

  // ------------------------------------------------------------- rollback

  /** The files a successful restore should leave behind. */
  function RolledBack(before: Files, now: Files, target: string): Files {
    if target !in before then now - {target}
    else if before[target].Regular? then
      var mode := before[target].mode;
      now[target := Regular(before[target].content, if mode > 0 then mode else OWNER_ONLY)]
    else now
  }

  /** The backup is as it was written, where there is one. */
  ghost predicate Intact(before: Files, now: Files, target: string) {
    target in before && before[target].Regular? ==>
      target + SUFFIX in now && now[target + SUFFIX].Regular? && now[target + SUFFIX].content == before[target].content
  }

  ghost predicate Permissions(fs: Files) {
    forall p :: p in fs && fs[p].Regular? ==> 0 <= fs[p].mode < PERM
  }

  /** The checkpoint a backup of these files returned. */
  ghost predicate Made(c: Crypto, signer: Signer, before: Files, o: Order, w: World, cp: Signed) {
    Backup(c, signer, before, o, w).1 == Checkpointed(cp)
  }

  lemma MadeShape(c: Crypto, signer: Signer, before: Files, o: Order, w: World, cp: Signed)
    requires Made(c, signer, before, o, w, cp)
    ensures var path := Trim(o.rawPath); var target := Clean(path);
            && GoodPath(path)
            && (target in before ==> before[target].Regular?)
            && cp == Signed(cp.body, signer.keyId, c.sign(signer.key, cp.body))
            && cp.body.schema == SCHEMA && cp.body.targetPath == target && cp.body.backupPath == target + SUFFIX
            && cp.body.existed == Some(target in before)
            && (target in before ==> cp.body.mode == Integer(before[target].mode) && cp.body.sha256 == c.digest(before[target].content))
  {
    hide Trim, Clean, GoodPath, Slashed;
  }

  /** When a backup hands out a checkpoint, finds the content in place, or fails. */
  lemma BackupExactly(c: Crypto, signer: Signer, before: Files, o: Order, w: World)
    ensures var path := Trim(o.rawPath); var target := Clean(path); var r := Backup(c, signer, before, o, w).1;
            var asked := Rooted(path) && ".." !in Split(Slashed(path), '/') && Trim(o.ledgerRef) == "execution-recovery-ledger" && !w.cancelled;
            var regular := target in before && before[target].Regular? && !o.desired.BadContent?;
            var same := regular && o.desired == Content(before[target].content);
            && (r.AlreadyCurrent? <==> asked && same)
            && (r.Checkpointed? <==>
                  && asked && Trim(signer.keyId) != "" && signer.usable
                  && (target !in before || (regular && !same && w.writeOk && !w.cancelledAfter)))
  {
    hide Trim, Clean, Split, SCHEMA, SUFFIX;
  }

  /** A backup writes what the later restore relies on, and touches nothing else. */
  lemma BackupWrites(c: Crypto, signer: Signer, before: Files, o: Order, w: World, cp: Signed)
    requires Made(c, signer, before, o, w, cp)
    ensures var target := Clean(Trim(o.rawPath)); var files := Backup(c, signer, before, o, w).0;
            && Intact(before, files, target)
            && files - {target + SUFFIX} == before - {target + SUFFIX}
            && (target !in before ==> files == before)
            && (target in before ==> before[target].Regular? && files[target + SUFFIX] == before[target])
  {
    hide Trim, Clean, GoodPath, Slashed, SCHEMA, SUFFIX;
  }

  lemma SuffixIsLonger(target: string)
    ensures target + SUFFIX != target
  {
    assert |target + SUFFIX| > |target|;
  }

  /** Backup and restore belong together: over the very files that a backup left,
      a restore succeeds exactly when the cleaned path has no outer space, and
      then the target is as it was before the backup. */
  lemma BackupThenRestore(c: Crypto, keys: map<string, string>, signer: Signer, before: Files, o: Order, w: World, cp: Signed, later: World)
    requires Printable(c) && Registered(c, keys, signer) && Permissions(before) && Made(c, signer, before, o, w, cp)
    requires !later.cancelled && later.writeOk && later.removeOk
    ensures var target := Clean(Trim(o.rawPath)); var left := Backup(c, signer, before, o, w).0;
            var (files, ok) := Restore(c, keys, left, o.rawPath, cp, later);
            && (ok <==> Trim(target) == target)
            && files == if ok then RolledBack(before, left, target) else left
  {
    var target, left := Clean(Trim(o.rawPath)), Backup(c, signer, before, o, w).0;
    BackupWrites(c, signer, before, o, w, cp);
    SuffixIsLonger(target);
    MadeShape(c, signer, before, o, w, cp);
    assert target in left ==> !left[target].Symlink? by {
      hide Backup, Trim, Clean, SUFFIX;
      if target in left { assert target in left - {target + SUFFIX}; }
    }
    hide *;
    RollbackExact(c, keys, signer, before, o, w, cp, left, later);
  }

  lemma SchemaHasNoSpace()
    ensures Trim(SCHEMA) == SCHEMA
  {
    TrimFixed(SCHEMA);
  }

  /** A checkpoint made by a backup validates for the same path exactly when the
      cleaned path has no outer space: the target path is trimmed when read back. */
  lemma CheckpointValidates(c: Crypto, keys: map<string, string>, signer: Signer, before: Files, o: Order, w: World, cp: Signed)
    requires Printable(c) && Registered(c, keys, signer) && Made(c, signer, before, o, w, cp)
    ensures var target := Clean(Trim(o.rawPath)); Validates(c, keys, Trim(o.rawPath), cp) <==> Trim(target) == target
  {
    var path := Trim(o.rawPath);
    hide Made, Trim, Clean, HasParent, Rooted, IsSha256Hex, Lower, GoodPath, SCHEMA, SUFFIX;
    MadeShape(c, signer, before, o, w, cp);
    BackupPathGood(path);
    SchemaHasNoSpace();
    if Clean(path) in before { HexHasNoSpace(cp.body.sha256); }
  }

  /** Rollback. After a successful backup of a path, a restore with its checkpoint
      over any later files with the backup intact, in an environment that lets it,
      succeeds exactly when the cleaned path has no outer space; it then gives
      back the original bytes and permissions, or absence, and nothing else. */
  lemma RollbackExact(c: Crypto, keys: map<string, string>, signer: Signer, before: Files, o: Order, w: World, cp: Signed, now: Files, later: World)
    requires Printable(c) && Registered(c, keys, signer) && Permissions(before) && Made(c, signer, before, o, w, cp)
    requires var target := Clean(Trim(o.rawPath)); Intact(before, now, target) && (target in now ==> !now[target].Symlink?)
    requires !later.cancelled && later.writeOk && later.removeOk
    ensures var target := Clean(Trim(o.rawPath)); var (files, ok) := Restore(c, keys, now, o.rawPath, cp, later);
            && (ok <==> Trim(target) == target)
            && files == if ok then RolledBack(before, now, target) else now
  {
    var target := Clean(Trim(o.rawPath));
    hide Made, Trim, Clean, HasParent, Rooted, Validates, Lower, GoodPath, Registered, IsSha256Hex, SCHEMA, SUFFIX;
    MadeShape(c, signer, before, o, w, cp);
    CheckpointValidates(c, keys, signer, before, o, w, cp);
    BackupPathGood(Trim(o.rawPath));
    if target in before {
      HexHasNoSpace(cp.body.sha256);
      assert before[target].mode % PERM == before[target].mode;
    } else {
      assert target !in now ==> now - {target} == now;
    }
  }

  lemma SpacedPieces()
    ensures Split("/a /", '/') == ["", "a ", ""]
  {
    SplitPlain("a ", '/');
    SplitPlain("", '/');
    SplitConcat("a ", '/', "");
    SplitConcat("", '/', "a /");
    hide Split;
    assert "" + ['/'] + "a /" == "/a /" && "a " + ['/'] + "" == "a /";
  }

  /** A path for which the condition fails: a space before a final slash. */
  lemma SpaceBeforeSlash()
    ensures var path := Trim("/a /"); GoodPath(path) && Clean(path) == "/a " && Trim(Clean(path)) != Clean(path)
  {
    TrimFixed("/a /");
    TrimFixed("/a ");
    SpacedPieces();
    hide Trim, Split;
    assert Slashed("/a /") == "/a /";
    assert Kept([""]) == [] by { assert [""][1..] == []; }
    assert Kept(["a ", ""]) == ["a "] by { assert ["a ", ""][1..] == [""]; }
    assert Parts("/a /") == ["a "] by { assert ["", "a ", ""][1..] == ["a ", ""]; }
  }

  lemma NewFileBackedUp(c: Crypto, signer: Signer, o: Order, w: World)
    requires GoodPath(Trim(o.rawPath)) && Trim(o.ledgerRef) == LEDGER && !w.cancelled && Trim(signer.keyId) != "" && signer.usable
    ensures Backup(c, signer, map[], o, w).1.Checkpointed?
  {
    hide Trim, Clean, GoodPath, SCHEMA, SUFFIX, LEDGER;
  }

  lemma LedgerHasNoSpace()
    ensures Trim(LEDGER) == LEDGER
  {
    TrimFixed(LEDGER);
  }

  /** The backup of that path, with nothing there yet, hands out a checkpoint that
      no restore accepts. */
  lemma SpacedPathNotRestored(c: Crypto, keys: map<string, string>, signer: Signer, w: World, later: World)
    requires Printable(c) && Registered(c, keys, signer) && signer.usable && !w.cancelled
    requires !later.cancelled && later.writeOk && later.removeOk
    ensures var o := Order("/a /", LEDGER, "", NoContent);
            var made := Backup(c, signer, map[], o, w).1;
            made.Checkpointed? && !Restore(c, keys, map[], o.rawPath, made.checkpoint, later).1
  {
    var o := Order("/a /", LEDGER, "", NoContent);
    var made := Backup(c, signer, map[], o, w).1;
    assert Trim(signer.keyId) != "" by { hide Trim; }
    SpaceBeforeSlash();
    LedgerHasNoSpace();
    hide *;
    NewFileBackedUp(c, signer, o, w);
    NothingBacked(c, signer, o, w);
    RollbackExact(c, keys, signer, map[], o, w, made.checkpoint, map[], later);
  }

  lemma NothingBacked(c: Crypto, signer: Signer, o: Order, w: World)
    requires Backup(c, signer, map[], o, w).1.Checkpointed?
    ensures Permissions(map[]) && Made(c, signer, map[], o, w, Backup(c, signer, map[], o, w).1.checkpoint)
    ensures forall target :: Intact(map[], map[], target)
  {
    hide Backup;
  }

  /** No other bytes share a digest with what was at the target. */
  ghost predicate NoCollision(c: Crypto, before: Files, target: string) {
    target in before && before[target].Regular? ==>
      forall b :: c.digest(b) == c.digest(before[target].content) ==> b == before[target].content
  }

  /** Whatever happened to the backup, and whichever files are there, a restore
      with the checkpoint of a backup that succeeds never leaves anything but the
      original bytes, or absence, at the target. */
  lemma RestoreNeverWrong(c: Crypto, keys: map<string, string>, signer: Signer, before: Files, o: Order, w: World, cp: Signed, now: Files, later: World)
    requires Printable(c) && NoCollision(c, before, Clean(Trim(o.rawPath)))
    requires Made(c, signer, before, o, w, cp) && Restore(c, keys, now, o.rawPath, cp, later).1
    ensures var target := Clean(Trim(o.rawPath)); var files := Restore(c, keys, now, o.rawPath, cp, later).0;
            && (target in files <==> target in before)
            && (target in before ==> files[target].Regular? && before[target].Regular? && files[target].content == before[target].content)
            && files - {target} == now - {target}
  {
    hide Made, Trim, Clean, HasParent, Rooted, Validates, Lower, GoodPath, IsSha256Hex, SCHEMA, SUFFIX, Restore;
    MadeShape(c, signer, before, o, w, cp);
    if Clean(Trim(o.rawPath)) in before { HexHasNoSpace(cp.body.sha256); }
    RestoreWritesSignedDigest(c, keys, now, o.rawPath, cp, later);
  }

  /** For any checkpoint at all: a restore that succeeds changes only the target,
      was asked for an absolute path without parent segments by a checkpoint of
      the known schema for that path, whose signature verifies; it wrote only
      bytes that it read beside the target and that have the signed digest. */
  lemma RestoreWritesSignedDigest(c: Crypto, keys: map<string, string>, fs: Files, rawPath: string, cp: Signed, w: World)
    requires Restore(c, keys, fs, rawPath, cp, w).1
    ensures var target := Clean(Trim(rawPath)); var files := Restore(c, keys, fs, rawPath, cp, w).0;
            && files - {target} == fs - {target}
            && Rooted(Trim(rawPath)) && ".." !in Split(Slashed(Trim(rawPath)), '/')
            && Trim(cp.body.schema) == "gcac.linux.signed-checkpoint/v1" && Trim(cp.body.targetPath) == target
            && Trim(cp.keyId) != "" && Trim(cp.signature) != ""
            && Trim(cp.keyId) in keys && c.verify(keys[Trim(cp.keyId)], cp.body, Trim(cp.signature))
            && (target in files <==> cp.body.existed == Some(true))
            && (target in fs ==> !fs[target].Symlink?)
            && (target in files ==>
                  && files[target].Regular? && c.digest(files[target].content) == Lower(Trim(cp.body.sha256))
                  && IsSha256Hex(Trim(cp.body.sha256)) && !cp.body.mode.Missing?
                  && ReadFile(fs, target + ".gcac-backup", w) == Some(files[target].content)
                  && files[target].mode == if cp.body.mode.Integer? && cp.body.mode.n > 0 then cp.body.mode.n % 512 else 384)
  {
    hide Trim, Clean, Lower, Split, ReadFile, IsSha256Hex;
  }

  /** A restore that fails changes nothing; a backup, however it ends, changes at
      most the backup file, and nothing where the content is in place already. */
  lemma FailuresAreClean(c: Crypto, keys: map<string, string>, signer: Signer, fs: Files, o: Order, cp: Signed, w: World)
    ensures !Restore(c, keys, fs, o.rawPath, cp, w).1 ==> Restore(c, keys, fs, o.rawPath, cp, w).0 == fs
    ensures var (files, r) := Backup(c, signer, fs, o, w); var backup := Clean(Trim(o.rawPath)) + SUFFIX;
            files - {backup} == fs - {backup} && (r.AlreadyCurrent? ==> files == fs)
  {
    hide Trim, Clean, GoodPath, Validates, SCHEMA, SUFFIX;
  }

  // ---------------------------------------------------- a replaced backup

  function Hex(c: char): string {
    seq(64, i => c)
  }

  /** A digest that tells the one byte 1 from everything else. */
  const TOY := Crypto((b: Bytes) => if b == [1] then Hex('1') else Hex('0'), (k, body) => "s", (k, body, signature) => true)
  const TOY_SIGNER := Signer("k", "k", true)
  const TOY_KEYS := map["k" := "k"]
  const TOY_ORDER := Order("/a", LEDGER, "", NoContent)
  const TOY_BEFORE: Files := map["/a" := Regular([1], 420)]
  const CALM := World(false, true, false, true, None)

  /** The target was changed, and where the backup was there is a link now. */
  const TOY_NOW: Files := map["/a" := Regular([2], 420), "/a" + SUFFIX := Symlink]

  lemma ToyPath()
    ensures Trim("/a") == "/a" && Clean("/a") == "/a" && GoodPath("/a")
  {
    TrimFixed("/a");
    SplitPlain("a", '/');
    SplitConcat("", '/', "a");
    SplitPlain("", '/');
    hide Trim, Split;
    assert "" + ['/'] + "a" == "/a";
    assert Split("/a", '/') == ["", "a"];
    assert Slashed("/a") == "/a";
    assert Kept(["a"]) == ["a"] by { assert ["a"][1..] == []; }
    assert Parts("/a") == ["a"] by { assert ["", "a"][1..] == ["a"]; }
  }

  lemma ToyPrintable()
    ensures Printable(TOY) && Registered(TOY, TOY_KEYS, TOY_SIGNER)
  {
    hide Trim;
    TrimFixed("s");
    TrimFixed("k");
    forall c | c == '0' || c == '1' ensures IsSha256Hex(Hex(c)) && Lower(Hex(c)) == Hex(c) {
    }
  }

  lemma ToyDigests()
    ensures Hex('0') != Hex('1') && Trim(Hex('1')) == Hex('1') && Lower(Hex('1')) == Hex('1')
    ensures "/a" + SUFFIX != "/a"
  {
    hide Trim;
    assert Hex('0')[0] != Hex('1')[0];
    HexHasNoSpace(Hex('1'));
    assert Lower(Hex('1')) == Hex('1');
  }

  lemma ToyMade()
    ensures Backup(TOY, TOY_SIGNER, TOY_BEFORE, TOY_ORDER, CALM).1.Checkpointed?
  {
    hide Trim, Clean, GoodPath;
    ToyPath();
    LedgerHasNoSpace();
    TrimFixed("k");
  }

  /** The requirements of RestoreNeverWrong can be met with a backup that is no
      longer what was written: a link in its place is followed, and the restore
      succeeds exactly when the bytes behind the link are the original ones. */
  lemma LinkedBackupRestored(linked: Bytes)
    ensures Printable(TOY) && NoCollision(TOY, TOY_BEFORE, "/a") && !Intact(TOY_BEFORE, TOY_NOW, "/a")
    ensures var made := Backup(TOY, TOY_SIGNER, TOY_BEFORE, TOY_ORDER, CALM).1;
            made.Checkpointed? && (Restore(TOY, TOY_KEYS, TOY_NOW, "/a", made.checkpoint, CALM.(linked := Some(linked))).1 <==> linked == [1])
  {
    hide Trim, Clean, GoodPath, Validates, Lower, Printable, Registered, Backup, SUFFIX, Hex;
    ToyPath();
    ToyPrintable();
    ToyMade();
    ToyDigests();
    var cp := Backup(TOY, TOY_SIGNER, TOY_BEFORE, TOY_ORDER, CALM).1.checkpoint;
    MadeShape(TOY, TOY_SIGNER, TOY_BEFORE, TOY_ORDER, CALM, cp);
    CheckpointValidates(TOY, TOY_KEYS, TOY_SIGNER, TOY_BEFORE, TOY_ORDER, CALM, cp);
    BackupPathGood("/a");
  }

  // ------------------------------------------------------------- the code

  class Host {
    var files: Files

    constructor (files: Files)
      ensures this.files == files
    {
      this.files := files;
    }

    method BackupPath(c: Crypto, signer: Signer, o: Order, w: World) returns (r: BackupResult)
      modifies this
      ensures (files, r) == Backup(c, signer, old(files), o, w)
    {
      hide Trim, Clean, HasParent, Rooted, SCHEMA, SUFFIX, LEDGER;
      var path := Trim(o.rawPath);
      if path == "" || !Rooted(path) || HasParent(path) || Trim(o.ledgerRef) != LEDGER || w.cancelled { return BackupFailed; }
      var target := Clean(path);
      var backup := target + SUFFIX;
      if target !in files {
        return SignCheckpoint(c, signer, Body(SCHEMA, o.operationId, target, backup, Some(false), Integer(0), ""));
      }
      if !files[target].Regular? || o.desired.BadContent? { return BackupFailed; }
      var content, mode := files[target].content, files[target].mode;
      if o.desired == Content(content) { return AlreadyCurrent; }
      if !w.writeOk { return BackupFailed; }
      files := files[backup := Regular(content, mode)];
      if w.cancelledAfter { return BackupFailed; }
      r := SignCheckpoint(c, signer, Body(SCHEMA, o.operationId, target, backup, Some(true), Integer(mode), c.digest(content)));
    }

    method RestorePath(c: Crypto, keys: map<string, string>, rawPath: string, cp: Signed, w: World) returns (ok: bool)
      modifies this
      ensures (files, ok) == Restore(c, keys, old(files), rawPath, cp, w)
    {
      hide Trim, Clean, HasParent, Rooted, Lower;
      var path := Trim(rawPath);
      if !GoodPath(path) || !Validates(c, keys, path, cp) || w.cancelled { return false; }
      var target := Clean(path);
      if target in files && files[target].Symlink? { return false; }
      if !cp.body.existed.value {
        if target in files {
          if files[target].Directory? && !w.removeOk { return false; }
          files := files - {target};
        }
        return true;
      }
      var content := ReadFile(files, Trim(cp.body.backupPath), w);
      if content.None? || c.digest(content.value) != Lower(Trim(cp.body.sha256)) || !w.writeOk { return false; }
      files := files[target := Regular(content.value, RestoredMode(cp.body.mode))];
      ok := true;
    }
  }
}
