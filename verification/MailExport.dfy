// Naming and writing the notes (pkgs/aoide/crates/client/src/mail_export.rs, `note_stem`,
// `stems` and `export`).
module MailExport {
  import opened Common
  import opened Mail
  import opened MailFence
  import opened MailThreads
  import opened MailNote

  /** The digest of a text; SHA-256 itself is not part of this model. */
  type Sha = string -> Digest

  // ----- Names -----

  predicate HexKey(key: string) { |key| == 64 && forall i :: 0 <= i < |key| ==> IsHex(key[i]) }

  /** `note_stem`. */
  function NoteStem(sha: Sha, key: string): string {
    if HexKey(key) then key[..16] else "x" + Hex(sha(key)[..8])
  }

  /** A stem is never empty and holds nothing that could leave the directory or hide the file. */
  lemma StemIsAName(sha: Sha, key: string)
    ensures |NoteStem(sha, key)| == if HexKey(key) then 16 else 17
    ensures forall i :: 0 <= i < |NoteStem(sha, key)| ==>
              '0' <= NoteStem(sha, key)[i] <= '9' || 'a' <= NoteStem(sha, key)[i] <= 'z'
  {
    HexIsPlain(sha(key)[..8]);
  }

  /** A key of 64 hexadecimal digits is named by its first sixteen, and any other by its digest's. */
  lemma StemIs(sha: Sha, key: string)
    ensures |key| == 64 && (forall i :: 0 <= i < |key| ==> '0' <= key[i] <= '9' || 'a' <= key[i] <= 'f') ==>
              NoteStem(sha, key) == key[..16]
    ensures !(|key| == 64 && forall i :: 0 <= i < |key| ==> '0' <= key[i] <= '9' || 'a' <= key[i] <= 'f') ==>
              && |NoteStem(sha, key)| == 17 && NoteStem(sha, key)[0] == 'x'
              && forall i :: 0 <= i < 8 ==> PairIs(NoteStem(sha, key)[1..], i, sha(key)[i])
  {
    if !HexKey(key) {
      HexIsPlain(sha(key)[..8]);
      forall i | 0 <= i < 8 ensures PairIs(NoteStem(sha, key)[1..], i, sha(key)[i]) {
        HexAt(sha(key)[..8], i);
        HexDigitBack(sha(key)[i] / 16);
        HexDigitBack(sha(key)[i] % 16);
      }
    }
  }

  /** Exactly when two keys name one file. */
  lemma StemsMeet(sha: Sha, a: string, b: string)
    ensures NoteStem(sha, a) == NoteStem(sha, b) <==>
            if HexKey(a) && HexKey(b) then a[..16] == b[..16]
            else !HexKey(a) && !HexKey(b) && sha(a)[..8] == sha(b)[..8]
  {
    StemIsAName(sha, a);
    StemIsAName(sha, b);
    if !HexKey(a) && !HexKey(b) && NoteStem(sha, a) == NoteStem(sha, b) {
      assert NoteStem(sha, a)[1..] == Hex(sha(a)[..8]) && NoteStem(sha, b)[1..] == Hex(sha(b)[..8]);
      HexIsInjective(sha(a)[..8], sha(b)[..8]);
    }
  }

  function StemsOf(sha: Sha, threads: seq<Thread>): seq<string> {
    Map((t: Thread) => NoteStem(sha, t.key), threads)
  }

  predicate Distinct(names: seq<string>) {
    forall i, j :: 0 <= i < j < |names| ==> names[i] != names[j]
  }

  datatype Outcome =
    | Done(threads: nat, written: nat, same: nat)
    | Collided(other: string, key: string)
    | NoDirectory
    | NotWritten(path: string)

  datatype Stems = Names(names: seq<string>) | Collision(other: string, key: string)

  /** Two threads of different places whose keys share a stem. */
  ghost predicate Share(sha: Sha, threads: seq<Thread>, other: string, key: string) {
    exists i, j :: 0 <= i < j < |threads| && threads[i].key == other && threads[j].key == key
                   && NoteStem(sha, other) == NoteStem(sha, key)
  }

  /** The names given so far are different, and each is taken for the key it was given to. */
  ghost predicate Taken(threads: seq<Thread>, names: seq<string>, taken: map<string, string>) {
    && |names| <= |threads| && Distinct(names)
    && (forall k :: 0 <= k < |names| ==> names[k] in taken)
    && (forall s :: s in taken ==> exists k :: 0 <= k < |names| && threads[k].key == taken[s] && names[k] == s)
  }

  lemma OneMoreName(threads: seq<Thread>, names: seq<string>, taken: map<string, string>, stem: string)
    requires Taken(threads, names, taken) && |names| < |threads| && stem !in taken
    ensures Taken(threads, names + [stem], taken[stem := threads[|names|].key])
  {
    var n := |names|;
    var more := taken[stem := threads[n].key];
    var longer := names + [stem];
    forall s | s in more ensures exists k :: 0 <= k < n + 1 && threads[k].key == more[s] && longer[k] == s {
      if s == stem {
        assert longer[n] == s;
      } else {
        var k :| 0 <= k < n && threads[k].key == taken[s] && names[k] == s;
        assert longer[k] == s;
      }
    }
  }

  lemma NameIsShared(sha: Sha, threads: seq<Thread>, names: seq<string>, taken: map<string, string>)
    requires Taken(threads, names, taken) && |names| < |threads|
    requires names == StemsOf(sha, threads)[..|names|]
    requires NoteStem(sha, threads[|names|].key) in taken
    ensures var key := threads[|names|].key;
            Share(sha, threads, taken[NoteStem(sha, key)], key) && !Distinct(StemsOf(sha, threads))
  {
    var n := |names|;
    var stem := NoteStem(sha, threads[n].key);
    var k :| 0 <= k < n && threads[k].key == taken[stem] && names[k] == stem;
    assert StemsOf(sha, threads)[k] == StemsOf(sha, threads)[n];
  }

  /** `stems`: a name per thread, or two keys that share one. */
  method FindStems(sha: Sha, threads: seq<Thread>) returns (r: Stems)
    ensures r.Names? <==> Distinct(StemsOf(sha, threads))
    ensures r.Names? ==> r.names == StemsOf(sha, threads)
    ensures r.Collision? ==> Share(sha, threads, r.other, r.key)
  {
    var taken: map<string, string>, names := map[], [];
    ghost var all := StemsOf(sha, threads);
    for i := 0 to |threads|
      invariant |names| == i && names == all[..i] && Taken(threads, names, taken)
    {
      var stem := NoteStem(sha, threads[i].key);
      if stem in taken {
        NameIsShared(sha, threads, names, taken);
        return Collision(taken[stem], threads[i].key);
      }
      OneMoreName(threads, names, taken, stem);
      taken := taken[stem := threads[i].key];
      names := names + [stem];
    }
    r := Names(names);
  }

  // ----- Writing -----

  /** What the disk answers: files it cannot read, and files it cannot put in place. */
  datatype Disk = Disk(unreadable: set<string>, unwritable: set<string>)

  type Files = map<string, string>

  predicate Unchanged(files: Files, path: string, note: string, disk: Disk) {
    path in files && path !in disk.unreadable && files[path] == note
  }

  datatype Wrote = Wrote(files: Files, written: nat, same: nat, failed: Option<string>)

  /** The notes put in place one by one, up to the first that cannot be. */
  function WriteAll(files: Files, paths: seq<string>, notes: seq<string>, disk: Disk): Wrote
    requires |paths| == |notes|
    decreases |paths|
  {
    if paths == [] then Wrote(files, 0, 0, None)
    else if Unchanged(files, paths[0], notes[0], disk) then
      var rest := WriteAll(files, paths[1..], notes[1..], disk);
      rest.(same := rest.same + 1)
    else if paths[0] in disk.unwritable then Wrote(files, 0, 0, Some(paths[0]))
    else
      var rest := WriteAll(files[paths[0] := notes[0]], paths[1..], notes[1..], disk);
      rest.(written := rest.written + 1)
  }

  function PathOf(stem: string): string { stem + ".md" }

  function PathsOf(sha: Sha, threads: seq<Thread>): seq<string> {
    Map(PathOf, StemsOf(sha, threads))
  }

  function NotesOf(decode: Decoder, threads: seq<Thread>, node: string): seq<string> {
    Map((t: Thread) => NoteText(decode, t, node), threads)
  }

  class Directory {
    var files: Files

    /** `export`, on the entries it read. */
    method Export(decode: Decoder, sha: Sha, entries: seq<Entry>, node: string, makes: bool, disk: Disk)
        returns (outcome: Outcome)
      modifies this
      ensures var threads := ThreadsOf(decode, entries);
              var paths, notes := PathsOf(sha, threads), NotesOf(decode, threads, node);
              var w := WriteAll(old(files), paths, notes, disk);
              if !Distinct(StemsOf(sha, threads)) then
                files == old(files) && outcome.Collided? && Share(sha, threads, outcome.other, outcome.key)
              else if !makes then files == old(files) && outcome == NoDirectory
              else files == w.files
                   && outcome == if w.failed.Some? then NotWritten(w.failed.value)
                      else Done(|threads|, w.written, w.same)
    {
      var threads := Threads(decode, entries);
      var stems := FindStems(sha, threads);
      if stems.Collision? {
        return Collided(stems.other, stems.key);
      }
      if !makes {
        return NoDirectory;
      }
      outcome := WriteNotes(decode, threads, node, PathsOf(sha, threads), disk);
    }

    method WriteNotes(decode: Decoder, threads: seq<Thread>, node: string, paths: seq<string>, disk: Disk)
        returns (outcome: Outcome)
      requires |paths| == |threads|
      modifies this
      ensures var w := WriteAll(old(files), paths, NotesOf(decode, threads, node), disk);
              && files == w.files
              && outcome == if w.failed.Some? then NotWritten(w.failed.value) else Done(|threads|, w.written, w.same)
    {
      var written, same := 0, 0;
      ghost var notes := NotesOf(decode, threads, node);
      ghost var whole := WriteAll(files, paths, notes, disk);
      assert paths[0..] == paths && notes[0..] == notes;
      for i := 0 to |threads|
        invariant Standing(whole, files, paths, notes, i, written, same, disk)
      {
        var path := paths[i];
        var note := Note(decode, threads[i], node);
        assert notes[i] == note;
        OneMoreNote(files, paths, notes, i, disk);
        if Unchanged(files, path, note, disk) {
          same := same + 1;
        } else if path in disk.unwritable {
          return NotWritten(path);
        } else {
          files := files[path := note];
          written := written + 1;
        }
      }
      AllNotes(whole, files, paths, notes, written, same, disk);
      outcome := Done(|threads|, written, same);
    }
  }

  /** Where a run stands after its first notes: what is left to do makes up the rest of it. */
  predicate Standing(whole: Wrote, files: Files, paths: seq<string>, notes: seq<string>, i: nat, written: nat,
      same: nat, disk: Disk)
  {
    && i <= |paths| == |notes|
    && var rest := WriteAll(files, paths[i..], notes[i..], disk);
       whole == Wrote(rest.files, written + rest.written, same + rest.same, rest.failed)
  }

  /** What a run does with the notes from one on is what it does with that one and then the others. */
  lemma OneMoreNote(files: Files, paths: seq<string>, notes: seq<string>, i: nat, disk: Disk)
    requires |paths| == |notes| && i < |paths|
    ensures WriteAll(files, paths[i..], notes[i..], disk) ==
            if Unchanged(files, paths[i], notes[i], disk) then
              var rest := WriteAll(files, paths[i + 1..], notes[i + 1..], disk); rest.(same := rest.same + 1)
            else if paths[i] in disk.unwritable then Wrote(files, 0, 0, Some(paths[i]))
            else
              var rest := WriteAll(files[paths[i] := notes[i]], paths[i + 1..], notes[i + 1..], disk);
              rest.(written := rest.written + 1)
  {
    assert paths[i..][1..] == paths[i + 1..] && notes[i..][1..] == notes[i + 1..];
  }

  lemma AllNotes(whole: Wrote, files: Files, paths: seq<string>, notes: seq<string>, written: nat, same: nat,
      disk: Disk)
    requires Standing(whole, files, paths, notes, |paths|, written, same, disk)
    ensures whole == Wrote(files, written, same, None)
  {
  }

  // ----- What a run leaves -----

  /** A run touches no file but its notes', and stops only at one it could not put in place. */
  lemma {:induction false} WritesOnlyItsPaths(files: Files, paths: seq<string>, notes: seq<string>, disk: Disk)
    requires |paths| == |notes|
    ensures var w := WriteAll(files, paths, notes, disk);
            && (forall p :: p !in paths ==> (p in w.files <==> p in files) && (p in files ==> w.files[p] == files[p]))
            && (forall p :: p in files ==> p in w.files)
            && (w.failed.Some? ==> w.failed.value in disk.unwritable)
    decreases |paths|
  {
    if paths != [] {
      assert paths == [paths[0]] + paths[1..];
      var kept := Unchanged(files, paths[0], notes[0], disk);
      if kept || paths[0] !in disk.unwritable {
        WritesOnlyItsPaths(if kept then files else files[paths[0] := notes[0]], paths[1..], notes[1..], disk);
      }
    }
  }

  /** Every note a run reached is in its own file, and a run that stops does so at the note after them. */
  lemma {:induction false} EveryNoteIsInPlace(files: Files, paths: seq<string>, notes: seq<string>, disk: Disk)
    requires |paths| == |notes| && Distinct(paths)
    ensures var w := WriteAll(files, paths, notes, disk);
            var n := w.written + w.same;
            && n <= |paths| && (n == |paths| <==> w.failed.None?) && (n < |paths| ==> w.failed == Some(paths[n]))
            && forall i :: 0 <= i < n ==> paths[i] in w.files && w.files[paths[i]] == notes[i]
    decreases |paths|
  {
    if paths != [] && (Unchanged(files, paths[0], notes[0], disk) || paths[0] !in disk.unwritable) {
      var now := if Unchanged(files, paths[0], notes[0], disk) then files else files[paths[0] := notes[0]];
      EveryNoteIsInPlace(now, paths[1..], notes[1..], disk);
      WritesOnlyItsPaths(now, paths[1..], notes[1..], disk);
      var w := WriteAll(now, paths[1..], notes[1..], disk);
      assert paths[0] !in paths[1..];
      forall i | 0 < i <= w.written + w.same ensures paths[i] in w.files && w.files[paths[i]] == notes[i] {
        assert paths[1..][i - 1] == paths[i] && notes[1..][i - 1] == notes[i];
      }
    }
  }

  predicate AllUnchanged(files: Files, paths: seq<string>, notes: seq<string>, disk: Disk)
    requires |paths| == |notes|
  {
    forall i :: 0 <= i < |paths| ==> Unchanged(files, paths[i], notes[i], disk)
  }

  /** A run writes nothing exactly when it finds every note already in place. */
  lemma {:induction false} WritesNothingIff(files: Files, paths: seq<string>, notes: seq<string>, disk: Disk)
    requires |paths| == |notes|
    ensures AllUnchanged(files, paths, notes, disk) <==>
            WriteAll(files, paths, notes, disk) == Wrote(files, 0, |paths|, None)
    decreases |paths|
  {
    if paths != [] {
      WritesNothingIff(files, paths[1..], notes[1..], disk);
      if Unchanged(files, paths[0], notes[0], disk) {
        assert forall i :: 0 < i < |paths| ==> paths[1..][i - 1] == paths[i] && notes[1..][i - 1] == notes[i];
      }
    }
  }

  /** A second run over the same letters writes nothing, so long as the notes can be read back. */
  lemma SecondRunWritesNothing(files: Files, paths: seq<string>, notes: seq<string>, first: Disk, second: Disk)
    requires |paths| == |notes| && Distinct(paths) && WriteAll(files, paths, notes, first).failed.None?
    ensures var after := WriteAll(files, paths, notes, first).files;
            WriteAll(after, paths, notes, second) == Wrote(after, 0, |paths|, None)
            <==> forall i :: 0 <= i < |paths| ==> paths[i] !in second.unreadable
  {
    EveryNoteIsInPlace(files, paths, notes, first);
    WritesNothingIff(WriteAll(files, paths, notes, first).files, paths, notes, second);
  }

  /** A run that stopped half way is completed by a later one: the files end up as if it had never stopped. */
  lemma LaterRunCompletes(files: Files, paths: seq<string>, notes: seq<string>, first: Disk, second: Disk)
    requires |paths| == |notes| && Distinct(paths) && second.unwritable == {}
    ensures var half := WriteAll(files, paths, notes, first).files;
            WriteAll(half, paths, notes, second).files == WriteAll(files, paths, notes, second).files
  {
    var half := WriteAll(files, paths, notes, first).files;
    var a, b := WriteAll(half, paths, notes, second), WriteAll(files, paths, notes, second);
    WritesOnlyItsPaths(files, paths, notes, first);
    WritesOnlyItsPaths(half, paths, notes, second);
    WritesOnlyItsPaths(files, paths, notes, second);
    EveryNoteIsInPlace(half, paths, notes, second);
    EveryNoteIsInPlace(files, paths, notes, second);
    forall p ensures (p in a.files <==> p in b.files) && (p in a.files ==> a.files[p] == b.files[p]) {
      if p in paths {
        var i :| 0 <= i < |paths| && paths[i] == p;
      }
    }
  }

  lemma PathsAreDistinct(sha: Sha, threads: seq<Thread>)
    requires Distinct(StemsOf(sha, threads))
    ensures Distinct(PathsOf(sha, threads))
  {
    var stems := StemsOf(sha, threads);
    forall i, j | 0 <= i < j < |stems| ensures PathOf(stems[i]) != PathOf(stems[j]) {
      assert PathOf(stems[i])[..|PathOf(stems[i])| - 3] == stems[i];
      assert PathOf(stems[j])[..|PathOf(stems[j])| - 3] == stems[j];
    }
  }

  /**
   * After an export that did not stop, each thread's file reads back as it: its frontmatter, and for each of its
   * blocks the words of every letter in it, and nothing else.
   */
  lemma ExportHoldsEveryThread(decode: Decoder, sha: Sha, entries: seq<Entry>, node: string, files: Files, disk: Disk)
    requires var threads := ThreadsOf(decode, entries);
             Distinct(StemsOf(sha, threads))
             && WriteAll(files, PathsOf(sha, threads), NotesOf(decode, threads, node), disk).failed.None?
    ensures var threads := ThreadsOf(decode, entries);
            var after := WriteAll(files, PathsOf(sha, threads), NotesOf(decode, threads, node), disk).files;
            forall i :: 0 <= i < |threads| ==> HoldsThread(decode, after, PathsOf(sha, threads)[i], threads[i], node)
  {
    var threads := ThreadsOf(decode, entries);
    var paths, notes := PathsOf(sha, threads), NotesOf(decode, threads, node);
    PathsAreDistinct(sha, threads);
    EveryNoteIsInPlace(files, paths, notes, disk);
    forall i | 0 <= i < |threads|
      ensures HoldsThread(decode, WriteAll(files, paths, notes, disk).files, paths[i], threads[i], node)
    {
      NoteHoldsTheBodies(decode, threads[i], node);
      FrontReadsBack(decode, threads[i], node);
    }
  }

  /** A file that reads back as a thread: its frontmatter, and what the letters of its blocks say. */
  ghost predicate HoldsThread(decode: Decoder, files: Files, path: string, thread: Thread, node: string) {
    && path in files
    && ReadFront(files[path]).Some? && FrontTells(decode, thread, node, ReadFront(files[path]).value)
    && SaysTheBlocks(decode, BlocksOf(thread.letters), FencedBlocks(files[path]))
  }

  /**
   * After it no letter is lost: the file that its thread id names, or its message id if it has none, has a fenced
   * block that is the letter's words.
   */
  lemma ExportLosesNoLetter(decode: Decoder, sha: Sha, entries: seq<Entry>, node: string, files: Files, disk: Disk,
      e: Entry, key: string)
    requires var threads := ThreadsOf(decode, entries);
             Distinct(StemsOf(sha, threads))
             && WriteAll(files, PathsOf(sha, threads), NotesOf(decode, threads, node), disk).failed.None?
    requires e in entries && IsOf(decode, e, key)
    ensures var threads := ThreadsOf(decode, entries);
            var after := WriteAll(files, PathsOf(sha, threads), NotesOf(decode, threads, node), disk).files;
            var path := NoteStem(sha, key) + ".md";
            path in after && exists said :: said in FencedBlocks(after[path]) && IsSaid(decode, e, said)
  {
    var threads := ThreadsOf(decode, entries);
    ThreadsPartitionTheLetters(decode, entries);
    ExportHoldsEveryThread(decode, sha, entries, node, files, disk);
    var i :| 0 <= i < |threads| && threads[i].key == key;
    var after := WriteAll(files, PathsOf(sha, threads), NotesOf(decode, threads, node), disk).files;
    ThreadHoldsLetter(decode, after, PathsOf(sha, threads)[i], threads[i], node, e);
  }

  lemma ThreadHoldsLetter(decode: Decoder, files: Files, path: string, thread: Thread, node: string, e: Entry)
    requires HoldsThread(decode, files, path, thread, node) && e in thread.letters
    ensures exists said :: said in FencedBlocks(files[path]) && IsSaid(decode, e, said)
  {
    BlocksAreGreedy(thread.letters);
    var k := InSomePart(BlocksOf(thread.letters), e);
    var said := FencedBlocks(files[path])[k];
    assert said in FencedBlocks(files[path]);
  }

  lemma {:induction false} InSomePart<T>(parts: seq<seq<T>>, x: T) returns (k: nat)
    requires x in Concat(parts)
    ensures k < |parts| && x in parts[k]
  {
    if x in parts[0] {
      k := 0;
    } else {
      var rest := InSomePart(parts[1..], x);
      k := rest + 1;
    }
  }
}
