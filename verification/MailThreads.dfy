// How letters become threads and a thread becomes blocks
// (pkgs/aoide/crates/client/src/mail_export.rs, `threads` and `blocks`).
module MailThreads {
  import opened Common
  import opened Mail

  // ----- The order of text, by its characters' codes -----

  predicate Less(a: string, b: string) {
    if b == "" then false
    else if a == "" then true
    else if a[0] != b[0] then a[0] < b[0]
    else Less(a[1..], b[1..])
  }

  lemma {:induction false} LessIsTotal(a: string, b: string)
    ensures Less(a, b) || a == b || Less(b, a)
    ensures !(Less(a, b) && Less(b, a)) && !Less(a, a)
  {
    if a != "" && b != "" {
      LessIsTotal(a[1..], b[1..]);
      assert a == [a[0]] + a[1..] && b == [b[0]] + b[1..];
    }
    if a != "" {
      LessIsTotal(a[1..], a[1..]);
    }
  }

  lemma {:induction false} LessIsTransitive(a: string, b: string, c: string)
    requires Less(a, b) && Less(b, c)
    ensures Less(a, c)
  {
    if a != "" && a[0] == b[0] == c[0] {
      LessIsTransitive(a[1..], b[1..], c[1..]);
    }
  }

  /** The first text is the second's beginning, or has the smaller character where they first differ, after `k`. */
  predicate PartsAt(a: string, b: string, k: nat) {
    k <= |a| && k < |b| && a[..k] == b[..k] && (k == |a| || a[k] < b[k])
  }

  /** It is the order of text by its characters, the first that differs deciding. */
  lemma {:induction false} LessIsByCharacter(a: string, b: string)
    ensures Less(a, b) <==> exists k: nat :: PartsAt(a, b, k)
  {
    if a == "" && b != "" {
      assert PartsAt(a, b, 0);
    } else if a != "" && b != "" {
      if a[0] == b[0] {
        LessIsByCharacter(a[1..], b[1..]);
        if k: nat :| PartsAt(a[1..], b[1..], k) {
          assert a[..k + 1] == [a[0]] + a[1..][..k] && b[..k + 1] == [b[0]] + b[1..][..k];
          assert PartsAt(a, b, k + 1);
        }
        if k: nat :| PartsAt(a, b, k) {
          assert k > 0 && a[1..][..k - 1] == a[..k][1..] && b[1..][..k - 1] == b[..k][1..];
          assert PartsAt(a[1..], b[1..], k - 1);
        }
      } else {
        FirstParts(a, b);
      }
    }
  }

  lemma FirstParts(a: string, b: string)
    requires a != "" && b != "" && a[0] != b[0]
    ensures forall k: nat :: PartsAt(a, b, k) ==> k == 0
    ensures PartsAt(a, b, 0) <==> a[0] < b[0]
  {
    forall k: nat | 0 < k <= |a| && k < |b| ensures a[..k] != b[..k] {
      assert a[..k][0] == a[0] && b[..k][0] == b[0];
    }
  }

  predicate Ascending(keys: seq<string>) {
    forall i, j :: 0 <= i < j < |keys| ==> Less(keys[i], keys[j])
  }

  /** An ordered set of text, with one more member. */
  function Insert(keys: seq<string>, key: string): seq<string> {
    if keys == [] || Less(key, keys[0]) then [key] + keys
    else if key == keys[0] then keys
    else [keys[0]] + Insert(keys[1..], key)
  }

  lemma {:induction false} InsertKeepsOrder(keys: seq<string>, key: string)
    requires Ascending(keys)
    ensures Ascending(Insert(keys, key))
    ensures forall k :: k in Insert(keys, key) <==> k in keys || k == key
  {
    if keys == [] {
    } else if Less(key, keys[0]) {
      forall j | 0 < j < |keys| ensures Less(key, keys[j]) {
        LessIsTransitive(key, keys[0], keys[j]);
      }
    } else if key != keys[0] {
      LessIsTotal(key, keys[0]);
      InsertKeepsOrder(keys[1..], key);
      var rest := Insert(keys[1..], key);
      forall j | 0 <= j < |rest| ensures Less(keys[0], rest[j]) {
        assert rest[j] in rest;
      }
      assert keys == [keys[0]] + keys[1..];
    }
  }

  function InsertAll(keys: seq<string>, more: seq<string>): seq<string>
    decreases |more|
  {
    if more == [] then keys else InsertAll(Insert(keys, more[0]), more[1..])
  }

  lemma {:induction false} InsertAllKeepsOrder(keys: seq<string>, more: seq<string>)
    requires Ascending(keys)
    ensures Ascending(InsertAll(keys, more))
    ensures forall k :: k in InsertAll(keys, more) <==> k in keys || k in more
    decreases |more|
  {
    if more != [] {
      InsertKeepsOrder(keys, more[0]);
      InsertAllKeepsOrder(Insert(keys, more[0]), more[1..]);
      assert more == [more[0]] + more[1..];
    }
  }

  // ----- A thread's letters, in `seq` order -----

  predicate InOrder(letters: seq<Entry>) {
    forall i, j :: 0 <= i < j < |letters| ==> letters[i].number <= letters[j].number
  }

  /** A letter put after every letter of its own or a lower `seq`. */
  function File(letters: seq<Entry>, entry: Entry): seq<Entry> {
    if letters == [] || letters[|letters| - 1].number <= entry.number then letters + [entry]
    else File(letters[..|letters| - 1], entry) + [letters[|letters| - 1]]
  }

  /** A stable sort by `seq`. */
  function BySeq(letters: seq<Entry>): seq<Entry> {
    if letters == [] then [] else File(BySeq(letters[..|letters| - 1]), letters[|letters| - 1])
  }

  /** The letters of one `seq`, in the order they have. */
  function At(letters: seq<Entry>, n: nat): seq<Entry> {
    if letters == [] then []
    else
      var last := letters[|letters| - 1];
      At(letters[..|letters| - 1], n) + if last.number == n then [last] else []
  }

  lemma AtSnoc(letters: seq<Entry>, entry: Entry, n: nat)
    ensures At(letters + [entry], n) == At(letters, n) + if entry.number == n then [entry] else []
  {
    assert (letters + [entry])[..|letters|] == letters;
  }

  lemma {:induction false} AtNone(letters: seq<Entry>, n: nat)
    requires forall i :: 0 <= i < |letters| ==> letters[i].number != n
    ensures At(letters, n) == []
  {
    if letters != [] {
      AtNone(letters[..|letters| - 1], n);
    }
  }

  lemma InOrderMore(letters: seq<Entry>, last: Entry)
    requires InOrder(letters) && forall e :: e in letters ==> e.number <= last.number
    ensures InOrder(letters + [last])
  {
  }

  lemma {:induction false} FileInOrder(letters: seq<Entry>, entry: Entry)
    requires InOrder(letters)
    ensures InOrder(File(letters, entry)) && |File(letters, entry)| == |letters| + 1
    ensures forall e :: e in File(letters, entry) <==> e in letters || e == entry
  {
    if letters != [] && letters[|letters| - 1].number > entry.number {
      var last, rest := letters[|letters| - 1], letters[..|letters| - 1];
      assert letters == rest + [last];
      FileInOrder(rest, entry);
      InOrderMore(File(rest, entry), last);
    }
  }

  lemma {:induction false} FileIsStable(letters: seq<Entry>, entry: Entry, n: nat)
    requires InOrder(letters)
    ensures At(File(letters, entry), n) == At(letters + [entry], n)
  {
    if letters != [] && letters[|letters| - 1].number > entry.number {
      var last, rest := letters[|letters| - 1], letters[..|letters| - 1];
      assert letters == rest + [last];
      FileIsStable(rest, entry, n);
      FiledBefore(rest, last, entry, n);
    }
  }

  lemma FiledBefore(rest: seq<Entry>, last: Entry, entry: Entry, n: nat)
    requires last.number > entry.number && At(File(rest, entry), n) == At(rest + [entry], n)
    ensures At(File(rest, entry) + [last], n) == At(rest + [last] + [entry], n)
  {
    AtSnoc(File(rest, entry), last, n);
    AtSnoc(rest, entry, n);
    AtSnoc(rest, last, n);
    AtSnoc(rest + [last], entry, n);
  }

  /** Sorting keeps, for each `seq`, the letters that carry it and their order. */
  lemma {:induction false} BySeqIsStable(letters: seq<Entry>, n: nat)
    ensures InOrder(BySeq(letters)) && |BySeq(letters)| == |letters|
    ensures forall e :: e in BySeq(letters) <==> e in letters
    ensures At(BySeq(letters), n) == At(letters, n)
  {
    if letters != [] {
      var last, rest := letters[|letters| - 1], letters[..|letters| - 1];
      assert letters == rest + [last];
      BySeqIsStable(rest, n);
      FileInOrder(BySeq(rest), last);
      FileIsStable(BySeq(rest), last, n);
      AtSnoc(rest, last, n);
      AtSnoc(BySeq(rest), last, n);
    }
  }

  lemma AtLast(letters: seq<Entry>)
    requires letters != []
    ensures At(letters, letters[|letters| - 1].number) != []
  {
  }

  lemma SameStart<T>(a: seq<T>, b: seq<T>, end: seq<T>)
    requires a + end == b + end
    ensures a == b
  {
    assert |a| == |b|;
    assert a == (a + end)[..|a|] && b == (b + end)[..|b|];
  }

  /** An order by `seq` that keeps each `seq`'s letters as they stood is the only one. */
  lemma {:induction false} StableOrderIsUnique(a: seq<Entry>, b: seq<Entry>)
    requires InOrder(a) && InOrder(b)
    requires forall n :: At(a, n) == At(b, n)
    ensures a == b
  {
    if a == [] {
      if b != [] {
        AtLast(b);
        assert false;
      }
    } else if b == [] {
      AtLast(a);
      assert false;
    } else {
      var x, y := a[|a| - 1], b[|b| - 1];
      assert At(a, x.number) == At(b, x.number) && At(a, y.number) == At(b, y.number);
      if x.number > y.number {
        AtNone(b, x.number);
      } else if y.number > x.number {
        AtNone(a, y.number);
      }
      assert x == y by {
        assert At(a, x.number)[|At(a, x.number)| - 1] == x && At(b, x.number)[|At(b, x.number)| - 1] == y;
      }
      var restA, restB := a[..|a| - 1], b[..|b| - 1];
      forall n: nat ensures At(restA, n) == At(restB, n) {
        assert At(a, n) == At(b, n);
        SameStart(At(restA, n), At(restB, n), if x.number == n then [x] else []);
      }
      StableOrderIsUnique(restA, restB);
      assert a == restA + [x] && b == restB + [x];
    }
  }

  // ----- Threads -----

  const LETTER: string := "letter"

  function KeyOf(decode: Decoder, entry: Entry): string {
    var content := decode(entry.envelope.text);
    if content.Some? && content.value.threadId.Some? then content.value.threadId.value else entry.envelope.msgid
  }

  /** The letters of a key, in base order. */
  function Of(decode: Decoder, entries: seq<Entry>, key: string): seq<Entry> {
    if entries == [] then []
    else
      var last := entries[|entries| - 1];
      var before := Of(decode, entries[..|entries| - 1], key);
      before + if last.kind == LETTER && KeyOf(decode, last) == key then [last] else []
  }

  /** The keys letters have, in order. */
  function Keys(decode: Decoder, entries: seq<Entry>): seq<string> {
    if entries == [] then []
    else
      var last, before := entries[|entries| - 1], Keys(decode, entries[..|entries| - 1]);
      if last.kind == LETTER then Insert(before, KeyOf(decode, last)) else before
  }

  function ThreadOf(decode: Decoder, entries: seq<Entry>, key: string): Thread {
    Thread(key, BySeq(Of(decode, entries, key)))
  }

  function ThreadsOf(decode: Decoder, entries: seq<Entry>): seq<Thread> {
    var keys := Keys(decode, entries);
    seq(|keys|, i requires 0 <= i < |keys| => ThreadOf(decode, entries, keys[i]))
  }

  /** `threads`: one pass groups the letters, and the groups come out in key order, each sorted by `seq`. */
  method Threads(decode: Decoder, entries: seq<Entry>) returns (threads: seq<Thread>)
    ensures threads == ThreadsOf(decode, entries)
  {
    var keys, grouped := Group(decode, entries);
    threads := [];
    for i := 0 to |keys|
      invariant |threads| == i && ThreadsSoFar(decode, entries, keys, threads)
    {
      GroupIsThread(decode, entries, grouped, keys[i]);
      var thread := Thread(keys[i], BySeq(grouped[keys[i]]));
      OneMoreThread(decode, entries, keys, threads, thread);
      threads := threads + [thread];
    }
    AllThreads(decode, entries, keys, threads);
  }

  ghost predicate ThreadsSoFar(decode: Decoder, entries: seq<Entry>, keys: seq<string>, threads: seq<Thread>) {
    |threads| <= |keys| && forall k :: 0 <= k < |threads| ==> IsThread(decode, entries, keys[k], threads[k])
  }

  predicate IsThread(decode: Decoder, entries: seq<Entry>, key: string, thread: Thread) {
    thread == ThreadOf(decode, entries, key)
  }

  lemma GroupIsThread(decode: Decoder, entries: seq<Entry>, grouped: map<string, seq<Entry>>, key: string)
    requires Grouped(decode, entries, grouped) && key in Keys(decode, entries)
    ensures key in grouped && IsThread(decode, entries, key, Thread(key, BySeq(grouped[key])))
  {
    assert GroupedAt(decode, entries, grouped, key);
  }

  lemma OneMoreThread(decode: Decoder, entries: seq<Entry>, keys: seq<string>, threads: seq<Thread>, thread: Thread)
    requires ThreadsSoFar(decode, entries, keys, threads) && |threads| < |keys|
    requires IsThread(decode, entries, keys[|threads|], thread)
    ensures ThreadsSoFar(decode, entries, keys, threads + [thread])
  {
  }

  lemma AllThreads(decode: Decoder, entries: seq<Entry>, keys: seq<string>, threads: seq<Thread>)
    requires keys == Keys(decode, entries)
    requires ThreadsSoFar(decode, entries, keys, threads) && |threads| == |keys|
    ensures threads == ThreadsOf(decode, entries)
  {
    assert forall k :: 0 <= k < |threads| ==> IsThread(decode, entries, keys[k], threads[k]);
  }

  method Group(decode: Decoder, entries: seq<Entry>) returns (keys: seq<string>, grouped: map<string, seq<Entry>>)
    ensures keys == Keys(decode, entries) && Grouped(decode, entries, grouped)
  {
    keys, grouped := [], map[];
    for i := 0 to |entries|
      invariant keys == Keys(decode, entries[..i])
      invariant Grouped(decode, entries[..i], grouped)
    {
      var entry := entries[i];
      assert entries[..i + 1] == entries[..i] + [entry];
      OneMore(decode, entries[..i], entry, grouped);
      if entry.kind == LETTER {
        var key := KeyOf(decode, entry);
        keys := Insert(keys, key);
        grouped := grouped[key := (if key in grouped then grouped[key] else []) + [entry]];
      }
    }
    assert entries[..|entries|] == entries;
  }

  /** What the one pass has grouped so far. */
  ghost predicate Grouped(decode: Decoder, entries: seq<Entry>, grouped: map<string, seq<Entry>>) {
    forall k: string :: GroupedAt(decode, entries, grouped, k)
  }

  predicate GroupedAt(decode: Decoder, entries: seq<Entry>, grouped: map<string, seq<Entry>>, key: string) {
    && (key in grouped <==> key in Keys(decode, entries))
    && (key in grouped ==> grouped[key] == Of(decode, entries, key))
  }

  lemma OneMore(decode: Decoder, entries: seq<Entry>, entry: Entry, grouped: map<string, seq<Entry>>)
    requires Grouped(decode, entries, grouped)
    ensures var more, key := entries + [entry], KeyOf(decode, entry);
            if entry.kind != LETTER then Keys(decode, more) == Keys(decode, entries) && Grouped(decode, more, grouped)
            else
              && Keys(decode, more) == Insert(Keys(decode, entries), key)
              && Grouped(decode, more, grouped[key := (if key in grouped then grouped[key] else []) + [entry]])
  {
    KeysMore(decode, entries, entry);
    var key := KeyOf(decode, entry);
    var longer := grouped[key := (if key in grouped then grouped[key] else []) + [entry]];
    var now := if entry.kind == LETTER then longer else grouped;
    forall k: string ensures GroupedAt(decode, entries + [entry], now, k) {
      OneMoreAt(decode, entries, entry, grouped, k);
    }
  }

  lemma OneMoreAt(decode: Decoder, entries: seq<Entry>, entry: Entry, grouped: map<string, seq<Entry>>, k: string)
    requires GroupedAt(decode, entries, grouped, k)
    ensures var more, key := entries + [entry], KeyOf(decode, entry);
            if entry.kind != LETTER then GroupedAt(decode, more, grouped, k)
            else GroupedAt(decode, more, grouped[key := (if key in grouped then grouped[key] else []) + [entry]], k)
  {
    var key := KeyOf(decode, entry);
    KeysMore(decode, entries, entry);
    OfMore(decode, entries, entry, k);
    if entry.kind == LETTER {
      KeysAreTheLetters(decode, entries);
      InsertKeepsOrder(Keys(decode, entries), key);
      if key == k && key !in grouped {
        NoneOf(decode, entries, key);
      }
    }
  }

  lemma KeysMore(decode: Decoder, entries: seq<Entry>, entry: Entry)
    ensures Keys(decode, entries + [entry]) ==
            if entry.kind == LETTER then Insert(Keys(decode, entries), KeyOf(decode, entry)) else Keys(decode, entries)
  {
    assert (entries + [entry])[..|entries|] == entries;
  }

  lemma OfMore(decode: Decoder, entries: seq<Entry>, entry: Entry, key: string)
    ensures Of(decode, entries + [entry], key) ==
            Of(decode, entries, key) + if entry.kind == LETTER && KeyOf(decode, entry) == key then [entry] else []
  {
    assert (entries + [entry])[..|entries|] == entries;
  }

  lemma {:induction false} NoneOf(decode: Decoder, entries: seq<Entry>, key: string)
    requires key !in Keys(decode, entries)
    ensures Of(decode, entries, key) == []
  {
    if entries != [] {
      var rest := entries[..|entries| - 1];
      KeysAreTheLetters(decode, rest);
      InsertKeepsOrder(Keys(decode, rest), KeyOf(decode, entries[|entries| - 1]));
      NoneOf(decode, rest, key);
    }
  }

  lemma {:induction false} KeysAreTheLetters(decode: Decoder, entries: seq<Entry>)
    ensures Ascending(Keys(decode, entries))
    ensures forall k :: k in Keys(decode, entries) <==>
            exists e :: e in entries && e.kind == LETTER && KeyOf(decode, e) == k
  {
    if entries != [] {
      var last, rest := entries[|entries| - 1], entries[..|entries| - 1];
      assert entries == rest + [last];
      KeysAreTheLetters(decode, rest);
      if last.kind == LETTER {
        InsertKeepsOrder(Keys(decode, rest), KeyOf(decode, last));
      }
    }
  }

  lemma {:induction false} OfAreItsLetters(decode: Decoder, entries: seq<Entry>, key: string)
    ensures forall e :: e in Of(decode, entries, key) <==> e in entries && e.kind == LETTER && KeyOf(decode, e) == key
  {
    if entries != [] {
      assert entries == entries[..|entries| - 1] + [entries[|entries| - 1]];
      OfAreItsLetters(decode, entries[..|entries| - 1], key);
    }
  }

  /** A letter of a thread: its own thread id, or its message id if it is not structured or has none. */
  predicate IsOf(decode: Decoder, e: Entry, key: string) {
    && e.kind == "letter"
    && match decode(e.envelope.text)
       case Some(content) =>
         (content.threadId == Some(key) || (content.threadId == None && e.envelope.msgid == key))
       case None => e.envelope.msgid == key
  }

  /** The base's letters of a thread that carry one `seq`, in base order. */
  function InBase(decode: Decoder, entries: seq<Entry>, key: string, n: nat): seq<Entry> {
    if entries == [] then []
    else
      var last := entries[|entries| - 1];
      InBase(decode, entries[..|entries| - 1], key, n)
      + if IsOf(decode, last, key) && last.number == n then [last] else []
  }

  lemma {:induction false} OfIsInBase(decode: Decoder, entries: seq<Entry>, key: string, n: nat)
    ensures At(Of(decode, entries, key), n) == InBase(decode, entries, key, n)
  {
    if entries != [] {
      var before, last := entries[..|entries| - 1], entries[|entries| - 1];
      OfIsInBase(decode, before, key, n);
      assert IsOf(decode, last, key) <==> last.kind == LETTER && KeyOf(decode, last) == key;
      if IsOf(decode, last, key) {
        AtSnoc(Of(decode, before, key), last, n);
      } else {
        assert Of(decode, before, key) + [] == Of(decode, before, key);
      }
    }
  }

  /**
   * The threads are in key order, one a key, none empty, and each in `seq` order with the letters of one `seq` as the
   * base has them; each letter is in the one of its thread id, or message id if it has none, and in no other.
   */
  lemma ThreadsPartitionTheLetters(decode: Decoder, entries: seq<Entry>)
    ensures var threads := ThreadsOf(decode, entries);
            && (forall i, j :: 0 <= i < j < |threads| ==> Less(threads[i].key, threads[j].key))
            && (forall i :: 0 <= i < |threads| ==> threads[i].letters != [] && InOrder(threads[i].letters))
            && (forall i, n: nat :: 0 <= i < |threads| ==>
                  At(threads[i].letters, n) == InBase(decode, entries, threads[i].key, n))
            && (forall e, i :: 0 <= i < |threads| ==>
                  (e in threads[i].letters <==> e in entries && IsOf(decode, e, threads[i].key)))
            && (forall e, key :: e in entries && IsOf(decode, e, key) ==>
                  exists i :: 0 <= i < |threads| && threads[i].key == key)
  {
    var threads := ThreadsOf(decode, entries);
    ThreadsAreByKey(decode, entries);
    forall i, n: nat | 0 <= i < |threads|
      ensures At(threads[i].letters, n) == InBase(decode, entries, threads[i].key, n)
    {
      ThreadIsInBase(decode, entries, threads[i].key, n);
    }
    forall e, key ensures IsOf(decode, e, key) <==> e.kind == LETTER && KeyOf(decode, e) == key {
      IsOfItsKey(decode, e, key);
    }
  }

  lemma ThreadIsInBase(decode: Decoder, entries: seq<Entry>, key: string, n: nat)
    ensures At(ThreadOf(decode, entries, key).letters, n) == InBase(decode, entries, key, n)
  {
    BySeqIsStable(Of(decode, entries, key), n);
    OfIsInBase(decode, entries, key, n);
  }

  lemma IsOfItsKey(decode: Decoder, e: Entry, key: string)
    ensures IsOf(decode, e, key) <==> e.kind == LETTER && KeyOf(decode, e) == key
  {
  }

  lemma ThreadsAreByKey(decode: Decoder, entries: seq<Entry>)
    ensures var threads := ThreadsOf(decode, entries);
            && (forall i, j :: 0 <= i < j < |threads| ==> Less(threads[i].key, threads[j].key))
            && (forall i :: 0 <= i < |threads| ==> threads[i].letters != [] && InOrder(threads[i].letters))
            && (forall e, i :: 0 <= i < |threads| ==>
                  (e in threads[i].letters <==> e in entries && e.kind == LETTER && KeyOf(decode, e) == threads[i].key))
            && (forall e :: e in entries && e.kind == LETTER ==>
                  exists i :: 0 <= i < |threads| && threads[i].key == KeyOf(decode, e))
  {
    var keys, threads := Keys(decode, entries), ThreadsOf(decode, entries);
    KeysAreTheLetters(decode, entries);
    forall i | 0 <= i < |threads|
      ensures threads[i].letters != [] && InOrder(threads[i].letters)
      ensures forall e ::
        e in threads[i].letters <==> e in entries && e.kind == LETTER && KeyOf(decode, e) == threads[i].key
    {
      OfAreItsLetters(decode, entries, keys[i]);
      BySeqIsStable(Of(decode, entries, keys[i]), 0);
      assert keys[i] in keys;
      var e :| e in entries && e.kind == LETTER && KeyOf(decode, e) == keys[i];
      assert e in threads[i].letters;
    }
    forall e | e in entries && e.kind == LETTER
      ensures exists i :: 0 <= i < |threads| && threads[i].key == KeyOf(decode, e)
    {
      assert KeyOf(decode, e) in keys;
      var i :| 0 <= i < |keys| && keys[i] == KeyOf(decode, e);
      assert threads[i].key == KeyOf(decode, e);
    }
  }

  // ----- Blocks -----

  /** A block's copies could all be of one send: adjacent in `seq`, one text and sender, each mailbox once. */
  predicate OneSend(block: seq<Entry>) {
    && (forall i :: 0 <= i < |block| ==> block[i].number == block[0].number + i)
    && (forall i :: 0 <= i < |block| ==> block[i].envelope.text == block[0].envelope.text)
    && (forall i :: 0 <= i < |block| ==> block[i].envelope.header.from == block[0].envelope.header.from)
    && (forall i, j :: 0 <= i < j < |block| ==> block[i].envelope.header.to != block[j].envelope.header.to)
  }

  /** Whether a letter joins the block above it. */
  predicate Joins(block: seq<Entry>, entry: Entry)
    requires block != []
  {
    && block[|block| - 1].number + 1 == entry.number
    && block[0].envelope.text == entry.envelope.text
    && block[0].envelope.header.from == entry.envelope.header.from
    && !(exists e :: e in block && e.envelope.header.to == entry.envelope.header.to)
  }

  /** A letter added to a thread's blocks. */
  function Place(blocks: seq<seq<Entry>>, entry: Entry): seq<seq<Entry>> {
    var n := |blocks|;
    if n > 0 && blocks[n - 1] != [] && Joins(blocks[n - 1], entry) then blocks[..n - 1] + [blocks[n - 1] + [entry]]
    else blocks + [[entry]]
  }

  function BlocksOf(letters: seq<Entry>): seq<seq<Entry>> {
    if letters == [] then [] else Place(BlocksOf(letters[..|letters| - 1]), letters[|letters| - 1])
  }

  /** `blocks`. */
  method Blocks(letters: seq<Entry>) returns (blocks: seq<seq<Entry>>)
    ensures blocks == BlocksOf(letters)
  {
    blocks := [];
    for i := 0 to |letters|
      invariant blocks == BlocksOf(letters[..i])
    {
      var entry := letters[i];
      assert letters[..i + 1][..i] == letters[..i];
      var n := |blocks|;
      var joins := n > 0 && blocks[n - 1] != [] && Joins(blocks[n - 1], entry);
      if joins {
        blocks := blocks[n - 1 := blocks[n - 1] + [entry]];
      } else {
        blocks := blocks + [[entry]];
      }
    }
    assert letters[..|letters|] == letters;
  }

  /** The first letter of a block could not have joined the block before it. */
  predicate Cut(before: seq<Entry>, block: seq<Entry>) {
    block != [] && !OneSend(before + [block[0]])
  }

  /** Blocks that each could be one send, cut only where the next letter could not have joined. */
  predicate Greedy(blocks: seq<seq<Entry>>) {
    && (forall i :: 0 <= i < |blocks| ==> blocks[i] != [] && OneSend(blocks[i]))
    && (forall i :: 0 < i < |blocks| ==> Cut(blocks[i - 1], blocks[i]))
  }

  /** The rule a copy joins by is that the block could still be one send with it. */
  lemma JoinsIfOneSend(block: seq<Entry>, entry: Entry)
    requires block != [] && OneSend(block)
    ensures Joins(block, entry) <==> OneSend(block + [entry])
  {
    var longer := block + [entry];
    if OneSend(longer) {
      assert longer[|block|] == entry && longer[0] == block[0];
      forall e | e in block ensures e.envelope.header.to != entry.envelope.header.to {
        var i :| 0 <= i < |block| && block[i] == e;
        assert longer[i] == e;
      }
    }
    if Joins(block, entry) {
      assert forall i :: 0 <= i < |block| ==> block[i] in block;
    }
  }

  /** The blocks give back the thread, each could be one send, and every cut is forced. */
  lemma {:induction false} BlocksAreGreedy(letters: seq<Entry>)
    ensures Concat(BlocksOf(letters)) == letters && Greedy(BlocksOf(letters))
  {
    if letters != [] {
      var rest, entry := letters[..|letters| - 1], letters[|letters| - 1];
      BlocksAreGreedy(rest);
      PlaceConcat(BlocksOf(rest), entry);
      PlaceKeeps(BlocksOf(rest), entry);
      assert letters == rest + [entry];
    }
  }

  lemma GreedySnoc(before: seq<seq<Entry>>, last: seq<Entry>)
    ensures Greedy(before + [last]) <==>
            Greedy(before) && last != [] && OneSend(last) && (before == [] || Cut(before[|before| - 1], last))
  {
    var blocks := before + [last];
    assert blocks[|before|] == last && forall i :: 0 <= i < |before| ==> blocks[i] == before[i];
  }

  lemma PlaceConcat(blocks: seq<seq<Entry>>, entry: Entry)
    ensures Concat(Place(blocks, entry)) == Concat(blocks) + [entry]
  {
    ConcatSnoc(blocks, [entry]);
    if blocks != [] {
      var last, before := blocks[|blocks| - 1], blocks[..|blocks| - 1];
      assert blocks == before + [last];
      ConcatSnoc(before, last);
      ConcatSnoc(before, last + [entry]);
    }
  }

  lemma PlaceKeeps(blocks: seq<seq<Entry>>, entry: Entry)
    requires Greedy(blocks)
    ensures Greedy(Place(blocks, entry))
  {
    if blocks == [] {
      GreedySnoc(blocks, [entry]);
    } else {
      var last, before := blocks[|blocks| - 1], blocks[..|blocks| - 1];
      assert blocks == before + [last];
      if Joins(last, entry) {
        JoiningKeeps(before, last, entry);
      } else {
        CuttingKeeps(blocks, entry);
      }
    }
  }

  lemma JoiningKeeps(before: seq<seq<Entry>>, last: seq<Entry>, entry: Entry)
    requires Greedy(before + [last]) && last != [] && Joins(last, entry)
    ensures Greedy(before + [last + [entry]])
  {
    GreedySnoc(before, last);
    JoinsIfOneSend(last, entry);
    assert (last + [entry])[0] == last[0];
    GreedySnoc(before, last + [entry]);
  }

  lemma CuttingKeeps(blocks: seq<seq<Entry>>, entry: Entry)
    requires Greedy(blocks) && blocks != [] && !Joins(blocks[|blocks| - 1], entry)
    ensures Greedy(blocks + [[entry]])
  {
    JoinsIfOneSend(blocks[|blocks| - 1], entry);
    GreedySnoc(blocks, [entry]);
  }

  /** A last block of one letter is what placing that letter gives. */
  lemma PlacedApart(before: seq<seq<Entry>>, entry: Entry)
    requires Greedy(before + [[entry]])
    ensures Greedy(before) && Place(before, entry) == before + [[entry]]
  {
    GreedySnoc(before, [entry]);
    if before != [] {
      JoinsIfOneSend(before[|before| - 1], entry);
    }
  }

  /** A last block of more letters is what placing its last one gives. */
  lemma PlacedTogether(before: seq<seq<Entry>>, rest: seq<Entry>, entry: Entry)
    requires rest != [] && Greedy(before + [rest + [entry]])
    ensures Greedy(before + [rest]) && Place(before + [rest], entry) == before + [rest + [entry]]
  {
    var last := rest + [entry];
    GreedySnoc(before, last);
    assert OneSend(rest) by {
      assert forall i :: 0 <= i < |rest| ==> rest[i] == last[i];
    }
    GreedySnoc(before, rest);
    JoinsIfOneSend(rest, entry);
    PlacedOnLast(before, rest, entry);
  }

  lemma PlacedOnLast(before: seq<seq<Entry>>, rest: seq<Entry>, entry: Entry)
    requires rest != [] && Joins(rest, entry)
    ensures Place(before + [rest], entry) == before + [rest + [entry]]
  {
    var n := |before|;
    assert (before + [rest])[n] == rest && (before + [rest])[..n] == before;
  }

  lemma ConcatIsPlaced(blocks: seq<seq<Entry>>, shorter: seq<seq<Entry>>, entry: Entry)
    requires Concat(blocks) == Concat(shorter) + [entry]
    requires BlocksOf(Concat(shorter)) == shorter
    ensures BlocksOf(Concat(blocks)) == Place(shorter, entry)
  {
    assert Concat(blocks)[..|Concat(blocks)| - 1] == Concat(shorter);
  }

  /** No other cut of a thread does as much: the blocks are a function of the letters alone. */
  lemma {:induction false} GreedyCutIsUnique(blocks: seq<seq<Entry>>)
    requires Greedy(blocks)
    ensures blocks == BlocksOf(Concat(blocks))
    decreases |Concat(blocks)|
  {
    if blocks != [] {
      var last, before := blocks[|blocks| - 1], blocks[..|blocks| - 1];
      var entry, rest := last[|last| - 1], last[..|last| - 1];
      assert blocks == before + [last] && last == rest + [entry];
      var shorter := if rest == [] then before else before + [rest];
      if rest == [] {
        PlacedApart(before, entry);
      } else {
        PlacedTogether(before, rest, entry);
      }
      PlaceConcat(shorter, entry);
      GreedyCutIsUnique(shorter);
      ConcatIsPlaced(blocks, shorter, entry);
    }
  }
}
