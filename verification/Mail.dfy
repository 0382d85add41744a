// What a mail export reads: the mailbase's entries, and the parts of a decoded letter
// (pkgs/aoide/crates/storage/src/mail.rs, pkgs/aoide/crates/storage/src/letter.rs).
module Mail {
  import opened Common

  datatype Address = Address(node: string, name: string)

  datatype Header = Header(from: Address, to: Address)

  datatype Envelope = Envelope(header: Header, text: string, msgid: string)

  /** One line of the mailbase; `number` is its `seq`. */
  datatype Entry = Entry(number: nat, receivedAt: string, kind: string, envelope: Envelope)

  /** A structured letter, as its envelope's text decodes. */
  datatype Content = Content(subject: string, to: seq<Address>, cc: seq<Address>, body: string,
      threadId: Option<string>)

  /** How a letter's text decodes; the decoding itself is not part of this model. */
  type Decoder = string -> Option<Content>

  /** One thread's letters, under the key they group by. */
  datatype Thread = Thread(key: string, letters: seq<Entry>)

  function Map<A, B>(f: A -> B, s: seq<A>): (r: seq<B>)
    ensures |r| == |s| && forall i :: 0 <= i < |s| ==> r[i] == f(s[i])
  {
    seq(|s|, i requires 0 <= i < |s| => f(s[i]))
  }

  function Concat<T>(parts: seq<seq<T>>): seq<T> {
    if parts == [] then [] else parts[0] + Concat(parts[1..])
  }

  lemma {:induction false} ConcatSnoc<T>(parts: seq<seq<T>>, last: seq<T>)
    ensures Concat(parts + [last]) == Concat(parts) + last
  {
    if parts == [] {
      assert [last][1..] == [] && parts + [last] == [last];
    } else {
      assert (parts + [last])[1..] == parts[1..] + [last];
      ConcatSnoc(parts[1..], last);
    }
  }

  function Join(parts: seq<string>, between: string): string {
    if parts == [] then "" else if |parts| == 1 then parts[0] else parts[0] + between + Join(parts[1..], between)
  }
}
