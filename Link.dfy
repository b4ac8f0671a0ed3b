/** The serial link as the handshake sees it: a line reader over a port.
    The replies the device will give are scripted up front as a queue of
    lines that are already delimited; every write is logged; closing the
    port is a flag. */
module Link {

  /** One write to the port: the text and whether it went out paced for a
      half-duplex link. */
  datatype Sent = Sent(text: string, halfDuplex: bool)

  /** The line a read returns: the next scripted reply, or `""` when none is
      left (the read timed out). */
  function NextLine(replies: seq<string>): string {
    if replies == [] then "" else replies[0]
  }

  /** The replies left after one read. */
  function AfterRead(replies: seq<string>): seq<string> {
    if replies == [] then [] else replies[1..]
  }

  /** The `k`-th line read from the start of `replies`. */
  function ReplyAt(replies: seq<string>, k: nat): string {
    if k < |replies| then replies[k] else ""
  }

  /** The replies left after `k` reads. */
  function Drop(replies: seq<string>, k: nat): seq<string> {
    if k < |replies| then replies[k..] else []
  }

  lemma ReadAfterDrop(replies: seq<string>, k: nat)
    ensures NextLine(Drop(replies, k)) == ReplyAt(replies, k)
    ensures AfterRead(Drop(replies, k)) == Drop(replies, k + 1)
  {
  }

  lemma DropShift(replies: seq<string>, a: nat, k: nat)
    ensures Drop(Drop(replies, a), k) == Drop(replies, a + k)
    ensures ReplyAt(Drop(replies, a), k) == ReplyAt(replies, a + k)
  {
  }

  class ScriptedLink {
    /** Reply lines not yet read. */
    var pending: seq<string>
    /** Everything written so far, in order. */
    var written: seq<Sent>
    var closed: bool

    /** Opens the port on a device that will answer with `replies`. */
    constructor (replies: seq<string>)
      ensures pending == replies && written == [] && !closed
    {
      pending := replies;
      written := [];
      closed := false;
    }

    /** Reads one line, or `""` on a timeout. */
    method ReadLine() returns (line: string)
      requires !closed
      modifies this
      ensures line == NextLine(old(pending)) && pending == AfterRead(old(pending))
      ensures written == old(written) && !closed
    {
      line := NextLine(pending);
      pending := AfterRead(pending);
    }

    /** Writes `text`, paced when `halfDuplex` is set. */
    method Write(text: string, halfDuplex: bool)
      requires !closed
      modifies this
      ensures written == old(written) + [Sent(text, halfDuplex)]
      ensures pending == old(pending) && !closed
    {
      written := written + [Sent(text, halfDuplex)];
    }

    /** Closes the port. */
    method Close()
      modifies this
      ensures closed && pending == old(pending) && written == old(written)
    {
      closed := true;
    }
  }
}
