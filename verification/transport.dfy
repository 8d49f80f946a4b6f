/** The serial port as the protocol engine sees it, driven by a script:
    every "bytes available? then read them" step is one poll, and the script
    says, poll by poll, which bytes the bus had delivered by then. */
module Transport {
  import opened Bus

  /** One entry per poll; an empty entry means nothing was available. */
  type Script = seq<seq<Byte>>

  /** What the next poll sees: nothing once the script is exhausted. */
  function Head(s: Script): (r: seq<Byte>)
    ensures |s| > 0 ==> r == s[0]
    ensures |s| == 0 ==> r == []
  {
    if |s| == 0 then [] else s[0]
  }

  /** The script left after `n` polls. */
  function Drop(s: Script, n: nat): (r: Script)
    ensures n <= |s| ==> r == s[n..]
    ensures n > |s| ==> r == []
  {
    if n <= |s| then s[n..] else []
  }

  lemma DropDrop(s: Script, a: nat, b: nat)
    ensures Drop(Drop(s, a), b) == Drop(s, a + b)
  {
  }

  /** Regrouping appended sequences; used to keep running transcripts. */
  lemma Regroup<T>(a: seq<T>, b: seq<T>, c: seq<T>)
    ensures a + (b + c) == (a + b) + c
  {
  }

  class SerialPort {
    var isOpen: bool
    /** The replies still to come, one per poll. */
    var replies: Script
    /** Every byte written so far, in order. */
    var written: seq<Byte>

    constructor (script: Script)
      ensures !isOpen && replies == script && written == []
    {
      isOpen := false;
      replies := script;
      written := [];
    }

    method Open()
      modifies this
      ensures isOpen
      ensures replies == old(replies) && written == old(written)
    {
      isOpen := true;
    }

    method Write(b: Byte)
      modifies this
      ensures written == old(written) + [b]
      ensures replies == old(replies) && isOpen == old(isOpen)
    {
      written := written + [b];
    }

    /** BytesToRead followed by Read: all bytes available now, possibly none. */
    method Poll() returns (chunk: seq<Byte>)
      modifies this
      ensures chunk == Head(old(replies))
      ensures replies == Drop(old(replies), 1)
      ensures written == old(written) && isOpen == old(isOpen)
    {
      if |replies| == 0 {
        chunk := [];
      } else {
        chunk := replies[0];
        replies := replies[1..];
      }
    }
  }
}
