/** The out-of-band connection as each side holds it: a socket to write to and a buffered reader. */
module Comm {
  import opened Wrappers
  import opened Session

  datatype ConnError = UnexpectedEof

  function Flatten(fragments: seq<Text>): Text {
    if fragments == [] then [] else fragments[0] + Flatten(fragments[1..])
  }

  /** The position of the first newline, or the length if there is none. */
  function LineEnd(bytes: Text): (n: nat)
    ensures n <= |bytes|
    ensures n < |bytes| ==> bytes[n] == NEWLINE
    ensures forall i :: 0 <= i < n ==> bytes[i] != NEWLINE
  {
    if bytes == [] || bytes[0] == NEWLINE then 0 else 1 + LineEnd(bytes[1..])
  }

  lemma {:induction false} LineEndOfConcat(a: Text, b: Text)
    ensures LineEnd(a + b) == if LineEnd(a) < |a| then LineEnd(a) else |a| + LineEnd(b)
  {
    if a == [] {
      assert a + b == b;
    } else if a[0] != NEWLINE {
      LineEndOfConcat(a[1..], b);
      assert (a + b)[1..] == a[1..] + b;
    }
  }

  lemma LineEndEmpty()
    ensures LineEnd([]) == 0 && Flatten([]) == []
  {
  }

  /** A text and a newline are read back as one line exactly when the text holds no newline. */
  lemma {:induction false} OneLine(text: Text, rest: Text)
    ensures LineEnd(text + [NEWLINE] + rest) == |text| <==> NEWLINE !in text
  {
    if text == [] {
      assert text + [NEWLINE] + rest == [NEWLINE] + rest;
    } else if text[0] != NEWLINE {
      OneLine(text[1..], rest);
      assert (text + [NEWLINE] + rest)[1..] == text[1..] + [NEWLINE] + rest;
    }
  }

  /** A line found in the buffer ends the message that `line` began. */
  lemma LineFound(line: Text, buffer: Text, rest: Text)
    requires LineEnd(line) == |line| && LineEnd(buffer) < |buffer|
    ensures var all, n := line + (buffer + rest), LineEnd(buffer);
            && LineEnd(all) == |line| + n
            && all[..|line| + n] == line + buffer[..n]
            && all[|line| + n + 1..] == buffer[n + 1..] + rest
  {
    hide LineEnd;
    LineEndOfConcat(line, buffer + rest);
    LineEndOfConcat(buffer, rest);
  }

  lemma Regroup(line: Text, buffer: Text, rest: Text)
    ensures line + (buffer + rest) == line + buffer + ([] + rest)
  {
  }

  class Conn {
    /** Every byte written to the socket. */
    var written: Text
    /** Bytes the reader has taken from the socket and not handed out. */
    var buffer: Text
    /** What the socket will still deliver, fragment by fragment, before the peer's end of stream. */
    var arriving: seq<Text>

    /** The bytes not handed out yet, however they are fragmented. */
    ghost function Unread(): Text
      reads this`buffer, this`arriving
    {
      buffer + Flatten(arriving)
    }

    constructor (arriving: seq<Text>)
      ensures written == [] && Unread() == Flatten(arriving)
    {
      written := [];
      buffer := [];
      this.arriving := arriving;
    }

    method SendMsg(text: Text)
      modifies this`written
      ensures written == old(written) + text + [NEWLINE]
      ensures forall rest :: LineEnd(text + [NEWLINE] + rest) == |text| <==> NEWLINE !in text
    {
      forall rest
        ensures LineEnd(text + [NEWLINE] + rest) == |text| <==> NEWLINE !in text
      {
        OneLine(text, rest);
      }
      var line := text + [NEWLINE];
      written := written + line;
    }

    /** Takes the next fragment off the socket; `false` at the end of the stream. */
    method Fill() returns (more: bool)
      modifies this`buffer, this`arriving
      ensures Unread() == old(Unread())
      ensures more ==> |arriving| < |old(arriving)|
      ensures !more ==> arriving == [] && buffer == old(buffer)
    {
      if arriving == [] {
        return false;
      }
      assert buffer + Flatten(arriving) == buffer + arriving[0] + Flatten(arriving[1..]);
      buffer, arriving := buffer + arriving[0], arriving[1..];
      return true;
    }

    /**
     * Reads one line. The result depends on the bytes of the stream and not on how they are fragmented:
     * it is everything up to the first newline, which is consumed as well, or whatever was left if the
     * stream ends first; only an empty remainder is an error.
     */
    method RecvMsg() returns (r: Result<Text, ConnError>)
      modifies this`buffer, this`arriving
      ensures var all := old(Unread());
              var n := LineEnd(all);
              if n < |all| then r == Ok(all[..n]) && Unread() == all[n + 1..]
              else r == (if all == [] then Err(UnexpectedEof) else Ok(all)) && Unread() == []
    {
      hide LineEnd, Flatten;
      ghost var all := Unread();
      var line: Text := [];
      assert LineEnd(line) == |line| by { LineEndEmpty(); }
      while true
        invariant line + Unread() == all
        invariant LineEnd(line) == |line|
        decreases |arriving|
      {
        var n := LineEnd(buffer);
        if n < |buffer| {
          LineFound(line, buffer, Flatten(arriving));
          line := line + buffer[..n];
          buffer := buffer[n + 1..];
          return Ok(line);
        }
        LineEndOfConcat(line, buffer);
        Regroup(line, buffer, Flatten(arriving));
        line := line + buffer;
        buffer := [];
        var more := Fill();
        if !more {
          LineEndEmpty();
          assert all == line;
          return if line == [] then Err(UnexpectedEof) else Ok(line);
        }
      }
    }

    /** Announces this side at the barrier and waits for the peer's byte, whatever it is. */
    method Sync() returns (r: Result<Octet, ConnError>)
      modifies this
      ensures written == old(written) + [BARRIER]
      ensures var all := old(Unread());
              if all == [] then r == Err(UnexpectedEof) && Unread() == []
              else r == Ok(all[0]) && Unread() == all[1..]
    {
      written := written + [BARRIER];
      while buffer == []
        invariant Unread() == old(Unread()) && written == old(written) + [BARRIER]
        decreases |arriving|
      {
        var more := Fill();
        if !more {
          return Err(UnexpectedEof);
        }
      }
      var b := buffer[0];
      ghost var all := Unread();
      buffer := buffer[1..];
      assert Unread() == all[1..];
      return Ok(b);
    }
  }

  // ----- The reader and the session's byte-by-byte reads -----

  /** A side fed bytes one by one until its exchange is over. */
  function Feed(p: Script, e: End, bytes: Text): (End, Text)
    decreases |bytes|
  {
    if bytes == [] || !ReadyToRead(p, e) then (e, bytes)
    else
      var e' := Consume(p, e, bytes[0]);
      if e'.pc == e.pc then Feed(p, e', bytes[1..]) else (e', bytes[1..])
  }

  /** Reading a line at once is what the session's reads amount to, and both leave the same bytes unread. */
  lemma {:induction false} FeedReadsOneLine(p: Script, e: End, bytes: Text)
    requires ReadyToRead(p, e) && p[e.pc].io.Recv? && LineEnd(bytes) < |bytes|
    ensures var n := LineEnd(bytes);
            Feed(p, e, bytes) == (NextOp(e.(inbox := e.inbox + [e.acc + bytes[..n]])), bytes[n + 1..])
    decreases |bytes|
  {
    var n := LineEnd(bytes);
    if n == 0 {
      assert e.acc + bytes[..0] == e.acc;
    } else {
      var e' := e.(acc := e.acc + [bytes[0]]);
      FeedReadsOneLine(p, e', bytes[1..]);
      assert e'.acc + bytes[1..][..n - 1] == e.acc + bytes[..n];
      assert bytes[1..][n..] == bytes[n + 1..];
      assert NextOp(e'.(inbox := e.inbox + [e.acc + bytes[..n]]))
             == NextOp(e.(inbox := e.inbox + [e.acc + bytes[..n]]));
    }
  }
}
