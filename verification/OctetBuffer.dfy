/** The output buffer of the ASCII command channel: text is appended by
    formatted prints and taken out by reads. */
module OctetBuffer {
  import opened Bytes

  const CMD_BUFFER_SIZE: nat := 65536
  /** The longest text one formatted print may produce. */
  const PRINT_LIMIT: nat := 4094

  /** What a C string function sees of `s`: everything before the first NUL. */
  function CString(s: string): (r: string)
    ensures r <= s && '\0' !in r
    ensures |r| < |s| ==> s[|r|] == '\0'
  {
    if s == "" || s[0] == '\0' then "" else [s[0]] + CString(s[1..])
  }

  lemma {:induction false} CStringWhole(s: string)
    ensures CString(s) == s <==> '\0' !in s
  {
  }

  lemma CStringIs(s: string, n: nat)
    requires n < |s| && s[n] == '\0' && '\0' !in s[..n]
    ensures CString(s) == s[..n]
  {
    var r := CString(s);
    forall k | 0 <= k < n ensures s[k] != '\0' {
      assert s[k] in s[..n];
    }
    assert forall k :: 0 <= k < |r| ==> s[k] == r[k] && r[k] in r;
  }

  // ----- the buffer as a value -----

  /** Room for a text, a terminator and one more byte. */
  predicate Fits(size: nat, contents: string, text: string) {
    |contents| + |text| + 2 <= size
  }

  /** A text that does not fit is dropped as a whole. */
  function Append(size: nat, contents: string, text: string): string {
    if Fits(size, contents, text) then contents + text else contents
  }

  function AppendAll(size: nat, contents: string, texts: seq<string>): string {
    if texts == [] then contents else Append(size, AppendAll(size, contents, texts[..|texts| - 1]), texts[|texts| - 1])
  }

  lemma AppendAllSnoc(size: nat, contents: string, texts: seq<string>, text: string)
    ensures AppendAll(size, contents, texts + [text]) == Append(size, AppendAll(size, contents, texts), text)
  {
    assert (texts + [text])[..|texts|] == texts;
  }

  lemma {:induction false} AppendAllJoin(size: nat, contents: string, xs: seq<string>, ys: seq<string>)
    ensures AppendAll(size, contents, xs + ys) == AppendAll(size, AppendAll(size, contents, xs), ys)
    decreases |ys|
  {
    if ys == [] {
      assert xs + ys == xs;
    } else {
      var init := ys[..|ys| - 1];
      AppendAllJoin(size, contents, xs, init);
      assert (xs + ys)[..|xs + ys| - 1] == xs + init;
    }
  }

  lemma {:induction false} AppendAllBounded(size: nat, contents: string, texts: seq<string>)
    requires |contents| + 2 <= size
    ensures |contents| <= |AppendAll(size, contents, texts)| <= size - 2
    ensures |AppendAll(size, contents, texts)| <= |contents| + |Concat(texts)|
    decreases |texts|
  {
    if texts != [] {
      AppendAllBounded(size, contents, texts[..|texts| - 1]);
    }
  }

  /** Nothing is dropped exactly when all of it fits. */
  lemma {:induction false} AppendAllWholeIff(size: nat, contents: string, texts: seq<string>)
    requires |contents| + 2 <= size
    ensures AppendAll(size, contents, texts) == contents + Concat(texts) <==> Fits(size, contents, Concat(texts))
    decreases |texts|
  {
    AppendAllBounded(size, contents, texts);
    if texts != [] {
      var init := texts[..|texts| - 1];
      AppendAllWholeIff(size, contents, init);
      assert Concat(texts) == Concat(init) + texts[|init|];
      assert contents + Concat(texts) == contents + Concat(init) + texts[|init|];
    }
  }

  /** A read takes at most `outlen` bytes, up to the first NUL. */
  function Taken(contents: string, outlen: nat): (r: string)
    ensures r <= contents && |r| <= outlen && '\0' !in r
    ensures |r| < outlen && |r| < |contents| ==> contents[|r|] == '\0'
  {
    var text := CString(contents);
    if |text| <= outlen then text else text[..outlen]
  }

  // ----- the buffer in place -----

  class OutputBuffer {
    const bufferSize: nat
    const buffer: array<char>
    var bytesUsed: nat

    ghost predicate Valid()
      reads this, buffer
    {
      bufferSize == buffer.Length && bytesUsed + 2 <= bufferSize && buffer[bytesUsed] == '\0'
    }

    ghost function Contents(): (s: string)
      reads this, buffer
      requires Valid()
    {
      buffer[..bytesUsed]
    }

    constructor ()
      ensures Valid() && fresh(buffer) && Contents() == "" && bufferSize == CMD_BUFFER_SIZE
    {
      bufferSize := CMD_BUFFER_SIZE;
      buffer := new char[CMD_BUFFER_SIZE](_ => '\0');
      bytesUsed := 0;
    }

    /** addToBuffer: all of the text or nothing. */
    method AddToBuffer(addText: string) returns (ok: bool)
      requires Valid()
      modifies this, buffer
      ensures Valid() && Contents() == Append(bufferSize, old(Contents()), addText)
      ensures ok <==> |old(Contents())| + |addText| + 2 <= bufferSize
      ensures Contents() == if ok then old(Contents()) + addText else old(Contents())
    {
      if |addText| >= bufferSize - bytesUsed - 1 {
        return false;
      }
      ghost var was := Contents();
      forall k | 0 <= k < |addText| {
        buffer[bytesUsed + k] := addText[k];
      }
      buffer[bytesUsed + |addText|] := '\0';
      bytesUsed := bytesUsed + |addText|;
      Appended(buffer[..], was, addText);
      ok := true;
    }

    /** octetCmdBuf_printf of an already formatted text; whether it fitted is not looked at. */
    method Printf(text: string)
      requires Valid() && |text| <= PRINT_LIMIT
      modifies this, buffer
      ensures Valid() && Contents() == Append(bufferSize, old(Contents()), text)
    {
      var ok := AddToBuffer(text);
    }

    /** octetRemoveFromBuffer: the rest moves to the front. */
    method RemoveFromBuffer(len: nat) returns (ok: bool)
      requires Valid()
      modifies this, buffer
      ensures Valid() && ok == (len <= |old(Contents())|)
      ensures Contents() == if ok then old(Contents())[len..] else old(Contents())
    {
      var bytesToMove := bytesUsed - len;
      if bytesToMove < 0 {
        return false;
      }
      forall k | 0 <= k < bytesToMove {
        buffer[k] := buffer[len + k];
      }
      buffer[bytesToMove] := '\0';
      bytesUsed := bytesToMove;
      assert Contents() == old(Contents())[len..];
      ok := true;
    }

    /** octetClearBuffer. */
    method ClearBuffer()
      requires Valid()
      modifies this, buffer
      ensures Valid() && Contents() == ""
    {
      bytesUsed := 0;
      buffer[0] := '\0';
    }

    /** octetCMDreadIt: copy out what a C string print shows, then remove as much;
        a print that fails, with a negative result, clears the buffer instead. */
    method ReadIt(outlen: nat, failure: int) returns (ret: int, outbuf: string)
      requires Valid() && failure <= 0
      modifies this, buffer
      ensures Valid() && ret == if outlen == 0 then -1 else failure
      ensures outbuf == if outlen == 0 || failure < 0 then "" else Taken(old(Contents()), outlen)
      ensures if outlen > 0 && failure < 0 then Contents() == "" else old(Contents()) == outbuf + Contents()
    {
      if outlen == 0 {
        return -1, "";
      }
      if failure < 0 {
        ClearBuffer();
        return failure, "";
      }
      var text := CString(buffer[..]);
      ReadTakes(buffer[..], bytesUsed, outlen);
      var n := if |text| >= outlen + 1 then outlen else |text|;
      outbuf := text[..n];
      var ok := RemoveFromBuffer(n);
      ret := 0;
    }
  }

  lemma Appended(data: string, was: string, text: string)
    requires |was| + |text| <= |data| && data[..|was|] == was
    requires forall k :: 0 <= k < |text| ==> data[|was| + k] == text[k]
    ensures data[..|was| + |text|] == was + text
  {
    forall k | 0 <= k < |was| + |text| ensures data[k] == (was + text)[k] {
      if k < |was| {
        assert data[..|was|][k] == data[k];
      }
    }
  }

  /** Printing the whole array shows the same text as printing its used part. */
  lemma WholeBuffer(data: string, used: nat)
    requires used < |data| && data[used] == '\0'
    ensures CString(data) == CString(data[..used])
  {
    var r := CString(data[..used]);
    assert r == data[..|r|];
    if |r| < used {
      assert data[..used][|r|] == '\0';
    }
    CStringIs(data, |r|);
  }

  lemma ReadTakes(data: string, used: nat, outlen: nat)
    requires used < |data| && data[used] == '\0'
    ensures var text := CString(data);
            var n := if |text| >= outlen + 1 then outlen else |text|;
            n <= used && text[..n] == Taken(data[..used], outlen) && data[..used] == text[..n] + data[..used][n..]
  {
    WholeBuffer(data, used);
  }

  // ----- first in, first out, over any interleaving -----

  datatype Op = Put(text: string) | Get(outlen: nat)

  /** The buffer, all text accepted so far, and all text handed out so far. */
  datatype Channel = Channel(contents: string, accepted: string, delivered: string)

  function Step(size: nat, c: Channel, op: Op): Channel {
    match op
    case Put(text) =>
      if Fits(size, c.contents, text)
      then Channel(c.contents + text, c.accepted + text, c.delivered)
      else c
    case Get(outlen) =>
      var out := Taken(c.contents, outlen);
      Channel(c.contents[|out|..], c.accepted, c.delivered + out)
  }

  function Run(size: nat, ops: seq<Op>): Channel {
    if ops == [] then Channel("", "", "") else Step(size, Run(size, ops[..|ops| - 1]), ops[|ops| - 1])
  }

  predicate Plain(op: Op) {
    op.Put? ==> '\0' !in op.text
  }

  ghost predicate InOrder(size: nat, c: Channel) {
    c.delivered + c.contents == c.accepted && |c.contents| + 2 <= size
  }

  /** Whatever is appended and however it is read, what was handed out followed
      by what is still held is what was accepted. */
  lemma {:induction false} ChannelIsFifo(size: nat, ops: seq<Op>)
    requires size >= 2
    ensures InOrder(size, Run(size, ops))
  {
    if ops != [] {
      ChannelIsFifo(size, ops[..|ops| - 1]);
      StepInOrder(size, Run(size, ops[..|ops| - 1]), ops[|ops| - 1]);
    }
  }

  lemma StepInOrder(size: nat, c: Channel, op: Op)
    requires InOrder(size, c)
    ensures InOrder(size, Step(size, c, op))
  {
    match op
    case Put(text) =>
      assert c.delivered + (c.contents + text) == c.delivered + c.contents + text;
    case Get(outlen) =>
      var out := Taken(c.contents, outlen);
      assert c.contents == out + c.contents[|out|..];
      assert c.delivered + out + c.contents[|out|..] == c.delivered + (out + c.contents[|out|..]);
  }

  /** As long as every text is free of NULs a read is never cut short: it hands
      out as much as was asked for and is there. */
  lemma {:induction false} PlainTextFlows(size: nat, ops: seq<Op>, outlen: nat)
    requires forall i :: 0 <= i < |ops| ==> Plain(ops[i])
    ensures '\0' !in Run(size, ops).contents
    ensures var c := Run(size, ops).contents; Taken(c, outlen) == if |c| <= outlen then c else c[..outlen]
  {
    if ops != [] {
      PlainTextFlows(size, ops[..|ops| - 1], outlen);
      assert Plain(ops[|ops| - 1]);
    }
    CStringWhole(Run(size, ops).contents);
  }

  function Gets(n: nat, outlen: nat): (r: seq<Op>)
    ensures |r| == n
  {
    seq(n, i => Get(outlen))
  }

  /** What one more read leaves. */
  lemma OneRead(size: nat, ops: seq<Op>, outlen: nat)
    requires forall i :: 0 <= i < |ops| ==> Plain(ops[i])
    ensures var before := Run(size, ops); var after := Run(size, ops + [Get(outlen)]);
            && after.accepted == before.accepted
            && |after.contents| == if |before.contents| <= outlen then 0 else |before.contents| - outlen
  {
    assert (ops + [Get(outlen)])[..|ops|] == ops;
    PlainTextFlows(size, ops, outlen);
  }

  ghost predicate AllPlain(ops: seq<Op>) {
    forall i :: 0 <= i < |ops| ==> Plain(ops[i])
  }

  ghost predicate Drained(before: Channel, after: Channel) {
    after.contents == "" && after.accepted == before.accepted && after.delivered == before.accepted
  }

  lemma NothingToDrain(size: nat, ops: seq<Op>, n: nat, outlen: nat)
    requires n == 0 && size >= 2 && |Run(size, ops).contents| <= n * outlen
    ensures Drained(Run(size, ops), Run(size, ops + Gets(n, outlen)))
  {
    assert ops + Gets(n, outlen) == ops;
    ChannelIsFifo(size, ops);
  }

  lemma Pieces(fewer: nat, n: nat, outlen: nat)
    requires fewer + 1 == n
    ensures n * outlen == fewer * outlen + outlen && fewer * outlen >= 0
  {
  }

  lemma OneReadOff(size: nat, ops: seq<Op>, rest: nat, outlen: nat)
    requires AllPlain(ops) && |Run(size, ops).contents| <= rest + outlen
    ensures |Run(size, ops + [Get(outlen)]).contents| <= rest
    ensures Run(size, ops + [Get(outlen)]).accepted == Run(size, ops).accepted
    ensures AllPlain(ops + [Get(outlen)])
  {
    OneRead(size, ops, outlen);
  }

  /** Reading on in pieces of any one size hands out everything that was accepted. */
  lemma {:induction false} ReadsDrain(size: nat, ops: seq<Op>, n: nat, outlen: nat)
    requires size >= 2 && AllPlain(ops) && |Run(size, ops).contents| <= n * outlen
    ensures Drained(Run(size, ops), Run(size, ops + Gets(n, outlen)))
    decreases n
  {
    if n == 0 {
      NothingToDrain(size, ops, n, outlen);
    } else {
      var fewer: nat := n - 1;
      Pieces(fewer, n, outlen);
      OneReadOff(size, ops, fewer * outlen, outlen);
      ReadsDrain(size, ops + [Get(outlen)], fewer, outlen);
      assert ops + [Get(outlen)] + Gets(fewer, outlen) == ops + Gets(n, outlen);
    }
  }

  // ----- the class goes through the same steps -----

  /** One operation on the buffer, as the channel sees it. */
  method Perform(b: OutputBuffer, op: Op, ghost c: Channel) returns (out: string, ghost next: Channel)
    requires b.Valid() && b.Contents() == c.contents && (op.Put? ==> |op.text| <= PRINT_LIMIT)
    modifies b, b.buffer
    ensures b.Valid() && next == Step(b.bufferSize, c, op) && b.Contents() == next.contents
    ensures next.delivered == c.delivered + out
  {
    out := "";
    match op {
      case Put(text) =>
        b.Printf(text);
      case Get(outlen) =>
        var ret;
        ret, out := b.ReadIt(outlen, 0);
        assert c.contents == out + b.Contents();
    }
    next := Step(b.bufferSize, c, op);
  }
}
