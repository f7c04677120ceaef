/** The ASCII command channel: a written text is cut into commands, each
    command is answered, and the answers are framed as the commands were. */
module OctetCommand {
  import opened Bytes
  import opened OctetBuffer

  /** A command and the separator behind it; empty behind the last one. */
  datatype Piece = Piece(arg: string, sep: string)

  /** ';' if the line has one, else ' ' if it has one, else nothing. */
  function Separator(line: string): (r: Option<char>)
    ensures r.Some? ==> r.value in line
  {
    if ';' in line then Some(';') else if ' ' in line then Some(' ') else None
  }

  /** Position of the first `c`, or the length: strchr. */
  function FirstIndex(s: string, c: char): (i: nat)
    ensures i <= |s| && c !in s[..i]
    ensures i < |s| <==> c in s
    ensures i < |s| ==> s[i] == c
  {
    if s == "" || s[0] == c then 0 else
      var i := 1 + FirstIndex(s[1..], c);
      assert s[..i] == [s[0]] + s[1..][..i - 1];
      i
  }

  lemma FirstIndexIs(s: string, c: char, i: nat)
    requires i <= |s| && c !in s[..i] && (i < |s| ==> s[i] == c)
    ensures FirstIndex(s, c) == i
  {
    var j := FirstIndex(s, c);
    forall k | 0 <= k < i ensures s[k] != c {
      assert s[k] in s[..i];
    }
    forall k | 0 <= k < j ensures s[k] != c {
      assert s[k] in s[..j];
    }
  }

  function SplitAt(line: string, c: char): (r: seq<Piece>)
    decreases |line|, 1
  {
    if line == "" then [] else CutAfter(line, c, FirstIndex(line, c))
  }

  /** The text before position `i`, and what is behind the separator there. */
  function CutAfter(line: string, c: char, i: nat): (r: seq<Piece>)
    requires i <= |line|
    decreases |line|, 0
  {
    if i == |line| then [Piece(line, "")] else [Piece(line[..i], [c])] + SplitAt(line[i + 1..], c)
  }

  function Split(line: string): (r: seq<Piece>) {
    if line == "" then []
    else match Separator(line)
      case None => [Piece(line, "")]
      case Some(c) => SplitAt(line, c)
  }

  /** The pieces put back together. */
  function Joined(pieces: seq<Piece>): string {
    if pieces == [] then "" else pieces[0].arg + pieces[0].sep + Joined(pieces[1..])
  }

  /** No command contains the separator, every piece but the last ends with it,
      and the last is not empty. */
  ghost predicate WellCut(pieces: seq<Piece>, c: char) {
    && (forall i :: 0 <= i < |pieces| ==> c !in pieces[i].arg)
    && (forall i :: 0 <= i < |pieces| - 1 ==> pieces[i].sep == [c])
    && (pieces != [] ==> var last := pieces[|pieces| - 1]; last.sep == [c] || (last.sep == "" && last.arg != ""))
  }

  lemma JoinedCons(p: Piece, rest: seq<Piece>)
    ensures Joined([p] + rest) == p.arg + p.sep + Joined(rest)
  {
    assert ([p] + rest)[1..] == rest;
  }

  lemma WellCutCons(p: Piece, rest: seq<Piece>, c: char)
    requires c !in p.arg && p.sep == [c] && WellCut(rest, c)
    ensures WellCut([p] + rest, c)
  {
    var all := [p] + rest;
    assert forall i :: 0 < i < |all| ==> all[i] == rest[i - 1];
  }

  lemma LastPiece(line: string, c: char)
    requires line != "" && c !in line
    ensures WellCut([Piece(line, "")], c) && Joined([Piece(line, "")]) == line
  {
    JoinedCons(Piece(line, ""), []);
    assert [Piece(line, "")] + [] == [Piece(line, "")];
  }

  lemma Around(line: string, i: nat)
    requires i < |line|
    ensures line == line[..i] + [line[i]] + line[i + 1..]
  {
  }

  lemma CutAfterUnfold(line: string, c: char, i: nat)
    requires i < |line|
    ensures CutAfter(line, c, i) == [Piece(line[..i], [c])] + SplitAt(line[i + 1..], c)
  {
  }

  lemma SplitAtUnfold(line: string, c: char, i: nat)
    requires i == FirstIndex(line, c) && i < |line|
    ensures SplitAt(line, c) == [Piece(line[..i], [c])] + SplitAt(line[i + 1..], c)
  {
    CutAfterUnfold(line, c, i);
  }

  ghost predicate Cuts(pieces: seq<Piece>, line: string, c: char) {
    WellCut(pieces, c) && Joined(pieces) == line
  }

  lemma CutStep(p: Piece, c: char, pieces: seq<Piece>, rest: string)
    requires c !in p.arg && p.sep == [c] && Cuts(pieces, rest, c)
    ensures Cuts([p] + pieces, p.arg + p.sep + rest, c)
  {
    JoinedCons(p, pieces);
    WellCutCons(p, pieces, c);
  }

  lemma {:induction false} SplitAtCuts(line: string, c: char)
    ensures Cuts(SplitAt(line, c), line, c)
    decreases |line|
  {
    var i := FirstIndex(line, c);
    if line != "" && i == |line| {
      LastPiece(line, c);
    } else if line != "" {
      var rest := line[i + 1..];
      SplitAtCuts(rest, c);
      CutStep(Piece(line[..i], [c]), c, SplitAt(rest, c), rest);
      SplitAtUnfold(line, c, i);
      Around(line, i);
    }
  }

  /** Where the first separator stands tells where the first piece ends. */
  lemma FirstPiece(pieces: seq<Piece>, c: char)
    requires WellCut(pieces, c) && pieces != []
    ensures var line := Joined(pieces); var i := FirstIndex(line, c);
            && line != "" && i == |pieces[0].arg| && pieces[0].arg == line[..i]
            && (i < |line| <==> pieces[0].sep == [c])
            && (i < |line| ==> Joined(pieces[1..]) == line[i + 1..])
            && (i == |line| ==> pieces == [Piece(line, "")])
  {
    var line, arg := Joined(pieces), pieces[0].arg;
    var rest := Joined(pieces[1..]);
    assert line == arg + pieces[0].sep + rest;
    assert line[..|arg|] == arg;
    if pieces[0].sep == [c] {
      assert line == arg + [c] + rest;
      assert line[|arg|] == c;
    } else {
      assert |pieces| == 1 && rest == "";
    }
    FirstIndexIs(line, c, |arg|);
  }

  lemma TailWellCut(pieces: seq<Piece>, c: char)
    requires WellCut(pieces, c) && pieces != []
    ensures WellCut(pieces[1..], c)
  {
    var rest := pieces[1..];
    assert forall i :: 0 <= i < |rest| ==> rest[i] == pieces[i + 1];
  }

  /** There is only one way to cut a line well. */
  lemma {:induction false} CutIsUnique(pieces: seq<Piece>, c: char)
    requires WellCut(pieces, c)
    ensures pieces == SplitAt(Joined(pieces), c)
    decreases |pieces|
  {
    if pieces != [] {
      FirstPiece(pieces, c);
      if pieces[0].sep == [c] {
        TailWellCut(pieces, c);
        CutIsUnique(pieces[1..], c);
        UniqueStep(pieces, c);
      } else {
        LastPiece(pieces[0].arg, c);
      }
    }
  }

  lemma UniqueStep(pieces: seq<Piece>, c: char)
    requires WellCut(pieces, c) && pieces != [] && pieces[0].sep == [c]
    requires pieces[1..] == SplitAt(Joined(pieces[1..]), c)
    ensures pieces == SplitAt(Joined(pieces), c)
  {
    FirstPiece(pieces, c);
    SplitAtUnfold(Joined(pieces), c, |pieces[0].arg|);
    FrontBack(pieces, Piece(pieces[0].arg, [c]));
  }

  lemma FrontBack(pieces: seq<Piece>, p: Piece)
    requires pieces != [] && pieces[0] == p
    ensures pieces == [p] + pieces[1..]
  {
  }

  lemma CountOf(arg: string, sep: string, rest: string, c: char)
    requires c !in arg && (sep == "" || sep == [c])
    ensures multiset(arg + sep + rest)[c] == |sep| + multiset(rest)[c]
  {
    assert multiset(arg + sep + rest) == multiset(arg) + multiset(sep) + multiset(rest);
  }

  /** Whether text is left behind the last separator. */
  function Open(pieces: seq<Piece>): nat {
    if pieces != [] && pieces[|pieces| - 1].sep == "" then 1 else 0
  }

  lemma OpenTail(pieces: seq<Piece>, c: char)
    requires WellCut(pieces, c) && pieces != []
    ensures pieces[0].sep == [c] ==> Open(pieces) == Open(pieces[1..])
    ensures pieces[0].sep != [c] ==> pieces[0].sep == "" && |pieces| == 1
  {
    if |pieces| > 1 {
      assert pieces[1..][|pieces| - 2] == pieces[|pieces| - 1];
    }
  }

  /** As many pieces as separators, and one more if text is left behind the last. */
  lemma {:induction false} PiecesCount(pieces: seq<Piece>, c: char)
    requires WellCut(pieces, c)
    ensures multiset(Joined(pieces))[c] + Open(pieces) == |pieces|
    decreases |pieces|
  {
    if pieces != [] {
      var p, rest := pieces[0], pieces[1..];
      OpenTail(pieces, c);
      TailWellCut(pieces, c);
      PiecesCount(rest, c);
      CountOf(p.arg, p.sep, Joined(rest), c);
    }
  }

  lemma {:induction false} LastSeparator(pieces: seq<Piece>, c: char)
    requires WellCut(pieces, c) && pieces != []
    ensures var line := Joined(pieces);
            line != "" && (line[|line| - 1] == c <==> pieces[|pieces| - 1].sep == [c])
    decreases |pieces|
  {
    FirstPiece(pieces, c);
    if |pieces| > 1 {
      TailWellCut(pieces, c);
      LastSeparator(pieces[1..], c);
      assert Joined(pieces) == pieces[0].arg + pieces[0].sep + Joined(pieces[1..]);
      assert pieces[1..][|pieces| - 2] == pieces[|pieces| - 1];
    } else {
      assert Joined(pieces) == pieces[0].arg + pieces[0].sep;
      assert pieces[0].sep == "" ==> pieces[0].arg[|pieces[0].arg| - 1] in pieces[0].arg;
    }
  }

  /** The line cut behind every `c`: no piece holds it, each but perhaps the last
      is followed by it, there are as many pieces as it occurs, and one more if
      the line does not end with it, and put back together they are the line. */
  ghost predicate CutBehind(line: string, c: char, pieces: seq<Piece>) {
    && line != "" && Joined(pieces) == line
    && |pieces| == multiset(line)[c] + (if line[|line| - 1] == c then 0 else 1)
    && (forall i :: 0 <= i < |pieces| ==> c !in pieces[i].arg)
    && (forall i :: 0 <= i < |pieces| ==>
          pieces[i].sep == if i < |pieces| - 1 || line[|line| - 1] == c then [c] else "")
  }

  lemma CutBehindEvery(line: string, c: char)
    requires line != ""
    ensures CutBehind(line, c, SplitAt(line, c))
  {
    SplitAtCuts(line, c);
    WellCutIsBehind(SplitAt(line, c), line, c);
  }

  lemma WellCutIsBehind(pieces: seq<Piece>, line: string, c: char)
    requires Cuts(pieces, line, c) && line != ""
    ensures CutBehind(line, c, pieces)
  {
    PiecesCount(pieces, c);
    LastSeparator(pieces, c);
  }

  /** Cutting a line loses nothing. It is cut behind every ';' if it has one, else
      behind every ' ', and with neither it is one piece; an empty line has none.
      There is no other cut behind these. */
  lemma SplitKeepsLine(line: string)
    ensures Joined(Split(line)) == line
    ensures Split(line) == [] <==> line == ""
    ensures ';' in line ==> CutBehind(line, ';', Split(line))
    ensures ';' !in line && ' ' in line ==> CutBehind(line, ' ', Split(line))
    ensures line != "" && ';' !in line && ' ' !in line ==> Split(line) == [Piece(line, "")]
    ensures forall c, other :: c in line && (c == ';' || (c == ' ' && ';' !in line)) && CutBehind(line, c, other) ==>
              other == Split(line)
  {
    if line != "" && ';' !in line && ' ' !in line {
      assert Joined([Piece(line, "")]) == line + "" + Joined([Piece(line, "")][1..]);
    } else if line != "" {
      var c := if ';' in line then ';' else ' ';
      CutBehindEvery(line, c);
      forall other | CutBehind(line, c, other) ensures other == Split(line) {
        CutBehindIsWellCut(line, c, other);
        CutIsUnique(other, c);
      }
    }
  }

  /** Text ending with `c` and nothing behind it still ends with `c`. */
  lemma EmptyBehind(before: seq<Piece>, p: Piece, c: char)
    requires p.sep == [c]
    ensures var line := Joined(before + [p] + [Piece("", "")]); line != "" && line[|line| - 1] == c
  {
    JoinedSnoc(before + [p], Piece("", ""));
    JoinedSnoc(before, p);
  }

  lemma NothingJoined(pieces: seq<Piece>)
    requires |pieces| == 1 && pieces[0] == Piece("", "")
    ensures Joined(pieces) == ""
  {
  }

  /** What is left behind the last separator is not empty. */
  lemma CutBehindIsWellCut(line: string, c: char, pieces: seq<Piece>)
    requires CutBehind(line, c, pieces)
    ensures WellCut(pieces, c)
  {
    var n := |pieces| - 1;
    if n >= 0 && pieces[n] == Piece("", "") {
      if n == 0 {
        NothingJoined(pieces);
      } else {
        assert pieces == pieces[..n - 1] + [pieces[n - 1]] + [Piece("", "")];
        EmptyBehind(pieces[..n - 1], pieces[n - 1], c);
      }
    }
  }

  /** octetCreateArgvSepv: entry 0 is the line, entries 1 to argc the pieces. */
  method CreateArgvSepv(line: string) returns (argc: nat, argv: seq<string>, sepv: seq<string>)
    requires '\0' !in line
    ensures argc == |Split(line)|
    ensures argv == [line] + Args(Split(line)) && sepv == [""] + Seps(Split(line))
    ensures ';' in line ==> CutBehind(line, ';', Paired(argv[1..], sepv[1..]))
    ensures ';' !in line && ' ' in line ==> CutBehind(line, ' ', Paired(argv[1..], sepv[1..]))
    ensures line != "" && ';' !in line && ' ' !in line ==> argv == [line, line] && sepv == ["", ""]
    ensures line == "" ==> argv == [""] && sepv == [""]
  {
    PairedParts(Split(line));
    SplitKeepsLine(line);
    argc, argv, sepv := 0, [line], [""];
    if line == "" {
      return;
    }
    var separator := Separator(line);
    if separator.None? {
      argc, argv, sepv := 1, argv + [line], sepv + [""];
      assert Args([Piece(line, "")]) == [line] && Seps([Piece(line, "")]) == [""];
      return;
    }
    var pieces := CutLine(line, separator.value);
    argc, argv, sepv := |pieces|, argv + Args(pieces), sepv + Seps(pieces);
  }

  function Args(pieces: seq<Piece>): (r: seq<string>)
    ensures |r| == |pieces|
  {
    seq(|pieces|, i requires 0 <= i < |pieces| => pieces[i].arg)
  }

  function Seps(pieces: seq<Piece>): (r: seq<string>)
    ensures |r| == |pieces|
  {
    seq(|pieces|, i requires 0 <= i < |pieces| => pieces[i].sep)
  }

  /** Commands and separators side by side. */
  function Paired(args: seq<string>, seps: seq<string>): (r: seq<Piece>)
    requires |args| == |seps|
    ensures |r| == |args|
  {
    seq(|args|, i requires 0 <= i < |args| => Piece(args[i], seps[i]))
  }

  lemma PairedParts(pieces: seq<Piece>)
    ensures Paired(Args(pieces), Seps(pieces)) == pieces
  {
  }

  /** The loop that walks the line from separator to separator. */
  method CutLine(line: string, c: char) returns (pieces: seq<Piece>)
    requires line != ""
    ensures pieces == SplitAt(line, c)
  {
    var rest := line;
    pieces := [];
    while true
      invariant rest != ""
      invariant pieces + SplitAt(rest, c) == SplitAt(line, c)
      decreases |rest|
    {
      var piece, next := CutOne(rest, c);
      Regroup(pieces, piece, SplitAt(next, c));
      pieces := pieces + [piece];
      rest := next;
      if rest == "" {
        break;
      }
    }
  }

  lemma Regroup(before: seq<Piece>, piece: Piece, rest: seq<Piece>)
    ensures before + ([piece] + rest) == before + [piece] + rest
  {
  }

  /** The piece at the front, and where the next one begins. */
  method CutOne(argBegin: string, c: char) returns (piece: Piece, next: string)
    requires argBegin != ""
    ensures SplitAt(argBegin, c) == [piece] + SplitAt(next, c) && |next| < |argBegin|
  {
    var argEnd := FirstIndex(argBegin, c);
    if argEnd < |argBegin| {
      return Piece(argBegin[..argEnd], [c]), argBegin[argEnd + 1..];
    }
    return Piece(argBegin, ""), "";
  }

  // ----- answering -----

  /** What one command does: the state it leaves, the texts it prints, its error code. */
  datatype Reply<S> = Reply(next: S, texts: seq<string>, code: int)

  /** From the state, the command and what the output buffer holds before it:
      a command can see how much room is left. */
  type Handler<!S> = (S, string, string) -> Reply<S>

  /** Handlers print through formatted prints of limited length. */
  ghost predicate Prints<S(!new)>(h: Handler<S>) {
    forall s, arg, contents :: Printable(h(s, arg, contents).texts)
  }

  predicate Printable(texts: seq<string>) {
    forall i :: 0 <= i < |texts| ==> |texts[i]| <= PRINT_LIMIT
  }

  /** Where a line starts out: the buffer's size and contents, and the handler's state. */
  datatype Start<S> = Start(size: nat, was: string, state: S)

  /** After some of a line's commands: the state, all that was printed, and the code kept. */
  datatype Progress<S> = Progress(state: S, printed: seq<string>, latched: int)

  /** What is in the buffer by then. */
  function Held<S>(st: Start<S>, p: Progress<S>): string {
    AppendAll(st.size, st.was, p.printed)
  }

  /** After the first `k` commands: each meets the state and the buffer the ones
      before it left, whatever their codes were. */
  function After<S>(h: Handler<S>, st: Start<S>, pieces: seq<Piece>, k: nat): Progress<S>
    requires k <= |pieces|
  {
    if k == 0 then Progress(st.state, [], 0)
    else
      var p := After(h, st, pieces, k - 1);
      var reply := h(p.state, pieces[k - 1].arg, Held(st, p));
      Progress(reply.next, p.printed + (reply.texts + [pieces[k - 1].sep]),
               if p.latched != 0 then p.latched else reply.code)
  }

  function ReplyAt<S>(h: Handler<S>, st: Start<S>, pieces: seq<Piece>, i: nat): Reply<S>
    requires i < |pieces|
  {
    var p := After(h, st, pieces, i);
    h(p.state, pieces[i].arg, Held(st, p))
  }

  /** The code is zero exactly when all commands succeeded, and otherwise that of the first that failed. */
  lemma {:induction false} LatchedIsFirst<S>(h: Handler<S>, st: Start<S>, pieces: seq<Piece>, k: nat)
    requires k <= |pieces|
    ensures var code := After(h, st, pieces, k).latched;
            && (code == 0 <==> forall i :: 0 <= i < k ==> ReplyAt(h, st, pieces, i).code == 0)
            && (code != 0 ==>
                  exists i :: 0 <= i < k && ReplyAt(h, st, pieces, i).code == code
                              && forall j :: 0 <= j < i ==> ReplyAt(h, st, pieces, j).code == 0)
    decreases k
  {
    if k > 0 {
      LatchedIsFirst(h, st, pieces, k - 1);
      var last := ReplyAt(h, st, pieces, k - 1);
    }
  }

  /** octetMotorHandleOneArg: what it prints goes to the buffer text by text. */
  method PrintAll(buf: OutputBuffer, texts: seq<string>)
    requires buf.Valid() && Printable(texts)
    modifies buf, buf.buffer
    ensures buf.Valid() && buf.Contents() == AppendAll(buf.bufferSize, old(buf.Contents()), texts)
  {
    ghost var was := buf.Contents();
    for i := 0 to |texts|
      invariant buf.Valid() && buf.Contents() == AppendAll(buf.bufferSize, was, texts[..i])
    {
      assert texts[..i + 1] == texts[..i] + [texts[i]];
      AppendAllSnoc(buf.bufferSize, was, texts[..i], texts[i]);
      buf.Printf(texts[i]);
    }
    assert texts[..|texts|] == texts;
  }

  /** One command: run it, print what it prints, then its separator. */
  method HandleOne<S(!new)>(h: Handler<S>, s: S, arg: string, sep: string, buf: OutputBuffer) returns (next: S, code: int)
    requires buf.Valid() && |sep| <= PRINT_LIMIT && Prints(h)
    modifies buf, buf.buffer
    ensures var reply := h(s, arg, old(buf.Contents()));
            && buf.Valid() && next == reply.next && code == reply.code
            && buf.Contents() == AppendAll(buf.bufferSize, old(buf.Contents()), reply.texts + [sep])
  {
    var reply := h(s, arg, buf.buffer[..buf.bytesUsed]);
    AppendAllSnoc(buf.bufferSize, buf.Contents(), reply.texts, sep);
    PrintAll(buf, reply.texts);
    buf.Printf(sep);
    next, code := reply.next, reply.code;
  }

  /** What the state, the buffer and the kept code are one command further: the
      command meets the state and the buffer the ones before it left. */
  lemma OneMoreCommand<S>(h: Handler<S>, st: Start<S>, pieces: seq<Piece>, i: nat, next: nat)
    requires next == i + 1 <= |pieces|
    ensures var before, after, reply :=
              After(h, st, pieces, i), After(h, st, pieces, next), ReplyAt(h, st, pieces, i);
            && reply == h(before.state, pieces[i].arg, Held(st, before))
            && after.state == reply.next && after.printed == before.printed + reply.texts + [pieces[i].sep]
            && Held(st, after) == AppendAll(st.size, Held(st, before), reply.texts + [pieces[i].sep])
            && after.latched == if before.latched != 0 then before.latched else reply.code
  {
    assert next - 1 == i;
    AppendAllJoin(st.size, st.was, After(h, st, pieces, i).printed, ReplyAt(h, st, pieces, i).texts + [pieces[i].sep]);
  }

  lemma SeparatorsShort(line: string, i: nat)
    requires i < |Split(line)|
    ensures |Split(line)[i].sep| <= 1
  {
    SplitKeepsLine(line);
  }

  /** octetCmdHandleInputLine: every command is run, also behind one that failed. */
  method HandleInputLine<S(!new)>(h: Handler<S>, s: S, inputLine: string, buf: OutputBuffer)
    returns (final: S, errorCodeLatch: int)
    requires buf.Valid() && '\0' !in inputLine && Prints(h)
    modifies buf, buf.buffer
    ensures buf.Valid()
    ensures var st := Start(buf.bufferSize, old(buf.Contents()), s);
            var end := After(h, st, Split(inputLine), |Split(inputLine)|);
            buf.Contents() == Held(st, end) && final == end.state && errorCodeLatch == end.latched
  {
    var argc, argv, sepv := CreateArgvSepv(inputLine);
    forall i | 0 <= i < argc ensures |Split(inputLine)[i].sep| <= 1 {
      SeparatorsShort(inputLine, i);
    }
    final, errorCodeLatch := RunCommands(h, s, argc, argv, sepv, Split(inputLine), buf);
  }

  /** The commands in order, each with what it prints and its separator. */
  method RunCommands<S(!new)>(h: Handler<S>, s: S, argc: nat, argv: seq<string>, sepv: seq<string>,
                              ghost pieces: seq<Piece>, buf: OutputBuffer)
    returns (final: S, errorCodeLatch: int)
    requires buf.Valid() && Prints(h) && argc == |pieces| && |argv| == |sepv| == argc + 1
    requires argv[1..] == Args(pieces) && sepv[1..] == Seps(pieces)
    requires forall i :: 0 <= i < argc ==> |pieces[i].sep| <= 1
    modifies buf, buf.buffer
    ensures buf.Valid()
    ensures var st := Start(buf.bufferSize, old(buf.Contents()), s); var end := After(h, st, pieces, |pieces|);
            buf.Contents() == Held(st, end) && final == end.state && errorCodeLatch == end.latched
  {
    ghost var st := Start(buf.bufferSize, buf.Contents(), s);
    errorCodeLatch, final := 0, s;
    var i: nat := 0;
    while i < argc
      invariant i <= argc && buf.Valid()
      invariant buf.Contents() == Held(st, After(h, st, pieces, i))
      invariant final == After(h, st, pieces, i).state && errorCodeLatch == After(h, st, pieces, i).latched
    {
      var next: nat := i + 1;
      assert argv[next] == argv[1..][i] == pieces[i].arg && sepv[next] == sepv[1..][i] == pieces[i].sep;
      OneMoreCommand(h, st, pieces, i, next);
      var errorCode;
      final, errorCode := HandleOne(h, final, argv[next], sepv[next], buf);
      if errorCode != 0 && errorCodeLatch == 0 {
        errorCodeLatch := errorCode;
      }
      i := next;
    }
    assert i == argc;
  }

  // ----- line ends -----

  /** A line end the reply gets back: LF or CR LF, stripped only from a text that is longer than it. */
  function LineEnd(input: string): (tail: string)
    ensures |tail| <= |input| && input[|input| - |tail|..] == tail
    ensures tail == "" || tail == "\n" || tail == "\r\n"
    ensures tail == "" <==> |input| <= 1 || input[|input| - 1] != '\n'
    ensures tail == "\r\n" <==> |input| > 2 && input[|input| - 1] == '\n' && input[|input| - 2] == '\r'
  {
    var n := |input|;
    if n > 1 && input[n - 1] == '\n' then
      if n > 2 && input[n - 2] == '\r' then "\r\n" else "\n"
    else ""
  }

  /** The command line: up to its first NUL, without the line end. */
  function Line(input: string): (line: string)
    ensures '\0' !in line
  {
    CString(input[..|input| - |LineEnd(input)|])
  }

  /** All commands of a text. */
  function Commands(input: string): seq<Piece> {
    Split(Line(input))
  }

  function End<S>(h: Handler<S>, st: Start<S>, input: string): Progress<S> {
    After(h, st, Commands(input), |Commands(input)|)
  }

  /** All that one write prints. */
  function Response<S>(h: Handler<S>, st: Start<S>, input: string): seq<string> {
    End(h, st, input).printed + [LineEnd(input)]
  }

  /** octetCMDwriteIt. */
  method WriteIt<S(!new)>(h: Handler<S>, s: S, inbuf: string, buf: OutputBuffer) returns (final: S, errorCode: int)
    requires buf.Valid() && Prints(h)
    modifies buf, buf.buffer
    ensures buf.Valid()
    ensures inbuf == "" ==> errorCode == -1 && final == s && buf.Contents() == old(buf.Contents())
    ensures inbuf != "" ==>
              var st := Start(buf.bufferSize, old(buf.Contents()), s);
              && buf.Contents() == AppendAll(buf.bufferSize, old(buf.Contents()), Response(h, st, inbuf))
              && final == End(h, st, inbuf).state && errorCode == End(h, st, inbuf).latched
  {
    var inlen := |inbuf|;
    if inlen == 0 {
      return s, -1;
    }
    var hadCr, hadLf := false, false;
    if inlen > 1 && inbuf[inlen - 1] == '\n' {
      hadLf := true;
      inlen := inlen - 1;
      if inlen > 1 && inbuf[inlen - 1] == '\r' {
        hadCr := true;
        inlen := inlen - 1;
      }
    }
    final, errorCode := Respond(h, s, inbuf, CString(inbuf[..inlen]),
                                (if hadCr then "\r" else "") + (if hadLf then "\n" else ""), buf);
  }

  /** The line's replies, then the line end. */
  method Respond<S(!new)>(h: Handler<S>, s: S, ghost inbuf: string, line: string, tail: string, buf: OutputBuffer)
    returns (final: S, errorCode: int)
    requires buf.Valid() && Prints(h) && line == Line(inbuf) && tail == LineEnd(inbuf)
    modifies buf, buf.buffer
    ensures buf.Valid()
    ensures var st := Start(buf.bufferSize, old(buf.Contents()), s);
            && buf.Contents() == AppendAll(buf.bufferSize, old(buf.Contents()), Response(h, st, inbuf))
            && final == End(h, st, inbuf).state && errorCode == End(h, st, inbuf).latched
  {
    ghost var st := Start(buf.bufferSize, buf.Contents(), s);
    AppendAllSnoc(buf.bufferSize, buf.Contents(), End(h, st, inbuf).printed, tail);
    final, errorCode := HandleInputLine(h, s, line, buf);
    buf.Printf(tail);
  }

  // ----- framing -----

  /** The pieces with each command replaced by what it printed. */
  function Answered<S>(h: Handler<S>, st: Start<S>, pieces: seq<Piece>): (r: seq<Piece>)
    ensures |r| == |pieces|
  {
    seq(|pieces|, i requires 0 <= i < |pieces| => Piece(Concat(ReplyAt(h, st, pieces, i).texts), pieces[i].sep))
  }

  lemma {:induction false} JoinedSnoc(pieces: seq<Piece>, p: Piece)
    ensures Joined(pieces + [p]) == Joined(pieces) + p.arg + p.sep
    decreases |pieces|
  {
    if pieces == [] {
      assert pieces + [p] == [p] && Joined([p]) == p.arg + p.sep + Joined([p][1..]);
    } else {
      var first, rest := pieces[0], pieces[1..];
      JoinedSnoc(rest, p);
      assert pieces + [p] == [first] + (rest + [p]);
      JoinedCons(first, rest + [p]);
    }
  }

  lemma {:induction false} PrintedIsAnswered<S>(h: Handler<S>, st: Start<S>, pieces: seq<Piece>, k: nat)
    requires k <= |pieces|
    ensures Concat(After(h, st, pieces, k).printed) == Joined(Answered(h, st, pieces)[..k])
    decreases k
  {
    if k > 0 {
      var before: nat := k - 1;
      PrintedIsAnswered(h, st, pieces, before);
      OneMoreAnswer(h, st, pieces, before, k);
    }
  }

  lemma OneMoreAnswer<S>(h: Handler<S>, st: Start<S>, pieces: seq<Piece>, before: nat, k: nat)
    requires before + 1 == k <= |pieces|
    requires Concat(After(h, st, pieces, before).printed) == Joined(Answered(h, st, pieces)[..before])
    ensures Concat(After(h, st, pieces, k).printed) == Joined(Answered(h, st, pieces)[..k])
  {
    assert k - 1 == before;
    JoinStep(After(h, st, pieces, before).printed, ReplyAt(h, st, pieces, before).texts, pieces[before].sep,
             Answered(h, st, pieces)[..before]);
    PrefixSnoc(Answered(h, st, pieces), before, k);
  }

  lemma PrefixSnoc<T>(xs: seq<T>, before: nat, k: nat)
    requires before + 1 == k <= |xs|
    ensures xs[..k] == xs[..before] + [xs[before]]
  {
  }

  lemma JoinStep(printed: seq<string>, texts: seq<string>, sep: string, answered: seq<Piece>)
    requires Concat(printed) == Joined(answered)
    ensures Concat(printed + (texts + [sep])) == Joined(answered + [Piece(Concat(texts), sep)])
  {
    ConcatAppend(printed, texts + [sep]);
    ConcatSnoc(texts, sep);
    JoinedSnoc(answered, Piece(Concat(texts), sep));
  }

  /** The input is its pieces and its line end, exactly when it holds no NUL. */
  lemma InputIsFramed(input: string)
    ensures input == Joined(Commands(input)) + LineEnd(input) <==> '\0' !in input
  {
    var tail := LineEnd(input);
    var body := input[..|input| - |tail|];
    assert input == body + tail;
    SplitKeepsLine(Line(input));
    CStringWhole(body);
    if Line(input) + tail == input {
      assert Line(input) == body;
    }
  }

  lemma ResponseIsAnswered<S>(h: Handler<S>, st: Start<S>, input: string)
    ensures Concat(Response(h, st, input)) == Joined(Answered(h, st, Commands(input))) + LineEnd(input)
  {
    var pieces := Commands(input);
    PrintedIsAnswered(h, st, pieces, |pieces|);
    assert Answered(h, st, pieces)[..|pieces|] == Answered(h, st, pieces);
    ConcatSnoc(End(h, st, input).printed, LineEnd(input));
  }

  /** Whatever the commands print, given the room each one finds, the reply is
      the input with each command replaced by what it printed and every separator
      and the line end kept, exactly when that fits; otherwise a part is missing. */
  lemma ReplyFraming<S>(h: Handler<S>, st: Start<S>, input: string)
    requires '\0' !in input && |st.was| + 2 <= st.size
    ensures input == Joined(Commands(input)) + LineEnd(input)
    ensures var reply := Joined(Answered(h, st, Commands(input))) + LineEnd(input);
            AppendAll(st.size, st.was, Response(h, st, input)) == st.was + reply <==> Fits(st.size, st.was, reply)
  {
    InputIsFramed(input);
    ResponseIsAnswered(h, st, input);
    AppendAllWholeIff(st.size, st.was, Response(h, st, input));
  }

  /** A handler that answers with the command itself. */
  function Echo<S>(): Handler<S> {
    (s, arg, contents) => Reply(s, [arg], 0)
  }

  /** Echoed commands give back the input byte for byte, exactly when it holds no NUL. */
  lemma EchoGivesBackInputIff<S>(st: Start<S>, input: string)
    ensures Concat(Response(Echo(), st, input)) == input <==> '\0' !in input
  {
    ResponseIsAnswered(Echo(), st, input);
    EchoAnswers(st, Commands(input));
    InputIsFramed(input);
  }

  lemma EchoAnswers<S>(st: Start<S>, pieces: seq<Piece>)
    ensures Answered(Echo(), st, pieces) == pieces
  {
    forall i | 0 <= i < |pieces| ensures Answered(Echo(), st, pieces)[i] == pieces[i] {
      var text := pieces[i].arg;
      assert Concat([text]) == Concat([text][..0]) + text;
    }
  }
}
