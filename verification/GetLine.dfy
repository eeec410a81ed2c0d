/**
 * `get_line` of tinyHttp/httpd.c: one line from a socket, with CR LF and a lone CR both stored as LF, cut
 * short when the caller's buffer is full. Characters stand for bytes.
 */
module GetLine {

  // ---------------------------------------------------------------- line endings

  /** How much of the stream makes up its first character. */
  function Width(s: string): (n: nat)
    requires s != ""
    ensures 1 <= n <= |s|
  {
    if s[0] == '\r' && |s| > 1 && s[1] == '\n' then 2 else 1
  }

  function Head(s: string): string
    requires s != ""
  {
    if s[0] == '\r' then "\n" else s[..1]
  }

  /** The stream with CR LF and lone CR replaced by LF. */
  function Normalize(s: string): string {
    if s == "" then "" else Head(s) + Normalize(s[Width(s)..])
  }

  /** No carriage return survives, and the result is empty only for the empty stream. */
  lemma {:induction false} NormalizedHasNoReturn(s: string)
    ensures '\r' !in Normalize(s) && (Normalize(s) == "" <==> s == "")
  {
    if s != "" {
      NormalizedHasNoReturn(s[Width(s)..]);
    }
  }

  lemma {:induction false} NoReturnIsNormal(s: string)
    requires '\r' !in s
    ensures Normalize(s) == s
  {
    if s != "" {
      NoReturnIsNormal(s[1..]);
    }
  }

  lemma NormalizeTwice(s: string)
    ensures Normalize(Normalize(s)) == Normalize(s)
  {
    NormalizedHasNoReturn(s);
    NoReturnIsNormal(Normalize(s));
  }

  /** The boundary between `a` and `b` falls inside a CR LF pair. */
  predicate SplitsPair(a: string, b: string) {
    a != "" && b != "" && a[|a| - 1] == '\r' && b[0] == '\n'
  }

  lemma NormalizeStep(a: string, b: string)
    requires a != "" && !(a == "\r" && SplitsPair(a, b))
    ensures Normalize(a + b) == Head(a) + Normalize(a[Width(a)..] + b)
    ensures Normalize(a) == Head(a) + Normalize(a[Width(a)..])
  {
    assert (a + b)[Width(a)..] == a[Width(a)..] + b && Width(a + b) == Width(a) && Head(a + b) == Head(a);
  }

  lemma PairSplit(b: string)
    requires SplitsPair("\r", b)
    ensures |Normalize("\r" + b)| == |Normalize(b)|
    ensures Normalize("\r") == "\n"
  {
    assert ("\r" + b)[2..] == b[1..];
    assert Normalize("\r"[1..]) == "";
  }

  /** A stream may be normalized in pieces exactly when no boundary falls inside a CR LF pair. */
  lemma {:induction false} NormalizeInPieces(a: string, b: string)
    ensures Normalize(a + b) == Normalize(a) + Normalize(b) <==> !SplitsPair(a, b)
  {
    hide Normalize;
    if a == "" {
      assert a + b == b && Normalize(a) == "" by {
        NormalizedHasNoReturn(a);
      }
    } else if a == "\r" && SplitsPair(a, b) {
      PairSplit(b);
    } else {
      var rest := a[Width(a)..];
      NormalizeStep(a, b);
      NormalizeInPieces(rest, b);
      SameTail(Head(a), Normalize(rest + b), Normalize(rest) + Normalize(b));
      assert Normalize(a) + Normalize(b) == Head(a) + (Normalize(rest) + Normalize(b));
    }
  }

  lemma NormalizePrefix(a: string, head: string, b: string, line: string)
    requires head != "" && !SplitsPair(a, head + b) && Normalize(head + b) == line + Normalize(b)
    ensures Normalize(a + head + b) == Normalize(a) + line + Normalize(b)
  {
    hide Normalize;
    NormalizeInPieces(a, head + b);
    assert a + head + b == a + (head + b);
    assert Normalize(a) + (line + Normalize(b)) == Normalize(a) + line + Normalize(b);
  }

  /** What becomes of each kind of character, wherever it stands: CR LF is one LF, a CR before anything else is an
      LF, and every other character, except the LF of a pair, is itself. */
  lemma LineEndings(a: string, b: string, c: char)
    ensures Normalize(a + "\r\n" + b) == Normalize(a) + "\n" + Normalize(b)
    ensures b == "" || b[0] != '\n' ==> Normalize(a + "\r" + b) == Normalize(a) + "\n" + Normalize(b)
    ensures c != '\r' && !SplitsPair(a, [c]) ==> Normalize(a + [c] + b) == Normalize(a) + [c] + Normalize(b)
  {
    assert ("\r\n" + b)[2..] == b && ("\r" + b)[1..] == b && ([c] + b)[1..] == b;
    NormalizePrefix(a, "\r\n", b, "\n");
    if b == "" || b[0] != '\n' {
      NormalizePrefix(a, "\r", b, "\n");
    }
    if c != '\r' && !SplitsPair(a, [c]) {
      assert ([c] + b)[..1] == [c];
      NormalizePrefix(a, [c], b, [c]);
    }
  }

  lemma SameTail(head: string, x: string, y: string)
    ensures head + x == head + y <==> x == y
  {
    assert (head + x)[|head|..] == x && (head + y)[|head|..] == y;
  }

  // ---------------------------------------------------------------- lines

  /** Up to and with the first LF, but at most `max` characters. */
  function FirstLine(text: string, max: nat): (line: string)
    ensures line <= text && |line| <= max
  {
    if text == "" || max == 0 then ""
    else if text[0] == '\n' then "\n"
    else text[..1] + FirstLine(text[1..], max - 1)
  }

  /** The first `n` characters have an LF last or not at all, and stop short of one only at the end of the text
      or of the room. */
  ghost predicate IsLine(text: string, max: nat, n: nat)
    requires n <= |text|
  {
    && n <= max && (forall k :: 0 <= k < n - 1 ==> text[k] != '\n')
    && (n == max || n == |text| || (n > 0 && text[n - 1] == '\n'))
  }

  lemma LineFromSecond(text: string, max: nat, n: nat)
    requires 0 < n <= |text| && max > 0 && text[0] != '\n'
    ensures IsLine(text, max, n) <==> IsLine(text[1..], max - 1, n - 1)
  {
    var rest := text[1..];
    assert forall k :: 0 <= k < n - 2 ==> rest[k] == text[k + 1];
    assert forall k :: 0 < k < n - 1 ==> text[k] == rest[k - 1];
  }

  lemma ShortLine(text: string, max: nat, n: nat)
    requires n <= |text| && (text == "" || max == 0 || text[0] == '\n' || n == 0)
    ensures FirstLine(text, max) == text[..n] <==> IsLine(text, max, n)
  {
    assert n > 0 ==> text[..n][0] == text[0];
  }

  lemma LongLine(text: string, max: nat, n: nat)
    requires 0 < n <= |text| && max > 0 && text[0] != '\n'
    ensures FirstLine(text, max) == text[..n] <==> FirstLine(text[1..], max - 1) == text[1..][..n - 1]
  {
    var rest := text[1..];
    assert text[..n] == text[..1] + rest[..n - 1];
    SameTail(text[..1], FirstLine(rest, max - 1), rest[..n - 1]);
  }

  lemma {:induction false} FirstLineIs(text: string, max: nat, n: nat)
    requires n <= |text|
    ensures FirstLine(text, max) == text[..n] <==> IsLine(text, max, n)
  {
    if text != "" && max != 0 && text[0] != '\n' && n > 0 {
      hide FirstLine, IsLine;
      FirstLineIs(text[1..], max - 1, n - 1);
      LineFromSecond(text, max, n);
      LongLine(text, max, n);
    } else {
      ShortLine(text, max, n);
    }
  }

  /** The results of repeated calls with room for `max` characters, until one is empty. */
  function Lines(text: string, max: nat): seq<string>
    decreases |text|
  {
    var line := FirstLine(text, max);
    if line == "" then [] else [line] + Lines(text[|line|..], max)
  }

  function Join(lines: seq<string>): string {
    if lines == [] then "" else lines[0] + Join(lines[1..])
  }

  lemma JoinNone()
    ensures Join([]) == ""
  {
  }

  lemma JoinCons(line: string, lines: seq<string>)
    ensures Join([line] + lines) == line + Join(lines)
  {
    assert ([line] + lines)[1..] == lines;
  }

  /** Nothing is lost or doubled wherever the buffer cuts, exactly when there is room for a character at all. */
  lemma {:induction false} LinesJoin(text: string, max: nat)
    ensures Join(Lines(text, max)) == text <==> max > 0 || text == ""
    decreases |text|
  {
    hide Join;
    var line := FirstLine(text, max);
    if line == "" {
      JoinNone();
    } else {
      var rest := text[|line|..];
      LinesJoin(rest, max);
      JoinCons(line, Lines(rest, max));
      SameTail(line, Join(Lines(rest, max)), rest);
      assert text == line + rest;
    }
  }

  /** Every line but the last ends in LF or fills the buffer. */
  lemma {:induction false} LineEnds(text: string, max: nat, i: nat)
    requires i + 1 < |Lines(text, max)|
    ensures var line := Lines(text, max)[i]; line != "" && (line[|line| - 1] == '\n' || |line| == max)
    decreases |text|
  {
    var line := FirstLine(text, max);
    FirstLineIs(text, max, |line|);
    if i > 0 {
      LineEnds(text[|line|..], max, i - 1);
    }
  }

  // ---------------------------------------------------------------- the program

  /** A connection whose peer sends `data` and then no more. */
  class Socket {
    const data: string
    var pos: nat

    constructor (data: string)
      ensures this.data == data && pos == 0
    {
      this.data, pos := data, 0;
    }

    ghost predicate Valid()
      reads this
    {
      pos <= |data|
    }

    /** What has not been received yet. */
    function Rest(): string
      reads this
      requires Valid()
    {
      data[pos..]
    }

    /** `recv` of one byte: 1 with the byte, or 0 at the end, leaving the caller's byte as it was. */
    method Recv(c: char) returns (n: int, c': char)
      requires Valid()
      modifies this
      ensures Valid()
      ensures old(Rest()) == "" ==> n == 0 && c' == c && Rest() == ""
      ensures old(Rest()) != "" ==> n == 1 && old(Rest()) == [c'] + Rest()
    {
      if pos == |data| {
        return 0, c;
      }
      n, c', pos := 1, data[pos], pos + 1;
    }

    /** `recv` with MSG_PEEK. */
    method Peek(c: char) returns (n: int, c': char)
      requires Valid()
      ensures Rest() == "" ==> n == 0 && c' == c
      ensures Rest() != "" ==> n == 1 && c' == Rest()[0]
    {
      if pos == |data| {
        return 0, c;
      }
      n, c' := 1, data[pos];
    }
  }

  /** The receiving part of the loop body: one character of the normalized stream. */
  method RecvChar(sock: Socket, c: char) returns (n: int, c': char)
    requires sock.Valid()
    modifies sock
    ensures sock.Valid()
    ensures old(sock.Rest()) == "" ==> n == 0 && sock.Rest() == ""
    ensures old(sock.Rest()) != "" ==>
              n > 0 && Normalize(old(sock.Rest())) == [c'] + Normalize(sock.Rest())
  {
    ghost var rest := sock.Rest();
    n, c' := sock.Recv(c);
    if n > 0 {
      assert sock.Rest() == rest[1..];
      if c' == '\r' {
        var m;
        m, c' := sock.Peek(c');
        if m > 0 && c' == '\n' {
          m, c' := sock.Recv(c');
          assert sock.Rest() == rest[2..];
        } else {
          c' := '\n';
        }
      }
    }
  }

  /** `buf[i] = c`, after `line` has been stored. */
  method Store(buf: array<char>, i: nat, c: char, ghost line: string)
    requires i < buf.Length && buf[..i] == line
    modifies buf
    ensures buf[..i + 1] == line + [c] && forall k :: i < k < buf.Length ==> buf[k] == old(buf[k])
  {
    buf[i] := c;
  }

  /** What the loop has stored, with `c` its last character and `rest` still to come. */
  ghost predicate Stored(line: string, c: char, rest: string) {
    && (forall k :: 0 <= k < |line| - 1 ==> line[k] != '\n')
    && if c == '\n' then rest == "" || (line != "" && line[|line| - 1] == '\n') else '\n' !in line
  }

  lemma NothingStored(rest: string)
    ensures Stored("", '\0', rest)
  {
  }

  lemma Regroup(line: string, c: char, more: string)
    ensures line + ([c] + more) == (line + [c]) + more
  {
  }

  lemma StoredMore(line: string, c: char, rest: string, c': char, rest': string)
    requires Stored(line, c, rest) && c != '\n'
    ensures Stored(line + [c'], c', rest') && (rest' == "" ==> Stored(line, '\n', rest'))
  {
  }

  /** When the loop ends, that is a line. */
  lemma LineEnded(text: string, line: string, rest: string, max: nat, c: char)
    requires text == line + Normalize(rest) && |line| <= max && (|line| == max || c == '\n')
    requires Stored(line, c, rest)
    ensures IsLine(text, max, |line|) && text[..|line|] == line && text[|line|..] == Normalize(rest)
  {
    NormalizedHasNoReturn(rest);
  }

  /** `get_line`: the first line of the normalized stream, NUL-terminated, with the rest left in the socket. */
  method GetLine(sock: Socket, buf: array<char>, size: nat) returns (len: nat)
    requires sock.Valid() && 1 <= size <= buf.Length
    modifies sock, buf
    ensures sock.Valid() && len < size
    ensures buf[..len] == FirstLine(Normalize(old(sock.Rest())), size - 1) && buf[len] == '\0'
    ensures Normalize(sock.Rest()) == Normalize(old(sock.Rest()))[len..]
    ensures forall k :: len < k < buf.Length ==> buf[k] == old(buf[k])
  {
    hide Normalize, FirstLine, IsLine, Stored;
    ghost var text, line := Normalize(sock.Rest()), "";
    var i: nat, c, n := 0, '\0', 0;
    NothingStored(sock.Rest());
    while i < size - 1 && c != '\n'
      invariant sock.Valid() && i <= size - 1 && line == buf[..i]
      invariant text == line + Normalize(sock.Rest()) && Stored(line, c, sock.Rest())
      invariant forall k :: i <= k < buf.Length ==> buf[k] == old(buf[k])
      decreases |text| - i + if c == '\n' then 0 else 1
    {
      ghost var before, rest := c, sock.Rest();
      n, c := RecvChar(sock, c);
      StoredMore(line, before, rest, c, sock.Rest());
      if n > 0 {
        Regroup(line, c, Normalize(sock.Rest()));
        Store(buf, i, c, line);
        i, line := i + 1, line + [c];
      } else {
        c := '\n';
      }
    }
    LineEnded(text, line, sock.Rest(), size - 1, c);
    FirstLineIs(text, size - 1, i);
    buf[i] := '\0';
    len := i;
    assert buf[..len] == line;
  }

  /** Calling `get_line` until it returns 0. */
  method Drain(sock: Socket, size: nat) returns (lines: seq<string>)
    requires sock.Valid() && size >= 1
    modifies sock
    ensures sock.Valid()
    ensures lines == Lines(Normalize(old(sock.Rest())), size - 1)
    ensures Join(lines) == Normalize(old(sock.Rest())) <==> size >= 2 || old(sock.Rest()) == ""
  {
    hide Normalize;
    hide FirstLine;
    var buf := new char[size];
    ghost var text := Normalize(sock.Rest());
    ghost var t := text;         // the text before the last call
    lines := [];
    var len: nat := GetLine(sock, buf, size);
    while len > 0
      invariant sock.Valid() && len < size && len <= |t|
      invariant Lines(text, size - 1) == lines + Lines(t, size - 1)
      invariant buf[..len] == FirstLine(t, size - 1) && Normalize(sock.Rest()) == t[len..]
      decreases |t|
    {
      lines := lines + [buf[..len]];
      t := t[len..];
      len := GetLine(sock, buf, size);
    }
    NormalizedHasNoReturn(old(sock.Rest()));
    LinesJoin(text, size - 1);
  }
}
