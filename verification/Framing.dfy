/**
 Newline framing on the tunnel's control stream.

 A message is written followed by a newline; a reader takes bytes up to and including the next
 newline and trims newlines and carriage returns off the end.
 */
module Framing {
  type Message = seq<char>

  predicate IsLineEnd(c: char) {
    c == '\n' || c == '\r'
  }

  function Trim(line: Message): Message {
    if line != [] && IsLineEnd(line[|line| - 1]) then Trim(line[..|line| - 1]) else line
  }

  method TrimQUICLine(line: Message) returns (r: Message)
    ensures r == Trim(line)
  {
    r := line;
    while |r| > 0 && (r[|r| - 1] == '\n' || r[|r| - 1] == '\r')
      invariant Trim(r) == Trim(line)
      decreases |r|
    {
      r := r[..|r| - 1];
    }
  }

  /** Bytes before the first newline, or all of them. */
  function LineLength(s: Message): (n: nat)
    ensures n <= |s|
    ensures n < |s| ==> s[n] == '\n'
    ensures forall i :: 0 <= i < n ==> s[i] != '\n'
  {
    if s == [] || s[0] == '\n' then 0 else 1 + LineLength(s[1..])
  }

  function WriteAll(messages: seq<Message>): Message {
    if messages == [] then [] else messages[0] + ['\n'] + WriteAll(messages[1..])
  }

  /** Reading to newline and trimming until no newline is left: the messages, and what stays unread. */
  function ReadAll(s: Message): (seq<Message>, Message)
    decreases |s|
  {
    var n := LineLength(s);
    if n == |s| then ([], s)
    else
      var (rest, left) := ReadAll(s[n + 1..]);
      ([Trim(s[..n + 1])] + rest, left)
  }

  class Stream {
    var unread: Message

    method WriteQUICLine(payload: Message)
      modifies this
      ensures unread == old(unread) + payload + ['\n']
    {
      unread := unread + (payload + ['\n']);
    }

    /** ReadBytes: fails, with what is left, when no newline follows. */
    method ReadLine() returns (ok: bool, line: Message)
      modifies this
      ensures var n := LineLength(old(unread));
              if n == |old(unread)| then !ok && line == old(unread) && unread == []
              else ok && line == old(unread)[..n + 1] && unread == old(unread)[n + 1..]
    {
      var n := 0;
      while n < |unread| && unread[n] != '\n'
        invariant 0 <= n <= |unread|
        invariant LineLength(unread) == n + LineLength(unread[n..])
      {
        assert unread[n..][1..] == unread[n + 1..];
        n := n + 1;
      }
      if n == |unread| {
        ok, line, unread := false, unread, [];
      } else {
        ok, line, unread := true, unread[..n + 1], unread[n + 1..];
      }
    }

    /** The reader's loop: every complete line, trimmed. */
    method ReadMessages() returns (messages: seq<Message>)
      modifies this
      ensures messages == ReadAll(old(unread)).0
    {
      messages := [];
      ghost var all := unread;
      while true
        invariant ReadAll(all).0 == messages + ReadAll(unread).0
        decreases |unread|
      {
        ghost var before := unread;
        var ok, line := ReadLine();
        if !ok {
          assert messages + [] == messages;
          return;
        }
        var message := TrimQUICLine(line);
        assert ReadAll(before).0 == [message] + ReadAll(unread).0;
        assert messages + ([message] + ReadAll(unread).0) == messages + [message] + ReadAll(unread).0;
        messages := messages + [message];
      }
    }
  }

  // ---------------------------------------------------------------- the round trip

  /** What a JSON encoding guarantees: no newline inside, no carriage return at the end. */
  predicate Framable(m: Message) {
    '\n' !in m && (m != [] ==> m[|m| - 1] != '\r')
  }

  lemma {:induction false} TrimShortens(m: Message)
    ensures |Trim(m)| <= |m|
    ensures Trim(m) == m <==> (m == [] || !IsLineEnd(m[|m| - 1]))
  {
    if m != [] && IsLineEnd(m[|m| - 1]) {
      TrimShortens(m[..|m| - 1]);
    }
  }

  lemma TrimLine(m: Message)
    requires '\n' !in m
    ensures Trim(m + ['\n']) == m <==> Framable(m)
  {
    assert (m + ['\n'])[..|m|] == m;
    assert Trim(m + ['\n']) == Trim(m);
    TrimShortens(m);
    assert m != [] ==> m[|m| - 1] in m;
  }

  lemma {:induction false} LineLengthOf(m: Message, s: Message)
    requires '\n' !in m
    ensures LineLength(m + ['\n'] + s) == |m|
  {
    var text := m + ['\n'] + s;
    if m != [] {
      assert text[1..] == m[1..] + ['\n'] + s;
      LineLengthOf(m[1..], s);
    }
  }

  lemma ReadOne(m: Message, s: Message)
    requires '\n' !in m
    ensures ReadAll(m + ['\n'] + s) == ([Trim(m + ['\n'])] + ReadAll(s).0, ReadAll(s).1)
  {
    var text := m + ['\n'] + s;
    LineLengthOf(m, s);
    assert text[..|m| + 1] == m + ['\n'];
    assert text[|m| + 1..] == s;
  }

  ghost predicate AllFramable(messages: seq<Message>) {
    forall m :: m in messages ==> Framable(m)
  }

  ghost predicate RoundTrips(messages: seq<Message>) {
    ReadAll(WriteAll(messages)) == (messages, [])
  }

  function Newlines(s: Message): nat {
    multiset(s)['\n']
  }

  lemma NewlinesConcat(s: Message, t: Message)
    ensures Newlines(s + t) == Newlines(s) + Newlines(t)
  {
  }

  /** A reader gets exactly one message for each newline. */
  lemma {:induction false} OneMessagePerNewline(s: Message)
    ensures |ReadAll(s).0| == Newlines(s)
    decreases |s|
  {
    var n := LineLength(s);
    if n == |s| {
      assert '\n' !in s;
    } else {
      OneMessagePerNewline(s[n + 1..]);
      var line, rest := s[..n], s[n + 1..];
      assert s == line + (['\n'] + rest);
      assert '\n' !in line;
      NewlinesConcat(line, ['\n'] + rest);
      NewlinesConcat(['\n'], rest);
    }
  }

  lemma {:induction false} WrittenNewlines(messages: seq<Message>)
    ensures Newlines(WriteAll(messages)) >= |messages|
    ensures Newlines(WriteAll(messages)) == |messages| <==> forall m :: m in messages ==> '\n' !in m
  {
    if messages != [] {
      var m, rest := messages[0], WriteAll(messages[1..]);
      WrittenNewlines(messages[1..]);
      NewlinesConcat(m + ['\n'], rest);
      NewlinesConcat(m, ['\n']);
      assert Newlines(m) == 0 <==> '\n' !in m;
      assert forall x :: x in messages <==> x == m || x in messages[1..];
    }
  }

  lemma {:induction false} RoundTripsOnceSplit(messages: seq<Message>)
    requires forall m :: m in messages ==> '\n' !in m
    ensures RoundTrips(messages) <==> AllFramable(messages)
  {
    if messages != [] {
      var m, rest := messages[0], messages[1..];
      assert messages == [m] + rest;
      assert forall x :: x in messages <==> x == m || x in rest;
      RoundTripsOnceSplit(rest);
      ReadOne(m, WriteAll(rest));
      TrimLine(m);
    }
  }

  /** Writing messages and reading them back yields exactly those messages with nothing left over, exactly if
      no message contains a newline or ends in a carriage return. */
  lemma RoundTripsIff(messages: seq<Message>)
    ensures RoundTrips(messages) <==> AllFramable(messages)
  {
    hide ReadAll, WriteAll;
    if forall m :: m in messages ==> '\n' !in m {
      RoundTripsOnceSplit(messages);
    } else {
      WrittenNewlines(messages);
      OneMessagePerNewline(WriteAll(messages));
    }
  }

  /** A partial line at the end stays unread, and does not disturb the messages before it. */
  lemma {:induction false} PartialLineIsLeft(messages: seq<Message>, partial: Message)
    requires AllFramable(messages) && '\n' !in partial
    ensures ReadAll(WriteAll(messages) + partial) == (messages, partial)
  {
    if messages == [] {
      assert WriteAll(messages) + partial == partial;
      assert LineLength(partial) == |partial|;
    } else {
      var m, rest := messages[0], messages[1..];
      assert messages == [m] + rest;
      assert WriteAll(messages) + partial == m + ['\n'] + (WriteAll(rest) + partial);
      assert m in messages && Framable(m);
      PartialLineIsLeft(rest, partial);
      ReadOne(m, WriteAll(rest) + partial);
      TrimLine(m);
    }
  }
}
