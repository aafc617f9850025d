/**
 * The text-command framework: commands identified by an immutable prefix,
 * and the processor that assembles serial bytes into lines and dispatches
 * each line to the first command whose prefix matches at a ':' or
 * end-of-line boundary.
 *
 * The commands' own processing is not run here: the processor records
 * which command received which arguments, and the diagnostic it writes when
 * no command matches, in a log.
 */
module Command {
  import opened Common

  /** The firmware's command variants; each carries its prefix. */
  datatype Command = Backlight | Config | Enum | Lcd | Led | Reconf {
    /** The prefix passed to the base-class constructor, fixed for the command's lifetime. */
    function Prefix(): (p: seq<char8>)
      ensures |p| > 0
    {
      match this
      case Backlight => "backlight"
      case Config => "?"
      case Enum => "enum"
      case Lcd => "lcd"
      case Led => "led"
      case Reconf => "reconf"
    }
  }

  /** Capacity of the line buffer. */
  const LineCapacity: nat := 256

  /** `prefix` selects `line`: it starts the line and is followed by ':' or by the end of the line. */
  predicate Matches(prefix: seq<char8>, line: seq<char8>) {
    |line| >= |prefix| && line[..|prefix|] == prefix && (|line| == |prefix| || line[|prefix|] == ':')
  }

  /** The arguments handed to a matching command: what follows `prefix + ':'`, or nothing. */
  function ArgsOf(prefix: seq<char8>, line: seq<char8>): (args: seq<char8>)
    requires Matches(prefix, line)
    ensures line == prefix + (if |line| == |prefix| then [] else [':'] + args)
    ensures |line| == |prefix| ==> args == []
  {
    if |line| == |prefix| then [] else line[|prefix| + 1..]
  }

  /** The first command, from index `from` on, whose prefix matches `line`. */
  function SelectFrom(commands: seq<Command>, line: seq<char8>, from: nat): (r: Option<nat>)
    decreases |commands| - from
    ensures r.Some? ==> from <= r.value < |commands| && Matches(commands[r.value].Prefix(), line)
    ensures r.Some? ==> forall j :: from <= j < r.value ==> !Matches(commands[j].Prefix(), line)
    ensures r.None? ==> forall j :: from <= j < |commands| ==> !Matches(commands[j].Prefix(), line)
  {
    if from >= |commands| then None
    else if Matches(commands[from].Prefix(), line) then Some(from)
    else SelectFrom(commands, line, from + 1)
  }

  /** The command chosen for `line`: the first in registration order that matches. */
  function Select(commands: seq<Command>, line: seq<char8>): (r: Option<nat>)
    ensures r.Some? ==> r.value < |commands| && Matches(commands[r.value].Prefix(), line)
    ensures r.Some? ==> forall j :: 0 <= j < r.value ==> !Matches(commands[j].Prefix(), line)
    ensures r.None? <==> forall j :: 0 <= j < |commands| ==> !Matches(commands[j].Prefix(), line)
  {
    SelectFrom(commands, line, 0)
  }

  /** The literal of the unknown-command diagnostic, of which only the first 16 bytes are written. */
  const UnknownLiteral: seq<char8> := "Unknown command: "

  /** What is written to the serial port for a line no command accepts. */
  function UnknownReply(line: seq<char8>): (text: seq<char8>)
    ensures text == "Unknown command:" + line + "\n"
  {
    UnknownLiteral[..16] + line + ['\n']
  }

  /** What the processor does with a line: one command's `process`, or the diagnostic. */
  datatype Event =
    | Process(command: Command, index: nat, args: seq<char8>)
    | SerialWrite(text: seq<char8>)

  function Dispatch(commands: seq<Command>, line: seq<char8>): (e: Event)
    ensures e.Process? ==> e.index < |commands| && e.command == commands[e.index]
    ensures e.Process? ==> Matches(e.command.Prefix(), line) && e.args == ArgsOf(e.command.Prefix(), line)
    ensures e.Process? ==> forall j :: 0 <= j < e.index ==> !Matches(commands[j].Prefix(), line)
    ensures e.SerialWrite? <==> forall j :: 0 <= j < |commands| ==> !Matches(commands[j].Prefix(), line)
    ensures e.SerialWrite? ==> e.text == "Unknown command:" + line + "\n"
  {
    match Select(commands, line)
    case Some(i) => Process(commands[i], i, ArgsOf(commands[i].Prefix(), line))
    case None => SerialWrite(UnknownReply(line))
  }

  /**
   * Line assembly for one received byte: the pending line after it, and the
   * line it completes, if any. Only '\n' ends a line; a byte arriving when
   * the buffer holds `LineCapacity` bytes is dropped.
   */
  function Feed(pending: seq<char8>, c: char8): (seq<char8>, Option<seq<char8>>) {
    if c == '\n' then ([], Some(pending))
    else if |pending| < LineCapacity then (pending + [c], None)
    else (pending, None)
  }

  /** The lines completed while feeding `input` to a processor holding `pending`, and what stays pending. */
  function FeedAll(pending: seq<char8>, input: seq<char8>): (r: (seq<char8>, seq<seq<char8>>))
    decreases |input|
  {
    if input == [] then (pending, [])
    else
      var (next, line) := Feed(pending, input[0]);
      var (rest, lines) := FeedAll(next, input[1..]);
      (rest, (if line.Some? then [line.value] else []) + lines)
  }

  class CommandProcessor {
    /** The registered commands, in registration order; never changed. */
    const commands: seq<Command>
    const buffer: array<char8>
    var bufferPos: nat
    /** Every command invocation and diagnostic, in order. */
    ghost var events: seq<Event>

    ghost predicate Valid()
      reads this
    {
      buffer.Length == LineCapacity && bufferPos <= buffer.Length
    }

    /** The bytes of the line assembled so far. */
    ghost function Pending(): seq<char8>
      reads this, buffer
      requires Valid()
    {
      buffer[..bufferPos]
    }

    constructor (commands: seq<Command>)
      ensures Valid() && fresh(buffer)
      ensures this.commands == commands && Pending() == [] && events == []
    {
      this.commands := commands;
      buffer := new char8[LineCapacity](_ => '\0');
      bufferPos := 0;
      events := [];
    }

    /** Receive one byte. */
    method ProcessChar(c: char8)
      requires Valid()
      modifies this`bufferPos, this`events, buffer
      ensures Valid()
      ensures (Pending(), if c == '\n' then Some(old(Pending())) else None) == Feed(old(Pending()), c)
      ensures events == old(events) + (if c == '\n' then [Dispatch(commands, old(Pending()))] else [])
    {
      if c == '\n' {
        ProcessCommand(buffer[..bufferPos]);
        bufferPos := 0;
      } else if bufferPos < buffer.Length {
        buffer[bufferPos] := c;
        bufferPos := bufferPos + 1;
        assert buffer[..bufferPos] == old(buffer[..bufferPos]) + [c];
      }
    }

    /** Dispatch one complete line. */
    method ProcessCommand(line: seq<char8>)
      modifies this`events
      ensures events == old(events) + [Dispatch(commands, line)]
    {
      var i := 0;
      while i < |commands|
        invariant 0 <= i <= |commands|
        invariant forall j :: 0 <= j < i ==> !Matches(commands[j].Prefix(), line)
      {
        var cmd := commands[i];
        var prefix := cmd.Prefix();
        if |line| >= |prefix| && line[..|prefix|] == prefix {
          var args: seq<char8> := [];
          if |line| > |prefix| {
            if line[|prefix|] == ':' {
              args := line[|prefix| + 1..];
            } else {
              i := i + 1;
              continue;
            }
          }
          assert Matches(prefix, line) && args == ArgsOf(prefix, line);
          DispatchFirst(commands, line, i);
          events := events + [Process(cmd, i, args)];
          return;
        }
        i := i + 1;
      }
      events := events + [SerialWrite(UnknownReply(line))];
    }
  }

  /** A line goes to the first command that matches it. */
  lemma DispatchFirst(commands: seq<Command>, line: seq<char8>, i: nat)
    requires i < |commands| && Matches(commands[i].Prefix(), line)
    requires forall j :: 0 <= j < i ==> !Matches(commands[j].Prefix(), line)
    ensures Dispatch(commands, line) == Process(commands[i], i, ArgsOf(commands[i].Prefix(), line))
  {
    assert Select(commands, line) == Some(i);
  }

  // ---------------------------------------------------------------------
  // Properties

  /** A prefix hit followed by anything but ':' never selects that command. */
  lemma NoMatchWithoutBoundary(commands: seq<Command>, line: seq<char8>, i: nat)
    requires i < |commands|
    requires |line| > |commands[i].Prefix()| && line[|commands[i].Prefix()|] != ':'
    ensures Select(commands, line) != Some(i)
  {
  }

  /** The firmware's six prefixes: none is a prefix of another, so at most one command can match a line. */
  lemma {:induction false} AtMostOneMatch(a: Command, b: Command, line: seq<char8>)
    requires Matches(a.Prefix(), line) && Matches(b.Prefix(), line)
    ensures a == b
  {
  }

  /** With distinct commands, the selection does not depend on the registration order. */
  lemma SelectionOrderIrrelevant(commands: seq<Command>, other: seq<Command>, line: seq<char8>, i: nat, k: nat)
    requires i < |commands| && k < |other| && commands[i] == other[k]
    requires Select(commands, line) == Some(i)
    ensures Select(other, line).Some? && other[Select(other, line).value] == commands[i]
  {
    var j := Select(other, line);
    assert Matches(other[k].Prefix(), line);
    AtMostOneMatch(other[j.value], commands[i], line);
  }

  /** What a full buffer keeps of `t`: its first `LineCapacity` bytes. */
  function Kept(t: seq<char8>): (k: seq<char8>)
    ensures |k| == if |t| < LineCapacity then |t| else LineCapacity
    ensures k == t[..|k|]
  {
    if |t| < LineCapacity then t else t[..LineCapacity]
  }

  /** Bytes arriving with the buffer full are dropped: the pending line is the first 256 bytes. */
  lemma {:induction false} FeedTruncates(pending: seq<char8>, s: seq<char8>)
    requires |pending| <= LineCapacity
    requires forall i :: 0 <= i < |s| ==> s[i] != '\n'
    ensures FeedAll(pending, s) == (Kept(pending + s), [])
    decreases |s|
  {
    if s == [] {
      assert pending + s == pending;
    } else {
      var next := Feed(pending, s[0]).0;
      assert Feed(pending, s[0]).1 == None;
      FeedTruncates(next, s[1..]);
      assert FeedAll(pending, s) == (FeedAll(next, s[1..]).0, [] + FeedAll(next, s[1..]).1);
      if |pending| < LineCapacity {
        assert next + s[1..] == pending + s;
        assert [] + FeedAll(next, s[1..]).1 == [];
      } else {
        KeptFull(pending, s);
        KeptFull(pending, s[1..]);
      }
    }
  }

  lemma KeptFull(full: seq<char8>, t: seq<char8>)
    requires |full| == LineCapacity
    ensures Kept(full + t) == full
  {
    assert (full + t)[..LineCapacity] == full;
  }

  /** Feeding a line of any length then '\n' to an empty buffer dispatches exactly its first 256 bytes. */
  lemma LongLineTruncated(s: seq<char8>)
    requires forall i :: 0 <= i < |s| ==> s[i] != '\n'
    ensures FeedAll([], s + ['\n']) == ([], [Kept(s)])
  {
    var nl: seq<char8> := ['\n'];
    FeedAllConcat([], s, nl);
    FeedTruncates([], s);
    assert [] + s == s;
    FeedNewline(Kept(s));
    var lines: seq<seq<char8>> := [];
    assert lines + [Kept(s)] == [Kept(s)];
  }

  lemma FeedNewline(pending: seq<char8>)
    ensures FeedAll(pending, ['\n']) == ([], [pending])
  {
    var nl: seq<char8> := ['\n'];
    assert nl[1..] == [];
    assert FeedAll([], nl[1..]) == ([], []);
    assert [pending] + [] == [pending];
  }

  lemma {:induction false} FeedAllConcat(pending: seq<char8>, a: seq<char8>, b: seq<char8>)
    ensures FeedAll(pending, a + b) ==
      (FeedAll(FeedAll(pending, a).0, b).0, FeedAll(pending, a).1 + FeedAll(FeedAll(pending, a).0, b).1)
    decreases |a|
  {
    if a == [] {
      assert a + b == b;
      assert [] + FeedAll(pending, b).1 == FeedAll(pending, b).1;
    } else {
      assert (a + b)[1..] == a[1..] + b;
      var (next, line) := Feed(pending, a[0]);
      var head := if line.Some? then [line.value] else [];
      FeedAllConcat(next, a[1..], b);
      var (mid, first) := FeedAll(next, a[1..]);
      var (rest, second) := FeedAll(mid, b);
      assert FeedAll(pending, a) == (mid, head + first);
      assert FeedAll(pending, a + b) == (rest, head + (first + second));
      assert head + (first + second) == (head + first) + second;
    }
  }

  /** '\r' is data: it is stored in the line like any other byte. */
  lemma CarriageReturnIsData(pending: seq<char8>)
    requires |pending| < LineCapacity
    ensures Feed(pending, '\r') == (pending + ['\r'], None)
  {
  }
}
