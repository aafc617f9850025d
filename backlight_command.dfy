/**
 * The `backlight` command: `backlight:<s0>:<s1>:...` switches the six
 * button backlight LEDs of the PCA9555 in one `setAllLeds` call.
 */
module BacklightCommand {
  import opened Common
  import opened Pca9555

  /** The token of `s` from `from` up to `to` names an LED state: its first character is '0' or '1'. */
  predicate Names(s: seq<char8>, from: nat, to: nat)
    requires from <= to <= |s|
  {
    from < to && (s[from] == '0' || s[from] == '1')
  }

  /** The state that token contributes: one value for a naming token, nothing otherwise. */
  function Setting(s: seq<char8>, from: nat, to: nat): seq<bool>
    requires from <= to <= |s|
  {
    if Names(s, from, to) then [s[from] == '1'] else []
  }

  /**
   * The states named by the ':'-separated tokens of `s` that start at
   * `from`, in order: each token runs up to the next ':' found from its
   * start, the last one to the end of `s`.
   */
  function Named(s: seq<char8>, from: nat): seq<bool>
    requires from <= |s|
    decreases |s| - from
  {
    match Find(s, ':', from)
    case None => Setting(s, from, |s|)
    case Some(c) => Setting(s, from, c) + Named(s, c + 1)
  }

  /** The six LED states for a list of named states: the first six of them, the rest off. */
  function Pad(named: seq<bool>): (states: seq<bool>)
    ensures |states| == 6
  {
    seq(6, i requires 0 <= i < 6 => i < |named| && named[i])
  }

  /** The six states `process` hands to `setAllLeds`. */
  function Slots(args: seq<char8>): seq<bool> {
    Pad(Named(args, 0))
  }

  /** A token of `s` reads the same inside `p + s`. */
  lemma SettingAfter(p: seq<char8>, s: seq<char8>, i: nat, k: nat)
    requires i <= k <= |s|
    ensures Setting(p + s, |p| + i, |p| + k) == Setting(s, i, k)
  {
    if i < k {
      assert (p + s)[|p| + i] == s[i];
    }
  }

  /** The last token runs to the end of the text. */
  lemma NamedLast(s: seq<char8>, from: nat)
    requires from <= |s| && Find(s, ':', from) == None
    ensures Named(s, from) == Setting(s, from, |s|)
  {
  }

  /** A token that ends at a colon is followed by the tokens after that colon. */
  lemma NamedNext(s: seq<char8>, from: nat, c: nat)
    requires from <= |s| && Find(s, ':', from) == Some(c)
    ensures Named(s, from) == Setting(s, from, c) + Named(s, c + 1)
  {
  }

  /** The tokens of `p + s` past `p` are the tokens of `s`. */
  lemma {:induction false} NamedAfter(p: seq<char8>, s: seq<char8>, i: nat)
    requires i <= |s|
    ensures Named(p + s, |p| + i) == Named(s, i)
    decreases |s| - i
  {
    FindAfter(p, s, ':', i);
    match Find(s, ':', i)
    case None =>
      SettingAfter(p, s, i, |s|);
      NamedLast(p + s, |p| + i);
      NamedLast(s, i);
    case Some(k) =>
      SettingAfter(p, s, i, k);
      NamedNext(p + s, |p| + i, |p| + k);
      NamedNext(s, i, k);
      NamedAfter(p, s, k + 1);
  }

  /** All six LEDs off: the array `process` starts from. */
  const AllOff: seq<bool> := [false, false, false, false, false, false]

  /**
   * The loop of `process` from token start `start` with `idx` slots
   * filled: it stops when six slots are filled, when the text is used
   * up, or after the last token.
   */
  function Scan(args: seq<char8>, start: nat, slots: seq<bool>, idx: nat): (r: seq<bool>)
    requires start <= |args| && idx <= 6 && |slots| == 6
    ensures |r| == 6
    decreases |args| - start
  {
    if idx == 6 || start == |args| then slots
    else
      var next := Find(args, ':', start);
      var end := if next.None? then |args| else next.value;
      var slots' := if Names(args, start, end) then slots[idx := args[start] == '1'] else slots;
      var idx' := if Names(args, start, end) then idx + 1 else idx;
      if next.None? then slots' else Scan(args, end + 1, slots', idx')
  }

  /** One token's setting takes the next of the six slots, if it names a state. */
  lemma PadSetting(filled: seq<bool>, s: seq<char8>, from: nat, to: nat)
    requires |filled| < 6 && from <= to <= |s|
    ensures (if Names(s, from, to) then Pad(filled)[|filled| := s[from] == '1'] else Pad(filled))
      == Pad(filled + Setting(s, from, to))
    ensures |filled + Setting(s, from, to)| == if Names(s, from, to) then |filled| + 1 else |filled|
  {
    if !Names(s, from, to) {
      assert filled + Setting(s, from, to) == filled;
    }
  }

  /** Only the first six named states matter. */
  lemma PadFull(filled: seq<bool>, rest: seq<bool>)
    requires |filled| >= 6
    ensures Pad(filled + rest) == Pad(filled)
  {
  }

  lemma Regroup(a: seq<bool>, b: seq<bool>, c: seq<bool>)
    ensures (a + b) + c == a + (b + c)
  {
  }

  /** Scanning from `start` with the states `filled` already set fills in the states named from `start`. */
  lemma {:induction false} ScanPads(args: seq<char8>, start: nat, filled: seq<bool>)
    requires start <= |args| && |filled| <= 6
    ensures Scan(args, start, Pad(filled), |filled|) == Pad(filled + Named(args, start))
    decreases |args| - start
  {
    if |filled| == 6 {
      PadFull(filled, Named(args, start));
    } else if start == |args| {
      assert filled + [] == filled;
    } else {
      var next := Find(args, ':', start);
      var end := if next.None? then |args| else next.value;
      PadSetting(filled, args, start, end);
      if next.Some? {
        ScanPads(args, end + 1, filled + Setting(args, start, end));
        Regroup(filled, Setting(args, start, end), Named(args, end + 1));
      }
    }
  }

  /** The loop of `process` computes the six slots. */
  lemma ScanSlots(args: seq<char8>)
    ensures Scan(args, 0, AllOff, 0) == Slots(args)
  {
    ScanPads(args, 0, []);
    assert Pad([]) == AllOff;
    assert [] + Named(args, 0) == Named(args, 0);
  }

  /** `BacklightCommand` and the expander it drives. */
  class Backlight {
    const pca: Expander

    constructor (pca: Expander)
      ensures this.pca == pca
    {
      this.pca := pca;
    }

    /**
     * `process`: fill the state array from the token list, then one
     * `setAllLeds` call with the whole array, also for an empty list.
     */
    method Process(args: seq<char8>)
      modifies pca
      ensures pca.output == LedPorts(Slots(args))
      ensures pca.writes == old(pca.writes) + [RegisterWrite(RegOutput0, pca.output.p0), RegisterWrite(RegOutput1, pca.output.p1)]
      ensures pca.input == old(pca.input) && pca.config == old(pca.config)
    {
      var states := new bool[6](_ => false);
      var idx: nat := 0;
      var start: nat := 0;
      assert states[..] == AllOff;
      while idx < 6 && start < |args|
        invariant idx <= 6 && start <= |args|
        invariant Scan(args, start, states[..], idx) == Scan(args, 0, AllOff, 0)
        modifies states
        decreases |args| - start
      {
        var next := Find(args, ':', start);
        var token := if next.None? then args[start..] else args[start..next.value];
        if |token| > 0 && (token[0] == '0' || token[0] == '1') {
          states[idx] := token[0] == '1';
          idx := idx + 1;
        }
        if next.None? {
          break;
        }
        start := next.value + 1;
      }
      ScanSlots(args);
      assert states[..] == Slots(args);
      pca.SetAllLeds(states);
    }
  }

  /** Writes `states` as a token list: "1" or "0" per state, separated by colons. */
  function Render(states: seq<bool>): seq<char8> {
    if states == [] then []
    else if |states| == 1 then [if states[0] then '1' else '0']
    else [if states[0] then '1' else '0'] + [Colon] + Render(states[1..])
  }

  /** A rendered token list names its states back. */
  lemma {:induction false} RenderNamed(states: seq<bool>)
    ensures Named(Render(states), 0) == states
  {
    var s := Render(states);
    if |states| == 1 {
      assert Find(s, ':', 0) == None;
    } else if |states| >= 2 {
      var p := [if states[0] then '1' else '0', Colon];
      assert s == p + Render(states[1..]);
      FindAt(s, ':', 0, 1);
      NamedNext(s, 0, 1);
      NamedAfter(p, Render(states[1..]), 0);
      RenderNamed(states[1..]);
    }
  }

  /** A token with no colon contributes its own setting ahead of whatever follows it. */
  lemma TokenThenRest(token: seq<char8>, rest: seq<char8>)
    requires ':' !in token
    ensures Named(token + [Colon] + rest, 0) == Setting(token, 0, |token|) + Named(rest, 0)
  {
    var s := token + [Colon] + rest;
    assert s == token + ([Colon] + rest);
    assert s[|token|] == ':';
    assert forall k :: 0 <= k < |token| ==> s[k] == token[k];
    FindAt(s, ':', 0, |token|);
    NamedNext(s, 0, |token|);
    SettingAfter([], token, 0, |token|);
    assert Setting(s, 0, |token|) == Setting(token, 0, |token|);
    NamedAfter(token + [Colon], rest, 0);
  }

  /** Up to six rendered states are the six slots, padded with off. */
  lemma RenderedSlots(states: seq<bool>)
    requires |states| <= 6
    ensures forall i :: 0 <= i < 6 ==> Slots(Render(states))[i] == (i < |states| && states[i])
  {
    RenderNamed(states);
  }

  /** Only the first character of a token counts: `1xyz` switches an LED on. */
  lemma FirstCharacterDecides(tail: seq<char8>)
    requires ':' !in tail
    ensures Named(['1'] + tail, 0) == [true]
  {
    var s: seq<char8> := ['1'] + tail;
    assert s[0] == '1' && forall k :: 1 <= k < |s| ==> s[k] == tail[k - 1];
    assert Find(s, ':', 0) == None;
  }

  /** An empty token, or one that starts with neither '0' nor '1', takes no slot. */
  lemma UnnamedTokenSkipped(token: seq<char8>, rest: seq<char8>)
    requires ':' !in token && !Names(token, 0, |token|)
    ensures Slots(token + [Colon] + rest) == Slots(rest)
  {
    TokenThenRest(token, rest);
  }
}
