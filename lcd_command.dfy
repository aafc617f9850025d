/**
 * The `lcd` command: `lcd:clear` clears the character display and runs the
 * optional clear callback; `lcd:<x>:<y>:<text>` moves the cursor to column
 * x, row y and writes the text one character at a time. Any malformed or
 * out-of-range coordinate leaves the display untouched.
 *
 * `ParseCoordinates` is the class's second, `strtol`-based coordinate
 * parser; `process` does not use it, and it accepts inputs `process`
 * rejects.
 */
module LcdCommand {
  import opened Common
  import opened CText

  /** A display position: column and row. */
  datatype Cell = Cell(col: u8, row: u8)

  /** A parsed `x:y:text` argument: where to put the cursor and what to write there. */
  datatype Placement = Placement(cell: Cell, text: seq<char8>)

  /** A call into the display driver. */
  datatype LcdCall = Clear | SetCursor(col: u8, row: u8) | Write(c: char8)

  const ClearWord: seq<char8> := "clear"

  /**
   * The `x:y:text` parse of `process`: x is the text before the first ':',
   * y the text between the first two, and the text everything after the
   * second ':' (colons included). Each coordinate must be a whole
   * `uint8_t` for `std::from_chars` and lie inside the display.
   */
  function Parse(args: seq<char8>, width: u8, height: u8): (r: Option<Placement>)
    ensures r.Some? ==> r.value.cell.col < width && r.value.cell.row < height
    ensures r.Some? ==> |r.value.text| + 4 <= |args|
    ensures r.Some? ==>
      exists c1: nat, c2: nat :: FirstTwoColons(args, c1, c2) &&
        FromCharsU8(args[..c1]) == Some(r.value.cell.col) &&
        FromCharsU8(args[c1 + 1..c2]) == Some(r.value.cell.row) &&
        r.value.text == args[c2 + 1..]
  {
    match Find(args, ':', 0)
    case None => None
    case Some(c1) =>
      match Find(args, ':', c1 + 1)
      case None => None
      case Some(c2) =>
        match FromCharsU8(args[..c1])
        case None => None
        case Some(x) =>
          if x >= width then None
          else
            match FromCharsU8(args[c1 + 1..c2])
            case None => None
            case Some(y) =>
              if y >= height then None
              else
                FindFirst(args, ':', 0);
                FindFirst(args, ':', c1 + 1);
                assert FirstTwoColons(args, c1, c2);
                Some(Placement(Cell(x, y), args[c2 + 1..]))
  }

  /** One `write` per character of `text`, in order. */
  function Writes(text: seq<char8>): (w: seq<LcdCall>)
    ensures |w| == |text|
  {
    seq(|text|, i requires 0 <= i < |text| => Write(text[i]))
  }

  /** The display calls `process` makes for `args`. */
  function Effect(args: seq<char8>, width: u8, height: u8): seq<LcdCall> {
    if args == ClearWord then [Clear]
    else
      match Parse(args, width, height)
      case None => []
      case Some(p) => [SetCursor(p.cell.col, p.cell.row)] + Writes(p.text)
  }

  /**
   * `parseCoordinates`: both values read by `strtol`, which skips leading
   * white space, takes a sign and reads an empty field as 0; each must end
   * exactly at its colon and lie inside the display.
   */
  function ParseCoordinates(str: seq<char8>, width: u8, height: u8): (r: Option<Cell>)
    ensures r.Some? ==> r.value.col < width && r.value.row < height
  {
    match Find(str, ':', 0)
    case None => None
    case Some(c1) =>
      match Find(str, ':', c1 + 1)
      case None => None
      case Some(c2) =>
        var x := StrToL(str);
        if x.end != c1 || x.value < 0 || x.value >= width then None
        else
          var y := StrToL(str[c1 + 1..]);
          if y.end != c2 - (c1 + 1) || y.value < 0 || y.value >= height then None
          else Some(Cell(x.value, y.value))
  }

  /** The character display driver, seen through the calls made on it. */
  class Display {
    var calls: seq<LcdCall>

    constructor ()
      ensures calls == []
    {
      calls := [];
    }

    method Clear()
      modifies this
      ensures calls == old(calls) + [LcdCall.Clear]
    {
      calls := calls + [LcdCall.Clear];
    }

    method SetCursor(col: u8, row: u8)
      modifies this
      ensures calls == old(calls) + [LcdCall.SetCursor(col, row)]
    {
      calls := calls + [LcdCall.SetCursor(col, row)];
    }

    method Write(c: char8)
      modifies this
      ensures calls == old(calls) + [LcdCall.Write(c)]
    {
      calls := calls + [LcdCall.Write(c)];
    }
  }

  class LcdCommand {
    const display: Display
    const width: u8
    const height: u8
    /** Whether `on_clear` holds a callback. */
    var onClear: bool
    /** How often the clear callback has run. */
    var clearCallbacks: nat

    constructor (display: Display, width: u8, height: u8)
      ensures this.display == display && this.width == width && this.height == height
      ensures !onClear && clearCallbacks == 0
    {
      this.display := display;
      this.width := width;
      this.height := height;
      onClear := false;
      clearCallbacks := 0;
    }

    /**
     * `process`: the display receives exactly `Effect(args)`; the clear
     * callback runs once after a `clear`, when one is set. The argument
     * is parsed by `Parse`, which does the finding, cutting and number
     * conversion of the same code.
     */
    method Process(args: seq<char8>)
      modifies display, this`clearCallbacks
      ensures display.calls == old(display.calls) + Effect(args, width, height)
      ensures clearCallbacks == old(clearCallbacks) + if args == ClearWord && onClear then 1 else 0
    {
      ghost var effect := Effect(args, width, height);
      if args == ClearWord {
        display.Clear();
        if onClear {
          clearCallbacks := clearCallbacks + 1;
        }
        return;
      }
      var placement := Parse(args, width, height);
      if placement.None? {
        assert effect == [];
        return;
      }
      var cell, text := placement.value.cell, placement.value.text;
      assert effect == [LcdCall.SetCursor(cell.col, cell.row)] + Writes(text);
      display.SetCursor(cell.col, cell.row);
      ghost var before := display.calls;
      var i := 0;
      while i < |text|
        invariant i <= |text|
        invariant display.calls == before + Writes(text[..i])
        modifies display
      {
        WritesStep(text, i);
        display.Write(text[i]);
        i := i + 1;
      }
      assert text[..i] == text;
    }
  }

  /** The writes for one more character of the text. */
  lemma WritesStep(text: seq<char8>, i: nat)
    requires i < |text|
    ensures Writes(text[..i + 1]) == Writes(text[..i]) + [Write(text[i])]
  {
  }

  // ---------------------------------------------------------------------
  // Properties

  /** With no two colons in the argument, neither parser accepts it. */
  lemma FewerThanTwoColons(args: seq<char8>, width: u8, height: u8)
    requires forall i, j :: 0 <= i < j < |args| && args[i] == ':' ==> args[j] != ':'
    ensures Parse(args, width, height) == None
    ensures ParseCoordinates(args, width, height) == None
  {
    FindFirst(args, ':', 0);
    match Find(args, ':', 0)
    case None =>
    case Some(c1) =>
      FindFirst(args, ':', c1 + 1);
  }

  /** The two colons `process` finds in `xs:ys:text` when neither coordinate field holds a colon. */
  lemma SplitFields(xs: seq<char8>, ys: seq<char8>, text: seq<char8>)
    requires Colon !in xs && Colon !in ys
    ensures var s := xs + [Colon] + ys + [Colon] + text;
      Find(s, ':', 0) == Some(|xs|) && Find(s, ':', |xs| + 1) == Some(|xs| + 1 + |ys|)
  {
    var head, rest := xs + [Colon], ys + [Colon] + text;
    Regroup(xs, ys, text);
    FindPast(xs, ':', rest);
    FindPast(ys, ':', text);
    FindAfter(head, rest, ':', 0);
  }

  lemma Regroup(xs: seq<char8>, ys: seq<char8>, text: seq<char8>)
    ensures xs + [Colon] + ys + [Colon] + text == xs + [Colon] + (ys + [Colon] + text)
    ensures xs + [Colon] + ys + [Colon] + text == xs + ([Colon] + ys + [Colon] + text)
    ensures ys + [Colon] + text == ys + ([Colon] + text)
  {
  }

  /** The three fields of `xs:ys:text`, cut out again at the colons' positions. */
  lemma SplitSlices(xs: seq<char8>, ys: seq<char8>, text: seq<char8>)
    ensures var s := xs + [Colon] + ys + [Colon] + text;
      s[..|xs|] == xs && s[|xs| + 1..|xs| + 1 + |ys|] == ys && s[|xs| + 1 + |ys| + 1..] == text &&
      s[|xs| + 1..] == ys + [Colon] + text
  {
    var s := xs + [Colon] + ys + [Colon] + text;
    var rest := ys + [Colon] + text;
    assert s[|xs| + 1..] == rest;
    assert s[|xs| + 1..|xs| + 1 + |ys|] == rest[..|ys|] == ys;
    assert s[|xs| + 1 + |ys| + 1..] == rest[|ys| + 1..] == text;
  }

  /**
   * Every argument with colon-free x and y fields: `process` accepts it
   * exactly when both fields are whole `uint8_t` numbers inside the
   * display, and then writes the whole text, colons and all.
   */
  lemma ParseFields(xs: seq<char8>, ys: seq<char8>, text: seq<char8>, width: u8, height: u8)
    requires Colon !in xs && Colon !in ys
    ensures Parse(xs + [Colon] + ys + [Colon] + text, width, height)
         == if FromCharsU8(xs).Some? && FromCharsU8(xs).value < width &&
               FromCharsU8(ys).Some? && FromCharsU8(ys).value < height
            then Some(Placement(Cell(FromCharsU8(xs).value, FromCharsU8(ys).value), text))
            else None
  {
    SplitFields(xs, ys, text);
    SplitSlices(xs, ys, text);
  }

  /** `x:y:text` written with decimal coordinates inside the display is read back as written. */
  lemma PlacementRoundTrip(x: u8, y: u8, text: seq<char8>, width: u8, height: u8)
    requires x < width && y < height
    ensures Parse(Decimal(x) + [Colon] + Decimal(y) + [Colon] + text, width, height) == Some(Placement(Cell(x, y), text))
  {
    DecimalFromChars(x);
    DecimalFromChars(y);
    NoColonInDigits(Decimal(x));
    NoColonInDigits(Decimal(y));
    ParseFields(Decimal(x), Decimal(y), text, width, height);
  }

  lemma NoColonInDigits(ds: seq<char8>)
    requires AllDigits(ds)
    ensures Colon !in ds
  {
  }

  /**
   * A field that is not a whole `uint8_t` inside the display (a column or
   * row beyond it, an empty field, a sign, any non-digit) makes `process`
   * return before anything is drawn.
   */
  lemma InvalidFieldIgnored(xs: seq<char8>, ys: seq<char8>, text: seq<char8>, width: u8, height: u8)
    requires Colon !in xs && Colon !in ys
    requires !(FromCharsU8(xs).Some? && FromCharsU8(xs).value < width &&
               FromCharsU8(ys).Some? && FromCharsU8(ys).value < height)
    ensures Effect(xs + [Colon] + ys + [Colon] + text, width, height) == []
  {
    var s := xs + [Colon] + ys + [Colon] + text;
    assert s[|xs|] == Colon;
    assert Colon !in ClearWord;
    ParseFields(xs, ys, text, width, height);
  }

  /** In particular a column at or beyond the width: `lcd:99:0:hi` on a display at most 99 wide draws nothing. */
  lemma WideColumnIgnored(xs: seq<char8>, ys: seq<char8>, text: seq<char8>, width: u8, height: u8)
    requires Colon !in xs && Colon !in ys
    requires FromCharsU8(xs).Some? && FromCharsU8(xs).value >= width
    ensures Effect(xs + [Colon] + ys + [Colon] + text, width, height) == []
  {
    InvalidFieldIgnored(xs, ys, text, width, height);
  }

  /** Both parsers read `x:y:` with x, y written in decimal inside the display as the same cell. */
  lemma CoordinatesRoundTrip(x: u8, y: u8, text: seq<char8>, width: u8, height: u8)
    requires x < width && y < height
    ensures ParseCoordinates(Decimal(x) + [Colon] + Decimal(y) + [Colon] + text, width, height) == Some(Cell(x, y))
  {
    DecimalValue(x);
    DecimalValue(y);
    NoColonInDigits(Decimal(x));
    NoColonInDigits(Decimal(y));
    DigitFieldsScan(Decimal(x), Decimal(y), text);
    SplitFields(Decimal(x), Decimal(y), text);
    SplitSlices(Decimal(x), Decimal(y), text);
  }

  /** On non-empty digit fields, the `strtol` reading ends at each colon with the digits' value (saturated). */
  lemma DigitFieldsScan(xs: seq<char8>, ys: seq<char8>, text: seq<char8>)
    requires |xs| > 0 && AllDigits(xs) && |ys| > 0 && AllDigits(ys)
    ensures Colon !in xs && Colon !in ys
    ensures var s := xs + [Colon] + ys + [Colon] + text;
      StrToL(s) == Scanned(if DigitsValue(xs) > LongMax then LongMax else DigitsValue(xs), |xs|) &&
      StrToL(s[|xs| + 1..]) == Scanned(if DigitsValue(ys) > LongMax then LongMax else DigitsValue(ys), |ys|)
  {
    NoColonInDigits(xs);
    NoColonInDigits(ys);
    SplitSlices(xs, ys, text);
    Regroup(xs, ys, text);
    DigitsScan(xs, [Colon] + ys + [Colon] + text);
    DigitsScan(ys, [Colon] + text);
  }

  /**
   * Where both coordinate fields are non-empty runs of digits, the two
   * parsers agree: `parseCoordinates` accepts exactly what `process`
   * accepts, at the same cell.
   */
  lemma ParsersAgreeOnDigits(xs: seq<char8>, ys: seq<char8>, text: seq<char8>, width: u8, height: u8)
    requires |xs| > 0 && AllDigits(xs) && |ys| > 0 && AllDigits(ys)
    ensures var s := xs + [Colon] + ys + [Colon] + text;
      ParseCoordinates(s, width, height) == match Parse(s, width, height)
        case None => None
        case Some(p) => Some(p.cell)
  {
    DigitFieldsScan(xs, ys, text);
    SplitFields(xs, ys, text);
    SplitSlices(xs, ys, text);
    ParseFields(xs, ys, text, width, height);
  }

  /**
   * Empty fields set the two parsers apart: `parseCoordinates` reads `::`
   * as cell (0, 0), which `process` rejects.
   */
  lemma EmptyFieldsDisagree(text: seq<char8>, width: u8, height: u8)
    requires 0 < width && 0 < height
    ensures ParseCoordinates([Colon, Colon] + text, width, height) == Some(Cell(0, 0))
    ensures Parse([Colon, Colon] + text, width, height) == None
  {
    var s := [Colon, Colon] + text;
    SplitFields([], [], text);
    SplitSlices([], [], text);
    assert s == [] + [Colon] + [] + [Colon] + text;
    assert LeadingDigits(s) == 0 && LeadingDigits(s[1..]) == 0;
    assert LeadingSpaces(s) == 0 && LeadingSpaces(s[1..]) == 0;
  }
}
