/** The 128x128 monochrome display model: a title row, an eight-line log, an input row and an optional overlay, each with a dirty flag, plus the cursor blink counter. Pixels are not modelled; drawing is a list of events. */
module Interface {
  import opened Base

  const SmallWidth: nat := 4
  const BigWidth: nat := 6
  const DisplayWidth: nat := 128
  /** Characters of the big font in one row: 128 / 6 = 21. */
  const DisplayCharWidth: nat := DisplayWidth / BigWidth
  const BlinkPhase: nat := 30
  /** Lines of the log (`body: [LogLine; 8]`). */
  const LogHeight: nat := 8
  /** Byte capacities of the heapless strings. */
  const TextCapacity: nat := 22
  const NumberCapacity: nat := 6

  const ErrorInput: string := "## ERROR ##"
  const Unparsable: string := "__UNPARSABLE__"

  // ---------------------------------------------------------------------
  // UTF-8 sizes and heapless strings (capacity counted in bytes)

  /** Bytes of a character in UTF-8. */
  function Utf8Len(c: char): (n: nat)
    ensures 1 <= n <= 4
    ensures n == 1 <==> (c as int) < 0x80
  {
    if (c as int) < 0x80 then 1
    else if (c as int) < 0x800 then 2
    else if (c as int) < 0x1_0000 then 3
    else 4
  }

  /** Bytes of a string in UTF-8. */
  function Utf8Size(s: string): nat
  {
    if s == [] then 0 else Utf8Size(s[..|s| - 1]) + Utf8Len(s[|s| - 1])
  }

  predicate IsAscii(s: string)
  {
    forall i :: 0 <= i < |s| ==> (s[i] as int) < 0x80
  }

  /** An ASCII string of at most `capacity` characters is pushed whole onto an empty string. */
  lemma AsciiPush(t: string, capacity: nat)
    requires IsAscii(t) && |t| <= capacity
    ensures PushStr("", t, capacity) == t
  {
    AsciiSize(t);
    assert "" + t == t;
  }

  /** The two fixed messages fit the 22-byte strings they are pushed onto. */
  lemma MessagesFit()
    ensures PushStr("", Unparsable, TextCapacity) == Unparsable
    ensures PushStr("", ErrorInput, TextCapacity) == ErrorInput
  {
    assert IsAscii(Unparsable);
    AsciiPush(Unparsable, TextCapacity);
    assert IsAscii(ErrorInput);
    AsciiPush(ErrorInput, TextCapacity);
  }

  /** An ASCII string takes one byte per character. */
  lemma {:induction false} AsciiSize(s: string)
    requires IsAscii(s)
    ensures Utf8Size(s) == |s|
  {
    if s != [] {
      AsciiSize(s[..|s| - 1]);
    }
  }

  lemma {:induction false} SizeAppend(s: string, t: string)
    ensures Utf8Size(s + t) == Utf8Size(s) + Utf8Size(t)
    decreases |t|
  {
    if t == [] {
      assert s + t == s;
    } else {
      assert (s + t)[..|s + t| - 1] == s + t[..|t| - 1];
      SizeAppend(s, t[..|t| - 1]);
    }
  }

  /** heapless `String::push`: the character is appended when it fits, otherwise the string is unchanged. */
  function PushChar(s: string, c: char, capacity: nat): (r: string)
    ensures Utf8Size(s) <= capacity ==> Utf8Size(r) <= capacity
    ensures r == s + [c] || r == s
    ensures r == s + [c] <==> Utf8Size(s) + Utf8Len(c) <= capacity
    ensures r != s + [c] ==> r == s
  {
    SizeAppend(s, [c]);
    if Utf8Size(s) + Utf8Len(c) <= capacity then s + [c] else s
  }

  /** heapless `String::push_str`: all of `t` is appended when it fits, otherwise nothing. */
  function PushStr(s: string, t: string, capacity: nat): (r: string)
    ensures Utf8Size(s) <= capacity ==> Utf8Size(r) <= capacity
    ensures r == s + t <==> Utf8Size(s) + Utf8Size(t) <= capacity || t == []
    ensures r != s + t ==> r == s
  {
    SizeAppend(s, t);
    if Utf8Size(s) + Utf8Size(t) <= capacity then s + t else s
  }

  // ---------------------------------------------------------------------
  // numtoa: decimal text of a number

  function DigitChar(d: nat): char
    requires d < 10
  {
    ('0' as int + d) as char
  }

  /** The decimal digits of `n`, most significant first, without leading zeros. */
  function Digits(n: nat): (r: string)
    ensures 1 <= |r|
    ensures forall i :: 0 <= i < |r| ==> '0' <= r[i] <= '9'
  {
    if n < 10 then [DigitChar(n)] else Digits(n / 10) + [DigitChar(n % 10)]
  }

  /** `numtoa_str(10, ..)`: a minus sign for negative numbers, then the digits. */
  function Decimal(i: int): string
  {
    if i < 0 then "-" + Digits(-i) else Digits(i)
  }

  /** The value of a string of decimal digits. */
  function DigitsValue(s: string): int
  {
    if s == [] then 0 else 10 * DigitsValue(s[..|s| - 1]) + (s[|s| - 1] as int - '0' as int)
  }

  /** Reads back what `Decimal` writes. */
  function ParseDecimal(s: string): int
  {
    if s != [] && s[0] == '-' then -DigitsValue(s[1..]) else DigitsValue(s)
  }

  lemma {:induction false} DigitsRoundTrip(n: nat)
    ensures DigitsValue(Digits(n)) == n
  {
    if n >= 10 {
      DigitsRoundTrip(n / 10);
      var s := Digits(n);
      assert s[..|s| - 1] == Digits(n / 10);
    }
  }

  /** The decimal text of a number reads back as that number. */
  lemma DecimalRoundTrip(i: int)
    ensures ParseDecimal(Decimal(i)) == i
  {
    if i < 0 {
      DigitsRoundTrip(-i);
      assert Decimal(i)[1..] == Digits(-i);
    } else {
      DigitsRoundTrip(i);
    }
  }

  lemma {:induction false} DigitsLength(n: nat, k: nat)
    requires n < Pow10(k) && k >= 1
    ensures |Digits(n)| <= k
  {
    if n >= 10 {
      DigitsLength(n / 10, k - 1);
    }
  }

  function Pow10(k: nat): nat
  {
    if k == 0 then 1 else 10 * Pow10(k - 1)
  }

  /** An i16 needs at most six characters ("-32768"), all ASCII, so `String<6>::push_str(..).unwrap()` never fails. */
  lemma DecimalFits(i: i16)
    ensures |Decimal(i as int)| <= NumberCapacity
    ensures IsAscii(Decimal(i as int))
  {
    assert Pow10(5) == 100000;
    if i < 0 {
      DigitsLength(-(i as int), 5);
    } else {
      DigitsLength(i as int, 5);
    }
  }

  // ---------------------------------------------------------------------
  // The log

  /** One log row: two small numbers stacked on the left (snr above, rssi below) and the text. */
  datatype LogLine = LogLine(up: string, down: string, body: string)

  const EmptyLine := LogLine("", "", "")

  /** The log after pushing `lines`: each push drops the top row and appends at the bottom. */
  function Scroll(rows: seq<LogLine>, lines: seq<LogLine>): (r: seq<LogLine>)
    requires |rows| == LogHeight
    ensures |r| == LogHeight
    ensures |lines| <= LogHeight ==> r == rows[|lines|..] + lines
    ensures |lines| >= LogHeight ==> r == lines[|lines| - LogHeight..]
  {
    (rows + lines)[|lines|..]
  }

  /** One push at a time gives the same log as all pushes at once. */
  lemma ScrollPush(rows: seq<LogLine>, lines: seq<LogLine>, line: LogLine)
    requires |rows| == LogHeight
    ensures Scroll(rows, lines + [line]) == Scroll(rows, lines)[1..] + [line]
  {
    assert rows + (lines + [line]) == (rows + lines) + [line];
  }

  /** Pushing in two batches is pushing their concatenation. */
  lemma ScrollTwice(rows: seq<LogLine>, a: seq<LogLine>, b: seq<LogLine>)
    requires |rows| == LogHeight
    ensures Scroll(Scroll(rows, a), b) == Scroll(rows, a + b)
  {
    assert (rows + a)[|a|..] + b == (rows + (a + b))[|a|..];
  }

  /** The state of `add_log`'s loop: lines pushed so far, the line being filled and the columns left on it. */
  datatype Wrap = Wrap(pushed: seq<LogLine>, line: LogLine, available: nat)

  /** The number text of an optional metric. */
  function Metric(m: Option<i16>): string
  {
    match m
    case None => ""
    case Some(v) => Decimal(v as int)
  }

  lemma MetricFits(m: Option<i16>)
    ensures |Metric(m)| <= NumberCapacity && IsAscii(Metric(m))
  {
    if m.Some? {
      DecimalFits(m.value);
    }
  }

  /** Columns left for text on the first line, after the widest of the two numbers. */
  function FirstAvailable(up: string, down: string): nat
    requires |up| <= NumberCapacity && |down| <= NumberCapacity
  {
    (DisplayWidth - Max(|up|, |down|) * SmallWidth) / BigWidth
  }

  /** The loop state before the first character: the numbers on the line, nothing pushed. */
  function StartLog(snr: Option<i16>, rssi: Option<i16>): (w: Wrap)
    ensures w.pushed == [] && w.line.body == "" && w.available <= DisplayCharWidth
  {
    MetricFits(snr);
    MetricFits(rssi);
    var up := Metric(snr);
    var down := Metric(rssi);
    Wrap([], LogLine(up, down, ""), FirstAvailable(up, down))
  }

  /** Pushes the line being filled and starts an empty one with a full row of columns. */
  function Break(w: Wrap): Wrap
  {
    Wrap(w.pushed + [w.line], EmptyLine, DisplayCharWidth)
  }

  /** One character of the body: a line break pushes; otherwise the character goes on the line, after a push if the line is full. */
  function WrapChar(w: Wrap, c: char): Wrap
  {
    if c == '\r' || c == '\n' then Break(w)
    else
      var w' := if w.available == 0 then Break(w) else w;
      Wrap(w'.pushed, w'.line.(body := PushChar(w'.line.body, c, TextCapacity)), w'.available - 1)
  }

  /** The loop state after the characters of `s`, in order. */
  function WrapText(w: Wrap, s: string): Wrap
  {
    if s == [] then w else WrapChar(WrapText(w, s[..|s| - 1]), s[|s| - 1])
  }

  /** The loop state after the whole body: wrapped text, or the unparsable marker on the first line. */
  function Wrapped(text: Option<string>, snr: Option<i16>, rssi: Option<i16>): Wrap
  {
    var w := StartLog(snr, rssi);
    match text
    case Some(s) => WrapText(w, s)
    case None => w.(line := w.line.(body := Unparsable))
  }

  /** The lines `add_log` pushes; `text` is the body decoded as UTF-8, None when it is not valid UTF-8. The last line is pushed unless it is empty. */
  function LogOf(text: Option<string>, snr: Option<i16>, rssi: Option<i16>): seq<LogLine>
  {
    var w := Wrapped(text, snr, rssi);
    if w.line != EmptyLine then w.pushed + [w.line] else w.pushed
  }

  /** An empty body without numbers logs nothing. */
  lemma EmptyLogsNothing()
    ensures LogOf(Some(""), None, None) == []
  {
    var w := StartLog(None, None);
    assert w.line == EmptyLine;
  }

  /** A body that is not UTF-8 logs one line: the numbers and the unparsable marker. */
  lemma UnparsableLogsMarker(snr: Option<i16>, rssi: Option<i16>)
    ensures LogOf(None, snr, rssi) == [LogLine(Metric(snr), Metric(rssi), Unparsable)]
  {
  }

  /** A line break always pushes the current line, even an empty one. */
  lemma BreakPushes(w: Wrap, c: char)
    requires c == '\r' || c == '\n'
    ensures WrapChar(w, c).pushed == w.pushed + [w.line]
    ensures WrapChar(w, c).line == EmptyLine
  {
  }

  /** The shape of the lines as they are filled: only the first line carries numbers, the first holds at most the columns after the numbers, every later line at most 21 characters. */
  ghost predicate WrapShape(start: Wrap, w: Wrap)
  {
    && w.available <= DisplayCharWidth
    && (w.pushed == [] ==>
          && w.line.up == start.line.up && w.line.down == start.line.down
          && |w.line.body| + w.available <= start.available)
    && (w.pushed != [] ==>
          && w.line.up == "" && w.line.down == ""
          && |w.line.body| + w.available <= DisplayCharWidth
          && w.pushed[0].up == start.line.up && w.pushed[0].down == start.line.down
          && |w.pushed[0].body| <= start.available)
    && (forall i :: 1 <= i < |w.pushed| ==>
          && w.pushed[i].up == "" && w.pushed[i].down == ""
          && |w.pushed[i].body| <= DisplayCharWidth)
  }

  lemma BreakShape(start: Wrap, w: Wrap)
    requires WrapShape(start, w)
    ensures WrapShape(start, Break(w))
  {
    var b := Break(w);
    assert b.pushed[0] == if w.pushed == [] then w.line else w.pushed[0];
    forall i | 1 <= i < |b.pushed|
      ensures b.pushed[i].up == "" && b.pushed[i].down == "" && |b.pushed[i].body| <= DisplayCharWidth
    {
      if i < |w.pushed| {
        assert b.pushed[i] == w.pushed[i];
      } else {
        assert b.pushed[i] == w.line;
      }
    }
  }

  lemma WrapCharShape(start: Wrap, w: Wrap, c: char)
    requires WrapShape(start, w)
    ensures WrapShape(start, WrapChar(w, c))
  {
    if c == '\r' || c == '\n' {
      BreakShape(start, w);
    } else {
      var w' := if w.available == 0 then Break(w) else w;
      if w.available == 0 {
        BreakShape(start, w);
      }
      assert WrapShape(start, w') && w'.available > 0;
      var r := WrapChar(w, c);
      assert r.pushed == w'.pushed && r.available == w'.available - 1;
      assert |r.line.body| <= |w'.line.body| + 1;
    }
  }

  lemma {:induction false} WrapTextShape(start: Wrap, s: string)
    requires start.pushed == [] && start.line.body == "" && start.available <= DisplayCharWidth
    ensures WrapShape(start, WrapText(start, s))
  {
    if s != [] {
      WrapTextShape(start, s[..|s| - 1]);
      WrapCharShape(start, WrapText(start, s[..|s| - 1]), s[|s| - 1]);
    }
  }

  /** Line widths of a log entry: the first line has the numbers and at most (128 - 4*max(len up, len down)) / 6 characters; every later line has no numbers and at most 21 characters. */
  lemma LogLineWidths(s: string, snr: Option<i16>, rssi: Option<i16>)
    ensures var ls := LogOf(Some(s), snr, rssi);
      && (|ls| > 0 ==>
            && ls[0].up == Metric(snr) && ls[0].down == Metric(rssi)
            && |ls[0].body| <= StartLog(snr, rssi).available)
      && (forall i :: 1 <= i < |ls| ==> ls[i].up == "" && ls[i].down == "" && |ls[i].body| <= DisplayCharWidth)
  {
    var start := StartLog(snr, rssi);
    WrapTextShape(start, s);
  }

  /** The text of a run of lines, top to bottom. */
  function Bodies(ls: seq<LogLine>): string
  {
    if ls == [] then "" else Bodies(ls[..|ls| - 1]) + ls[|ls| - 1].body
  }

  lemma BodiesAppend(ls: seq<LogLine>, l: LogLine)
    ensures Bodies(ls + [l]) == Bodies(ls) + l.body
  {
    assert (ls + [l])[..|ls|] == ls;
  }

  predicate NoBreaks(s: string)
  {
    forall i :: 0 <= i < |s| ==> s[i] != '\r' && s[i] != '\n'
  }

  /** One printable ASCII character is never dropped: it lands on the current line or, when that is full, on a fresh one. */
  lemma WrapCharKeepsText(w: Wrap, p: string, c: char)
    requires Bodies(w.pushed) + w.line.body == p
    requires IsAscii(w.line.body) && |w.line.body| + w.available <= DisplayCharWidth
    requires (c as int) < 0x80 && c != '\r' && c != '\n'
    ensures Bodies(WrapChar(w, c).pushed) + WrapChar(w, c).line.body == p + [c]
    ensures IsAscii(WrapChar(w, c).line.body)
  {
    var w' := if w.available == 0 then Break(w) else w;
    if w.available == 0 {
      BodiesAppend(w.pushed, w.line);
    }
    assert Bodies(w'.pushed) + w'.line.body == p;
    var t := w'.line.body;
    AsciiSize(t);
    SizeAppend(t, [c]);
    assert WrapChar(w, c).line.body == t + [c];
    AsciiAppend(t, c);
  }

  lemma AsciiAppend(t: string, c: char)
    requires IsAscii(t) && (c as int) < 0x80
    ensures IsAscii(t + [c])
  {
    var u := t + [c];
    forall i | 0 <= i < |u|
      ensures (u[i] as int) < 0x80
    {
      if i < |t| {
        assert u[i] == t[i];
      }
    }
  }

  /** While the text is ASCII without line breaks, no character is lost: the pushed lines and the current line spell the text read so far. */
  lemma {:induction false} WrapTextKeepsText(start: Wrap, s: string)
    requires start.pushed == [] && start.line.body == "" && start.available <= DisplayCharWidth
    requires IsAscii(s) && NoBreaks(s)
    ensures Bodies(WrapText(start, s).pushed) + WrapText(start, s).line.body == s
    ensures IsAscii(WrapText(start, s).line.body)
  {
    if s != [] {
      var p, c := s[..|s| - 1], s[|s| - 1];
      assert s == p + [c];
      assert IsAscii(p) && NoBreaks(p) by {
        forall i | 0 <= i < |p| ensures p[i] == s[i] { }
      }
      WrapTextKeepsText(start, p);
      WrapTextShape(start, p);
      var w := WrapText(start, p);
      assert |w.line.body| + w.available <= DisplayCharWidth;
      WrapCharKeepsText(w, p, c);
      assert WrapText(start, s) == WrapChar(w, c);
    }
  }

  /** An ASCII body without line breaks is logged in full: the logged lines spell it. */
  lemma LogKeepsText(s: string, snr: Option<i16>, rssi: Option<i16>)
    requires IsAscii(s) && NoBreaks(s)
    ensures Bodies(LogOf(Some(s), snr, rssi)) == s
  {
    var start := StartLog(snr, rssi);
    WrapTextKeepsText(start, s);
    var w := WrapText(start, s);
    if w.line != EmptyLine {
      BodiesAppend(w.pushed, w.line);
    }
  }

  // ---------------------------------------------------------------------
  // The input row

  /** What the input row shows: its text and the cursor column. */
  datatype InputView = InputView(text: string, cursor: nat)

  /** The characters skipped so that the cursor stays in view: it is centred (column 10) when it can be, and the window never runs past the end. */
  function ToSkip(len: nat, cursor: nat): nat
  {
    Min(SaturatingSub(cursor, DisplayCharWidth / 2), SaturatingSub(len, DisplayCharWidth))
  }

  /** `set_input`'s row for `text` (the input decoded as UTF-8, None when it is not valid UTF-8); None when the program panics because the 21-character window does not fit the 22-byte string. */
  function ShowInput(text: Option<string>, cursor: nat): Option<InputView>
  {
    match text
    case None => Some(InputView(ErrorInput, 0))
    case Some(s) =>
      if |s| > DisplayCharWidth then
        var skip := ToSkip(|s|, cursor);
        var window := s[skip..skip + DisplayCharWidth];
        if Utf8Size(window) <= TextCapacity then Some(InputView(window, cursor - skip)) else None
      else
        Some(InputView(PushStr("", s, TextCapacity), cursor))
  }

  /** A long text shows a 21-character window holding the cursor: centred at column 10 when there is text enough on both sides, at the left edge near the start and the right edge near the end. */
  lemma InputWindow(s: string, cursor: nat)
    requires |s| > DisplayCharWidth && cursor <= |s| && IsAscii(s)
    ensures var v := ShowInput(Some(s), cursor);
      && v.Some?
      && |v.value.text| == DisplayCharWidth
      && v.value.text == s[cursor - v.value.cursor..cursor - v.value.cursor + DisplayCharWidth]
      && v.value.cursor <= DisplayCharWidth
      && (cursor < 10 ==> v.value.cursor == cursor)
      && (10 <= cursor <= |s| - 11 ==> v.value.cursor == 10)
      && (cursor > |s| - 11 ==> v.value.cursor == cursor - (|s| - DisplayCharWidth))
  {
    var skip := ToSkip(|s|, cursor);
    var window := s[skip..skip + DisplayCharWidth];
    assert IsAscii(window);
    AsciiSize(window);
  }

  /** A short text is shown whole, with the cursor as given, when it fits the 22-byte string. */
  lemma InputShort(s: string, cursor: nat)
    requires |s| <= DisplayCharWidth && IsAscii(s)
    ensures ShowInput(Some(s), cursor) == Some(InputView(s, cursor))
  {
    AsciiSize(s);
    assert "" + s == s;
  }

  // ---------------------------------------------------------------------
  // The screen state and drawing

  /** What `draw` sends to the display, in order. */
  datatype DrawEvent =
    | DrawInput(input: string)
    | DrawCursor(x: int)
    | DrawTitle(title: string)
    | DrawLog(lines: seq<LogLine>)
    | DrawOverlay(overlay: string)

  /** Every field of `Oled128x128` the display logic reads or writes. */
  datatype Screen = Screen(
    overlay: Option<string>,
    title: string,
    body: seq<LogLine>,
    input: string,
    cursor: nat,
    delay: nat,
    overlayModified: bool,
    titleModified: bool,
    bodyModified: bool,
    inputModified: bool)
  {
    /** The screen invariant: eight log lines, the blink counter below 60, and an overlay is always marked for drawing. */
    ghost predicate Valid()
    {
      && |body| == LogHeight
      && delay < 2 * BlinkPhase
      && (overlay.Some? ==> overlayModified)
    }
  }

  /** The screen after `set_overlay(o)`: a new value is stored; clearing it marks the log for redraw, setting it marks the overlay. */
  function Overlaid(s: Screen, o: Option<string>): (r: Screen)
    ensures r.overlay == o
    ensures o == s.overlay ==> r == s
    ensures r.(overlay := s.overlay, bodyModified := s.bodyModified, overlayModified := s.overlayModified) == s
    ensures r.bodyModified == (s.bodyModified || (o != s.overlay && o.None?))
    ensures r.overlayModified == (s.overlayModified || (o != s.overlay && o.Some?))
  {
    if o == s.overlay then s
    else s.(overlay := o, bodyModified := s.bodyModified || o.None?, overlayModified := s.overlayModified || o.Some?)
  }

  /** The screen after `set_input` showed `v`: the row is replaced and marked for redraw. */
  function Shown(s: Screen, v: InputView): Screen
  {
    s.(input := v.text, cursor := v.cursor, inputModified := true)
  }

  /** The x position of the cursor bar: one pixel right of the cursor's column start, kept on the screen. */
  function CursorX(cursor: nat): (x: int)
    ensures 1 <= x <= 126
    ensures cursor <= 20 ==> x == cursor * BigWidth + 1
  {
    if cursor * BigWidth + 1 < 1 then 1 else if cursor * BigWidth + 1 > 126 then 126 else cursor * BigWidth + 1
  }

  /** The new screen and the events of one `draw` call. */
  datatype Frame = Frame(next: Screen, events: seq<DrawEvent>)

  /** The input row of `draw`: redrawn and unmarked when marked. */
  function InputStage(s: Screen): Frame
  {
    Frame(s.(inputModified := false), if s.inputModified then [DrawInput(s.input)] else [])
  }

  /** The blink step of `draw`: the counter advances; at 30 the cursor bar is drawn, at 60 the input row is marked (which erases the bar) and the counter restarts. */
  function BlinkStage(s: Screen): Frame
  {
    var delay := s.delay + 1;
    Frame(
      s.(delay := if delay == 2 * BlinkPhase then 0 else delay, inputModified := s.inputModified || delay == 2 * BlinkPhase),
      if delay == BlinkPhase then [DrawCursor(CursorX(s.cursor))] else [])
  }

  /** The title row of `draw`: redrawn and unmarked when marked. */
  function TitleStage(s: Screen): Frame
  {
    Frame(s.(titleModified := false), if s.titleModified then [DrawTitle(s.title)] else [])
  }

  /** The log rows of `draw`: redrawn and unmarked when marked. */
  function LogStage(s: Screen): Frame
  {
    Frame(s.(bodyModified := false), if s.bodyModified then [DrawLog(s.body)] else [])
  }

  /** The overlay of `draw`: drawn when the log or the overlay is marked and there is one; its mark is never cleared. */
  function OverlayStage(s: Screen): Frame
  {
    Frame(s, if (s.bodyModified || s.overlayModified) && s.overlay.Some? then [DrawOverlay(s.overlay.value)] else [])
  }

  /** `draw`: the five steps in order, their events concatenated. */
  function DrawFrame(s: Screen): Frame
  {
    var a := InputStage(s);
    var b := BlinkStage(a.next);
    var c := TitleStage(b.next);
    var d := LogStage(c.next);
    var e := OverlayStage(d.next);
    Frame(e.next, a.events + b.events + c.events + d.events + e.events)
  }

  /** The screen after `draw`: the counter advances modulo 60, the input row is marked exactly when the counter wraps, the title and log marks are cleared, everything else is kept. */
  lemma DrawNext(s: Screen)
    requires s.delay < 2 * BlinkPhase
    ensures DrawFrame(s).next == s.(
      delay := (s.delay + 1) % (2 * BlinkPhase),
      inputModified := s.delay + 1 == 2 * BlinkPhase,
      titleModified := false,
      bodyModified := false)
  {
    var a := InputStage(s);
    assert a.next == s.(inputModified := false);
    var b := BlinkStage(a.next);
    assert b.next == s.(inputModified := s.delay + 1 == 2 * BlinkPhase, delay := (s.delay + 1) % (2 * BlinkPhase));
    var c := TitleStage(b.next);
    assert c.next == b.next.(titleModified := false);
    var d := LogStage(c.next);
    assert d.next == c.next.(bodyModified := false);
  }

  /** What `draw` sends, in order: the input row when marked, the cursor bar when the counter reaches 30, the title and the log when marked, and the overlay when it is set and marked. The log's mark plays no part in drawing the overlay, because it is cleared before the overlay condition reads it. */
  lemma DrawEvents(s: Screen)
    ensures DrawFrame(s).events ==
      (if s.inputModified then [DrawInput(s.input)] else [])
      + (if s.delay + 1 == BlinkPhase then [DrawCursor(CursorX(s.cursor))] else [])
      + (if s.titleModified then [DrawTitle(s.title)] else [])
      + (if s.bodyModified then [DrawLog(s.body)] else [])
      + (if s.overlayModified && s.overlay.Some? then [DrawOverlay(s.overlay.value)] else [])
  {
    var a := InputStage(s);
    var b := BlinkStage(a.next);
    var c := TitleStage(b.next);
    var d := LogStage(c.next);
    assert d.next.overlay == s.overlay && d.next.overlayModified == s.overlayModified && !d.next.bodyModified;
    assert c.next.body == s.body && c.next.bodyModified == s.bodyModified;
    assert b.next.title == s.title && b.next.titleModified == s.titleModified;
    assert a.next.cursor == s.cursor && a.next.delay == s.delay;
  }

  /** `draw` keeps the invariant, clears the title and log flags, never clears the overlay flag, and forces an input redraw exactly when the counter wraps. */
  lemma DrawKeepsValid(s: Screen)
    requires s.Valid()
    ensures DrawFrame(s).next.Valid()
    ensures !DrawFrame(s).next.titleModified && !DrawFrame(s).next.bodyModified
    ensures DrawFrame(s).next.overlayModified == s.overlayModified
    ensures DrawFrame(s).next.inputModified <==> s.delay + 1 == 2 * BlinkPhase
    ensures DrawFrame(s).next.delay == (s.delay + 1) % (2 * BlinkPhase)
  {
    DrawNext(s);
  }

  /** On a valid screen the overlay is drawn on every call while it is set, and never otherwise. */
  lemma OverlayAlwaysDrawn(s: Screen)
    requires s.Valid()
    ensures s.overlay.Some? ==> DrawOverlay(s.overlay.value) in DrawFrame(s).events
    ensures (exists o :: DrawOverlay(o) in DrawFrame(s).events) ==> s.overlay.Some?
  {
    DrawEvents(s);
  }

  /** `draw` called n times. */
  function DrawTimes(s: Screen, n: nat): Screen
    decreases n
  {
    if n == 0 then s else DrawTimes(DrawFrame(s).next, n - 1)
  }

  /** The blink counter counts draw calls modulo 60, so the cursor bar comes back every 60 calls. */
  lemma {:induction false} BlinkPeriod(s: Screen, n: nat)
    requires s.Valid()
    ensures DrawTimes(s, n).Valid()
    ensures DrawTimes(s, n).delay == (s.delay + n) % (2 * BlinkPhase)
    decreases n
  {
    if n > 0 {
      var t := DrawFrame(s).next;
      DrawKeepsValid(s);
      BlinkPeriod(t, n - 1);
      assert DrawTimes(s, n) == DrawTimes(t, n - 1);
      CounterStep(s.delay, n);
    }
  }

  lemma CounterStep(d: nat, n: nat)
    requires d < 2 * BlinkPhase && n > 0
    ensures ((d + 1) % (2 * BlinkPhase) + (n - 1)) % (2 * BlinkPhase) == (d + n) % (2 * BlinkPhase)
  {
    if d + 1 == 2 * BlinkPhase {
      CounterPeriod(n - 1);
    } else {
      assert (d + 1) % (2 * BlinkPhase) == d + 1;
    }
  }

  lemma CounterPeriod(x: nat)
    ensures (x + 2 * BlinkPhase) % (2 * BlinkPhase) == x % (2 * BlinkPhase)
  {
    var q, r := x / (2 * BlinkPhase), x % (2 * BlinkPhase);
    assert x + 2 * BlinkPhase == 2 * BlinkPhase * (q + 1) + r;
  }

  /** The cursor bar is drawn exactly on the call that brings the counter to 30. */
  lemma CursorBarAt30(s: Screen)
    requires s.Valid()
    ensures (exists x :: DrawCursor(x) in DrawFrame(s).events) <==> s.delay + 1 == BlinkPhase
  {
    DrawEvents(s);
    if s.delay + 1 == BlinkPhase {
      assert DrawCursor(CursorX(s.cursor)) in DrawFrame(s).events;
    }
  }

  function NewScreen(): (s: Screen)
    ensures s.Valid()
  {
    Screen(None, "", seq(LogHeight, _ => EmptyLine), "", 0, 0, false, false, false, false)
  }

  // ---------------------------------------------------------------------
  // Oled128x128

  class Oled128x128 {
    var overlay: Option<string>
    var title: string
    const body: array<LogLine>
    var input: string
    var cursor: nat
    var delay: nat
    var overlayModified: bool
    var titleModified: bool
    var bodyModified: bool
    var inputModified: bool

    ghost function State(): Screen
      reads this, body
    {
      Screen(overlay, title, body[..], input, cursor, delay, overlayModified, titleModified, bodyModified, inputModified)
    }

    ghost predicate Valid()
      reads this, body
    {
      && body.Length == LogHeight
      && delay < 2 * BlinkPhase
      && (overlay.Some? ==> overlayModified)
    }

    /** `Oled128x128::new`: empty strings, eight empty log lines, no overlay, nothing to draw. */
    constructor ()
      ensures Valid() && fresh(body)
      ensures State() == NewScreen()
    {
      overlay := None;
      title := "";
      body := new LogLine[LogHeight](_ => EmptyLine);
      input := "";
      cursor := 0;
      delay := 0;
      overlayModified := false;
      titleModified := false;
      bodyModified := false;
      inputModified := false;
    }

    /** `set_overlay`: a new value is stored; clearing it marks the log for redraw, setting it marks the overlay. */
    method SetOverlay(o: Option<string>)
      requires Valid()
      modifies this
      ensures Valid()
      ensures State() == Overlaid(old(State()), o)
    {
      if o != overlay {
        overlay := o;
        if o == None {
          bodyModified := true;
        } else {
          overlayModified := true;
        }
      }
    }

    /** `set_title`: the title is emptied and refilled, when the whole text fits; the title is marked for redraw. */
    method SetTitle(t: string)
      requires Valid()
      modifies this
      ensures Valid()
      ensures State() == old(State()).(title := PushStr("", t, TextCapacity), titleModified := true)
    {
      title := "";
      title := PushStr(title, t, TextCapacity);
      titleModified := true;
    }

    /** `set_input`; `text` is the input decoded as UTF-8. Returns false when the program panics (the window does not fit). */
    method SetInput(text: Option<string>, at: nat) returns (ok: bool)
      requires Valid()
      modifies this
      ensures Valid()
      ensures ok <==> ShowInput(text, at).Some?
      ensures ok ==> State() == Shown(old(State()), ShowInput(text, at).value)
    {
      var view := InputRow(text, at);
      ok := view.Some?;
      if ok {
        input := view.value.text;
        cursor := view.value.cursor;
        inputModified := true;
      }
    }

    /** The row `set_input` computes: the whole text, or the window around the cursor, or the error text. */
    static method InputRow(text: Option<string>, at: nat) returns (view: Option<InputView>)
      ensures view == ShowInput(text, at)
    {
      if text.Some? {
        var s := text.value;
        var len := |s|;
        if len > DisplayCharWidth {
          var toskip := Min(SaturatingSub(at, DisplayCharWidth / 2), SaturatingSub(len, DisplayCharWidth));
          var window := s[toskip..toskip + DisplayCharWidth];
          if Utf8Size(window) <= TextCapacity {
            view := Some(InputView(window, at - toskip));
          } else {
            view := None;
          }
        } else {
          view := Some(InputView(PushStr("", s, TextCapacity), at));
        }
      } else {
        MessagesFit();
        view := Some(InputView(PushStr("", ErrorInput, TextCapacity), 0));
      }
    }

    /** The `push_line` closure of `add_log`: every line moves up one row, the top one is dropped, `line` becomes the bottom row, and the log is marked for redraw. */
    method PushLine(line: LogLine)
      requires Valid()
      modifies body, this`bodyModified
      ensures Valid()
      ensures body[..] == old(body[..])[1..] + [line] && bodyModified
    {
      var i := 1;
      while i < body.Length
        invariant 1 <= i <= body.Length
        invariant forall j :: 0 <= j < i - 1 ==> body[j] == old(body[j + 1])
        invariant forall j :: i - 1 <= j < body.Length ==> body[j] == old(body[j])
      {
        body[i - 1] := body[i];
        i := i + 1;
      }
      body[body.Length - 1] := line;
      bodyModified := true;
      assert body[..] == old(body[..])[1..] + [line];
    }

    /** The character loop of `add_log`: each character of `s` in turn, from the line `line0` with `available0` columns left. */
    method LogText(s: string, line0: LogLine, available0: nat) returns (line: LogLine, available: nat)
      requires Valid()
      modifies body, this`bodyModified
      ensures Valid()
      ensures Wrap([], line, available) == WrapText(Wrap([], line0, available0), s).(pushed := [])
      ensures body[..] == Scroll(old(body[..]), WrapText(Wrap([], line0, available0), s).pushed)
      ensures bodyModified == (old(bodyModified) || WrapText(Wrap([], line0, available0), s).pushed != [])
    {
      ghost var start := Wrap([], line0, available0);
      ghost var pushed: seq<LogLine> := [];
      line, available := line0, available0;
      var i := 0;
      while i < |s|
        invariant i <= |s|
        invariant Valid()
        invariant WrapText(start, s[..i]) == Wrap(pushed, line, available)
        invariant body[..] == Scroll(old(body[..]), pushed)
        invariant bodyModified == (old(bodyModified) || pushed != [])
      {
        var c := s[i];
        ghost var next := WrapChar(Wrap(pushed, line, available), c);
        assert WrapText(start, s[..i + 1]) == next by {
          assert s[..i + 1][..i] == s[..i];
        }
        if c == '\r' || c == '\n' {
          PushLine(line);
          ScrollPush(old(body[..]), pushed, line);
          pushed := pushed + [line];
          line := EmptyLine;
          available := DisplayCharWidth;
        } else {
          if available == 0 {
            PushLine(line);
            ScrollPush(old(body[..]), pushed, line);
            pushed := pushed + [line];
            line := EmptyLine;
            available := DisplayCharWidth;
          }
          line := line.(body := PushChar(line.body, c, TextCapacity));
          available := available - 1;
        }
        assert Wrap(pushed, line, available) == next;
        i := i + 1;
      }
      assert s[..|s|] == s;
    }

    /** One number of `add_log` (snr or rssi): its decimal text pushed onto an empty 6-byte string, which always succeeds. */
    static method PushMetric(m: Option<i16>) returns (t: string)
      ensures t == Metric(m)
    {
      t := "";
      if m.Some? {
        DecimalFits(m.value);
        AsciiPush(Decimal(m.value as int), NumberCapacity);
        t := PushStr(t, Decimal(m.value as int), NumberCapacity);
      }
    }

    /** The start of `add_log`: the numbers on a fresh line and the columns they leave for text. */
    static method StartLine(snr: Option<i16>, rssi: Option<i16>) returns (line: LogLine, available: nat)
      ensures Wrap([], line, available) == StartLog(snr, rssi)
    {
      var up := PushMetric(snr);
      var down := PushMetric(rssi);
      MetricFits(snr);
      MetricFits(rssi);
      line := LogLine(up, down, "");
      var prefix := Max(|line.up|, |line.down|) * SmallWidth;
      available := (DisplayWidth - prefix) / BigWidth;
    }

    /** `add_log`; `text` is the body decoded as UTF-8. The lines of `LogOf` are pushed in order; only the log and its mark change. */
    method AddLog(text: Option<string>, snr: Option<i16>, rssi: Option<i16>)
      requires Valid()
      modifies body, this`bodyModified
      ensures Valid()
      ensures body[..] == Scroll(old(body[..]), LogOf(text, snr, rssi))
      ensures bodyModified == (old(bodyModified) || LogOf(text, snr, rssi) != [])
    {
      var line, available := StartLine(snr, rssi);
      ghost var w := Wrapped(text, snr, rssi);
      if text.Some? {
        line, available := LogText(text.value, line, available);
      } else {
        line := line.(body := PushStr(line.body, Unparsable, TextCapacity));
        MessagesFit();
      }
      assert line == w.line;
      assert body[..] == Scroll(old(body[..]), w.pushed);
      if line != EmptyLine {
        PushLine(line);
        ScrollPush(old(body[..]), w.pushed, line);
      }
    }

    /** The input row step of `draw`. */
    method DrawInputRow() returns (events: seq<DrawEvent>)
      modifies this
      ensures Frame(State(), events) == InputStage(old(State()))
    {
      events := [];
      if inputModified {
        inputModified := false;
        events := [DrawInput(input)];
      }
    }

    /** The blink step of `draw`. */
    method Blink() returns (events: seq<DrawEvent>)
      modifies this
      ensures Frame(State(), events) == BlinkStage(old(State()))
    {
      events := [];
      delay := delay + 1;
      if delay == BlinkPhase {
        events := [DrawCursor(CursorX(cursor))];
      } else if delay == BlinkPhase * 2 {
        inputModified := true;
        delay := 0;
      }
    }

    /** The title step of `draw`. */
    method DrawTitleRow() returns (events: seq<DrawEvent>)
      modifies this
      ensures Frame(State(), events) == TitleStage(old(State()))
    {
      events := [];
      if titleModified {
        titleModified := false;
        events := [DrawTitle(title)];
      }
    }

    /** The log step of `draw`. */
    method DrawLogRows() returns (events: seq<DrawEvent>)
      modifies this
      ensures Frame(State(), events) == LogStage(old(State()))
    {
      events := [];
      if bodyModified {
        bodyModified := false;
        events := [DrawLog(body[..])];
      }
    }

    /** The overlay step of `draw`; it changes nothing. */
    method DrawOverlayBox() returns (events: seq<DrawEvent>)
      ensures Frame(State(), events) == OverlayStage(State())
    {
      events := [];
      if bodyModified || overlayModified {
        if overlay.Some? {
          events := [DrawOverlay(overlay.value)];
        }
      }
    }

    /** `draw`: the flag and counter updates, with the drawing as returned events. */
    method Draw() returns (events: seq<DrawEvent>)
      requires Valid()
      modifies this
      ensures Valid()
      ensures Frame(State(), events) == DrawFrame(old(State()))
    {
      DrawKeepsValid(State());
      var a := DrawInputRow();
      var b := Blink();
      var c := DrawTitleRow();
      var d := DrawLogRows();
      var e := DrawOverlayBox();
      events := a + b + c + d + e;
    }
  }
}
