/** The Morse encoder that blinks text on the status LED. The LED pin and the busy-wait delay are one output trace of level changes and waits; a time unit is 200 ms of 125000 cycles. */
module Blink {
  import opened Base

  /** A Morse symbol; each is some time lit followed by some time dark. */
  datatype Morse = Dash | Dot | Letter | Word

  /** Units lit and units dark of a symbol. */
  datatype Timing = Timing(on: nat, off: nat)

  /** `Morse::time`. */
  function Time(m: Morse): Timing
  {
    match m
    case Dash => Timing(3, 1)
    case Dot => Timing(1, 1)
    case Letter => Timing(0, 2)
    case Word => Timing(0, 4)
  }

  /** Cycles of one millisecond (`ms`). */
  const Ms: nat := 125000
  /** Cycles of one time unit: `delay(n * 200 * ms)` waits n units. */
  const Unit: nat := 200 * Ms

  // ---------------------------------------------------------------------
  // The character table

  /** The per-character tables `LA` to `LERROR`. */
  const LA: seq<Morse> := [Dot, Dash]
  const LB: seq<Morse> := [Dash, Dot, Dot, Dot]
  const LC: seq<Morse> := [Dash, Dot, Dash, Dot]
  const LD: seq<Morse> := [Dash, Dot, Dot]
  const LE: seq<Morse> := [Dot]
  const LF: seq<Morse> := [Dot, Dot, Dash, Dot]
  const LG: seq<Morse> := [Dash, Dash, Dot]
  const LH: seq<Morse> := [Dot, Dot, Dot, Dot]
  const LI: seq<Morse> := [Dot, Dot]
  const LJ: seq<Morse> := [Dot, Dash, Dash, Dash]
  const LK: seq<Morse> := [Dash, Dot, Dash]
  const LL: seq<Morse> := [Dot, Dash, Dot, Dot]
  const LM: seq<Morse> := [Dash, Dash]
  const LN: seq<Morse> := [Dash, Dot]
  const LO: seq<Morse> := [Dash, Dash, Dash]
  const LP: seq<Morse> := [Dot, Dash, Dash, Dot]
  const LQ: seq<Morse> := [Dash, Dash, Dot, Dash]
  const LR: seq<Morse> := [Dot, Dash, Dot]
  const LS: seq<Morse> := [Dot, Dot, Dot]
  const LT: seq<Morse> := [Dash]
  const LU: seq<Morse> := [Dot, Dot, Dash]
  const LV: seq<Morse> := [Dot, Dot, Dot, Dash]
  const LW: seq<Morse> := [Dot, Dash, Dash]
  const LX: seq<Morse> := [Dash, Dot, Dot, Dash]
  const LY: seq<Morse> := [Dash, Dot, Dash, Dash]
  const LZ: seq<Morse> := [Dash, Dash, Dot, Dot]
  const L1: seq<Morse> := [Dot, Dash, Dash, Dash, Dash]
  const L2: seq<Morse> := [Dot, Dot, Dash, Dash, Dash]
  const L3: seq<Morse> := [Dot, Dot, Dot, Dash, Dash]
  const L4: seq<Morse> := [Dot, Dot, Dot, Dot, Dash]
  const L5: seq<Morse> := [Dot, Dot, Dot, Dot, Dot]
  const L6: seq<Morse> := [Dash, Dot, Dot, Dot, Dot]
  const L7: seq<Morse> := [Dash, Dash, Dot, Dot, Dot]
  const L8: seq<Morse> := [Dash, Dash, Dash, Dot, Dot]
  const L9: seq<Morse> := [Dash, Dash, Dash, Dash, Dot]
  const L0: seq<Morse> := [Dash, Dash, Dash, Dash, Dash]
  const LPeriod: seq<Morse> := [Dot, Dash, Dot, Dash, Dot, Dash]
  const LComma: seq<Morse> := [Dash, Dash, Dot, Dot, Dash, Dash]
  const LQuestion: seq<Morse> := [Dot, Dot, Dash, Dash, Dot, Dot]
  const LApostrophe: seq<Morse> := [Dot, Dash, Dash, Dash, Dash, Dot]
  const LSpace: seq<Morse> := [Word]
  const LError: seq<Morse> := [Word, Dot, Word]

  /** `letter`: the symbols of a character, matched on its code point; upper and lower case share a code, a space is a word gap and anything else the error glyph. */
  function Code(c: char): seq<Morse>
  {
    match c as int
    case 65 | 97 => LA              // 'A' | 'a'
    case 66 | 98 => LB              // 'B' | 'b'
    case 67 | 99 => LC              // 'C' | 'c'
    case 68 | 100 => LD             // 'D' | 'd'
    case 69 | 101 => LE             // 'E' | 'e'
    case 70 | 102 => LF             // 'F' | 'f'
    case 71 | 103 => LG             // 'G' | 'g'
    case 72 | 104 => LH             // 'H' | 'h'
    case 73 | 105 => LI             // 'I' | 'i'
    case 74 | 106 => LJ             // 'J' | 'j'
    case 75 | 107 => LK             // 'K' | 'k'
    case 76 | 108 => LL             // 'L' | 'l'
    case 77 | 109 => LM             // 'M' | 'm'
    case 78 | 110 => LN             // 'N' | 'n'
    case 79 | 111 => LO             // 'O' | 'o'
    case 80 | 112 => LP             // 'P' | 'p'
    case 81 | 113 => LQ             // 'Q' | 'q'
    case 82 | 114 => LR             // 'R' | 'r'
    case 83 | 115 => LS             // 'S' | 's'
    case 84 | 116 => LT             // 'T' | 't'
    case 85 | 117 => LU             // 'U' | 'u'
    case 86 | 118 => LV             // 'V' | 'v'
    case 87 | 119 => LW             // 'W' | 'w'
    case 88 | 120 => LX             // 'X' | 'x'
    case 89 | 121 => LY             // 'Y' | 'y'
    case 90 | 122 => LZ             // 'Z' | 'z'
    case 49 => L1                   // '1'
    case 50 => L2                   // '2'
    case 51 => L3                   // '3'
    case 52 => L4                   // '4'
    case 53 => L5                   // '5'
    case 54 => L6                   // '6'
    case 55 => L7                   // '7'
    case 56 => L8                   // '8'
    case 57 => L9                   // '9'
    case 48 => L0                   // '0'
    case 32 => LSpace               // ' '
    case 39 => LApostrophe          // '\''
    case 44 => LComma               // ','
    case 46 => LPeriod              // '.'
    case 63 => LQuestion            // '?'
    case _ => LError
  }

  /** International Morse code, Part I section 1.1 of Recommendation ITU-R M.1677-1, as dots and dashes, for the characters the encoder supports. */
  function Itu(c: char): (p: Option<string>)
    ensures p.Some? ==> 1 <= |p.value| <= 6
  {
    match c as int
    case 65 => Some(".-")           // 'A'
    case 66 => Some("-...")         // 'B'
    case 67 => Some("-.-.")         // 'C'
    case 68 => Some("-..")          // 'D'
    case 69 => Some(".")            // 'E'
    case 70 => Some("..-.")         // 'F'
    case 71 => Some("--.")          // 'G'
    case 72 => Some("....")         // 'H'
    case 73 => Some("..")           // 'I'
    case 74 => Some(".---")         // 'J'
    case 75 => Some("-.-")          // 'K'
    case 76 => Some(".-..")         // 'L'
    case 77 => Some("--")           // 'M'
    case 78 => Some("-.")           // 'N'
    case 79 => Some("---")          // 'O'
    case 80 => Some(".--.")         // 'P'
    case 81 => Some("--.-")         // 'Q'
    case 82 => Some(".-.")          // 'R'
    case 83 => Some("...")          // 'S'
    case 84 => Some("-")            // 'T'
    case 85 => Some("..-")          // 'U'
    case 86 => Some("...-")         // 'V'
    case 87 => Some(".--")          // 'W'
    case 88 => Some("-..-")         // 'X'
    case 89 => Some("-.--")         // 'Y'
    case 90 => Some("--..")         // 'Z'
    case 49 => Some(".----")        // '1'
    case 50 => Some("..---")        // '2'
    case 51 => Some("...--")        // '3'
    case 52 => Some("....-")        // '4'
    case 53 => Some(".....")        // '5'
    case 54 => Some("-....")        // '6'
    case 55 => Some("--...")        // '7'
    case 56 => Some("---..")        // '8'
    case 57 => Some("----.")        // '9'
    case 48 => Some("-----")        // '0'
    case 46 => Some(".-.-.-")       // '.'
    case 44 => Some("--..--")       // ','
    case 63 => Some("..--..")       // '?'
    case 39 => Some(".----.")       // '\''
    case _ => None
  }

  /** Dots and dashes, as International Morse code (Part I section 1.1 of Recommendation ITU-R M.1677-1) writes them, as symbols. */
  function FromItu(p: string): (code: seq<Morse>)
    ensures |code| == |p|
  {
    seq(|p|, i requires 0 <= i < |p| => if p[i] == '.' then Dot else Dash)
  }

  /** A letter or digit code: one to six dots and dashes, no gap symbol. */
  predicate IsElementCode(code: seq<Morse>)
  {
    1 <= |code| <= 6 && forall i :: 0 <= i < |code| ==> code[i] == Dot || code[i] == Dash
  }

  /** Every code written in dots and dashes, one to six of them, is made of elements only. */
  lemma ItuIsElementCode(p: string)
    requires 1 <= |p| <= 6
    ensures IsElementCode(FromItu(p))
  {
  }

  /** The upper-case form of a lower-case ASCII letter. */
  function Upper(c: char): (u: char)
    requires 'a' <= c <= 'z'
    ensures 'A' <= u <= 'Z'
  {
    (c as int - 32) as char
  }

  /** A lower-case letter has the code of its upper-case form. */
  lemma LowerCaseIsUpperCase(c: char)
    requires 'a' <= c <= 'z'
    ensures Code(c) == Code(Upper(c))
  {
  }

  /** CodeIsItu for A to M. */
  lemma ItuLettersAToM(c: char)
    requires 'A' <= c <= 'M'
    ensures Itu(c).Some? && Code(c) == FromItu(Itu(c).value)
  {
  }

  /** CodeIsItu for N to Z. */
  lemma ItuLettersNToZ(c: char)
    requires 'N' <= c <= 'Z'
    ensures Itu(c).Some? && Code(c) == FromItu(Itu(c).value)
  {
  }

  /** CodeIsItu for the digits. */
  lemma ItuDigits(c: char)
    requires '0' <= c <= '9'
    ensures Itu(c).Some? && Code(c) == FromItu(Itu(c).value)
  {
  }

  /** CodeIsItu for the four punctuation marks. */
  lemma ItuPunctuation(c: char)
    requires c == '.' || c == ',' || c == '?' || c == '\''
    ensures Itu(c).Some? && Code(c) == FromItu(Itu(c).value)
  {
  }

  /** Every character International Morse code covers is encoded as it prescribes, in one to six dots and dashes. */
  lemma CodeIsItu(c: char)
    requires Itu(c).Some?
    ensures Code(c) == FromItu(Itu(c).value)
    ensures IsElementCode(Code(c))
  {
    if 'A' <= c <= 'M' {
      ItuLettersAToM(c);
    } else if 'N' <= c <= 'Z' {
      ItuLettersNToZ(c);
    } else if '0' <= c <= '9' {
      ItuDigits(c);
    } else {
      ItuPunctuation(c);
    }
    ItuIsElementCode(Itu(c).value);
  }

  /** A space is a word gap; any other character without a code is the error glyph, never nothing. */
  lemma UnsupportedIsError(c: char)
    requires Itu(c).None? && !('a' <= c <= 'z')
    ensures c == ' ' ==> Code(c) == [Word]
    ensures c != ' ' ==> Code(c) == [Word, Dot, Word]
  {
  }

  // ---------------------------------------------------------------------
  // Symbol sequences

  /** `letter` applied to each character of a text. */
  function Codes(text: string): (codes: seq<seq<Morse>>)
    ensures |codes| == |text|
  {
    seq(|text|, i requires 0 <= i < |text| => Code(text[i]))
  }

  /** Codes in order, each followed by the letter gap. */
  function Spell(codes: seq<seq<Morse>>): seq<Morse>
  {
    if codes == [] then [] else Spell(codes[..|codes| - 1]) + codes[|codes| - 1] + [Letter]
  }

  /** `blink_iter`'s symbols: the text, then three word gaps marking the end. */
  function Signs(text: string): seq<Morse>
  {
    Spell(Codes(text)) + [Word, Word, Word]
  }

  /** Total symbols of some codes, one letter gap each included. */
  function CodeCount(codes: seq<seq<Morse>>): nat
  {
    if codes == [] then 0 else CodeCount(codes[..|codes| - 1]) + |codes[|codes| - 1]| + 1
  }

  lemma {:induction false} SpellLength(codes: seq<seq<Morse>>)
    ensures |Spell(codes)| == CodeCount(codes)
  {
    if codes != [] {
      SpellLength(codes[..|codes| - 1]);
    }
  }

  /** The sequence has one symbol per code element, one letter gap per character and three closing word gaps. */
  lemma SignsLength(text: string)
    ensures |Signs(text)| == CodeCount(Codes(text)) + 3
    ensures Signs(text)[|Signs(text)| - 3..] == [Word, Word, Word]
  {
    SpellLength(Codes(text));
  }

  /** "SOS" is dot dot dot, gap, dash dash dash, gap, dot dot dot, gap and three word gaps. */
  lemma SosSigns()
    ensures Signs("SOS") == [Dot, Dot, Dot, Letter, Dash, Dash, Dash, Letter, Dot, Dot, Dot, Letter, Word, Word, Word]
  {
    var codes := Codes("SOS");
    assert codes == [LS, LO, LS];
    assert Spell(codes[..1]) == LS + [Letter] by {
      assert codes[..1][..0] == [];
    }
    assert Spell(codes[..2]) == LS + [Letter] + LO + [Letter] by {
      assert codes[..2][..1] == codes[..1];
    }
    assert codes[..3][..2] == codes[..2];
  }

  // ---------------------------------------------------------------------
  // The pin trace

  /** What the encoder does to the outside world: drive the pin, or busy-wait some cycles. */
  datatype PinEvent = Level(high: bool) | Wait(cycles: nat)

  /** `blink_sign`: lit for the on-time when there is one, then dark for the off-time. */
  function SignEvents(m: Morse): seq<PinEvent>
  {
    var t := Time(m);
    (if t.on > 0 then [Level(true), Wait(t.on * Unit)] else []) + [Level(false), Wait(t.off * Unit)]
  }

  /** The events of a symbol sequence, in order. */
  function Events(signs: seq<Morse>): seq<PinEvent>
  {
    if signs == [] then [] else SignEvents(signs[0]) + Events(signs[1..])
  }

  lemma {:induction false} EventsAppend(a: seq<Morse>, b: seq<Morse>)
    ensures Events(a + b) == Events(a) + Events(b)
  {
    if a == [] {
      assert a + b == b;
    } else {
      assert (a + b)[1..] == a[1..] + b;
      EventsAppend(a[1..], b);
    }
  }

  /** A symbol lights the pin only when its on-time is not zero, always ends with the pin dark, and waits for its on- and off-times. */
  lemma SignShape(m: Morse)
    ensures Level(true) in SignEvents(m) <==> Time(m).on > 0
    ensures SignEvents(m)[|SignEvents(m)| - 2..] == [Level(false), Wait(Time(m).off * Unit)]
    ensures forall e :: e in SignEvents(m) && e.Wait? ==> e.cycles <= 4 * Unit
  {
  }

  /** Every wait of the encoder is at most 100,000,000 cycles, so `h * 200 * ms` and `l * 200 * ms` never overflow a u32. */
  lemma {:induction false} WaitsFitU32(signs: seq<Morse>)
    ensures forall e :: e in Events(signs) && e.Wait? ==> e.cycles <= 100_000_000 < 0x1_0000_0000
  {
    if signs != [] {
      WaitsFitU32(signs[1..]);
      SignShape(signs[0]);
    }
  }

  /** After a whole message the pin is dark, left so by the closing word gap. */
  lemma EndsDark(text: string)
    ensures var e := Events(Signs(text)); |e| >= 2 && e[|e| - 2..] == [Level(false), Wait(4 * Unit)]
  {
    EventsAppend(Spell(Codes(text)), [Word, Word, Word]);
    assert [Word, Word, Word][1..][1..][1..] == [];
  }

  /** The pin as an observer sees it: lit or dark, and for how many cycles it has been dark. */
  datatype Light = Light(lit: bool, dark: nat)

  /** The light after one event. */
  function See(l: Light, e: PinEvent): Light
  {
    match e
    case Level(h) => if h then Light(true, 0) else if l.lit then Light(false, 0) else l
    case Wait(c) => if l.lit then l else Light(false, l.dark + c)
  }

  /** The light after a run of events. */
  function Watch(l: Light, es: seq<PinEvent>): Light
    decreases |es|
  {
    if es == [] then l else Watch(See(l, es[0]), es[1..])
  }

  lemma {:induction false} WatchAppend(l: Light, a: seq<PinEvent>, b: seq<PinEvent>)
    ensures Watch(l, a + b) == Watch(Watch(l, a), b)
    decreases |a|
  {
    if a == [] {
      assert a + b == b;
    } else {
      assert (a + b)[1..] == a[1..] + b;
      WatchAppend(See(l, a[0]), a[1..], b);
    }
  }

  /** Four events, watched one at a time. */
  lemma WatchFour(l: Light, e: seq<PinEvent>)
    requires |e| == 4
    ensures Watch(l, e) == See(See(See(See(l, e[0]), e[1]), e[2]), e[3])
  {
    var e1 := e[1..];
    var e2 := e1[1..];
    var e3 := e2[1..];
    assert Watch(l, e) == Watch(See(l, e[0]), e1);
    assert Watch(See(l, e[0]), e1) == Watch(See(See(l, e[0]), e[1]), e2);
    assert Watch(See(See(l, e[0]), e[1]), e2) == Watch(See(See(See(l, e[0]), e[1]), e[2]), e3);
    assert Watch(See(See(See(l, e[0]), e[1]), e[2]), e3) == Watch(See(See(See(See(l, e[0]), e[1]), e[2]), e[3]), e3[1..]);
    assert e3[1..] == [];
  }

  /** Two events, watched one at a time. */
  lemma WatchTwo(l: Light, e: seq<PinEvent>)
    requires |e| == 2
    ensures Watch(l, e) == See(See(l, e[0]), e[1])
  {
    var e1 := e[1..];
    assert Watch(l, e) == Watch(See(l, e[0]), e1);
    assert Watch(See(l, e[0]), e1) == Watch(See(See(l, e[0]), e[1]), e1[1..]);
    assert e1[1..] == [];
  }

  /** A dot or a dash leaves the pin dark for exactly one unit, whatever came before: the gap between the elements of a letter. */
  lemma ElementGap(l: Light, m: Morse)
    requires m == Dot || m == Dash
    ensures Watch(l, SignEvents(m)) == Light(false, Unit)
  {
    WatchFour(l, SignEvents(m));
  }

  lemma {:induction false} CodeEndsDark(l: Light, code: seq<Morse>)
    requires IsElementCode(code)
    ensures Watch(l, Events(code)) == Light(false, Unit)
  {
    var front := code[..|code| - 1];
    var last := code[|code| - 1];
    assert code == front + [last];
    EventsAppend(front, [last]);
    assert [last][1..] == [];
    assert Events([last]) == SignEvents(last);
    assert Events(code) == Events(front) + SignEvents(last);
    WatchAppend(l, Events(front), SignEvents(last));
    assert last == Dot || last == Dash;
    ElementGap(Watch(l, Events(front)), last);
  }

  /** The events of a code and the letter gap after it. */
  lemma GapEvents(code: seq<Morse>)
    ensures Events(code + [Letter]) == Events(code) + [Level(false), Wait(2 * Unit)]
  {
    EventsAppend(code, [Letter]);
  }

  /** After a letter or digit the pin stays dark three units (one after the last element, two for the letter gap) before the next character starts, as section 2 of ITU-R M.1677-1 requires. */
  lemma LetterGap(l: Light, code: seq<Morse>)
    requires IsElementCode(code)
    ensures Watch(l, Events(code + [Letter])) == Light(false, 3 * Unit)
  {
    GapEvents(code);
    WatchAppend(l, Events(code), [Level(false), Wait(2 * Unit)]);
    CodeEndsDark(l, code);
    WatchTwo(Light(false, Unit), [Level(false), Wait(2 * Unit)]);
  }

  /** A space between two words keeps the pin dark nine units: three after the letter, four for the space's word gap and two for its own letter gap. */
  lemma WordGap(l: Light, code: seq<Morse>)
    requires IsElementCode(code)
    ensures Watch(l, Events(code + [Letter] + LSpace + [Letter])) == Light(false, 9 * Unit)
  {
    assert code + [Letter] + LSpace + [Letter] == (code + [Letter]) + (LSpace + [Letter]);
    EventsAppend(code + [Letter], LSpace + [Letter]);
    WatchAppend(l, Events(code + [Letter]), Events(LSpace + [Letter]));
    LetterGap(l, code);
    assert LSpace + [Letter] == [Word, Letter];
    WatchFour(Light(false, 3 * Unit), Events([Word, Letter]));
  }

  /** The output trace shared by the LED pin and the delay loop. */
  class Pin {
    var events: seq<PinEvent>

    constructor ()
      ensures events == []
    {
      events := [];
    }

    method SetHigh()
      modifies this
      ensures events == old(events) + [Level(true)]
    {
      events := events + [Level(true)];
    }

    method SetLow()
      modifies this
      ensures events == old(events) + [Level(false)]
    {
      events := events + [Level(false)];
    }

    /** `cortex_m::asm::delay`. */
    method Delay(cycles: nat)
      modifies this
      ensures events == old(events) + [Wait(cycles)]
    {
      events := events + [Wait(cycles)];
    }
  }

  /** Appending to a trace, step by step or at once. */
  lemma Regroup(a: seq<PinEvent>, b: seq<PinEvent>, c: seq<PinEvent>, d: seq<PinEvent>)
    ensures a + b + c + d == a + (b + c + d)
  {
  }

  /** `blink_sign`. */
  method BlinkSign(pin: Pin, m: Morse)
    modifies pin
    ensures pin.events == old(pin.events) + SignEvents(m)
  {
    var t := Time(m);
    if t.on > 0 {
      pin.SetHigh();
      pin.Delay(t.on * 200 * Ms);
    }
    pin.SetLow();
    pin.Delay(t.off * 200 * Ms);
  }

  /** The inner loop of `blink_iter`: the symbols of one character's code, in order. */
  method BlinkCode(pin: Pin, code: seq<Morse>)
    modifies pin
    ensures pin.events == old(pin.events) + Events(code)
  {
    var j := 0;
    while j < |code|
      invariant j <= |code|
      invariant pin.events == old(pin.events) + Events(code[..j])
    {
      ghost var done := Events(code[..j]);
      BlinkSign(pin, code[j]);
      assert pin.events == old(pin.events) + Events(code[..j + 1]) by {
        assert code[..j + 1] == code[..j] + [code[j]];
        EventsAppend(code[..j], [code[j]]);
        assert Events([code[j]]) == SignEvents(code[j]);
        Regroup(old(pin.events), done, SignEvents(code[j]), []);
      }
      j := j + 1;
    }
    assert code[..j] == code;
  }

  /** One more code adds its own events and those of the letter gap. */
  lemma SpellEventsStep(codes: seq<seq<Morse>>, i: nat)
    requires i < |codes|
    ensures Events(Spell(codes[..i + 1])) == Events(Spell(codes[..i])) + Events(codes[i]) + SignEvents(Letter)
  {
    assert codes[..i + 1][..i] == codes[..i];
    EventsAppend(Spell(codes[..i]) + codes[i], [Letter]);
    EventsAppend(Spell(codes[..i]), codes[i]);
  }

  /** The events of the three closing word gaps. */
  lemma ClosingEvents(signs: seq<Morse>)
    ensures Events(signs + [Word, Word, Word]) == Events(signs) + SignEvents(Word) + SignEvents(Word) + SignEvents(Word)
  {
    EventsAppend(signs, [Word, Word, Word]);
    assert [Word, Word, Word][1..][1..][1..] == [];
  }

  /** `blink_iter`'s loop, over the codes `letter` gives the characters: each code's symbols, then a letter gap. */
  method BlinkSpell(pin: Pin, codes: seq<seq<Morse>>)
    modifies pin
    ensures pin.events == old(pin.events) + Events(Spell(codes))
  {
    var i := 0;
    while i < |codes|
      invariant i <= |codes|
      invariant pin.events == old(pin.events) + Events(Spell(codes[..i]))
    {
      ghost var done := Events(Spell(codes[..i]));
      BlinkCode(pin, codes[i]);
      BlinkSign(pin, Letter);
      assert pin.events == old(pin.events) + Events(Spell(codes[..i + 1])) by {
        SpellEventsStep(codes, i);
        Regroup(old(pin.events), done, Events(codes[i]), SignEvents(Letter));
      }
      i := i + 1;
    }
    assert codes[..i] == codes;
  }

  /** `blink` and `blink_iter`: the characters' codes with their letter gaps, then three word gaps. */
  method BlinkText(pin: Pin, text: string)
    modifies pin
    ensures pin.events == old(pin.events) + Events(Signs(text))
  {
    ghost var start := pin.events;
    BlinkSpell(pin, Codes(text));
    ghost var body := Events(Spell(Codes(text)));
    BlinkSign(pin, Word);
    BlinkSign(pin, Word);
    BlinkSign(pin, Word);
    ClosingEvents(Spell(Codes(text)));
    Regroup(start, body, SignEvents(Word), SignEvents(Word) + SignEvents(Word));
  }
}
