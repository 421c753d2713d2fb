/**
 * The keyboard decoder and edit buffer of src/input.rs.
 *
 * A scan-code mask is a 32-bit word with one bit per key; bit k is the k-th
 * key of the key enumeration (Q is bit 0, Star is bit 31).  Three tables turn
 * the one non-modifier key of a mask into a character; the edit buffer turns a
 * stream of masks into insertions, deletions, cursor moves and a submit event.
 */
module Input {
  import opened Base

  type Keys = bv32

  // Bit positions of the keys, in the order of the key enumeration.
  const Q: nat := 0
  const W: nat := 1
  const E: nat := 2
  const R: nat := 3
  const D: nat := 4
  const S: nat := 5
  const A: nat := 6
  const ShiftL: nat := 7
  const Dollar: nat := 8
  const Z: nat := 9
  const X: nat := 10
  const C: nat := 11
  const V: nat := 12
  const F: nat := 13
  const T: nat := 14
  const Y: nat := 15
  const G: nat := 16
  const U: nat := 17
  const H: nat := 18
  const B: nat := 19
  const N: nat := 20
  const M: nat := 21
  const Underscore: nat := 22
  const Sharp: nat := 23
  const ShiftR: nat := 24
  const L: nat := 25
  const K: nat := 26
  const J: nat := 27
  const I: nat := 28
  const O: nat := 29
  const P: nat := 30
  const Star: nat := 31

  /** The mask with only key `k` down. */
  function Bit(k: nat): Keys
    requires k < 32
  {
    (1 as bv32) << k
  }

  /** Whether key `k` is down in mask `m`. */
  predicate Pressed(m: Keys, k: nat)
    requires k < 32
  {
    m & Bit(k) != 0
  }

  /** `Keys::Shift`: ShiftR or ShiftL. */
  const ShiftMask: Keys := 0x0100_0080
  /** `Keys::Modifiers`: Star, both Shifts, Dollar and Sharp. */
  const Modifiers: Keys := 0x8180_0180

  const StarKey: Keys := 0x8000_0000
  const ShiftRKey: Keys := 0x0100_0000
  const SharpKey: Keys := 0x0080_0000
  const DollarKey: Keys := 0x0000_0100
  const QKey: Keys := 0x1
  const EKey: Keys := 0x4

  /** The masks of the modifier keys and of the three cursor-chord keys. */
  lemma ShiftLBit(key: Keys) ensures Pressed(key, ShiftL) <==> key & 0x80 != 0 {}
  lemma ShiftRBit(key: Keys) ensures Pressed(key, ShiftR) <==> key & 0x0100_0000 != 0 {}
  lemma DollarBit(key: Keys) ensures Pressed(key, Dollar) <==> key & 0x100 != 0 {}
  lemma StarBit(key: Keys) ensures Pressed(key, Star) <==> key & 0x8000_0000 == 0x8000_0000 {}

  /** The five modifier keys: they select a table or a chord, never a character. */
  predicate IsModifier(k: nat)
  {
    k == ShiftL || k == Dollar || k == Sharp || k == ShiftR || k == Star
  }

  const KeysAlpha: string := "qwerdsa^$zxcvftyguhbnm #%lkjiop*"
  const KeysCaps: string := "QWERDSA^$ZXCVFTYGUHBNM #%LKJIOP*"
  const KeysNum: string := "1234\"@&^$,;.:#56(7)!?'_#%%$=890*"

  /** The numeric layout legend shown as an overlay while Dollar is held. */
  const LayoutNum: string := " 1 2 3 4 5 6 7 8 9 0 *\n  ^ & @ \" # ( ) = $ % ^^\n  $ , ; . : ! ? ' _ #"

  /** Number of keys down among bits 0 .. n-1 (Rust's `count_ones` for n = 32). */
  function CountOnes(m: Keys, n: nat): nat
    requires n <= 32
  {
    if n == 0 then 0 else CountOnes(m, n - 1) + (if Pressed(m, n - 1) then 1 else 0)
  }

  /** Index of the lowest key down at or above `k`, 32 when there is none (Rust's `trailing_zeros` for k = 0). */
  function TrailingZeros(m: Keys, k: nat): (r: nat)
    requires k <= 32
    ensures k <= r <= 32
    ensures r < 32 ==> Pressed(m, r)
    ensures forall j :: k <= j < r ==> !Pressed(m, j)
    decreases 32 - k
  {
    if k == 32 then 32 else if Pressed(m, k) then k else TrailingZeros(m, k + 1)
  }

  /** Exactly key `k` is down among bits 0 .. n-1. */
  predicate OnlyKey(m: Keys, k: nat, n: nat)
    requires n <= 32
  {
    k < n && Pressed(m, k) && forall j :: 0 <= j < n && j != k ==> !Pressed(m, j)
  }

  lemma {:induction false} CountOnesZero(m: Keys, n: nat)
    requires n <= 32
    ensures CountOnes(m, n) == 0 <==> forall j :: 0 <= j < n ==> !Pressed(m, j)
  {
    if n > 0 {
      CountOnesZero(m, n - 1);
    }
  }

  lemma {:induction false} CountOnesOne(m: Keys, n: nat)
    requires n <= 32
    ensures CountOnes(m, n) == 1 <==> exists k: nat :: OnlyKey(m, k, n)
  {
    if n > 0 {
      CountOnesOne(m, n - 1);
      CountOnesZero(m, n - 1);
      if CountOnes(m, n) == 1 {
        if Pressed(m, n - 1) {
          assert OnlyKey(m, n - 1, n);
        } else {
          var k :| OnlyKey(m, k, n - 1);
          assert OnlyKey(m, k, n);
        }
      }
      if k :| OnlyKey(m, k, n) {
        if k == n - 1 {
          assert forall j :: 0 <= j < n - 1 ==> !Pressed(m, j);
        } else {
          assert OnlyKey(m, k, n - 1);
          assert !Pressed(m, n - 1);
        }
      }
    }
  }

  /** The lowest key down is the only one, when only one is down. */
  lemma OnlyKeyIsLowest(m: Keys, k: nat)
    requires OnlyKey(m, k, 32)
    ensures TrailingZeros(m, 0) == k
  {
    var r := TrailingZeros(m, 0);
    assert r <= k;
    assert r >= k;
  }

  /** Rust's `get_one_char_from`: the table entry of the only key down, if exactly one is. */
  function GetOneCharFrom(data: Keys, source: string): Option<char>
    requires |source| == 32
  {
    CountOnesZero(data, 32);
    if CountOnes(data, 32) == 1 then Some(source[TrailingZeros(data, 0)]) else None
  }

  /** `get_one_char_from` yields a character exactly when one key is down, and it is that key's entry. */
  lemma GetOneCharFromSpec(data: Keys, source: string)
    requires |source| == 32
    ensures GetOneCharFrom(data, source).Some? <==> exists k: nat :: OnlyKey(data, k, 32)
    ensures forall k: nat :: OnlyKey(data, k, 32) ==> GetOneCharFrom(data, source) == Some(source[k])
  {
    CountOnesOne(data, 32);
    forall k | OnlyKey(data, k, 32) ensures TrailingZeros(data, 0) == k {
      OnlyKeyIsLowest(data, k);
    }
  }

  /** The three character tables. */
  datatype Table = Alpha | Caps | Num

  function Entries(t: Table): (r: string)
    ensures |r| == 32
  {
    match t
    case Alpha => KeysAlpha
    case Caps => KeysCaps
    case Num => KeysNum
  }

  /** The table `get_one_char` reads: capitals under either Shift, else numbers under Dollar, else letters. */
  function Layer(key: Keys): (r: Table)
    ensures r == Caps <==> Pressed(key, ShiftL) || Pressed(key, ShiftR)
    ensures r == Num <==> !Pressed(key, ShiftL) && !Pressed(key, ShiftR) && Pressed(key, Dollar)
  {
    ShiftLBit(key);
    ShiftRBit(key);
    DollarBit(key);
    if key & ShiftMask != 0 then Caps
    else if key & Bit(Dollar) != 0 then Num
    else Alpha
  }

  /** Key `k` is the one non-modifier key down in `key`. */
  predicate SoleKey(key: Keys, k: nat)
  {
    && k < 32 && !IsModifier(k) && Pressed(key, k)
    && forall j :: 0 <= j < 32 && j != k && !IsModifier(j) ==> !Pressed(key, j)
  }

  /** Masking the modifiers out keeps exactly the non-modifier keys. */
  lemma NoModifierKeys(key: Keys)
    ensures forall j :: 0 <= j < 32 ==> (Pressed(key & !Modifiers, j) <==> Pressed(key, j) && !IsModifier(j))
  {
    forall j | 0 <= j < 32
      ensures Pressed(key & !Modifiers, j) <==> Pressed(key, j) && !IsModifier(j)
    {
      assert Pressed(Modifiers, j) <==> IsModifier(j);
    }
  }

  /** Rust's `Keys::get_one_char`. */
  function GetOneChar(key: Keys): Option<char>
  {
    GetOneCharFrom(key & !Modifiers, Entries(Layer(key)))
  }

  /** `get_one_char` yields a character exactly when one non-modifier key is down, and that character is its entry in the selected table. */
  lemma GetOneCharSpec(key: Keys)
    ensures GetOneChar(key).Some? <==> exists k: nat :: SoleKey(key, k)
    ensures forall k: nat :: SoleKey(key, k) ==> GetOneChar(key) == Some(Entries(Layer(key))[k])
  {
    NoModifierKeys(key);
    var m := key & !Modifiers;
    GetOneCharFromSpec(m, Entries(Layer(key)));
    forall k: nat | SoleKey(key, k) ensures OnlyKey(m, k, 32) {
      forall j | 0 <= j < 32 && j != k ensures !Pressed(m, j) {
        if !IsModifier(j) {
          assert !Pressed(key, j);
        }
      }
    }
    forall k: nat | OnlyKey(m, k, 32) ensures SoleKey(key, k) {
    }
  }

  /** Rust's free function `get_one_char`: the letter table, no modifier handling. */
  function GetOneLetter(data: Keys): (r: Option<char>)
    ensures r.Some? <==> exists k: nat :: OnlyKey(data, k, 32)
    ensures forall k: nat :: OnlyKey(data, k, 32) ==> r == Some(KeysAlpha[k])
  {
    GetOneCharFromSpec(data, KeysAlpha);
    GetOneCharFrom(data, KeysAlpha)
  }

  /** Every table entry is a printable ASCII character, so never the byte 0 that ends the edit buffer. */
  lemma TablesPrintable()
    ensures forall k :: 0 <= k < 32 ==> ' ' <= KeysAlpha[k] <= '~'
    ensures forall k :: 0 <= k < 32 ==> ' ' <= KeysCaps[k] <= '~'
    ensures forall k :: 0 <= k < 32 ==> ' ' <= KeysNum[k] <= '~'
  {
    AlphaPrintable();
    CapsPrintable();
    NumPrintable();
  }

  lemma AlphaPrintable() ensures forall k :: 0 <= k < 32 ==> ' ' <= KeysAlpha[k] <= '~' {}
  lemma CapsPrintable() ensures forall k :: 0 <= k < 32 ==> ' ' <= KeysCaps[k] <= '~' {}
  lemma NumPrintable() ensures forall k :: 0 <= k < 32 ==> ' ' <= KeysNum[k] <= '~' {}


  // ---------------------------------------------------------------------
  // The edit buffer

  /** What `process_input` reports. */
  datatype InputState = Running(key: Keys) | Updated | Validated | Overflow | NotForMe(key: Keys)

  /** The state of an `InputBuffer<S>`: its S bytes, the cursor, the key-repeat guard and the last mask seen. */
  datatype Editor = Editor(data: seq<u8>, cursor: nat, ready: bool, last: Keys)

  /** The cursor indexes the buffer or sits just past its end. */
  predicate ValidEditor(e: Editor)
  {
    e.cursor <= |e.data|
  }

  /** A new editor state and the event `process_input` returns with it. */
  datatype Outcome = Outcome(next: Editor, ret: InputState)

  /** The length of the text: the number of non-zero bytes before the first zero. */
  function TextLength(d: seq<u8>): (n: nat)
    ensures n <= |d|
  {
    if d == [] || d[0] == 0 then 0 else 1 + TextLength(d[1..])
  }

  /** The text held by a buffer: the bytes before the first zero. */
  function Text(d: seq<u8>): seq<u8>
  {
    d[..TextLength(d)]
  }

  /** `TextLength` counts exactly the leading run of non-zero bytes. */
  lemma {:induction false} TextLengthSpec(d: seq<u8>, n: nat)
    ensures TextLength(d) == n <==>
              n <= |d| && (forall i :: 0 <= i < n ==> d[i] != 0) && (n < |d| ==> d[n] == 0)
  {
    if d != [] && d[0] != 0 && n > 0 {
      var t := d[1..];
      TextLengthSpec(t, n - 1);
      assert forall i :: 1 <= i < |d| ==> d[i] == t[i - 1];
      if n <= |d| {
        assert (forall i :: 0 <= i < n ==> d[i] != 0) <==> (forall i :: 0 <= i < n - 1 ==> t[i] != 0);
      }
    }
  }

  /** The text is left-packed: once a zero byte appears, every later byte is zero. */
  predicate Packed(d: seq<u8>)
  {
    forall i, j :: 0 <= i < j < |d| && d[i] == 0 ==> d[j] == 0
  }

  /** In a left-packed buffer a byte is non-zero exactly when it lies inside the text. */
  lemma PackedShape(d: seq<u8>)
    requires Packed(d)
    ensures forall i :: 0 <= i < |d| ==> (d[i] != 0 <==> i < TextLength(d))
  {
    TextLengthSpec(d, TextLength(d));
  }

  /** The buffer after removing byte k-1: later bytes move left and a zero enters at the end. */
  function Delete(d: seq<u8>, k: nat): (r: seq<u8>)
    requires 0 < k <= |d|
  {
    d[..k - 1] + d[k..] + [0]
  }

  /** The buffer after inserting byte b at k: bytes from k on move right and the last byte falls off. */
  function Insert(d: seq<u8>, k: nat, b: u8): (r: seq<u8>)
    requires k < |d|
  {
    d[..k] + [b] + d[k..|d| - 1]
  }

  /** Byte i of `Insert(d, k, b)`. */
  lemma InsertAt(d: seq<u8>, k: nat, b: u8, i: nat)
    requires k < |d| && i < |d|
    ensures |Insert(d, k, b)| == |d|
    ensures Insert(d, k, b)[i] == if i < k then d[i] else if i == k then b else d[i - 1]
  {
  }

  /** Byte i of `Delete(d, k)`. */
  lemma DeleteAt(d: seq<u8>, k: nat, i: nat)
    requires 0 < k <= |d| && i < |d|
    ensures |Delete(d, k)| == |d|
    ensures Delete(d, k)[i] == if i < k - 1 then d[i] else if i < |d| - 1 then d[i + 1] else 0
  {
  }

  /** Deleting the byte just inserted gives back the buffer, provided the byte that fell off was zero. */
  lemma DeleteInsert(d: seq<u8>, k: nat, b: u8)
    requires k < |d| && d[|d| - 1] == 0
    ensures Delete(Insert(d, k, b), k + 1) == d
  {
    var m := Insert(d, k, b);
    var r := Delete(m, k + 1);
    InsertAt(d, k, b, 0);
    DeleteAt(m, k + 1, 0);
    forall i | 0 <= i < |d| ensures r[i] == d[i] {
      DeleteAt(m, k + 1, i);
      InsertAt(d, k, b, i);
      if i < |d| - 1 {
        InsertAt(d, k, b, i + 1);
      }
    }
  }

  /** A buffer whose non-zero bytes are exactly its first n is packed with text length n. */
  lemma ShapePacked(d: seq<u8>, n: nat)
    requires n <= |d| && forall i :: 0 <= i < |d| ==> (d[i] != 0 <==> i < n)
    ensures Packed(d) && TextLength(d) == n
  {
    TextLengthSpec(d, n);
  }

  /** Inserting a non-zero byte inside the text of a packed buffer with room keeps it packed and lengthens the text by one. */
  lemma InsertPacked(d: seq<u8>, k: nat, b: u8)
    requires Packed(d) && k <= TextLength(d) && k < |d| && d[|d| - 1] == 0 && b != 0
    ensures Packed(Insert(d, k, b))
    ensures TextLength(Insert(d, k, b)) == TextLength(d) + 1
  {
    var r := Insert(d, k, b);
    var n := TextLength(d);
    PackedShape(d);
    InsertAt(d, k, b, 0);
    forall i | 0 <= i < |r| ensures r[i] != 0 <==> i < n + 1 {
      InsertAt(d, k, b, i);
    }
    ShapePacked(r, n + 1);
  }

  /** Deleting inside the text of a packed buffer keeps it packed and shortens the text by one. */
  lemma DeletePacked(d: seq<u8>, k: nat)
    requires Packed(d) && 0 < k <= TextLength(d)
    ensures Packed(Delete(d, k))
    ensures TextLength(Delete(d, k)) == TextLength(d) - 1
  {
    var r := Delete(d, k);
    var n := TextLength(d);
    PackedShape(d);
    DeleteAt(d, k, 0);
    forall i | 0 <= i < |r| ensures r[i] != 0 <==> i < n - 1 {
      DeleteAt(d, k, i);
    }
    ShapePacked(r, n - 1);
  }

  /** A Star chord: Star+ShiftR deletes before the cursor, Star+Q moves left, Star+E moves right; any other chord is not for the buffer. */
  function Chord(e: Editor, k: Keys): (r: Outcome)
    requires ValidEditor(e)
    ensures ValidEditor(r.next) && |r.next.data| == |e.data|
  {
    if k == ShiftRKey then
      if e.cursor == 0 then Outcome(e, Overflow)
      else Outcome(e.(data := Delete(e.data, e.cursor), cursor := e.cursor - 1), Updated)
    else if k == QKey then
      if e.cursor == 0 then Outcome(e, Overflow)
      else Outcome(e.(cursor := e.cursor - 1), Updated)
    else if k == EKey then
      if e.cursor >= |e.data| || e.data[e.cursor] == 0 then Outcome(e, Overflow)
      else Outcome(e.(cursor := e.cursor + 1), Updated)
    else
      Outcome(e, NotForMe(k))
  }

  /** A mask without Star, as `process_input` handles it. */
  function Typed(e: Editor, key: Keys): (r: Outcome)
    requires ValidEditor(e)
    ensures ValidEditor(r.next) && |r.next.data| == |e.data| && r.next.last == key
  {
    TypedWith(e, key, GetOneChar(key))
  }

  /** A mask without Star whose character is `car`: insert the character when the guard is armed, re-arm the guard when there is none, submit on Sharp alone. */
  function TypedWith(e: Editor, key: Keys, car: Option<char>): (r: Outcome)
    requires ValidEditor(e)
    ensures ValidEditor(r.next) && |r.next.data| == |e.data| && r.next.last == key
  {
    var ready := car.None? || e.ready;
    if car.Some? && ready then
      var e' := e.(ready := false, last := key);
      if e.cursor >= |e.data| || e.data[|e.data| - 1] != 0 then Outcome(e', Overflow)
      else Outcome(e'.(data := Insert(e.data, e.cursor, ByteOf(car.value)), cursor := e.cursor + 1), Updated)
    else if ready && key == SharpKey then
      Outcome(e.(ready := ready, last := key), Validated)
    else
      Outcome(e.(ready := ready, last := key), Running(key))
  }

  /** `InputBuffer::process_input` on the abstract state. */
  function Process(e: Editor, key: Keys): (r: Outcome)
    requires ValidEditor(e)
    ensures ValidEditor(r.next) && |r.next.data| == |e.data| && r.next.last == key
    ensures key == e.last ==> r == Outcome(e, Running(key))
  {
    if key == e.last then
      Outcome(e, Running(key))
    else if key & StarKey == StarKey then
      var o := Chord(e, key ^ StarKey);
      Outcome(o.next.(last := key), o.ret)
    else
      Typed(e, key)
  }

  /** `InputBuffer<S>`: S bytes edited in place, with the cursor, the key-repeat guard and the last mask. */
  class InputBuffer {
    const buffer: array<u8>
    var last: Keys
    var ready: bool
    var cursor: nat

    ghost predicate Valid()
      reads this
    {
      cursor <= buffer.Length
    }

    /** The abstract value of the buffer. */
    ghost function State(): (e: Editor)
      reads this, buffer
    {
      Editor(buffer[..], cursor, ready, last)
    }

    /** `InputBuffer::new`: all bytes zero, cursor at 0, guard armed, no key seen. */
    constructor (size: nat)
      ensures Valid() && fresh(buffer)
      ensures State() == Editor(seq(size, _ => 0), 0, true, 0)
    {
      buffer := new u8[size](_ => 0);
      last := 0;
      ready := true;
      cursor := 0;
    }

    /** `InputBuffer::len`: counts the bytes before the first zero. */
    method Len() returns (n: nat)
      ensures n <= buffer.Length
      ensures forall i :: 0 <= i < n ==> buffer[i] != 0
      ensures n < buffer.Length ==> buffer[n] == 0
      ensures n == TextLength(buffer[..])
    {
      n := 0;
      while n < buffer.Length && buffer[n] != 0
        invariant n <= buffer.Length
        invariant forall i :: 0 <= i < n ==> buffer[i] != 0
      {
        n := n + 1;
      }
      TextLengthSpec(buffer[..], n);
    }

    /** `InputBuffer::get_data`: the text, that is the bytes before the first zero. */
    method GetData() returns (d: seq<u8>)
      ensures d <= buffer[..]
      ensures forall i :: 0 <= i < |d| ==> d[i] != 0
      ensures |d| < buffer.Length ==> buffer[|d|] == 0
      ensures d == Text(buffer[..])
    {
      var n := Len();
      d := buffer[..n];
    }

    /** `InputBuffer::get_cursor`: where the next typed byte goes. */
    method GetCursor() returns (c: nat)
      ensures c == cursor
    {
      c := cursor;
    }

    /** `InputBuffer::clear`: zero every byte and put the cursor at 0; the guard and last mask are kept. */
    method Clear()
      modifies this, buffer
      ensures Valid()
      ensures State() == old(State()).(data := seq(buffer.Length, _ => 0), cursor := 0)
    {
      forall i | 0 <= i < buffer.Length {
        buffer[i] := 0;
      }
      cursor := 0;
    }

    /** Moves bytes cursor .. S-1 one place left over byte cursor-1 and zeroes the last byte. */
    method RemoveBeforeCursor()
      requires Valid() && cursor > 0
      modifies buffer
      ensures buffer[..] == Delete(old(buffer[..]), cursor)
    {
      ghost var d := buffer[..];
      var i := cursor;
      while i < buffer.Length
        invariant cursor <= i <= buffer.Length
        invariant forall j :: 0 <= j < cursor - 1 ==> buffer[j] == d[j]
        invariant forall j :: cursor - 1 <= j < i - 1 ==> buffer[j] == d[j + 1]
        invariant forall j :: i - 1 <= j < buffer.Length ==> buffer[j] == d[j]
      {
        buffer[i - 1] := buffer[i];
        i := i + 1;
      }
      buffer[buffer.Length - 1] := 0;
      forall j | 0 <= j < buffer.Length ensures buffer[j] == Delete(d, cursor)[j] {
        DeleteAt(d, cursor, j);
      }
      DeleteAt(d, cursor, 0);
    }

    /** Moves bytes cursor .. S-2 one place right and writes b at the cursor. */
    method InsertAtCursor(b: u8)
      requires Valid() && cursor < buffer.Length
      modifies buffer
      ensures buffer[..] == Insert(old(buffer[..]), cursor, b)
    {
      ghost var d := buffer[..];
      var i := buffer.Length - 1;
      while i > cursor
        invariant cursor <= i <= buffer.Length - 1
        invariant forall j :: 0 <= j <= i ==> buffer[j] == d[j]
        invariant forall j :: i < j < buffer.Length ==> buffer[j] == d[j - 1]
      {
        i := i - 1;
        buffer[i + 1] := buffer[i];
      }
      buffer[cursor] := b;
      forall j | 0 <= j < buffer.Length ensures buffer[j] == Insert(d, cursor, b)[j] {
        InsertAt(d, cursor, b, j);
      }
      InsertAt(d, cursor, b, 0);
    }

    /** The Star branch of `process_input`: the chord `k` (the mask without Star) edits or moves. */
    method StarChord(k: Keys) returns (ret: InputState)
      requires Valid()
      modifies this, buffer
      ensures Valid()
      ensures Outcome(State(), ret) == Chord(old(State()), k)
    {
      if k == ShiftRKey {
        if cursor == 0 {
          ret := Overflow;
        } else {
          RemoveBeforeCursor();
          cursor := cursor - 1;
          ret := Updated;
        }
      } else if k == QKey {
        if cursor == 0 {
          ret := Overflow;
        } else {
          cursor := cursor - 1;
          ret := Updated;
        }
      } else if k == EKey {
        if cursor >= buffer.Length || buffer[cursor] == 0 {
          ret := Overflow;
        } else {
          cursor := cursor + 1;
          ret := Updated;
        }
      } else {
        ret := NotForMe(k);
      }
    }

    /** The branch of `process_input` for a mask without Star; `car` is the mask's character. */
    method TypeKey(key: Keys, car: Option<char>) returns (ret: InputState)
      requires Valid()
      modifies this, buffer
      ensures Valid()
      ensures Outcome(State(), ret) == TypedWith(old(State()), key, car)
    {
      ghost var e := State();
      ret := Running(key);
      if car.None? {
        ready := true;
      }
      if car.Some? && ready {
        if cursor >= buffer.Length || buffer[buffer.Length - 1] != 0 {
          ret := Overflow;
          assert buffer[..] == e.data;
        } else {
          InsertAtCursor(ByteOf(car.value));
          assert buffer[..] == Insert(e.data, e.cursor, ByteOf(car.value));
          cursor := cursor + 1;
          ret := Updated;
        }
        ready := false;
        last := key;
      } else {
        if ready && key == SharpKey {
          ret := Validated;
        }
        last := key;
        assert buffer[..] == e.data;
      }
    }

    /** `InputBuffer::process_input`: one poll of the keyboard. */
    method ProcessInput(key: Keys) returns (ret: InputState)
      requires Valid()
      modifies this, buffer
      ensures Valid()
      ensures Outcome(State(), ret) == Process(old(State()), key)
    {
      ret := Running(key);
      if key != last {
        if key & StarKey == StarKey {
          ret := StarChord(key ^ StarKey);
        } else {
          var car := GetOneChar(key);
          ret := TypeKey(key, car);
        }
      }
      last := key;
    }
  }

  // ---------------------------------------------------------------------
  // Properties of process_input

  /** A mask seen twice in a row is reported as Running the second time and changes nothing. */
  lemma RepeatedMaskIsIdle(e: Editor, key: Keys)
    requires ValidEditor(e)
    ensures Process(Process(e, key).next, key) == Outcome(Process(e, key).next, Running(key))
  {
  }

  /** Star+Q moves the cursor one place left, or reports Overflow at 0. */
  lemma StarQMovesLeft(e: Editor, key: Keys)
    requires ValidEditor(e) && key != e.last && Pressed(key, Star) && key ^ StarKey == QKey
    ensures e.cursor == 0 ==> Process(e, key) == Outcome(e.(last := key), Overflow)
    ensures e.cursor > 0 ==> Process(e, key) == Outcome(e.(cursor := e.cursor - 1, last := key), Updated)
  {
    StarBit(key);
  }

  /** Star+E moves the cursor one place right when it is on a text byte, otherwise reports Overflow. */
  lemma StarEMovesRight(e: Editor, key: Keys)
    requires ValidEditor(e) && key != e.last && Pressed(key, Star) && key ^ StarKey == EKey
    ensures e.cursor < |e.data| && e.data[e.cursor] != 0 ==>
              Process(e, key) == Outcome(e.(cursor := e.cursor + 1, last := key), Updated)
    ensures e.cursor >= |e.data| || e.data[e.cursor] == 0 ==>
              Process(e, key) == Outcome(e.(last := key), Overflow)
  {
    StarBit(key);
  }

  /** Star+ShiftR deletes the byte before the cursor, or reports Overflow at 0. */
  lemma StarShiftRDeletes(e: Editor, key: Keys)
    requires ValidEditor(e) && key != e.last && Pressed(key, Star) && key ^ StarKey == ShiftRKey
    ensures e.cursor == 0 ==> Process(e, key) == Outcome(e.(last := key), Overflow)
    ensures e.cursor > 0 ==>
              Process(e, key) == Outcome(e.(data := Delete(e.data, e.cursor), cursor := e.cursor - 1, last := key), Updated)
  {
    StarBit(key);
  }

  /** Any other Star chord is handed back without Star and leaves the buffer alone. */
  lemma OtherChordNotForMe(e: Editor, key: Keys)
    requires ValidEditor(e) && key != e.last && Pressed(key, Star)
    requires key ^ StarKey != QKey && key ^ StarKey != EKey && key ^ StarKey != ShiftRKey
    ensures Process(e, key) == Outcome(e.(last := key), NotForMe(key ^ StarKey))
  {
    StarBit(key);
  }

  /** Without Star, a new mask goes to the typing branch. */
  lemma ProcessTyped(e: Editor, key: Keys)
    requires ValidEditor(e) && key != e.last && !Pressed(key, Star)
    ensures Process(e, key) == Typed(e, key)
  {
    StarBit(key);
  }

  /** The character of a single non-modifier key is its entry in the selected table. */
  lemma SoleKeyChar(key: Keys, k: nat)
    requires SoleKey(key, k)
    ensures GetOneChar(key) == Some(Entries(Layer(key))[k])
  {
    GetOneCharSpec(key);
  }

  /** The character of a mask is a printable ASCII table entry, so its byte is never 0. */
  lemma GetOneCharPrintable(key: Keys)
    requires GetOneChar(key).Some?
    ensures ' ' <= GetOneChar(key).value <= '~'
    ensures ByteOf(GetOneChar(key).value) != 0
  {
    GetOneCharSpec(key);
    var k: nat :| SoleKey(key, k);
    SoleKeyChar(key, k);
    PrintableEntry(Layer(key), k);
    PrintableByte(GetOneChar(key).value);
  }

  lemma PrintableByte(c: char)
    requires ' ' <= c <= '~'
    ensures ByteOf(c) != 0
  {
  }

  lemma PrintableEntry(t: Table, k: nat)
    requires k < 32
    ensures ' ' <= Entries(t)[k] <= '~'
  {
    TablesPrintable();
  }

  /** Inserting a non-zero byte into a well-formed buffer with room adds one to the text length. */
  lemma TypedWithLength(e: Editor, key: Keys, car: Option<char>)
    requires ValidEditor(e) && Packed(e.data) && e.cursor <= TextLength(e.data)
    requires car.Some? ==> ByteOf(car.value) != 0
    requires TypedWith(e, key, car).ret == Updated
    ensures Packed(TypedWith(e, key, car).next.data)
    ensures TypedWith(e, key, car).next.cursor <= TextLength(TypedWith(e, key, car).next.data)
    ensures TextLength(TypedWith(e, key, car).next.data) == TextLength(e.data) + 1
  {
    assert car.Some? && e.ready && e.cursor < |e.data| && e.data[|e.data| - 1] == 0;
    InsertPacked(e.data, e.cursor, ByteOf(car.value));
  }

  /** Typing a character into a well-formed buffer adds one to the text length. */
  lemma TypedLength(e: Editor, key: Keys)
    requires ValidEditor(e) && Packed(e.data) && e.cursor <= TextLength(e.data)
    requires Typed(e, key).ret == Updated
    ensures Packed(Typed(e, key).next.data) && Typed(e, key).next.cursor <= TextLength(Typed(e, key).next.data)
    ensures TextLength(Typed(e, key).next.data) == TextLength(e.data) + 1
  {
    var car := GetOneChar(key);
    if car.Some? {
      GetOneCharPrintable(key);
    }
    TypedWithLength(e, key, car);
  }

  /** With one character key down and the guard armed, the character is inserted at the cursor, or Overflow is reported when there is no room; the guard is disarmed either way. */
  lemma TypedCharInserts(e: Editor, key: Keys, k: nat)
    requires ValidEditor(e) && key != e.last && !Pressed(key, Star) && SoleKey(key, k) && e.ready
    ensures Process(e, key).next.ready == false
    ensures e.cursor >= |e.data| || e.data[|e.data| - 1] != 0 ==>
              Process(e, key) == Outcome(e.(ready := false, last := key), Overflow)
    ensures e.cursor < |e.data| && e.data[|e.data| - 1] == 0 ==>
              Process(e, key) == Outcome(Editor(Insert(e.data, e.cursor, ByteOf(Entries(Layer(key))[k])), e.cursor + 1, false, key), Updated)
    ensures Packed(e.data) && e.cursor <= TextLength(e.data) && Process(e, key).ret == Updated ==>
              TextLength(Process(e, key).next.data) == TextLength(e.data) + 1
  {
    ProcessTyped(e, key);
    SoleKeyChar(key, k);
    if Packed(e.data) && e.cursor <= TextLength(e.data) && Typed(e, key).ret == Updated {
      TypedLength(e, key);
    }
  }

  /** A mask without Star that gives no character re-arms the guard; it is Validated when it is Sharp alone. */
  lemma NoCharRearms(e: Editor, key: Keys)
    requires ValidEditor(e) && key != e.last && !Pressed(key, Star) && GetOneChar(key).None?
    ensures Process(e, key) == Outcome(e.(ready := true, last := key), if key == SharpKey then Validated else Running(key))
  {
    ProcessTyped(e, key);
  }

  /** Sharp is a modifier, so the mask holding Sharp alone has no character. */
  lemma SharpHasNoChar()
    ensures GetOneChar(SharpKey) == None && !Pressed(SharpKey, Star)
  {
    StarBit(SharpKey);
    assert SharpKey & !Modifiers == 0;
    CountOnesZero(0, 32);
  }

  /** Sharp alone, as a new mask, always submits and never touches the text. */
  lemma SharpValidates(e: Editor)
    requires ValidEditor(e) && SharpKey != e.last
    ensures Process(e, SharpKey) == Outcome(e.(ready := true, last := SharpKey), Validated)
  {
    SharpHasNoChar();
    NoCharRearms(e, SharpKey);
  }

  /** The editor invariant: the text is left-packed and the cursor lies within it. */
  predicate WellFormed(e: Editor)
  {
    ValidEditor(e) && Packed(e.data) && e.cursor <= TextLength(e.data)
  }

  /** A Star chord keeps the editor invariant. */
  lemma ChordKeepsWellFormed(e: Editor, k: Keys)
    requires WellFormed(e)
    ensures WellFormed(Chord(e, k).next)
  {
    PackedShape(e.data);
    if k == ShiftRKey && e.cursor > 0 {
      DeletePacked(e.data, e.cursor);
    }
  }

  /** Typing keeps the editor invariant. */
  lemma TypedKeepsWellFormed(e: Editor, key: Keys)
    requires WellFormed(e)
    ensures WellFormed(Typed(e, key).next)
  {
    if Typed(e, key).ret == Updated {
      TypedLength(e, key);
    }
  }

  /** `process_input` keeps the editor invariant. */
  lemma ProcessKeepsWellFormed(e: Editor, key: Keys)
    requires WellFormed(e)
    ensures WellFormed(Process(e, key).next)
  {
    if key != e.last {
      if key & StarKey == StarKey {
        ChordKeepsWellFormed(e, key ^ StarKey);
      } else {
        TypedKeepsWellFormed(e, key);
      }
    }
  }

  /** A new mask with a character, guard armed and room left: the character's byte is inserted at the cursor. */
  lemma TypedInsert(e: Editor, key: Keys)
    requires ValidEditor(e) && key != e.last && !Pressed(key, Star) && e.ready && GetOneChar(key).Some?
    requires e.cursor < |e.data| && e.data[|e.data| - 1] == 0
    ensures Process(e, key) == Outcome(Editor(Insert(e.data, e.cursor, ByteOf(GetOneChar(key).value)), e.cursor + 1, false, key), Updated)
  {
    ProcessTyped(e, key);
    assert Typed(e, key) == TypedWith(e, key, GetOneChar(key));
  }

  /** Typing a character and then Star+ShiftR gives back the text and the cursor. */
  lemma InsertThenDelete(e: Editor, key: Keys)
    requires ValidEditor(e) && key != e.last && !Pressed(key, Star) && e.ready && GetOneChar(key).Some?
    requires e.cursor < |e.data| && e.data[|e.data| - 1] == 0
    ensures Process(e, key).ret == Updated
    ensures Process(Process(e, key).next, StarKey | ShiftRKey).ret == Updated
    ensures Process(Process(e, key).next, StarKey | ShiftRKey).next.data == e.data
    ensures Process(Process(e, key).next, StarKey | ShiftRKey).next.cursor == e.cursor
  {
    var b := ByteOf(GetOneChar(key).value);
    TypedInsert(e, key);
    var e1 := Process(e, key).next;
    var chord := StarKey | ShiftRKey;
    StarBit(chord);
    assert chord ^ StarKey == ShiftRKey;
    StarShiftRDeletes(e1, chord);
    DeleteInsert(e.data, e.cursor, b);
  }

  /** The code lets the text fill all S bytes: one character fits when S-1 are used, none when S are. */
  lemma CapacityBoundary(e: Editor, key: Keys, k: nat)
    requires WellFormed(e) && key != e.last && !Pressed(key, Star) && SoleKey(key, k) && e.ready
    ensures TextLength(e.data) + 1 == |e.data| ==>
              Process(e, key).ret == Updated && TextLength(Process(e, key).next.data) == |e.data|
    ensures TextLength(e.data) == |e.data| ==> Process(e, key) == Outcome(e.(ready := false, last := key), Overflow)
  {
    TypedCharInserts(e, key, k);
    PackedShape(e.data);
    if |e.data| > 0 && TextLength(e.data) < |e.data| {
      assert e.data[|e.data| - 1] == 0;
    }
  }

  // ---------------------------------------------------------------------
  // ShiftRegister::read

  /** Bit `b` of a word, with the bit index itself a machine word. */
  predicate BitSet(v: Keys, b: bv32)
    requires b < 32
  {
    v & ((1 as bv32) << b) != 0
  }

  /** One clock pulse: the word moves up a bit and the sample enters as bit 0. */
  function ShiftIn(v: Keys, high: bool): Keys
  {
    if high then (v << 1) + 1 else v << 1
  }

  /** The word assembled from pin samples: each sample shifts the word left and enters as bit 0. */
  function Assemble(samples: seq<bool>): Keys
  {
    if samples == [] then 0
    else ShiftIn(Assemble(samples[..|samples| - 1]), samples[|samples| - 1])
  }

  /** A clock pulse puts the sample at bit 0 ... */
  lemma ShiftInLow(v: Keys, high: bool)
    ensures BitSet(ShiftIn(v, high), 0) <==> high
  {
  }

  /** ... and moves every other bit up by one. */
  lemma ShiftInHigh(v: Keys, high: bool, b: bv32)
    requires 0 < b < 32
    ensures BitSet(ShiftIn(v, high), b) <==> BitSet(v, b - 1)
    ensures ((b - 1) as int) == (b as int) - 1
  {
    if high {
      ShiftInOne(v, b);
    } else {
      ShiftInZero(v, b);
    }
  }

  lemma ShiftInOne(v: Keys, b: bv32)
    requires 0 < b < 32
    ensures BitSet((v << 1) + 1, b) <==> BitSet(v, b - 1)
  {
  }

  lemma ShiftInZero(v: Keys, b: bv32)
    requires 0 < b < 32
    ensures BitSet(v << 1, b) <==> BitSet(v, b - 1)
  {
  }

  /** Bit b of the assembled word is the b-th sample from the end: the first sample of a full read lands in the most significant bit. */
  lemma {:induction false} AssembleBits(samples: seq<bool>)
    requires |samples| <= 32
    ensures forall b: bv32 :: b < 32 ==>
              (BitSet(Assemble(samples), b) <==> (b as int) < |samples| && samples[|samples| - 1 - b as int])
  {
    if samples == [] {
      forall b: bv32 | b < 32 ensures !BitSet(0, b) {
      }
    } else {
      var p := samples[..|samples| - 1];
      var high := samples[|samples| - 1];
      AssembleBits(p);
      forall b: bv32 | b < 32
        ensures BitSet(Assemble(samples), b) <==> (b as int) < |samples| && samples[|samples| - 1 - b as int]
      {
        if b == 0 {
          ShiftInLow(Assemble(p), high);
        } else {
          ShiftInHigh(Assemble(p), high, b);
          if (b as int) < |samples| {
            assert samples[|samples| - 1 - b as int] == p[|p| - 1 - (b - 1) as int];
          }
        }
      }
    }
  }

  lemma AssembleStep(samples: seq<bool>, i: nat)
    requires i < |samples|
    ensures Assemble(samples[..i + 1]) == ShiftIn(Assemble(samples[..i]), samples[i])
  {
    assert samples[..i + 1][..i] == samples[..i];
  }

  /** `ShiftRegister::read` for a 32-bit register: one sample of the data pin per clock pulse. */
  method ReadRegister(samples: seq<bool>) returns (v: Keys)
    requires |samples| == 32
    ensures v == Assemble(samples)
    ensures forall b: bv32 :: b < 32 ==> (BitSet(v, b) <==> samples[31 - b as int])
  {
    v := 0;
    var i := 0;
    while i < |samples|
      invariant i <= |samples|
      invariant v == Assemble(samples[..i])
    {
      AssembleStep(samples, i);
      v := ShiftIn(v, samples[i]);
      i := i + 1;
    }
    assert samples[..32] == samples;
    AssembleBits(samples);
  }

  /** In key terms: the first sample is Star (bit 31), the last is Q (bit 0). */
  lemma RegisterKeys(samples: seq<bool>)
    requires |samples| == 32
    ensures Pressed(Assemble(samples), Star) <==> samples[0]
    ensures Pressed(Assemble(samples), Q) <==> samples[31]
  {
    var v := Assemble(samples);
    AssembleBits(samples);
    assert BitSet(v, 31) <==> samples[0];
    assert BitSet(v, 0) <==> samples[31];
    StarBit(v);
    QBit(v);
  }

  lemma QBit(key: Keys) ensures Pressed(key, Q) <==> key & 1 != 0 {}

  // ---------------------------------------------------------------------
  // Button2::just_pressed

  /** `Button2`: a push button with a one-bit memory of its last reading. */
  class Button2 {
    var state: bool

    constructor ()
      ensures !state
    {
      state := false;
    }

    /** One poll; `low` is the pin reading (pressed pulls it low). */
    method JustPressed(low: bool) returns (pressed: bool)
      modifies this
      ensures pressed == (low && !old(state))
      ensures state == low
    {
      if low {
        if state {
          pressed := false;
        } else {
          state := true;
          pressed := true;
        }
      } else {
        state := false;
        pressed := false;
      }
    }
  }

  /** The answers of successive `just_pressed` polls from memory `state`, given the pin readings. */
  function Presses(state: bool, lows: seq<bool>): (r: seq<bool>)
    ensures |r| == |lows|
    decreases |lows|
  {
    if lows == [] then [] else [lows[0] && !state] + Presses(lows[0], lows[1..])
  }

  /** A poll answers true exactly when the pin is low now and was high at the previous poll (or, first, in memory). */
  lemma {:induction false} PressesAreFallingEdges(state: bool, lows: seq<bool>)
    decreases |lows|
    ensures forall i :: 0 <= i < |lows| ==>
              Presses(state, lows)[i] == (lows[i] && !(if i == 0 then state else lows[i - 1]))
  {
    if lows != [] {
      var rest := lows[1..];
      PressesAreFallingEdges(lows[0], rest);
      forall i | 0 <= i < |lows|
        ensures Presses(state, lows)[i] == (lows[i] && !(if i == 0 then state else lows[i - 1]))
      {
        if i > 0 {
          assert Presses(state, lows)[i] == Presses(lows[0], rest)[i - 1];
          assert rest[i - 1] == lows[i];
          if i > 1 {
            assert rest[i - 2] == lows[i - 1];
          }
        }
      }
    }
  }
}
