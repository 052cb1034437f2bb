/**
 The two text forms of a connection path, told with their characters: the hex digits of the
 display, what a hex byte may look like, the spellings of a parameter reference, and the
 bytes its default value becomes.
 */
module PathSpelling {
  import opened Wire
  import opened EdsParser
  import opened PathText

  const HEX: string := "0123456789ABCDEF"
  const LOWERHEX: string := "0123456789abcdef"

  // ---------------------------------------------------------------- the display

  lemma HexByteIsTwoDigits(b: byte)
    ensures HexByte(b) == [HEX[b / 16], HEX[b % 16]]
  {
    DigitAt(b / 16);
    DigitAt(b % 16);
  }

  lemma DigitAt(d: nat)
    requires d < 16
    ensures HexDigit(d) == HEX[d]
    ensures Digit(HEX[d]) == Some(d) && Digit(LOWERHEX[d]) == Some(d)
  {
    var h, l := HEX, LOWERHEX;
    assert d < 10 ==> h[d] == l[d] == ('0' as int + d) as char;
    assert d >= 10 ==> h[d] == ('A' as int + d - 10) as char && l[d] == ('a' as int + d - 10) as char;
  }

  /** Two upper-case digits for each byte, single spaces between them, and nothing else. */
  lemma {:induction false} DisplayIsSpacedHex(path: bytes, i: nat)
    requires i < |path|
    ensures |Shown(path)| == 3 * |path| - 1
    ensures Shown(path)[3 * i] == HEX[path[i] / 16] && Shown(path)[3 * i + 1] == HEX[path[i] % 16]
    ensures i > 0 ==> Shown(path)[3 * i - 1] == ' '
  {
    HexByteIsTwoDigits(path[0]);
    if |path| > 1 {
      DisplayIsSpacedHex(path[1..], if i == 0 then 0 else i - 1);
      if i > 0 {
        ShownShifted(path, 3 * i);
        ShownShifted(path, 3 * i + 1);
        if i > 1 {
          ShownShifted(path, 3 * i - 1);
        }
      }
    }
  }

  lemma ShownShifted(path: bytes, k: nat)
    requires |path| > 1 && 3 <= k < 3 + |Shown(path[1..])|
    ensures k < |Shown(path)| && Shown(path)[k] == Shown(path[1..])[k - 3] && Shown(path)[2] == ' '
  {
    var s := Shown(path[1..]);
    assert HexByte(path[0]) + (" " + s) == HexByte(path[0]) + " " + s;
  }

  // ---------------------------------------------------------------- hex bytes

  /** A digit in either case. */
  predicate Spells(c: char, d: nat) {
    d < 16 && (c == HEX[d] || c == LOWERHEX[d])
  }

  /** A number written with these digits, the first one highest. */
  function Value(digits: seq<nat>): nat {
    if digits == [] then 0 else 16 * Value(digits[..|digits| - 1]) + digits[|digits| - 1]
  }

  predicate AreSpelled(s: string, digits: seq<nat>) {
    |s| == |digits| && forall i | 0 <= i < |s| :: Spells(s[i], digits[i])
  }

  /** What the digits of s add to a value read so far. */
  lemma {:induction false} DigitsRead(s: string, digits: seq<nat>, done: seq<nat>)
    requires AreSpelled(s, digits)
    ensures HexFrom(s, Value(done)) == if Value(done + digits) <= 0xFF then Some(Value(done + digits)) else None
  {
    if s == "" {
      assert done + digits == done;
    } else {
      DigitAt(digits[0]);
      var more := done + [digits[0]];
      assert more[..|more| - 1] == done;
      assert Value(more) == 16 * Value(done) + digits[0];
      DigitsRead(s[1..], digits[1..], more);
      assert more + digits[1..] == done + digits;
      if Value(done) > 0xFF {
        ValueGrows(done, digits);
      }
    }
  }

  lemma {:induction false} ValueGrows(done: seq<nat>, digits: seq<nat>)
    ensures Value(done) <= Value(done + digits)
  {
    if digits == [] {
      assert done + digits == done;
    } else {
      var all := done + digits;
      assert all[..|all| - 1] == done + digits[..|digits| - 1];
      ValueGrows(done, digits[..|digits| - 1]);
    }
  }

  /** A hex byte is one or more digits in either case, perhaps behind one plus sign, with a
      value of at most 255; leading zeros do not count. */
  lemma HexIsRead(s: string, digits: seq<nat>)
    requires AreSpelled(s, digits) && s != ""
    ensures ReadHex(s) == if Value(digits) <= 0xFF then Some(Value(digits)) else None
    ensures ReadHex("+" + s) == ReadHex(s)
  {
    DigitsRead(s, digits, []);
    assert [] + digits == digits && Value([]) == 0;
    DigitAt(digits[0]);
    PlusIsNoDigit(digits[0]);
    assert ("+" + s)[1..] == s;
  }

  lemma PlusIsNoDigit(d: nat)
    requires d < 16
    ensures HEX[d] != '+' && LOWERHEX[d] != '+'
  {
    DigitAt(d);
  }

  lemma DigitSpells(c: char)
    requires Digit(c).Some?
    ensures Spells(c, Digit(c).value)
  {
    var d := Digit(c).value;
    var h, l := HEX, LOWERHEX;
    assert d < 10 ==> h[d] == ('0' as int + d) as char;
    assert d >= 10 ==> h[d] == ('A' as int + d - 10) as char && l[d] == ('a' as int + d - 10) as char;
  }

  lemma {:induction false} DigitsTaken(s: string, value: nat) returns (digits: seq<nat>)
    requires HexFrom(s, value).Some?
    ensures AreSpelled(s, digits)
  {
    if s == "" {
      digits := [];
    } else {
      DigitSpells(s[0]);
      digits := DigitsTaken(s[1..], 16 * value + Digit(s[0]).value);
      digits := [Digit(s[0]).value] + digits;
    }
  }

  predicate IsHex(s: string, digits: seq<nat>) {
    s != "" && AreSpelled(s, digits) && Value(digits) <= 0xFF
  }

  predicate IsSignedHex(s: string, digits: seq<nat>) {
    IsHex(s, digits) || (s != "" && s[0] == '+' && IsHex(s[1..], digits))
  }

  lemma SignedHexIsRead(s: string, digits: seq<nat>)
    requires IsSignedHex(s, digits)
    ensures ReadHex(s).Some?
  {
    if IsHex(s, digits) {
      HexIsRead(s, digits);
    } else {
      HexIsRead(s[1..], digits);
      assert "+" + s[1..] == s;
    }
  }

  lemma ReadIsSignedHex(s: string) returns (digits: seq<nat>)
    requires ReadHex(s).Some?
    ensures IsSignedHex(s, digits)
  {
    digits := DigitsTaken(Unsigned(s), 0);
    DigitsRead(Unsigned(s), digits, []);
    assert [] + digits == digits && Value([]) == 0;
    assert IsHex(Unsigned(s), digits);
  }

  /** Nothing else is a hex byte. */
  lemma HexBytesAreExactly(s: string)
    ensures ReadHex(s).Some? <==> exists digits: seq<nat> :: IsSignedHex(s, digits)
  {
    if ReadHex(s).Some? {
      var digits := ReadIsSignedHex(s);
      assert IsSignedHex(s, digits);
    }
    forall digits: seq<nat> | IsSignedHex(s, digits) ensures ReadHex(s).Some? {
      SignedHexIsRead(s, digits);
    }
  }

  // ---------------------------------------------------------------- references

  function Repeated(c: char, n: nat): (s: string)
    ensures |s| == n && forall i | 0 <= i < n :: s[i] == c
  {
    if n == 0 then "" else [c] + Repeated(c, n - 1)
  }

  /** The word Param with any letters in capitals. */
  predicate SpellsParam(name: string) {
    |name| == 5 && forall i | 0 <= i < 5 :: name[i] == "param"[i] || name[i] == "PARAM"[i]
  }

  /** A number written with these digits. */
  function NumberOf(s: string): nat
    requires AreDigits(s)
  {
    if s == "" then 0 else 10 * NumberOf(s[..|s| - 1]) + (s[|s| - 1] as int - '0' as int)
  }

  lemma {:induction false} NumberRead(s: string, done: string)
    requires AreDigits(s) && AreDigits(done)
    ensures AreDigits(done + s)
    ensures DecimalFrom(s, NumberOf(done))
         == if NumberOf(done + s) < 0x1_0000_0000 then Some(NumberOf(done + s)) else None
  {
    if s == "" {
      assert done + s == done;
    } else {
      var more := done + [s[0]];
      assert more[..|more| - 1] == done;
      NumberRead(s[1..], more);
      assert more + s[1..] == done + s;
      if NumberOf(done) >= 0x1_0000_0000 {
        NumberGrows(done, s);
      }
    }
  }

  lemma {:induction false} NumberGrows(done: string, s: string)
    requires AreDigits(s) && AreDigits(done)
    ensures AreDigits(done + s) && NumberOf(done) <= NumberOf(done + s)
  {
    if s == "" {
      assert done + s == done;
    } else {
      var all := done + s;
      assert all[..|all| - 1] == done + s[..|s| - 1];
      NumberGrows(done, s[..|s| - 1]);
    }
  }

  /** A reference with any brackets around it, any letter case, and leading zeros. */
  function ReferenceText(open: nat, name: string, number: string, close: nat): string {
    Repeated('[', open) + (name + (number + Repeated(']', close)))
  }

  lemma {:induction false} LeadingDropped(open: nat, s: string)
    requires s != "" && s[0] != '['
    ensures DropLeading(Repeated('[', open) + s, '[') == s
  {
    if open > 0 {
      assert (Repeated('[', open) + s)[1..] == Repeated('[', open - 1) + s;
      LeadingDropped(open - 1, s);
    } else {
      assert Repeated('[', open) + s == s;
    }
  }

  lemma {:induction false} ClosingDropped(s: string, close: nat)
    requires s != "" && s[|s| - 1] != ']'
    ensures DropTrailing(s + Repeated(']', close), ']') == s
  {
    if close > 0 {
      var all := s + Repeated(']', close);
      assert all[..|all| - 1] == s + Repeated(']', close - 1);
      ClosingDropped(s, close - 1);
    } else {
      assert s + Repeated(']', close) == s;
    }
  }

  lemma LetterLower(c: char, i: nat)
    requires i < 5 && (c == "param"[i] || c == "PARAM"[i])
    ensures Lower(c) == "param"[i] && !IsWhitespace(c) && c != '[' && Digit(c).None? == (i != 1 && i != 3) && c != '+'
  {
    assert "param"[0] == 'p' && "param"[1] == 'a' && "param"[2] == 'r' && "param"[3] == 'a' && "param"[4] == 'm';
    assert "PARAM"[0] == 'P' && "PARAM"[1] == 'A' && "PARAM"[2] == 'R' && "PARAM"[3] == 'A' && "PARAM"[4] == 'M';
  }

  lemma NumberedAfterName(s: string, number: string)
    requires |s| >= 5 && s[5..] == number && forall i | 0 <= i < 5 :: Lower(s[i]) == "param"[i]
    ensures Numbered(s) == ReadDecimal(number)
  {
    var p := "param";
    assert p[0] == 'p' && p[1] == 'a' && p[2] == 'r' && p[3] == 'a' && p[4] == 'm';
  }

  lemma NumberIsRead(number: string)
    requires number != "" && AreDigits(number)
    ensures ReadDecimal(number) == if NumberOf(number) < 0x1_0000_0000 then Some(NumberOf(number)) else None
  {
    NumberRead(number, "");
    assert "" + number == number;
  }

  /** The text of a reference without its brackets. */
  lemma NameIsRead(name: string, number: string)
    requires SpellsParam(name) && number != "" && AreDigits(number)
    ensures Numbered(name + number) == if NumberOf(number) < 0x1_0000_0000 then Some(NumberOf(number)) else None
  {
    var s := name + number;
    forall i | 0 <= i < 5 ensures Lower(s[i]) == "param"[i] {
      LetterLower(name[i], i);
    }
    NumberedAfterName(s, number);
    NumberIsRead(number);
  }

  lemma ReferenceParts(open: nat, name: string, number: string, close: nat)
    requires SpellsParam(name) && number != "" && AreDigits(number)
    ensures DropTrailing(DropLeading(ReferenceText(open, name, number, close), '['), ']') == name + number
    ensures PathText.IsWord(ReferenceText(open, name, number, close))
    ensures ReadHex(ReferenceText(open, name, number, close)).None?
  {
    var inner := name + (number + Repeated(']', close));
    var s := name + number;
    assert inner == s + Repeated(']', close);
    LetterLower(name[0], 0);
    LeadingDropped(open, inner);
    ClosingDropped(s, close);
    var text := ReferenceText(open, name, number, close);
    forall i | 0 <= i < 5 ensures !IsWhitespace(name[i]) {
      LetterLower(name[i], i);
    }
    assert forall i | 0 <= i < |text| :: text[i] == '[' || text[i] == ']' || text[i] in name || text[i] in number;
    if ReadHex(text).Some? {
      assert text[0] == if open > 0 then '[' else name[0];
      HexDigitsOnly(text, 0);
    }
  }

  // ---------------------------------------------------------------- default values

  /** How many bytes a parameter takes in a path. */
  function Bytes(size: nat): nat {
    match size
    case 0 => 1
    case 1 => 1
    case 2 => 2
    case 3 => 3
    case 4 => 4
    case 5 => 5
    case 6 => 6
    case 7 => 7
    case _ => 8
  }

  /** A number without its low i bytes. */
  function Shifted(v: nat, i: nat): nat {
    if i == 0 then v else Shifted(v / 0x100, i - 1)
  }

  lemma {:induction false} LeByte(v: nat, k: nat, i: nat)
    requires i < k
    ensures Le(v, k)[i] == Shifted(v, i) % 0x100
  {
    if i > 0 {
      LeByte(v / 0x100, k - 1, i - 1);
      assert Le(v, k)[i] == Le(v / 0x100, k - 1)[i - 1];
    }
  }

  /** What a reference adds to a path. */
  predicate AreDefaultBytes(b: bytes, p: Param) {
    && p.default.Some?
    && |b| == Bytes(p.size)
    && forall i | 0 <= i < |b| :: b[i] == Shifted(p.default.value, i) % 0x100
  }

  lemma DefaultIsLittleEndian(p: Param)
    requires p.default.Some?
    ensures AreDefaultBytes(Le(p.default.value, 8)[..Clamped(p.size)], p)
  {
    var b := Le(p.default.value, 8)[..Clamped(p.size)];
    forall i | 0 <= i < |b| ensures b[i] == Shifted(p.default.value, i) % 0x100 {
      LeByte(p.default.value, 8, i);
    }
  }

  // ---------------------------------------------------------------- path strings

  /** The words of a path string: a hex byte, or a reference to a parameter. */
  datatype Word =
    | Hex(plus: bool, text: string, digits: seq<nat>)
    | Reference(open: nat, name: string, number: string, close: nat)

  predicate IsSpelling(w: Word) {
    match w
    case Hex(_, text, digits) => text != "" && AreSpelled(text, digits)
    case Reference(_, name, number, _) => SpellsParam(name) && number != "" && AreDigits(number)
  }

  function WordText(w: Word): string {
    match w
    case Hex(plus, text, _) => if plus then "+" + text else text
    case Reference(open, name, number, close) => ReferenceText(open, name, number, close)
  }

  /** Whether a word resolves, and to which bytes. */
  predicate Means(r: Option<bytes>, w: Word, params: map<u32, Param>)
    requires IsSpelling(w)
  {
    match w
    case Hex(_, _, digits) => r == if Value(digits) <= 0xFF then Some([Value(digits)]) else None
    case Reference(_, _, number, _) =>
      var n := NumberOf(number);
      if n in params && params[n].default.Some? then r.Some? && AreDefaultBytes(r.value, params[n]) else r.None?
  }

  lemma SpelledHexIsAWord(text: string, digits: seq<nat>)
    requires AreSpelled(text, digits)
    ensures forall i | 0 <= i < |text| :: !IsWhitespace(text[i]) && Digit(text[i]).Some?
  {
    forall i | 0 <= i < |text| ensures !IsWhitespace(text[i]) && Digit(text[i]).Some? {
      DigitAt(digits[i]);
    }
  }

  lemma DigitIsNoP(text: string)
    requires text != "" && (text[0] == '+' || Digit(text[0]).Some?)
    ensures DropLeading(text, '[') == text && Numbered(text).None?
  {
  }

  lemma DigitIsNoBracket(text: string)
    requires text != "" && Digit(text[|text| - 1]).Some?
    ensures DropTrailing(text, ']') == text
  {
  }

  lemma HexIsNoReference(plus: bool, text: string, digits: seq<nat>)
    requires text != "" && AreSpelled(text, digits)
    ensures var word := if plus then "+" + text else text;
            Numbered(DropTrailing(DropLeading(word, '['), ']')).None?
  {
    var word := if plus then "+" + text else text;
    SpelledHexIsAWord(text, digits);
    assert word[|word| - 1] == text[|text| - 1];
    DigitIsNoP(word);
    DigitIsNoBracket(word);
  }

  lemma WordIsRead(w: Word, params: map<u32, Param>)
    requires IsSpelling(w)
    ensures PathText.IsWord(WordText(w)) && Means(WordBytes(WordText(w), params), w, params)
  {
    match w
    case Hex(plus, text, digits) =>
      HexIsRead(text, digits);
      SpelledHexIsAWord(text, digits);
      HexIsNoReference(plus, text, digits);
    case Reference(open, name, number, close) =>
      ReferenceParts(open, name, number, close);
      NameIsRead(name, number);
      var n := NumberOf(number);
      if n in params && params[n].default.Some? {
        DefaultIsLittleEndian(params[n]);
      }
  }

  predicate AreMeant(r: Option<bytes>, words: seq<Word>, params: map<u32, Param>, parts: seq<Option<bytes>>)
    requires forall i | 0 <= i < |words| :: IsSpelling(words[i])
  {
    && |parts| == |words| && (forall i | 0 <= i < |words| :: Means(parts[i], words[i], params))
    && r == Concatenated(parts)
  }

  /** All parts one after another, or nothing if one is missing. */
  function Concatenated(parts: seq<Option<bytes>>): Option<bytes> {
    if parts == [] then Some([])
    else
      var more := Concatenated(parts[1..]);
      if parts[0].None? || more.None? then None else Some(parts[0].value + more.value)
  }

  lemma {:induction false} SpelledWordsAreRead(spaced: seq<Spaced>, words: seq<Word>, params: map<u32, Param>)
      returns (parts: seq<Option<bytes>>)
    requires |spaced| == |words|
    requires forall i | 0 <= i < |words| :: IsSpelling(words[i]) && spaced[i].word == WordText(words[i])
    ensures AreMeant(WordsBytes(WordsOf(spaced), params), words, params, parts)
  {
    if words == [] {
      parts := [];
    } else {
      WordIsRead(words[0], params);
      var more := SpelledWordsAreRead(spaced[1..], words[1..], params);
      var first := WordBytes(WordText(words[0]), params);
      parts := [first] + more;
      OneMoreMeant(first, words, params, more, WordsBytes(WordsOf(spaced[1..]), params));
      assert WordsOf(spaced)[1..] == WordsOf(spaced[1..]);
    }
  }

  lemma OneMoreMeant(first: Option<bytes>, words: seq<Word>, params: map<u32, Param>, more: seq<Option<bytes>>,
                     r: Option<bytes>)
    requires words != [] && forall i | 0 <= i < |words| :: IsSpelling(words[i])
    requires Means(first, words[0], params) && AreMeant(r, words[1..], params, more)
    ensures AreMeant(if first.None? || r.None? then None else Some(first.value + r.value), words, params,
                     [first] + more)
  {
    var parts := [first] + more;
    assert parts[1..] == more;
    forall i | 0 <= i < |words| ensures Means(parts[i], words[i], params) {
      if i > 0 {
        assert words[i] == words[1..][i - 1] && parts[i] == more[i - 1];
      }
    }
  }

  /** A path string with any white space between its words, hex bytes in either case, and
      references in any letter case and with any brackets.  It resolves to the bytes of its
      words in order, and fails exactly when one of them has none. */
  lemma SpelledPathResolves(spaced: seq<Spaced>, words: seq<Word>, end: string, params: map<u32, Param>)
      returns (parts: seq<Option<bytes>>)
    requires |spaced| == |words| && AreSpaced(spaced, true) && IsGap(end)
    requires forall i | 0 <= i < |words| :: IsSpelling(words[i]) && spaced[i].word == WordText(words[i])
    ensures AreMeant(Resolved(SpacedText(spaced, end), params), words, params, parts)
  {
    SplitOfSpaced(spaced, end, true);
    parts := SpelledWordsAreRead(spaced, words, params);
  }
}
