// Assembly text in its own terms (src/assembler/Assembler.cpp): white space, comments,
// numbers, names, data directives and sections, and exactly which sources the
// assembler accepts.
module SourceLaws {
  import opened Words
  import opened Text
  import opened Assembler
  import opened TwoPass
  import opened EndToEnd
  import Printing
  import Isa

  // ----- White space and comments -----

  /** Space, tab, newline, vertical tab, form feed or carriage return. */
  predicate Blank(s: string) {
    forall i :: 0 <= i < |s| ==> s[i] as int in {32, 9, 10, 11, 12, 13}
  }

  lemma {:induction false} BlankLeft(l: string, s: string)
    requires Blank(l)
    ensures TrimLeft(l + s) == TrimLeft(s)
  {
    if l == [] {
      assert l + s == s;
    } else {
      assert (l + s)[1..] == l[1..] + s && IsSpace(l[0]);
      BlankLeft(l[1..], s);
    }
  }

  lemma {:induction false} BlankRight(s: string, r: string)
    requires Blank(r)
    ensures TrimRight(s + r) == TrimRight(s)
  {
    if r == [] {
      assert s + r == s;
    } else {
      var n := |r| - 1;
      assert (s + r)[..|s + r| - 1] == s + r[..n] && (s + r)[|s + r| - 1] == r[n] && IsSpace(r[n]);
      BlankRight(s, r[..n]);
    }
  }

  /** Trimming takes off exactly the white space around a text. */
  lemma TrimLaw(l: string, s: string, r: string)
    requires Blank(l) && Blank(r) && s != [] && !Blank(s[..1]) && !Blank(s[|s| - 1..])
    ensures Trim(l + s + r) == s
  {
    assert s[..1][0] == s[0] && s[|s| - 1..][0] == s[|s| - 1];
    assert l + s + r == l + (s + r);
    assert TrimLeft(s + r) == s + r && TrimRight(s) == s;
    BlankLeft(l, s + r);
    BlankRight(s, r);
  }

  /** A comment starts at the first semicolon outside a string and takes the rest of the line. */
  lemma {:induction false} CommentLaw(s: string, comment: string)
    requires forall i :: 0 <= i < |s| ==> s[i] != '"' && s[i] != ';'
    ensures Cut(s + [';'] + comment, false, false) == s
  {
    var all := s + [';'] + comment;
    if s == [] {
      assert all[0] == ';';
    } else {
      assert all[1..] == s[1..] + [';'] + comment;
      CommentLaw(s[1..], comment);
    }
  }

  // ----- Numbers -----

  /** A digit, for bases up to sixteen; letters in either case. */
  predicate IsDigitOf(c: char, d: nat) {
    d < 16 && (if d < 10 then c == "0123456789"[d] else c == "abcdef"[d - 10] || c == "ABCDEF"[d - 10])
  }

  /** The text is the number n in this base, perhaps with leading zeros. */
  predicate Spells(s: string, n: nat, base: nat)
    requires 2 <= base <= 16
  {
    if s == [] then n == 0 else IsDigitOf(s[|s| - 1], n % base) && Spells(s[..|s| - 1], n / base, base)
  }

  lemma {:induction false} SpelledDigits(s: string, n: nat, base: nat)
    requires 2 <= base <= 16 && Spells(s, n, base)
    ensures Digits(s, base) == Some(n)
  {
    hide IsDigitOf, DigitValue;
    if s != [] {
      SpelledDigits(s[..|s| - 1], n / base, base);
      DigitLaw(s[|s| - 1], n % base);
      DivParts(n, base);
    }
  }

  lemma DivParts(n: nat, base: nat)
    requires base >= 1
    ensures n == (n / base) * base + n % base && n % base < base
  {
  }

  lemma DigitLaw(c: char, d: nat)
    requires IsDigitOf(c, d)
    ensures DigitValue(c) == d
  {
  }

  /** Hexadecimal after 0x or 0X, octal after 0. */
  lemma BaseLaw(s: string, n: nat, x: char)
    requires n < 0x8000_0000_0000_0000 && s != []
    ensures (x == 'x' || x == 'X') && Spells(s, n, 16) ==> ParseInteger(['0', x] + s) == Some(n)
    ensures Spells(s, n, 8) ==> ParseInteger(['0'] + s) == Some(n)
  {
    if (x == 'x' || x == 'X') && Spells(s, n, 16) {
      var t := ['0', x] + s;
      SpelledDigits(s, n, 16);
      assert t[2..] == s && TrimLeft(t) == t;
    }
    if Spells(s, n, 8) {
      var t := ['0'] + s;
      SpelledDigits(s, n, 8);
      LeadingZero(s, n);
      assert TrimLeft(t) == t;
      OctalStart(s, n);
    }
  }

  /** A sign may come first; what no signed word holds is refused. */
  lemma SignLaw(n: nat)
    ensures ParseInteger(['+'] + Decimal(n)) == if n < 0x8000_0000_0000_0000 then Some(n) else None
    ensures ParseInteger(['-'] + Decimal(n)) == if n <= 0x8000_0000_0000_0000 then Some(0 - n) else None
    ensures ParseInteger(Decimal(n)) == if n < 0x8000_0000_0000_0000 then Some(n) else None
  {
    hide Magnitude, Decimal;
    MagnitudeOfDecimal(n);
    var plus, minus := ['+'] + Decimal(n), ['-'] + Decimal(n);
    assert TrimLeft(plus) == plus && plus[1..] == Decimal(n);
    assert TrimLeft(minus) == minus && minus[1..] == Decimal(n);
    assert TrimLeft(Decimal(n)) == Decimal(n);
  }

  lemma OctalStart(s: string, n: nat)
    requires s != [] && Digits(s, 8) == Some(n)
    ensures s[0] != 'x' && s[0] != 'X'
  {
    DigitsStart(s, 8);
  }

  lemma {:induction false} DigitsStart(s: string, base: nat)
    requires s != [] && Digits(s, base).Some? && base <= 16
    ensures DigitValue(s[0]) < base
  {
    if |s| > 1 {
      assert s[..|s| - 1][0] == s[0];
      DigitsStart(s[..|s| - 1], base);
    }
  }

  lemma {:induction false} LeadingZero(s: string, n: nat)
    requires Digits(s, 8) == Some(n)
    ensures Digits(['0'] + s, 8) == Some(n)
  {
    var t := ['0'] + s;
    if s == [] {
      assert t[..0] == [];
    } else {
      assert t[..|t| - 1] == ['0'] + s[..|s| - 1] && t[|t| - 1] == s[|s| - 1];
      LeadingZero(s[..|s| - 1], Digits(s[..|s| - 1], 8).value);
    }
  }

  // ----- Letter case -----

  const SMALL: string := "abcdefghijklmnopqrstuvwxyz"
  const CAPITAL: string := "ABCDEFGHIJKLMNOPQRSTUVWXYZ"

  lemma LetterCodes(k: nat)
    requires k < 26
    ensures SMALL[k] as int == 97 + k && CAPITAL[k] as int == 65 + k
  {
  }

  /** Directives and mnemonics are read in any letter case: the 26 letters correspond and nothing else changes. */
  lemma CaseLaw(s: string, i: nat)
    requires i < |s|
    ensures |Lower(s)| == |Upper(s)| == |s|
    ensures forall k: nat :: k < 26 && (s[i] == SMALL[k] || s[i] == CAPITAL[k]) ==>
              Lower(s)[i] == SMALL[k] && Upper(s)[i] == CAPITAL[k]
    ensures s[i] !in SMALL && s[i] !in CAPITAL ==> Lower(s)[i] == s[i] && Upper(s)[i] == s[i]
  {
    forall k: nat | k < 26
      ensures SMALL[k] as int == 97 + k && CAPITAL[k] as int == 65 + k
    {
      LetterCodes(k);
    }
    var c := s[i] as int;
    if 97 <= c < 123 {
      assert SMALL[c - 97] == s[i];
    }
    if 65 <= c < 91 {
      assert CAPITAL[c - 65] == s[i];
    }
    hide SMALL, CAPITAL;
  }

  // ----- Names -----

  /** A name a label can have. */
  predicate FreeName(s: string) {
    && s != [] && !('0' <= s[0] <= '9')
    && (forall i :: 0 <= i < |s| ==> s[i] == '_' || 'a' <= s[i] <= 'z' || 'A' <= s[i] <= 'Z' || '0' <= s[i] <= '9')
    && !(|s| == 2 && (s[0] == 'R' || s[0] == 'r') && '0' <= s[1] <= '7')
    && Lower(s) !in {"text", "data", "byte", "word", "qword", "string", "entry"}
  }

  /** Labels are identifiers that are no register, no directive and, in any letter case, no mnemonic. */
  lemma NameLaw(s: string)
    ensures AllowedLabel(s) <==> FreeName(s) && forall op: Isa.Opcode :: !Printing.Names(s, op)
  {
    hide Printing.Names, OpcodeFromString, Lower;
    if AllowedLabel(s) {
      forall op: Isa.Opcode
        ensures !Printing.Names(s, op)
      {
        if Printing.Names(s, op) {
          Printing.WordIsOpcode(s, op);
        }
      }
    } else if FreeName(s) {
      OpcodeIsNamed(s);
    }
  }

  lemma OpcodeIsNamed(s: string)
    requires OpcodeFromString(s) != Isa.Invalid
    ensures Printing.Names(s, OpcodeFromString(s))
  {
    TableNames(Upper(s));
  }

  lemma ShortNames(name: string)
    requires name in OPCODES && |name| == 2
    ensures OPCODES[name] != Isa.Invalid && Printing.OpcodeName(OPCODES[name]) == name
  {
  }

  lemma LongNames(name: string)
    requires name in OPCODES && |name| == 4
    ensures OPCODES[name] != Isa.Invalid && Printing.OpcodeName(OPCODES[name]) == name
  {
  }

  lemma LongestName(name: string)
    requires name in OPCODES && |name| > 4
    ensures OPCODES[name] != Isa.Invalid && Printing.OpcodeName(OPCODES[name]) == name
  {
  }

  lemma MiddleNames(name: string)
    requires name in OPCODES && |name| == 3
    ensures OPCODES[name] != Isa.Invalid && Printing.OpcodeName(OPCODES[name]) == name
  {
  }

  lemma TableNames(name: string)
    requires name in OPCODES
    ensures |name| >= 2 && OPCODES[name] != Isa.Invalid && Printing.OpcodeName(OPCODES[name]) == name
  {
    hide Printing.OpcodeName;
    assert |name| >= 2;
    if |name| == 2 {
      ShortNames(name);
    } else if |name| == 3 {
      MiddleNames(name);
    } else if |name| == 4 {
      LongNames(name);
    } else {
      LongestName(name);
    }
  }

  /** A register is R and a digit up to seven, in either case. */
  lemma RegisterLaw(r: Isa.Reg, dataLabels: Labels)
    ensures ParseOperand(['r', "01234567"[r]], dataLabels) == Ok(Isa.Register(r))
    ensures ParseOperand(['R', "01234567"[r]], dataLabels) == Ok(Isa.Register(r))
    ensures ParseOperand("R8", dataLabels) != Ok(Isa.Register(r))
  {
    hide ParseInteger, AllowedLabel;
    TrimmedIsFixed(['r', "01234567"[r]]);
    TrimmedIsFixed(['R', "01234567"[r]]);
    TrimmedIsFixed("R8");
  }

  lemma BracketedNumber(v: i64)
    ensures var b, d := Printing.Bracketed(DecimalOf(v)), DecimalOf(v);
            Trim(b) == b && !IsRegisterToken(b) && |b| >= 3 && b[1..|b| - 1] == d && Trim(d) == d
            && !IsRegisterToken(d) && d != []
  {
    DecimalIsNumberText(v);
    Printing.NumberIsNoRegister(DecimalOf(v));
    hide DecimalOf, NumberText;
    var b := Printing.Bracketed(DecimalOf(v));
    assert Trimmed(b) && b[0] == '[';
    TrimmedIsFixed(b);
    TrimmedIsFixed(DecimalOf(v));
  }

  /** A number in brackets is that address, and a negative one is refused. */
  lemma AddressLaw(v: i64, dataLabels: Labels)
    ensures ParseOperand(Printing.Bracketed(DecimalOf(v)), dataLabels)
         == if v < 0 then Err else Ok(Isa.MemoryAddress(v))
  {
    hide Trim, ParseInteger, AllowedLabel, DecimalOf, IsRegisterToken;
    BracketedNumber(v);
    IntegerRoundTrip(v);
  }

  /** A name in brackets is the address of its data label; a name that is no data label is refused. */
  lemma DataNameLaw(name: string, dataLabels: Labels)
    requires AllowedLabel(name)
    ensures ParseOperand(Printing.Bracketed(name), dataLabels)
         == if name in dataLabels then Ok(Isa.MemoryAddress(dataLabels[name])) else Err
  {
    var b := Printing.Bracketed(name);
    NameChars(name);
    assert Trimmed(b) && Trimmed(name) && b[1..|b| - 1] == name && b[0] == '[';
    NameIsNoInteger(name);
    Printing.AllowedIsNoRegister(name);
    hide Trim, ParseInteger, AllowedLabel;
    TrimmedIsFixed(b);
    TrimmedIsFixed(name);
  }

  /** Anything else in brackets is refused: neither register nor number nor an allowed name. */
  lemma BadAddressLaw(inner: string, dataLabels: Labels)
    requires inner != [] && Trimmed(inner) && !IsRegisterToken(inner) && ParseInteger(inner) == None
    requires !AllowedLabel(inner)
    ensures ParseOperand(Printing.Bracketed(inner), dataLabels) == Err
    ensures ParseOperand("[ ]", dataLabels) == Err
  {
    var b := Printing.Bracketed(inner);
    assert Trimmed(b) && b[1..|b| - 1] == inner && b[0] == '[';
    assert Trimmed("[ ]") && "[ ]"[1..2] == " ";
    assert Trim(" ") == [];
    hide Trim, ParseInteger, AllowedLabel;
    TrimmedIsFixed(b);
    TrimmedIsFixed(inner);
    TrimmedIsFixed("[ ]");
  }

  // ----- Operand lists -----

  /** A final comma is allowed; an empty operand, a nested or an unmatched bracket is not. */
  lemma CommaLaw(v: string, rest: string)
    requires PlainValue(v)
    ensures Split(v + [','], [], false) == Ok([v])
    ensures Split([','] + rest, [], false) == Err
    ensures Split(v + ['['], [], false) == Err && Split(v + [']'] + rest, [], false) == Err
    ensures Split(v + (['[', '['] + rest), [], false) == Err
  {
    SplitFirst(v, []);
    assert v + ([','] + []) == v + [','];
    var none: seq<string> := [];
    assert Split([], [], false) == Ok(none) && [v] + none == [v];
    assert v + [']'] + rest == v + ([']'] + rest);
    SplitRun(v, ['['], []);
    SplitRun(v, [']'] + rest, []);
    SplitRun(v, ['[', '['] + rest, []);
    assert [] + v == v && ['['][1..] == [] && ([']'] + rest)[0] == ']';
    assert (['[', '['] + rest)[1..] == ['['] + rest;
  }

  // ----- Data directives -----

  /** What a directive's name promises: the width of its values and their range. */
  predicate Promises(directive: string, width: nat, minimum: int, maximum: int) {
    || (Lower(directive) == ".byte" && width == 1 && minimum == -128 && maximum == 255)
    || (Lower(directive) == ".word" && width == 2 && minimum == -32768 && maximum == 65535)
    || (Lower(directive) == ".qword" && width == 8 && minimum == -0x8000_0000_0000_0000
        && maximum == 0x7FFF_FFFF_FFFF_FFFF)
  }

  lemma DirectiveBytes(line: string, directive: string, arguments: string, width: nat, minimum: int, maximum: int)
    requires Promises(directive, width, minimum, maximum) && WordAndRest(line) == (directive, arguments)
    ensures DataBytes(line)
         == NumericBytes(arguments, width, minimum, if width == 8 then 0xFFFF_FFFF_FFFF_FFFF else maximum)
  {
    hide NumericBytes, Lower, WordAndRest;
    assert |".byte"| == |".word"| == 5 && |".qword"| == 6 && ".byte"[1] != ".word"[1];
  }

  lemma OneNumber(d: string, v: i64, minimum: int, maximum: int)
    requires NumberText(d) && ParseInteger(d) == Some(v)
    ensures Split(d, [], false) == Ok([d])
    ensures ParseValues([d], minimum, maximum) == if minimum <= v <= maximum then Ok([v]) else Err
  {
    hide ParseInteger, Split;
    assert Join([d]) == d && PlainValue(d);
    SplitUndoesJoin([d]);
    var none: seq<i64> := [];
    assert [d][..0] == [] && [d][0] == d && none + [v] == [v];
    assert ParseValues([d][..0], minimum, maximum) == Ok(none);
  }

  /** A line with one value: in range it is that many bytes, least significant first; out of range it is refused. */
  lemma DataLaw(directive: string, v: i64, width: nat, minimum: int, maximum: int)
    requires Promises(directive, width, minimum, maximum)
    ensures var r := DataBytes(directive + [' '] + DecimalOf(v));
            if minimum <= v <= maximum then
              && r.Ok? && |r.value| == width
              && forall k :: 0 <= k < width ==> r.value[k] == v % 0x1_0000_0000_0000_0000 / Pow256(k) % 256
            else r == Err
  {
    DecimalIsNumberText(v);
    DirectiveWord(directive);
    hide Promises, DecimalOf, NumberText, Lower, DataBytes;
    var d := DecimalOf(v);
    IntegerRoundTrip(v);
    NumberChars(d);
    WordAndRestAt(directive, d);
    DirectiveBytes(directive + [' '] + d, directive, d, width, minimum, maximum);
    OneNumber(d, v, minimum, if width == 8 then 0xFFFF_FFFF_FFFF_FFFF else maximum);
    PromisedRange(directive, width, minimum, maximum);
    OneEncoded(v, width);
  }

  lemma PromisedRange(directive: string, width: nat, minimum: int, maximum: int)
    requires Promises(directive, width, minimum, maximum)
    ensures width == 8 ==> minimum == -0x8000_0000_0000_0000 && maximum == 0x7FFF_FFFF_FFFF_FFFF
  {
    hide Lower;
  }

  lemma NumberChars(d: string)
    requires NumberText(d)
    ensures Trimmed(d) && d != [] && forall i :: 0 <= i < |d| ==> d[i] != '\n'
  {
    assert NumberChar(d[0]) && NumberChar(d[|d| - 1]);
  }

  lemma DirectiveWord(directive: string)
    requires Lower(directive) == ".byte" || Lower(directive) == ".word" || Lower(directive) == ".qword"
    ensures directive != [] && forall i :: 0 <= i < |directive| ==> !IsSpace(directive[i])
  {
    assert |directive| == |Lower(directive)|;
    forall i | 0 <= i < |directive|
      ensures !IsSpace(directive[i])
    {
      assert Lower(directive)[i] == LowerChar(directive[i]);
    }
  }

  lemma OneEncoded(v: i64, width: nat)
    ensures var b := EncodeValues([v], width);
            |b| == width && forall k :: 0 <= k < width ==> b[k] == v % 0x1_0000_0000_0000_0000 / Pow256(k) % 256
  {
    ValueSlot([v], width, 0);
    var b := EncodeValues([v], width);
    assert b[0..width] == b;
    assert ToU64(v) == v % 0x1_0000_0000_0000_0000;
    forall k | 0 <= k < width
      ensures b[k] == v % 0x1_0000_0000_0000_0000 / Pow256(k) % 256
    {
      LittleEndianByte(ToU64(v), width, k);
    }
  }

  /** The escapes of a string literal. */
  lemma EscapeLaw(c: char, b: byte)
    requires (c == 'n' && b == 10) || (c == 'r' && b == 13) || (c == 't' && b == 9) || (c == '0' && b == 0)
             || (c == '\\' && b == 92) || (c == '"' && b == 34)
    ensures StringBytes(['"', '\\', c, '"']) == Ok([b])
  {
    var s := ['"', '\\', c, '"'];
    assert Trim(s) == s by { TrimmedIsFixed(s); }
    assert s[1..][2..] == ['"'] && ['"'][1..] == [];
    var none: seq<byte> := [];
    assert Unquote(['"']) == Ok(none) && [b] + none == [b];
  }

  lemma {:induction false} QuotedChars(b: seq<byte>)
    ensures var q := QuoteBytes(b); q != [] && q[|q| - 1] == '"' && forall i :: 0 <= i < |q| ==> q[i] != '\n'
  {
    if b != [] {
      QuotedChars(b[1..]);
      QuotedByte(b[0]);
      hide QuoteByte;
      var q, rest := QuoteByte(b[0]), QuoteBytes(b[1..]);
      assert QuoteBytes(b) == q + rest;
    }
  }

  lemma QuotedByte(b: byte)
    ensures forall i :: 0 <= i < |QuoteByte(b)| ==> QuoteByte(b)[i] != '\n'
  {
  }

  lemma LiteralShape(b: seq<byte>)
    ensures var literal := ['"'] + QuoteBytes(b);
            && literal != [] && Trimmed(literal) && (forall i :: 0 <= i < |literal| ==> literal[i] != '\n')
            && StringBytes(literal) == Ok(b)
  {
    var literal := ['"'] + QuoteBytes(b);
    QuotedChars(b);
    UnquoteUndoesQuote(b);
    hide QuoteBytes, Unquote, Trim;
    assert literal[1..] == QuoteBytes(b) && literal[|literal| - 1] == '"';
    TrimmedIsFixed(literal);
  }

  /** `.string "..."`: exactly the bytes that were quoted. */
  lemma StringLaw(directive: string, b: seq<byte>)
    requires Lower(directive) == ".string"
    ensures DataBytes(directive + [' '] + (['"'] + QuoteBytes(b))) == Ok(b)
  {
    hide *;
    var literal := ['"'] + QuoteBytes(b);
    LiteralShape(b);
    StringWord(directive);
    WordAndRestAt(directive, literal);
    StringDispatch(directive + [' '] + literal, directive, literal);
  }

  lemma StringDispatch(line: string, directive: string, arguments: string)
    requires Lower(directive) == ".string" && WordAndRest(line) == (directive, arguments)
    ensures DataBytes(line) == StringBytes(arguments)
  {
    hide NumericBytes, StringBytes, Lower, WordAndRest;
    assert |".string"| == 7 && |".byte"| == |".word"| == 5 && |".qword"| == 6;
  }

  lemma StringWord(directive: string)
    requires Lower(directive) == ".string"
    ensures directive != [] && forall i :: 0 <= i < |directive| ==> !IsSpace(directive[i])
  {
    assert |directive| == |Lower(directive)|;
    forall i | 0 <= i < |directive|
      ensures !IsSpace(directive[i])
    {
      assert Lower(directive)[i] == LowerChar(directive[i]);
    }
  }

  /** Any other escape is refused. */
  lemma NoEscapeLaw(c: char, rest: string)
    requires c !in {'n', 'r', 't', '0', '\\', '"'}
    ensures Unquote(['\\', c] + rest) == Err
  {
  }

  // ----- Instructions -----

  /** Only a known mnemonic makes an instruction, and it makes its own. */
  lemma MnemonicLaw(line: string, dataLabels: Labels)
    requires ParseInstruction(line, dataLabels).Ok?
    ensures Printing.Names(WordAndRest(line).0, ParseInstruction(line, dataLabels).value.opcode)
  {
    hide WordAndRest, Split, ParseOperand, OpcodeFromString, Printing.Names;
    OpcodeIsNamed(WordAndRest(line).0);
  }

  /** No instruction takes three operands. */
  lemma OperandCountLaw(word: string, x: string, y: string, z: string, dataLabels: Labels)
    requires word != [] && forall i :: 0 <= i < |word| ==> IsAlpha(word[i])
    requires PlainValue(x) && PlainValue(y) && PlainValue(z)
    requires '\n' !in x && '\n' !in y && '\n' !in z
    ensures ParseInstruction(word + [' '] + (x + [','] + (y + [','] + z)), dataLabels) == Err
  {
    var text := x + [','] + (y + [','] + z);
    assert Join([z]) == z && Join([y, z]) == y + [','] + z by { assert [y, z][1..] == [z]; }
    assert Join([x, y, z]) == text by { assert [x, y, z][1..] == [y, z]; }
    assert Trimmed(text);
    TextWithoutNewline(x, y, z);
    hide PlainValue, Split, WordAndRest, Join, ParseOperand;
    SplitUndoesJoin([x, y, z]);
    WordAndRestAt(word, text);
  }

  lemma TextWithoutNewline(x: string, y: string, z: string)
    requires '\n' !in x && '\n' !in y && '\n' !in z
    ensures var text := x + [','] + (y + [','] + z); forall i :: 0 <= i < |text| ==> text[i] != '\n'
  {
    var rest := y + [','] + z;
    var text := x + [','] + rest;
    forall i | 0 <= i < |rest|
      ensures rest[i] != '\n'
    {
      assert rest[i] == if i < |y| then y[i] else if i == |y| then ',' else z[i - |y| - 1];
    }
    forall i | 0 <= i < |text|
      ensures text[i] != '\n'
    {
      assert text[i] == if i < |x| then x[i] else if i == |x| then ',' else rest[i - |x| - 1];
    }
  }

  // ----- Which sources assemble -----

  /** Labels that may be declared now: allowed, new, and each once. */
  predicate NewLabels(s: Symbols, names: seq<string>) {
    && (forall i :: 0 <= i < |names| ==> AllowedLabel(names[i]) && names[i] !in s.code && names[i] !in s.data)
    && (forall i, j :: 0 <= i < j < |names| ==> names[i] != names[j])
  }

  /** What pass 1 lets through on a line: directives without labels, one entry, 0x200 bytes of data, code elsewhere. */
  predicate Acceptable(s: Symbols, names: seq<string>, rest: string) {
    && NewLabels(s, names)
    && if rest == [] then true
       else if IsSectionDirective(rest) then names == []
       else if IsEntryDirective(rest) then names == [] && s.entry == None && ParseEntry(rest).Ok?
       else if s.section == DataSection then
         rest[0] == '.' && DataBytes(rest).Ok? && s.dataSize + |DataBytes(rest).value| <= 0x200
       else rest[0] != '.'
  }

  lemma {:induction false} LabelsAccepted(s: Symbols, names: seq<string>)
    requires s.instructions < 0x1_0000_0000_0000_0000
    ensures AddLabels(s, names).Ok? <==> NewLabels(s, names)
    decreases |names|
  {
    hide AllowedLabel;
    if names != [] {
      var first := AddLabel(s, names[0]);
      assert names == [names[0]] + names[1..];
      assert forall i :: 0 <= i < |names[1..]| ==> names[1..][i] == names[i + 1];
      if first.Ok? {
        LabelsAccepted(first.value, names[1..]);
        LaterLabels(s, names, first.value);
      }
    }
  }

  lemma LaterLabels(s: Symbols, names: seq<string>, t: Symbols)
    requires names != [] && s.instructions < 0x1_0000_0000_0000_0000 && AddLabel(s, names[0]) == Ok(t)
    ensures NewLabels(s, names) <==> NewLabels(t, names[1..])
  {
    hide AllowedLabel;
    var rest := names[1..];
    assert forall n :: n in t.code || n in t.data <==> n in s.code || n in s.data || n == names[0];
    if NewLabels(t, rest) {
      forall i, j | 0 <= i < j < |names|
        ensures names[i] != names[j]
      {
        assert names[j] == rest[j - 1] && (i > 0 ==> names[i] == rest[i - 1]);
      }
      forall i | 0 <= i < |names|
        ensures AllowedLabel(names[i]) && names[i] !in s.code && names[i] !in s.data
      {
        assert i > 0 ==> names[i] == rest[i - 1];
      }
    }
    if NewLabels(s, names) {
      forall i | 0 <= i < |rest|
        ensures AllowedLabel(rest[i]) && rest[i] !in t.code && rest[i] !in t.data
      {
        assert rest[i] == names[i + 1] && names[0] != names[i + 1];
      }
    }
  }

  /** Pass 1 takes a line exactly when it is acceptable where it stands. */
  lemma LineLaw(s: Symbols, raw: string)
    requires s.instructions < 0x1_0000_0000_0000_0000
    ensures CollectLine(s, raw).Ok? <==> Acceptable(s, LineLabels(raw), LineRest(raw))
  {
    hide AllowedLabel, LineLabels, LineRest, AddLabels, NewLabels, IsSectionDirective, IsEntryDirective, ParseEntry,
      DataBytes, SectionOf;
    LabelsAccepted(s, LineLabels(raw));
    if AddLabels(s, LineLabels(raw)).Ok? {
      AddLabelsKeepsCounts(s, LineLabels(raw));
    }
  }

  ghost predicate AcceptableUpTo(lines: Source, k: nat)
    requires k <= |lines|
  {
    forall i: nat :: i < k && CollectTo(lines, i).Ok? ==>
      Acceptable(CollectTo(lines, i).value, LineLabels(lines[i]), LineRest(lines[i]))
  }

  lemma AcceptableAppend(lines: Source, k: nat)
    requires k < |lines|
    ensures AcceptableUpTo(lines, k + 1)
       <==> AcceptableUpTo(lines, k)
            && (CollectTo(lines, k).Ok? ==>
                  Acceptable(CollectTo(lines, k).value, LineLabels(lines[k]), LineRest(lines[k])))
  {
    hide CollectTo, Acceptable, LineLabels, LineRest;
  }

  lemma {:induction false} FirstPassLaw(lines: Source, k: nat)
    requires k <= |lines|
    ensures CollectTo(lines, k).Ok? <==> AcceptableUpTo(lines, k)
  {
    hide CollectTo, CollectLine, Acceptable, LineLabels, LineRest;
    if k == 0 {
      NothingYet(lines, map[]);
    } else {
      hide AcceptableUpTo;
      CollectOnce(lines, k - 1);
      FirstPassLaw(lines, k - 1);
      AcceptableAppend(lines, k - 1);
      if CollectTo(lines, k - 1).Ok? {
        LineLaw(CollectTo(lines, k - 1).value, lines[k - 1]);
      }
    }
  }

  /**
   * A source assembles exactly when every line is acceptable where it stands,
   * its entry is one of its code labels, and every instruction line parses.
   */
  lemma AssemblesLaw(lines: Source)
    ensures Assemble(lines).Ok?
       <==> && AcceptableUpTo(lines, |lines|) && CollectTo(lines, |lines|).Ok?
            && var s := CollectTo(lines, |lines|).value;
               && (s.entry.Some? ==> s.entry.value in s.code)
               && AllParse(lines, s.data, |lines|)
  {
    hide CollectTo, EmitTo, AcceptableUpTo, AllParse;
    FirstPassLaw(lines, |lines|);
    if CollectTo(lines, |lines|).Ok? {
      var s := CollectTo(lines, |lines|).value;
      SecondPassFailsOnlyOnInstructions(lines, s.data, |lines|);
      LabelSetsAreDisjoint(lines, |lines|);
    }
  }

  /** `.data` and `.text`, in any case, say what the lines after them are; a source starts with code. */
  lemma SectionLaw(lines: Source, dataLabels: Labels, k: nat)
    requires k < |lines| && EmitTo(lines, dataLabels, k + 1).Ok?
    ensures EmitTo(lines, dataLabels, k).Ok? && EmitTo(lines, dataLabels, 0).value.section == TextSection
    ensures var e, f, rest := EmitTo(lines, dataLabels, k).value, EmitTo(lines, dataLabels, k + 1).value,
                              Lower(Trim(LineRest(lines[k])));
            f.section == if rest == ".data" then DataSection else if rest == ".text" then TextSection else e.section
  {
    EmitOnce(lines, dataLabels, k);
    NothingYet(lines, dataLabels);
    assert ".data" != ".text" by { assert ".data"[1] != ".text"[1]; }
    hide EmitTo, LineRest, Trim, Lower, IsEntryDirective, DataBytes, ParseInstruction;
    if LineRest(lines[k]) == [] {
      BlankLine();
    }
  }

  lemma BlankLine()
    ensures Lower(Trim([])) != ".data" && Lower(Trim([])) != ".text"
  {
  }
}
