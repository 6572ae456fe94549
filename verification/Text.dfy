// The assembler's text helpers (src/assembler/Assembler.cpp:43-760): trimming,
// comments, words, operands, integers, string literals and numeric data.
module Text {
  import opened Words

  predicate IsSpace(c: char) {
    c == ' ' || 9 <= c as int <= 13
  }

  function TrimLeft(s: string): (r: string)
    ensures |r| <= |s|
  {
    if s != [] && IsSpace(s[0]) then TrimLeft(s[1..]) else s
  }

  function TrimRight(s: string): (r: string)
    ensures |r| <= |s|
  {
    if s != [] && IsSpace(s[|s| - 1]) then TrimRight(s[..|s| - 1]) else s
  }

  function Trim(s: string): (r: string)
    ensures |r| <= |s|
  {
    TrimRight(TrimLeft(s))
  }

  predicate Trimmed(s: string) {
    s != [] ==> !IsSpace(s[0]) && !IsSpace(s[|s| - 1])
  }

  lemma TrimmedIsFixed(s: string)
    requires Trimmed(s)
    ensures Trim(s) == s
  {
  }

  function LowerChar(c: char): char {
    if 'A' <= c <= 'Z' then (c as int + 32) as char else c
  }

  function UpperChar(c: char): char {
    if 'a' <= c <= 'z' then (c as int - 32) as char else c
  }

  function Lower(s: string): string {
    seq(|s|, i requires 0 <= i < |s| => LowerChar(s[i]))
  }

  function Upper(s: string): string {
    seq(|s|, i requires 0 <= i < |s| => UpperChar(s[i]))
  }

  /** std::string::find: the first position of c, or |s|. */
  function IndexOf(s: string, c: char): (k: nat)
    ensures k <= |s| && c !in s[..k] && (k < |s| ==> s[k] == c)
  {
    if s == [] || s[0] == c then 0
    else
      var k := 1 + IndexOf(s[1..], c);
      assert s[..k] == [s[0]] + s[1..][..k - 1];
      k
  }

  // ----- Lines -----

  /** getline until the end of the input: a final newline does not start another line. */
  function SplitLines(s: string): (ls: seq<string>)
    ensures |ls| <= |s| && forall l :: l in ls ==> '\n' !in l
  {
    if s == [] then []
    else
      var k := IndexOf(s, '\n');
      if k == |s| then
        assert s == s[..k];
        [s]
      else [s[..k]] + SplitLines(s[k + 1..])
  }

  function Unlines(ls: seq<string>): string {
    if ls == [] then [] else ls[0] + ['\n'] + Unlines(ls[1..])
  }

  function Ended(s: string): string {
    if s == [] || s[|s| - 1] == '\n' then s else s + ['\n']
  }

  lemma EndedAfterLine(line: string, rest: string)
    ensures Ended(line + ['\n'] + rest) == line + ['\n'] + Ended(rest)
  {
    var all := line + ['\n'] + rest;
    if rest == [] {
      assert all == line + ['\n'];
    } else {
      assert all[|all| - 1] == rest[|rest| - 1];
      assert all + ['\n'] == line + ['\n'] + (rest + ['\n']);
    }
  }

  lemma LinesOf(s: string)
    requires s != []
    ensures var k := IndexOf(s, '\n');
            SplitLines(s) == if k == |s| then [s] else [s[..k]] + SplitLines(s[k + 1..])
  {
    hide IndexOf;
  }

  lemma UnlinesCons(line: string, rest: seq<string>)
    ensures Unlines([line] + rest) == line + ['\n'] + Unlines(rest)
  {
    assert ([line] + rest)[1..] == rest;
  }

  /** No text is lost: the lines are the source, up to a missing final newline. */
  lemma {:induction false} SplitLinesKeepsText(s: string)
    ensures Unlines(SplitLines(s)) == Ended(s)
  {
    var k := IndexOf(s, '\n');
    hide IndexOf;
    if s == [] {
    } else if k == |s| {
      hide SplitLines;
      assert SplitLines(s) == [s] + [] by { LinesOf(s); }
      UnlinesCons(s, []);
      assert s[..k] == s;
    } else {
      hide Ended, SplitLines, Unlines;
      LinesOf(s);
      SplitLinesKeepsText(s[k + 1..]);
      UnlinesCons(s[..k], SplitLines(s[k + 1..]));
      EndedAfterLine(s[..k], s[k + 1..]);
      assert s == s[..k] + ['\n'] + s[k + 1..];
    }
  }

  // ----- Comments -----

  /** The part of a line before its comment; a semicolon inside a string is no comment. */
  function Cut(s: string, inString: bool, escaped: bool): (r: string)
    ensures r <= s
  {
    if s == [] then []
    else if inString then [s[0]] + Cut(s[1..], escaped || s[0] != '"', !escaped && s[0] == '\\')
    else if s[0] == ';' then []
    else [s[0]] + Cut(s[1..], s[0] == '"', false)
  }

  lemma CutNothing(inString: bool, escaped: bool)
    ensures Cut([], inString, escaped) == []
  {
  }

  // The state of the scan after one more character.
  function NextInString(c: char, inString: bool, escaped: bool): bool {
    if inString then escaped || c != '"' else c == '"'
  }

  function NextEscaped(c: char, inString: bool, escaped: bool): bool {
    inString && !escaped && c == '\\'
  }

  lemma CutUnfold(s: string, inString: bool, escaped: bool)
    requires s != []
    ensures Cut(s, inString, escaped)
         == if !inString && s[0] == ';' then []
            else [s[0]] + Cut(s[1..], NextInString(s[0], inString, escaped), NextEscaped(s[0], inString, escaped))
  {
  }

  lemma CutStep(s: string, i: nat, inString: bool, escaped: bool)
    requires i < |s|
    ensures s[..i] + Cut(s[i..], inString, escaped)
         == if !inString && s[i] == ';' then s[..i]
            else s[..i + 1] + Cut(s[i + 1..], NextInString(s[i], inString, escaped),
                                  NextEscaped(s[i], inString, escaped))
  {
    hide Cut, NextInString, NextEscaped;
    CutUnfold(s[i..], inString, escaped);
    assert s[i..][0] == s[i] && s[i..][1..] == s[i + 1..];
    var tail := Cut(s[i + 1..], NextInString(s[i], inString, escaped), NextEscaped(s[i], inString, escaped));
    assert s[..i] + ([s[i]] + tail) == s[..i + 1] + tail;
  }

  method RemoveComment(line: string) returns (r: string)
    ensures r == Cut(line, false, false)
  {
    hide Cut;
    var insideString, escaped := false, false;
    assert line[0..] == line;
    for index := 0 to |line|
      invariant Cut(line, false, false) == line[..index] + Cut(line[index..], insideString, escaped)
      invariant !insideString ==> !escaped
    {
      var ch := line[index];
      CutStep(line, index, insideString, escaped);
      if insideString {
        if escaped {
          escaped := false;
        } else if ch == '\\' {
          escaped := true;
        } else if ch == '"' {
          insideString := false;
        }
      } else if ch == '"' {
        insideString := true;
      } else if ch == ';' {
        return line[..index];
      }
    }
    assert line[|line|..] == [] && line[..|line|] == line;
    CutNothing(insideString, escaped);
    return line;
  }

  // ----- Words and names -----

  function WordEnd(s: string): (k: nat)
    ensures k <= |s|
  {
    if s == [] || IsSpace(s[0]) then 0 else 1 + WordEnd(s[1..])
  }

  /** `input >> word`: the word and what is left of the input. */
  function Word(s: string): (string, string) {
    var t := TrimLeft(s);
    (t[..WordEnd(t)], t[WordEnd(t)..])
  }

  /** A word, then the trimmed rest of the line. */
  function WordAndRest(s: string): (string, string) {
    var (word, rest) := Word(s);
    (word, Trim(rest[..IndexOf(rest, '\n')]))
  }

  predicate IsAlpha(c: char) {
    'a' <= c <= 'z' || 'A' <= c <= 'Z'
  }

  predicate IsDigit(c: char) {
    '0' <= c <= '9'
  }

  predicate ValidLabelName(s: string) {
    && s != []
    && (IsAlpha(s[0]) || s[0] == '_')
    && forall i :: 0 <= i < |s| ==> IsAlpha(s[i]) || IsDigit(s[i]) || s[i] == '_'
  }

  predicate IsRegisterToken(s: string) {
    |s| == 2 && UpperChar(s[0]) == 'R' && '0' <= s[1] <= '7'
  }

  predicate IsReservedDirective(s: string) {
    Lower(s) in {"text", "data", "byte", "word", "qword", "string", "entry"}
  }

  // ----- Comma-separated operands -----

  function Prepend<T>(front: seq<T>, r: Result<seq<T>>): Result<seq<T>> {
    if r.Err? then Err else Ok(front + r.value)
  }

  lemma PrependNothing<T>(r: Result<seq<T>>)
    ensures Prepend([], r) == r
  {
    if r.Ok? {
      assert [] + r.value == r.value;
    }
  }

  lemma PrependTwice<T>(a: seq<T>, b: seq<T>, r: Result<seq<T>>)
    ensures Prepend(a, Prepend(b, r)) == Prepend(a + b, r)
  {
    if r.Ok? {
      assert a + (b + r.value) == a + b + r.value;
    }
  }

  /** The operands of `s`, the first of which starts with `current`. */
  function Split(s: string, current: string, inside: bool): Result<seq<string>> {
    if s == [] then
      if inside then Err else if Trim(current) == [] then Ok([]) else Ok([Trim(current)])
    else if s[0] == '[' then
      if inside then Err else Split(s[1..], current + [s[0]], true)
    else if s[0] == ']' then
      if inside then Split(s[1..], current + [s[0]], false) else Err
    else if s[0] == ',' && !inside then
      if Trim(current) == [] then Err else Prepend([Trim(current)], Split(s[1..], [], false))
    else Split(s[1..], current + [s[0]], inside)
  }

  method SplitOperands(s: string) returns (r: Result<seq<string>>)
    ensures r == Split(s, [], false)
  {
    var operands: seq<string>, current: string, inside := [], [], false;
    PrependNothing(Split(s, [], false));
    assert s[0..] == s;
    for i := 0 to |s|
      invariant Split(s, [], false) == Prepend(operands, Split(s[i..], current, inside))
    {
      var ch := s[i];
      assert s[i..][0] == ch && s[i..][1..] == s[i + 1..];
      if ch == '[' {
        if inside {
          return Err;
        }
        inside := true;
        current := current + [ch];
      } else if ch == ']' {
        if !inside {
          return Err;
        }
        inside := false;
        current := current + [ch];
      } else if ch == ',' && !inside {
        var value := Trim(current);
        if value == [] {
          return Err;
        }
        PrependTwice(operands, [value], Split(s[i + 1..], [], false));
        operands := operands + [value];
        current := [];
      } else {
        current := current + [ch];
      }
    }
    assert s[|s|..] == [];
    if inside {
      return Err;
    }
    var last := Trim(current);
    assert operands + [] == operands;
    if last != [] {
      operands := operands + [last];
    }
    return Ok(operands);
  }

  /** A value that splitting leaves whole: trimmed, not empty, no separator or bracket. */
  predicate PlainValue(v: string) {
    v != [] && Trimmed(v) && forall i :: 0 <= i < |v| ==> v[i] !in {',', '[', ']'}
  }

  function Join(vs: seq<string>): string {
    if vs == [] then [] else if |vs| == 1 then vs[0] else vs[0] + [','] + Join(vs[1..])
  }

  lemma {:induction false} SplitRun(v: string, rest: string, current: string)
    requires forall i :: 0 <= i < |v| ==> v[i] !in {',', '[', ']'}
    ensures Split(v + rest, current, false) == Split(rest, current + v, false)
  {
    if v == [] {
      assert v + rest == rest && current + v == current;
    } else {
      assert (v + rest)[1..] == v[1..] + rest && current + [v[0]] + v[1..] == current + v;
      SplitRun(v[1..], rest, current + [v[0]]);
    }
  }

  lemma SplitEnds(rest: string, v: string)
    requires PlainValue(v)
    ensures Split([], v, false) == Ok([v])
    ensures Split([','] + rest, v, false) == Prepend([v], Split(rest, [], false))
  {
    TrimmedIsFixed(v);
    assert ([','] + rest)[1..] == rest;
  }

  lemma SplitFirst(v: string, rest: string)
    requires PlainValue(v)
    ensures Split(v, [], false) == Ok([v])
    ensures Split(v + ([','] + rest), [], false) == Prepend([v], Split(rest, [], false))
  {
    hide Split, Trimmed;
    SplitRun(v, [], []);
    SplitRun(v, [','] + rest, []);
    assert v + [] == v == [] + v;
    SplitEnds(rest, v);
  }

  /** Splitting undoes joining, on every list of plain values. */
  lemma {:induction false} SplitUndoesJoin(vs: seq<string>)
    requires forall i :: 0 <= i < |vs| ==> PlainValue(vs[i])
    ensures Split(Join(vs), [], false) == Ok(vs)
  {
    if vs == [] {
    } else {
      hide Split, PlainValue;
      SplitFirst(vs[0], Join(vs[1..]));
      assert vs == [vs[0]] + vs[1..];
      if |vs| == 1 {
        assert vs == [vs[0]];
      } else {
        SplitUndoesJoin(vs[1..]);
        assert Join(vs) == vs[0] + ([','] + Join(vs[1..]));
      }
    }
  }

  // ----- Integers: std::stoll with base 0, all characters consumed -----

  function DigitValue(c: char): nat {
    if IsDigit(c) then c as int - 48
    else if 'a' <= c <= 'f' then c as int - 87
    else if 'A' <= c <= 'F' then c as int - 55
    else 16
  }

  function Digits(s: string, base: nat): Option<nat> {
    if s == [] then Some(0)
    else
      var init, d := Digits(s[..|s| - 1], base), DigitValue(s[|s| - 1]);
      if init.Some? && d < base then Some(init.value * base + d) else None
  }

  function Magnitude(s: string): Option<nat> {
    if s == [] then None
    else if s[0] != '0' then Digits(s, 10)
    else if |s| > 1 && (s[1] == 'x' || s[1] == 'X') then
      if |s| == 2 then None else Digits(s[2..], 16)
    else Digits(s, 8)
  }

  function ParseInteger(text: string): Option<i64> {
    var t := TrimLeft(text);
    var negative := t != [] && t[0] == '-';
    var m := Magnitude(if negative || (t != [] && t[0] == '+') then t[1..] else t);
    if m.None? then None
    else if negative then (if m.value <= 0x8000_0000_0000_0000 then Some(0 - m.value) else None)
    else if m.value < 0x8000_0000_0000_0000 then Some(m.value) else None
  }

  function DigitChar(d: nat): char
    requires d < 10
  {
    (48 + d) as char
  }

  function Decimal(n: nat): (s: string)
    ensures s != []
  {
    if n < 10 then [DigitChar(n)] else Decimal(n / 10) + [DigitChar(n % 10)]
  }

  function Abs(v: int): nat {
    if v < 0 then -v else v
  }

  function DecimalOf(v: i64): string {
    if v < 0 then ['-'] + Decimal(Abs(v)) else Decimal(v)
  }

  lemma {:induction false} DigitsOfDecimal(n: nat)
    ensures Digits(Decimal(n), 10) == Some(n)
    ensures IsDigit(Decimal(n)[0]) && (n > 0 ==> Decimal(n)[0] != '0')
  {
    if n < 10 {
      assert Decimal(n)[..0] == [];
    } else {
      DigitsOfDecimal(n / 10);
      assert Decimal(n)[..|Decimal(n)| - 1] == Decimal(n / 10);
    }
  }

  lemma MagnitudeOfDecimal(n: nat)
    ensures Magnitude(Decimal(n)) == Some(n)
    ensures Decimal(n)[0] != '-' && Decimal(n)[0] != '+' && !IsSpace(Decimal(n)[0])
  {
    DigitsOfDecimal(n);
    if n == 0 {
      assert Digits("0"[..0], 8) == Some(0);
    }
  }

  /** Every signed 64-bit value, written in decimal, is read back exactly. */
  lemma IntegerRoundTrip(v: i64)
    ensures ParseInteger(DecimalOf(v)) == Some(v)
  {
    hide Magnitude, Decimal;
    var n := Abs(v);
    MagnitudeOfDecimal(n);
    assert TrimLeft(DecimalOf(v)) == DecimalOf(v);
    if v < 0 {
      assert DecimalOf(v)[1..] == Decimal(n);
    }
  }

  // ----- Numeric data directives -----

  predicate FitsDirective(v: i64, minimum: int, maximum: int) {
    minimum <= v <= maximum
  }

  function ParseValues(vs: seq<string>, minimum: int, maximum: int): (r: Result<seq<i64>>)
    ensures r.Ok? ==> |r.value| == |vs|
  {
    if vs == [] then Ok([])
    else
      var init, v := ParseValues(vs[..|vs| - 1], minimum, maximum), ParseInteger(vs[|vs| - 1]);
      if init.Ok? && v.Some? && FitsDirective(v.value, minimum, maximum) then Ok(init.value + [v.value]) else Err
  }

  function EncodeValues(vs: seq<i64>, width: nat): (b: seq<byte>)
    ensures |b| == |vs| * width
  {
    if vs == [] then [] else EncodeValues(vs[..|vs| - 1], width) + LittleEndian(ToU64(vs[|vs| - 1]), width)
  }

  /** parseNumericDirective */
  function NumericBytes(arguments: string, width: nat, minimum: int, maximum: int): Result<seq<byte>> {
    var operands := Split(arguments, [], false);
    if operands.Err? || operands.value == [] then Err
    else
      var vs := ParseValues(operands.value, minimum, maximum);
      if vs.Err? then Err else Ok(EncodeValues(vs.value, width))
  }

  method AppendLittleEndian(output: seq<byte>, value: u64, width: nat) returns (r: seq<byte>)
    ensures r == output + LittleEndian(value, width)
  {
    ghost var all := LittleEndian(value, width);
    r := output;
    var rest: nat := value;
    for i := 0 to width
      invariant LittleEndian(rest, width - i) == all[i..] && r == output + all[..i]
    {
      assert all[i..][0] == all[i] && all[i..][1..] == all[i + 1..];
      r := r + [rest % 256];
      rest := rest / 256;
    }
  }

  method ParseNumericDirective(arguments: string, width: nat, minimum: int, maximum: int) returns (r: Result<seq<byte>>)
    ensures r == NumericBytes(arguments, width, minimum, maximum)
  {
    hide Split, FitsDirective, ParseInteger;
    var values := SplitOperands(arguments);
    if values.Err? || values.value == [] {
      return Err;
    }
    var result: seq<byte> := [];
    ghost var done: seq<i64> := [];
    for i := 0 to |values.value|
      invariant ParseValues(values.value[..i], minimum, maximum) == Ok(done)
      invariant result == EncodeValues(done, width)
    {
      assert values.value[..i + 1][..i] == values.value[..i];
      var value := ParseInteger(values.value[i]);
      if value.None? || !FitsDirective(value.value, minimum, maximum) {
        ParseValuesFails(values.value, minimum, maximum, i + 1);
        return Err;
      }
      result := AppendLittleEndian(result, ToU64(value.value), width);
      assert (done + [value.value])[..|done|] == done;
      done := done + [value.value];
    }
    assert values.value[..|values.value|] == values.value;
    return Ok(result);
  }

  lemma {:induction false} ParseValuesFails(vs: seq<string>, minimum: int, maximum: int, n: nat)
    requires n <= |vs| && ParseValues(vs[..n], minimum, maximum).Err?
    ensures ParseValues(vs, minimum, maximum).Err?
  {
    if n == |vs| {
      assert vs[..n] == vs;
    } else {
      assert vs[..|vs| - 1][..n] == vs[..n];
      ParseValuesFails(vs[..|vs| - 1], minimum, maximum, n);
    }
  }

  lemma SlotBounds(k: nat, n: nat, width: nat)
    requires k < n
    ensures (k + 1) * width == k * width + width <= n * width
  {
  }

  /** Value k of a directive occupies bytes [k * width, (k + 1) * width). */
  lemma {:induction false} ValueSlot(vs: seq<i64>, width: nat, k: nat)
    requires k < |vs|
    ensures 0 <= k * width && k * width + width <= |EncodeValues(vs, width)|
    ensures EncodeValues(vs, width)[k * width..k * width + width] == LittleEndian(ToU64(vs[k]), width)
  {
    var n, from := |vs| - 1, k * width;
    SlotBounds(k, |vs|, width);
    var init, last := EncodeValues(vs[..n], width), LittleEndian(ToU64(vs[n]), width);
    var all := EncodeValues(vs, width);
    assert all == init + last;
    if k < n {
      ValueSlot(vs[..n], width, k);
      assert all[from..from + width] == init[from..from + width];
    } else {
      assert from == |init|;
      assert all[from..from + width] == last;
    }
  }

  // ----- String literals -----

  function ByteOf(c: char): byte {
    c as int % 256
  }

  function EscapeByte(c: char): Option<byte> {
    match c
    case 'n' => Some(10)
    case 'r' => Some(13)
    case 't' => Some(9)
    case '0' => Some(0)
    case '\\' => Some(92)
    case '"' => Some(34)
    case _ => None
  }

  /** The bytes of a literal whose opening quote has been read. */
  function Unquote(s: string): Result<seq<byte>> {
    if s == [] then Err
    else if s[0] == '"' then (if Trim(s[1..]) == [] then Ok([]) else Err)
    else if s[0] != '\\' then Prepend([ByteOf(s[0])], Unquote(s[1..]))
    else if |s| == 1 || EscapeByte(s[1]).None? then Err
    else Prepend([EscapeByte(s[1]).value], Unquote(s[2..]))
  }

  function StringBytes(text: string): Result<seq<byte>> {
    var literal := Trim(text);
    if literal == [] || literal[0] != '"' then Err else Unquote(literal[1..])
  }

  method ParseStringLiteral(text: string) returns (r: Result<seq<byte>>)
    ensures r == StringBytes(text)
  {
    hide Trim;
    var literal := Trim(text);
    if literal == [] || literal[0] != '"' {
      return Err;
    }
    var result: seq<byte> := [];
    var index := 1;
    PrependNothing(StringBytes(text));
    while index < |literal|
      invariant 1 <= index <= |literal|
      invariant StringBytes(text) == Prepend(result, Unquote(literal[index..]))
    {
      var ch := literal[index];
      assert literal[index..][0] == ch && literal[index..][1..] == literal[index + 1..];
      if ch == '"' {
        assert result + [] == result;
        return if Trim(literal[index + 1..]) == [] then Ok(result) else Err;
      }
      if ch != '\\' {
        PrependTwice(result, [ByteOf(ch)], Unquote(literal[index + 1..]));
        result := result + [ByteOf(ch)];
        index := index + 1;
      } else {
        if index + 1 >= |literal| {
          return Err;
        }
        assert literal[index..][1] == literal[index + 1] && literal[index..][2..] == literal[index + 2..];
        var escape := EscapeByte(literal[index + 1]);
        if escape.None? {
          return Err;
        }
        PrependTwice(result, [escape.value], Unquote(literal[index + 2..]));
        result := result + [escape.value];
        index := index + 2;
      }
    }
    return Err;
  }

  /** How a byte is written inside a literal. */
  function QuoteByte(b: byte): string {
    match b
    case 10 => "\\n"
    case 13 => "\\r"
    case 9 => "\\t"
    case 0 => "\\0"
    case 92 => "\\\\"
    case 34 => "\\\""
    case _ => [b as char]
  }

  function QuoteBytes(b: seq<byte>): string {
    if b == [] then ['"'] else QuoteByte(b[0]) + QuoteBytes(b[1..])
  }

  /** Every byte string has a literal, and the assembler reads exactly those bytes from it. */
  lemma {:induction false} UnquoteUndoesQuote(b: seq<byte>)
    ensures Unquote(QuoteBytes(b)) == Ok(b)
  {
    if b == [] {
    } else {
      UnquoteUndoesQuote(b[1..]);
      var q, s := QuoteByte(b[0]), QuoteBytes(b);
      assert s[|q|..] == QuoteBytes(b[1..]);
      assert s[0] == q[0] && (|q| == 2 ==> s[1] == q[1]);
      assert [b[0]] + b[1..] == b;
    }
  }

  lemma CutQuoted(b: byte, tail: string)
    ensures Cut(QuoteByte(b) + tail, true, false) == QuoteByte(b) + Cut(tail, true, false)
  {
    var q := QuoteByte(b);
    var s := q + tail;
    if |q| == 2 {
      assert s[1..] == [q[1]] + tail;
      assert s[1..][1..] == tail;
    } else {
      assert s[1..] == tail;
    }
  }

  /** Comment removal keeps a whole literal, semicolons included. */
  lemma {:induction false} CutKeepsLiteral(b: seq<byte>, rest: string)
    ensures Cut(QuoteBytes(b) + rest, true, false) == QuoteBytes(b) + Cut(rest, false, false)
  {
    if b == [] {
      assert (QuoteBytes(b) + rest)[1..] == rest;
    } else {
      hide QuoteByte, Cut;
      CutKeepsLiteral(b[1..], rest);
      CutQuoted(b[0], QuoteBytes(b[1..]) + rest);
      assert QuoteBytes(b) + rest == QuoteByte(b[0]) + (QuoteBytes(b[1..]) + rest);
    }
  }
}
