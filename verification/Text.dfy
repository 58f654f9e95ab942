/** The string functions of Go's `strings`, `bytes` and `strconv` packages that the library's
    parsers and printers call.  A Go string is the sequence of its characters. */
module Text {
  import opened Outcomes

  // ---------- searching ----------

  /** strings.IndexByte */
  function IndexOf(s: string, c: char): (i: int)
    ensures -1 <= i < |s|
    ensures i == -1 <==> c !in s
    ensures i >= 0 ==> s[i] == c && c !in s[..i]
  {
    if s == "" then -1
    else if s[0] == c then 0
    else
      var i := IndexOf(s[1..], c);
      if i == -1 then -1 else
        assert s[..i + 1] == [s[0]] + s[1..][..i];
        i + 1
  }

  /** strings.LastIndexByte */
  function LastIndexOf(s: string, c: char): (i: int)
    ensures -1 <= i < |s|
    ensures i == -1 <==> c !in s
    ensures i >= 0 ==> s[i] == c && c !in s[i + 1..]
  {
    if s == "" then -1
    else if s[|s| - 1] == c then |s| - 1
    else
      var init := s[..|s| - 1];
      var i := LastIndexOf(init, c);
      assert s == init + [s[|s| - 1]];
      assert i >= 0 ==> s[i + 1..] == init[i + 1..] + [s[|s| - 1]];
      i
  }

  // ---------- white space ----------

  /** unicode.IsSpace */
  predicate IsSpace(c: char) {
    || '\t' <= c <= '\r'
    || c == ' ' || c == '\U{0085}' || c == '\U{00A0}' || c == '\U{1680}'
    || '\U{2000}' <= c <= '\U{200A}'
    || c == '\U{2028}' || c == '\U{2029}' || c == '\U{202F}' || c == '\U{205F}' || c == '\U{3000}'
  }

  /** The 25 characters with the property White_Space of the Unicode standard */
  const WHITE_SPACE: string :=
    "\U{0009}\U{000A}\U{000B}\U{000C}\U{000D}\U{0020}\U{0085}\U{00A0}\U{1680}"
    + "\U{2000}\U{2001}\U{2002}\U{2003}\U{2004}\U{2005}\U{2006}\U{2007}\U{2008}\U{2009}\U{200A}"
    + "\U{2028}\U{2029}\U{202F}\U{205F}\U{3000}"

  lemma IsSpaceExact(c: char)
    ensures IsSpace(c) <==> c in WHITE_SPACE
  {
    assert WHITE_SPACE[0] == '\t' && WHITE_SPACE[5] == ' ' && WHITE_SPACE[20] == '\U{2028}';
    if '\t' <= c <= '\r' {
      assert WHITE_SPACE[c as int - 9] == c;
    } else if '\U{2000}' <= c <= '\U{200A}' {
      assert WHITE_SPACE[c as int - 0x2000 + 9] == c;
    }
    assert WHITE_SPACE[6] == '\U{0085}' && WHITE_SPACE[7] == '\U{00A0}' && WHITE_SPACE[8] == '\U{1680}';
    assert WHITE_SPACE[21] == '\U{2029}' && WHITE_SPACE[22] == '\U{202F}' && WHITE_SPACE[23] == '\U{205F}';
    assert WHITE_SPACE[24] == '\U{3000}';
  }

  predicate Blank(s: string) {
    forall c <- s :: IsSpace(c)
  }

  predicate Word(s: string) {
    s != "" && forall c <- s :: !IsSpace(c)
  }

  function WordLength(s: string): (n: nat)
    ensures n <= |s|
    ensures forall c <- s[..n] :: !IsSpace(c)
    ensures n < |s| ==> IsSpace(s[n])
    ensures s != "" && !IsSpace(s[0]) ==> n > 0
  {
    if s == "" || IsSpace(s[0]) then 0
    else
      var n := WordLength(s[1..]);
      assert s[..n + 1] == [s[0]] + s[1..][..n];
      n + 1
  }

  /** strings.Fields */
  function Fields(s: string): seq<string>
    decreases |s|
  {
    if s == "" then []
    else if IsSpace(s[0]) then Fields(s[1..])
    else [s[..WordLength(s)]] + Fields(s[WordLength(s)..])
  }

  /** A word of a line together with the white space in front of it. */
  datatype Item = Item(gap: string, word: string)

  function Spread(items: seq<Item>): string {
    if items == [] then "" else items[0].gap + items[0].word + Spread(items[1..])
  }

  function Words(items: seq<Item>): (ws: seq<string>)
    ensures |ws| == |items|
    ensures forall i :: 0 <= i < |ws| ==> ws[i] == items[i].word
  {
    if items == [] then [] else [items[0].word] + Words(items[1..])
  }

  /** Words set apart by white space; only the first word may have none in front of it. */
  predicate Spaced(items: seq<Item>) {
    forall i :: 0 <= i < |items| ==>
      Word(items[i].word) && Blank(items[i].gap) && (i > 0 ==> items[i].gap != "")
  }

  lemma {:induction false} SkipBlank(gap: string, s: string)
    requires Blank(gap)
    ensures Fields(gap + s) == Fields(s)
  {
    if gap == "" {
      assert gap + s == s;
    } else {
      assert (gap + s)[1..] == gap[1..] + s;
      assert gap[0] in gap;
      SkipBlank(gap[1..], s);
    }
  }

  lemma {:induction false} WordLengthOf(word: string, s: string)
    requires forall c <- word :: !IsSpace(c)
    requires s == "" || IsSpace(s[0])
    ensures WordLength(word + s) == |word|
  {
    if word == "" {
      assert word + s == s;
    } else {
      assert word[0] in word;
      assert (word + s)[1..] == word[1..] + s;
      WordLengthOf(word[1..], s);
    }
  }

  lemma TakeWord(word: string, s: string)
    requires Word(word)
    requires s == "" || IsSpace(s[0])
    ensures Fields(word + s) == [word] + Fields(s)
  {
    var t := word + s;
    assert t[0] == word[0] && word[0] in word;
    WordLengthOf(word, s);
    assert t[..|word|] == word && t[|word|..] == s;
  }

  /** A line that starts with known words has those words as its first fields. */
  lemma {:induction false} FieldsOfSpreadThen(items: seq<Item>, s: string)
    requires Spaced(items)
    requires s == "" || IsSpace(s[0])
    ensures Fields(Spread(items) + s) == Words(items) + Fields(s)
  {
    if items == [] {
      assert Spread(items) + s == s;
    } else {
      var first, rest := items[0], items[1..];
      FieldsOfSpreadThen(rest, s);
      SpreadStart(items, s);
      TakeItem(first, Spread(rest), s);
      assert Spread(items) == first.gap + first.word + Spread(rest);
      Regroup(first.word, Words(rest), Fields(s));
    }
  }

  lemma Regroup(word: string, words: seq<string>, more: seq<string>)
    ensures [word] + words + more == [word] + (words + more)
  {
  }

  lemma SpreadStart(items: seq<Item>, s: string)
    requires Spaced(items) && items != []
    requires s == "" || IsSpace(s[0])
    ensures var t := Spread(items[1..]) + s; t == "" || IsSpace(t[0])
  {
    if |items| > 1 {
      var next := items[1];
      assert items[1..][0] == next;
      assert Spread(items[1..])[0] == next.gap[0] && next.gap[0] in next.gap;
    } else {
      assert Spread(items[1..]) + s == s;
    }
  }

  lemma TakeItem(first: Item, rest: string, s: string)
    requires Word(first.word) && Blank(first.gap)
    requires var t := rest + s; t == "" || IsSpace(t[0])
    ensures Fields(first.gap + first.word + rest + s) == [first.word] + Fields(rest + s)
  {
    assert first.gap + first.word + rest + s == first.gap + (first.word + (rest + s));
    SkipBlank(first.gap, first.word + (rest + s));
    TakeWord(first.word, rest + s);
  }

  /** Fields finds the words of a line whatever the white space between, before and after them. */
  lemma FieldsOfSpread(items: seq<Item>, tail: string)
    requires Spaced(items) && Blank(tail)
    ensures Fields(Spread(items) + tail) == Words(items)
  {
    assert tail != "" ==> tail[0] in tail;
    FieldsOfSpreadThen(items, tail);
    SkipBlank(tail, "");
    assert tail + "" == tail;
  }

  /** Every line is its fields set apart by white space: Fields loses nothing else. */
  lemma {:induction false} SpreadOfFields(s: string) returns (items: seq<Item>, tail: string)
    ensures Spaced(items) && Blank(tail)
    ensures s == Spread(items) + tail
    ensures Fields(s) == Words(items)
    ensures s != "" && IsSpace(s[0]) && items != [] ==> items[0].gap != ""
    decreases |s|
  {
    if s == "" {
      items, tail := [], "";
    } else if IsSpace(s[0]) {
      var rest, t := SpreadOfFields(s[1..]);
      assert s == [s[0]] + s[1..];
      items, tail := Indent(s[0], rest, t);
    } else {
      var word, after := s[..WordLength(s)], s[WordLength(s)..];
      var rest, t := SpreadOfFields(after);
      assert s == word + after;
      items, tail := Precede(word, rest, t);
    }
  }

  lemma Precede(word: string, items: seq<Item>, tail: string) returns (items': seq<Item>, tail': string)
    requires Word(word) && Spaced(items) && Blank(tail)
    requires items != [] ==> items[0].gap != ""
    ensures Spaced(items') && Blank(tail')
    ensures Spread(items') + tail' == word + (Spread(items) + tail)
    ensures Words(items') == [word] + Words(items)
    ensures items'[0].gap == ""
  {
    items', tail' := [Item("", word)] + items, tail;
    assert items'[1..] == items;
  }

  lemma Indent(c: char, items: seq<Item>, tail: string) returns (items': seq<Item>, tail': string)
    requires IsSpace(c) && Spaced(items) && Blank(tail)
    ensures Spaced(items') && Blank(tail')
    ensures Spread(items') + tail' == [c] + (Spread(items) + tail)
    ensures Words(items') == Words(items)
    ensures items' != [] ==> items'[0].gap != ""
  {
    if items == [] {
      items', tail' := [], [c] + tail;
    } else {
      var first := Item([c] + items[0].gap, items[0].word);
      items', tail' := [first] + items[1..], tail;
      assert items'[1..] == items[1..];
    }
  }

  /** strings.TrimSpace */
  function TrimLeft(s: string): string {
    if s != "" && IsSpace(s[0]) then TrimLeft(s[1..]) else s
  }

  function TrimRight(s: string): string {
    if s != "" && IsSpace(s[|s| - 1]) then TrimRight(s[..|s| - 1]) else s
  }

  function TrimSpace(s: string): string {
    TrimRight(TrimLeft(s))
  }

  /** A text that neither starts nor ends with white space */
  predicate Trimmed(s: string) {
    s != "" ==> !IsSpace(s[0]) && !IsSpace(s[|s| - 1])
  }

  /** White space goes at both ends, and nothing else. */
  lemma TrimSpaceOf(left: string, s: string, right: string)
    requires Blank(left) && Blank(right) && Trimmed(s)
    ensures TrimSpace(left + s + right) == s
  {
    assert left + s + right == left + (s + right);
    TrimLeftOf(left, s + right);
    if s == "" {
      assert s + right == right && right + "" == right;
      TrimLeftOf(right, "");
      assert TrimLeft(right) == "";
    } else {
      TrimRightOf(s, right);
    }
  }

  lemma {:induction false} TrimLeftOf(left: string, s: string)
    requires Blank(left)
    ensures TrimLeft(left + s) == TrimLeft(s)
  {
    if left == "" {
      assert left + s == s;
    } else {
      assert left[0] in left;
      assert (left + s)[1..] == left[1..] + s;
      TrimLeftOf(left[1..], s);
    }
  }

  lemma {:induction false} TrimRightOf(s: string, right: string)
    requires Blank(right) && s != "" && !IsSpace(s[|s| - 1])
    ensures TrimRight(s + right) == s
  {
    if right == "" {
      assert s + right == s;
    } else {
      var n := |right| - 1;
      assert right[n] in right;
      assert (s + right)[..|s + right| - 1] == s + right[..n];
      TrimRightOf(s, right[..n]);
    }
  }

  // ---------- splitting and joining ----------

  /** bytes.Split and strings.Split for a separator of one character */
  function Split(s: string, sep: char): (parts: seq<string>)
    ensures parts != []
    ensures forall i :: 0 <= i < |parts| ==> sep !in parts[i]
    decreases |s|
  {
    var i := IndexOf(s, sep);
    if i == -1 then [s] else [s[..i]] + Split(s[i + 1..], sep)
  }

  /** strings.Join */
  function Join(parts: seq<string>, sep: string): string {
    if parts == [] then ""
    else if |parts| == 1 then parts[0]
    else parts[0] + sep + Join(parts[1..], sep)
  }

  lemma {:induction false} JoinOfSplit(s: string, sep: char)
    ensures Join(Split(s, sep), [sep]) == s
    decreases |s|
  {
    var i := IndexOf(s, sep);
    SplitStep(s, sep, i);
    if i >= 0 {
      JoinOfSplit(s[i + 1..], sep);
      JoinBehind(s, i, Split(s[i + 1..], sep));
    }
  }

  lemma SplitStep(s: string, sep: char, i: int)
    requires i == IndexOf(s, sep)
    ensures Split(s, sep) == if i == -1 then [s] else [s[..i]] + Split(s[i + 1..], sep)
  {
  }

  lemma JoinBehind(s: string, i: nat, parts: seq<string>)
    requires i < |s| && parts != [] && Join(parts, [s[i]]) == s[i + 1..]
    ensures Join([s[..i]] + parts, [s[i]]) == s
  {
    JoinCons(s[..i], parts, [s[i]]);
    assert s == s[..i] + [s[i]] + s[i + 1..];
  }

  lemma JoinCons(part: string, parts: seq<string>, sep: string)
    requires parts != []
    ensures Join([part] + parts, sep) == part + sep + Join(parts, sep)
  {
    assert ([part] + parts)[1..] == parts;
  }

  lemma {:induction false} IndexOfFirst(before: string, sep: char, after: string)
    requires sep !in before
    ensures IndexOf(before + [sep] + after, sep) == |before|
  {
    var s := before + [sep] + after;
    if before != "" {
      assert s[1..] == before[1..] + [sep] + after;
      IndexOfFirst(before[1..], sep, after);
    }
  }

  lemma {:induction false} LastIndexOfLast(before: string, sep: char, after: string)
    requires sep !in after
    ensures LastIndexOf(before + [sep] + after, sep) == |before|
  {
    var s := before + [sep] + after;
    if after != "" {
      var n := |after| - 1;
      assert after[n] in after && s[|s| - 1] == after[n];
      assert s[..|s| - 1] == before + [sep] + after[..n];
      LastIndexOfLast(before, sep, after[..n]);
    }
  }

  lemma SplitFirst(part: string, sep: char, rest: string)
    requires sep !in part
    ensures Split(part + [sep] + rest, sep) == [part] + Split(rest, sep)
  {
    IndexOfFirst(part, sep, rest);
    var s := part + [sep] + rest;
    assert s[..|part|] == part && s[|part| + 1..] == rest;
  }

  lemma {:induction false} SplitOfJoin(parts: seq<string>, sep: char)
    requires parts != []
    requires forall part <- parts :: sep !in part
    ensures Split(Join(parts, [sep]), sep) == parts
  {
    assert parts[0] in parts;
    if |parts| > 1 {
      SplitFirst(parts[0], sep, Join(parts[1..], [sep]));
      SplitOfJoin(parts[1..], sep);
      assert parts == [parts[0]] + parts[1..];
    }
  }

  /** s with every `from` turned into `to` */
  function Replace(s: string, from: char, to: string): string {
    if s == "" then "" else (if s[0] == from then to else [s[0]]) + Replace(s[1..], from, to)
  }

  lemma {:induction false} ReplaceNothing(s: string, from: char, to: string)
    requires from !in s
    ensures Replace(s, from, to) == s
  {
    if s != "" {
      ReplaceNothing(s[1..], from, to);
    }
  }

  lemma {:induction false} ReplaceConcat(a: string, b: string, from: char, to: string)
    ensures Replace(a + b, from, to) == Replace(a, from, to) + Replace(b, from, to)
  {
    if a == "" {
      assert a + b == b;
    } else {
      assert (a + b)[1..] == a[1..] + b;
      ReplaceConcat(a[1..], b, from, to);
    }
  }

  /** Joining with another separator is replacing the separator in the original text. */
  lemma {:induction false} JoinIsReplace(parts: seq<string>, from: char, to: string)
    requires forall part <- parts :: from !in part
    ensures Join(parts, to) == Replace(Join(parts, [from]), from, to)
  {
    if parts != [] {
      assert parts[0] in parts;
      ReplaceNothing(parts[0], from, to);
      if |parts| > 1 {
        JoinIsReplace(parts[1..], from, to);
        ReplaceBetween(parts[0], from, Join(parts[1..], [from]), to);
      }
    }
  }

  lemma ReplaceBetween(part: string, from: char, rest: string, to: string)
    requires from !in part
    ensures Replace(part + [from] + rest, from, to) == part + to + Replace(rest, from, to)
  {
    ReplaceConcat(part + [from], rest, from, to);
    ReplaceConcat(part, [from], from, to);
    ReplaceNothing(part, from, to);
    assert Replace([from], from, to) == to + "";
  }

  // ---------- numerals ----------

  const INT64_MAX: int := 0x7FFF_FFFF_FFFF_FFFF
  const INT64_MIN: int := -0x8000_0000_0000_0000
  const UINT64_MAX: int := 0xFFFF_FFFF_FFFF_FFFF

  /** Go's int64 (and, on 64-bit platforms, int) arithmetic wraps around. */
  function Wrap64(n: int): (w: int)
    ensures INT64_MIN <= w <= INT64_MAX
    ensures INT64_MIN <= n <= INT64_MAX ==> w == n
    ensures (n - w) % 0x1_0000_0000_0000_0000 == 0
  {
    (n + 0x8000_0000_0000_0000) % 0x1_0000_0000_0000_0000 - 0x8000_0000_0000_0000
  }

  function DigitChar(d: nat): char
    requires d < 16
  {
    "0123456789abcdef"[d]
  }

  /** -1 when c is no digit of any base up to 16 */
  function DigitValue(c: char): (d: int)
    ensures -1 <= d < 16
  {
    if '0' <= c <= '9' then c as int - '0' as int
    else if 'a' <= c <= 'f' then c as int - 'a' as int + 10
    else if 'A' <= c <= 'F' then c as int - 'A' as int + 10
    else -1
  }

  predicate Numeral(s: string, base: nat) {
    forall c <- s :: 0 <= DigitValue(c) < base
  }

  function NumeralValue(s: string, base: nat): nat
    requires Numeral(s, base)
  {
    if s == "" then 0
    else NumeralValue(s[..|s| - 1], base) * base + DigitValue(s[|s| - 1])
  }

  /** fmt.Sprintf("%d", n) */
  function Decimal(n: nat): (s: string)
    ensures s != "" && Numeral(s, 10)
  {
    if n < 10 then [DigitChar(n)] else Decimal(n / 10) + [DigitChar(n % 10)]
  }

  function SignedDecimal(n: int): string {
    if n < 0 then "-" + Decimal(-n) else Decimal(n)
  }

  /** The kernel's "%0*llx": width hexadecimal digits, zero-padded */
  function FixedHex(n: nat, width: nat): (s: string)
    ensures |s| == width && Numeral(s, 16)
  {
    if width == 0 then "" else FixedHex(n / 16, width - 1) + [DigitChar(n % 16)]
  }

  /** strconv.ParseUint with an explicit base; max is the largest value of the bit size */
  function ParseUint(s: string, base: nat, max: nat): Outcome<nat> {
    if s == "" || !Numeral(s, base) then Err(Other("invalid syntax"))
    else if NumeralValue(s, base) > max then Err(Other("value out of range"))
    else Ok(NumeralValue(s, base))
  }

  /** strconv.ParseInt(s, 10, 64), and on 64-bit platforms strconv.ParseInt(s, 10, 0) and Atoi */
  function ParseInt(s: string): (r: Outcome<int>)
    ensures !r.Panic?
    ensures r.Ok? ==> INT64_MIN <= r.value <= INT64_MAX
  {
    if s == "" then Err(Other("invalid syntax"))
    else
      var negative := s[0] == '-';
      var digits := if negative || s[0] == '+' then s[1..] else s;
      match ParseUint(digits, 10, UINT64_MAX)
      case Err(e) => Err(e)
      case Panic => Panic
      case Ok(n) =>
        if !negative && n > INT64_MAX then Err(Other("value out of range"))
        else if negative && n > -INT64_MIN then Err(Other("value out of range"))
        else if negative then Ok(-(n as int))
        else Ok(n)
  }

  lemma DigitRoundTrip(d: nat)
    requires d < 16
    ensures DigitValue(DigitChar(d)) == d
  {
  }

  lemma AppendDigit(s: string, d: nat, base: nat)
    requires Numeral(s, base) && d < base <= 16
    ensures Numeral(s + [DigitChar(d)], base)
    ensures NumeralValue(s + [DigitChar(d)], base) == NumeralValue(s, base) * base + d
  {
    DigitRoundTrip(d);
    assert (s + [DigitChar(d)])[..|s|] == s;
  }

  lemma {:induction false} DecimalValue(n: nat)
    ensures NumeralValue(Decimal(n), 10) == n
  {
    if n >= 10 {
      DecimalValue(n / 10);
      AppendDigit(Decimal(n / 10), n % 10, 10);
    } else {
      AppendDigit("", n, 10);
      assert "" + [DigitChar(n)] == [DigitChar(n)];
    }
  }

  lemma {:induction false} FixedHexValue(n: nat, width: nat)
    requires n < Power16(width)
    ensures NumeralValue(FixedHex(n, width), 16) == n
  {
    if width > 0 {
      FixedHexValue(n / 16, width - 1);
      AppendDigit(FixedHex(n / 16, width - 1), n % 16, 16);
    }
  }

  function Power16(width: nat): nat {
    if width == 0 then 1 else 16 * Power16(width - 1)
  }

  /** Printing a number in decimal and parsing it again gives the number back. */
  lemma ParseIntOfDecimal(n: int)
    requires INT64_MIN <= n <= INT64_MAX
    ensures ParseInt(SignedDecimal(n)) == Ok(n)
  {
    var digits := Decimal(if n < 0 then -n else n);
    DecimalValue(if n < 0 then -n else n);
    if n < 0 {
      assert ("-" + digits)[1..] == digits;
    } else {
      assert digits[0] in digits;
    }
  }

  lemma DecimalInjective(a: nat, b: nat)
    requires Decimal(a) == Decimal(b)
    ensures a == b
  {
    DecimalValue(a);
    DecimalValue(b);
  }

  // ---------- which texts are numbers ----------

  /** The digits of base 16, small or capital; a base up to 16 has the first of them. */
  lemma DigitsExact(d: nat)
    requires d < 16
    ensures DigitValue("0123456789abcdef"[d]) == d && DigitValue("0123456789ABCDEF"[d]) == d
    ensures forall c: char :: c !in "0123456789abcdef" && c !in "0123456789ABCDEF" ==> DigitValue(c) == -1
  {
    forall c: char | 0 <= DigitValue(c)
      ensures c in "0123456789abcdef" || c in "0123456789ABCDEF"
    {
      if '0' <= c <= '9' {
        assert "0123456789abcdef"[c as int - '0' as int] == c;
      } else if 'a' <= c <= 'f' {
        assert "0123456789abcdef"[c as int - 'a' as int + 10] == c;
      } else {
        assert "0123456789ABCDEF"[c as int - 'A' as int + 10] == c;
      }
    }
  }

  /** The number that digits give when they are read from the left behind a number already read */
  function Horner(before: nat, s: string, base: nat): nat
    requires Numeral(s, base)
    decreases |s|
  {
    if s == "" then before
    else
      assert s[0] in s;
      Horner(before * base + DigitValue(s[0]), s[1..], base)
  }

  lemma {:induction false} HornerLast(before: nat, s: string, base: nat)
    requires Numeral(s, base) && s != ""
    ensures Numeral(s[..|s| - 1], base) && s[|s| - 1] in s
    ensures Horner(before, s, base) == Horner(before, s[..|s| - 1], base) * base + DigitValue(s[|s| - 1])
    decreases |s|
  {
    var init := s[..|s| - 1];
    assert s[|s| - 1] in s && s[0] in s;
    if |s| > 1 {
      assert s[1..][..|s| - 2] == init[1..] && s[1..][|s| - 2] == s[|s| - 1];
      HornerLast(before * base + DigitValue(s[0]), s[1..], base);
    } else {
      assert s[1..] == "" && init == "";
    }
  }

  lemma {:induction false} HornerIsValue(s: string, base: nat)
    requires Numeral(s, base)
    ensures Horner(0, s, base) == NumeralValue(s, base)
  {
    if s != "" {
      HornerLast(0, s, base);
      HornerIsValue(s[..|s| - 1], base);
    }
  }

  /** The text is an unsigned number of this base: at least one digit and nothing else. */
  ghost predicate DenotesUnsigned(s: string, base: nat, n: int) {
    s != "" && Numeral(s, base) && n == Horner(0, s, base)
  }

  /** The text is a decimal number: digits, with or without a sign. */
  ghost predicate Denotes(s: string, n: int) {
    || DenotesUnsigned(s, 10, n)
    || (s != "" && s[0] == '+' && DenotesUnsigned(s[1..], 10, n))
    || (s != "" && s[0] == '-' && DenotesUnsigned(s[1..], 10, -n))
  }

  predicate In64(n: int) {
    INT64_MIN <= n <= INT64_MAX
  }

  ghost predicate IsNumber(s: string) {
    exists n: int :: In64(n) && Denotes(s, n)
  }

  lemma ParseUintExact(s: string, base: nat, max: nat, n: int)
    ensures ParseUint(s, base, max) == Ok(n) <==> DenotesUnsigned(s, base, n) && n <= max
  {
    if Numeral(s, base) {
      HornerIsValue(s, base);
    }
  }

  /** ParseInt gives n exactly for the texts of n, if n fits 64 bits, and an error for all texts of no such number. */
  lemma ParseIntExact(s: string, n: int)
    ensures ParseInt(s) == Ok(n) <==> Denotes(s, n) && In64(n)
  {
    if s != "" {
      var signed := s[0] == '-' || s[0] == '+';
      if signed {
        NoDigitSign(s);
        ParseUintExact(s[1..], 10, UINT64_MAX, if s[0] == '-' then -n else n);
      } else {
        ParseUintExact(s, 10, UINT64_MAX, n);
      }
    }
  }

  lemma NoDigitSign(s: string)
    requires s != "" && (s[0] == '-' || s[0] == '+')
    ensures !Numeral(s, 10)
  {
    assert s[0] in s;
  }

  lemma ParseIntFails(s: string)
    ensures ParseInt(s).Err? <==> !IsNumber(s)
  {
    if ParseInt(s).Ok? {
      ParseIntExact(s, ParseInt(s).value);
    } else if IsNumber(s) {
      var n: int :| In64(n) && Denotes(s, n);
      ParseIntExact(s, n);
    }
  }

  lemma DecimalDenotes(n: int)
    requires In64(n)
    ensures Denotes(SignedDecimal(n), n)
  {
    ParseIntOfDecimal(n);
    ParseIntExact(SignedDecimal(n), n);
  }
}
