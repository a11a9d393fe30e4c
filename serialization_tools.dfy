/** The array codecs of the save files: comma-separated decimals, hex-coded
    binary words behind an endianness tag, the dispatch on the encoding
    type and the wrapper that stores an array with its length. The int and
    float overloads of the source share one generic definition here; an
    element type brings its own decimal text and its 32-bit pattern. */
module SerializationTools {
  import opened Common

  /** The values of the encoding type enumeration. */
  const CommaSeparatedDecimals: Int32 := 0
  const HexCodedBinary: Int32 := 1
  const Base64CodedZippedBinary: Int32 := 2

  /** What a decoder that does not throw hands back: `false`, or `true`
      with the decoded items. */
  datatype Decoded<+T> = Failed | Values(items: seq<T>)

  /** The base64-of-gzip codec, whose byte handling is not part of this
      model. */
  datatype ZippedCodec<!T> = ZippedCodec(encode: seq<T> -> string, decode: string -> Outcome<Decoded<T>>)

  /** How an element type is written and read: its decimal text and the
      parser of that text, its 32-bit pattern and the value of a pattern,
      and the zipped codec. */
  datatype Codecs<!T> = Codecs(
    render: T -> string,
    parse: string -> Outcome<T>,
    toWord: T -> UInt32,
    fromWord: UInt32 -> T,
    zipped: ZippedCodec<T>)

  // ---------------------------------------------------------------------
  // Decimal text of an integer
  // ---------------------------------------------------------------------

  predicate IsDigit(c: char) {
    '0' <= c <= '9'
  }

  predicate AllDigits(s: string) {
    forall i :: 0 <= i < |s| ==> IsDigit(s[i])
  }

  function DigitChar(d: int): char
    requires 0 <= d < 10
  {
    ('0' as int + d) as char
  }

  /** The value of a string of decimal digits, most significant first. */
  function DigitsValue(s: string): nat
    requires AllDigits(s)
  {
    if |s| == 0 then 0
    else DigitsValue(s[..|s| - 1]) * 10 + (s[|s| - 1] as int - '0' as int)
  }

  /** The shortest decimal digits of `n`: "0" for zero, no leading zero
      otherwise. */
  function NatDigits(n: nat): (r: string)
    ensures 1 <= |r| && AllDigits(r)
    ensures 1 < |r| ==> r[0] != '0'
  {
    if n < 10 then [DigitChar(n)] else NatDigits(n / 10) + [DigitChar(n % 10)]
  }

  /** The digits read back as the number they were written from. */
  lemma {:induction false} NatDigitsValue(n: nat)
    ensures DigitsValue(NatDigits(n)) == n
  {
    if n >= 10 {
      NatDigitsValue(n / 10);
      var s := NatDigits(n);
      assert s[..|s| - 1] == NatDigits(n / 10);
    }
  }

  /** `ToString(CultureInfo.InvariantCulture)` of an integer: a minus sign
      for a negative value, then the digits. */
  function DecimalString(x: int): string {
    if x < 0 then "-" + NatDigits(-x) else NatDigits(x)
  }

  // ---------------------------------------------------------------------
  // Convert.ToInt32(string, CultureInfo.InvariantCulture)
  // ---------------------------------------------------------------------

  /** White space as .NET number parsing counts it: space, tab, line feed,
      vertical tab, form feed and carriage return. */
  predicate IsWhite(c: char) {
    c == ' ' || ('\t' <= c <= '\r')
  }

  function TrimLeadingWhite(s: string): (r: string)
    ensures |r| <= |s| && r == s[|s| - |r|..]
    ensures 0 < |r| ==> !IsWhite(r[0])
  {
    if 0 < |s| && IsWhite(s[0]) then TrimLeadingWhite(s[1..]) else s
  }

  function TrimTrailingWhite(s: string): (r: string)
    ensures |r| <= |s| && r == s[..|r|]
    ensures 0 < |r| ==> !IsWhite(r[|r| - 1])
  {
    if 0 < |s| && IsWhite(s[|s| - 1]) then TrimTrailingWhite(s[..|s| - 1]) else s
  }

  /** The integer number style: optional white space, an optional sign,
      one or more digits, optional white space. Text of any other shape
      throws a format exception; a well-formed number outside the 32-bit
      range throws an overflow exception. */
  function ParseInt32(s: string): Outcome<Int32> {
    ParseSignedDigits(TrimTrailingWhite(TrimLeadingWhite(s)))
  }

  /** The text between the white space: an optional sign and digits. */
  function ParseSignedDigits(body: string): Outcome<Int32> {
    var negative := 0 < |body| && body[0] == '-';
    var digits := if 0 < |body| && (body[0] == '-' || body[0] == '+') then body[1..] else body;
    if |digits| == 0 || !AllDigits(digits) then Threw(FormatException)
    else
      var value: int := if negative then -(DigitsValue(digits) as int) else DigitsValue(digits);
      if value < -TwoTo31 || TwoTo31 <= value then Threw(OverflowException)
      else Returned(value)
  }

  lemma TrimNothing(s: string)
    requires 0 < |s| && !IsWhite(s[0]) && !IsWhite(s[|s| - 1])
    ensures TrimTrailingWhite(TrimLeadingWhite(s)) == s
  {
  }

  lemma {:induction false} ParseSignedDecimal(x: Int32)
    ensures ParseSignedDigits(DecimalString(x)) == Returned(x)
  {
    var m: int := x;
    var d := NatDigits(if m < 0 then -m else m);
    NatDigitsValue(if m < 0 then -m else m);
    if x < 0 {
      assert ("-" + d)[1..] == d;
    }
  }

  /** Every 32-bit integer reads back from its decimal text, and that text
      holds no comma. */
  lemma {:induction false} ParseDecimalString(x: Int32)
    ensures ParseInt32(DecimalString(x)) == Returned(x)
    ensures ',' !in DecimalString(x)
  {
    var s := DecimalString(x);
    var m: int := x;
    var d := NatDigits(if m < 0 then -m else m);
    assert s[|s| - 1] == d[|d| - 1];
    TrimNothing(s);
    ParseSignedDecimal(x);
  }

  /** The empty text is not a number. */
  lemma ParseEmpty()
    ensures ParseInt32("") == Threw(FormatException)
  {
    assert TrimLeadingWhite("") == "";
  }

  // ---------------------------------------------------------------------
  // Splitting at commas and joining with commas
  // ---------------------------------------------------------------------

  function Commas(s: string): nat {
    if |s| == 0 then 0 else Commas(s[..|s| - 1]) + (if s[|s| - 1] == ',' then 1 else 0)
  }

  /** `s.Split(',')`: the pieces between the commas, one more than there
      are commas, none holding a comma. */
  function Split(s: string): (r: seq<string>)
    ensures |r| == Commas(s) + 1
    ensures forall i :: 0 <= i < |r| ==> ',' !in r[i]
  {
    if |s| == 0 then [""]
    else
      var init := Split(s[..|s| - 1]);
      var c := s[|s| - 1];
      if c == ',' then init + [""]
      else init[..|init| - 1] + [init[|init| - 1] + [c]]
  }

  /** The pieces with a comma between each two. */
  function Join(pieces: seq<string>): string
    requires 1 <= |pieces|
  {
    if |pieces| == 1 then pieces[0] else Join(pieces[..|pieces| - 1]) + "," + pieces[|pieces| - 1]
  }

  /** The pieces with `b` appended to the last one. */
  function Extended(p: seq<string>, b: string): seq<string>
    requires 1 <= |p|
  {
    p[..|p| - 1] + [p[|p| - 1] + b]
  }

  /** A character other than a comma extends the last piece. */
  lemma SplitSnoc(s: string, c: char)
    requires c != ','
    ensures Split(s + [c]) == Extended(Split(s), [c])
  {
    assert (s + [c])[..|s|] == s;
  }

  /** Extending the last piece by `b'` and then by `c` extends it by
      `b' + [c]`. */
  lemma ExtendedTwice(p: seq<string>, b': string, c: char)
    requires 1 <= |p|
    ensures Extended(Extended(p, b'), [c]) == Extended(p, b' + [c])
  {
    var q := Extended(p, b');
    assert q[|q| - 1] + [c] == p[|p| - 1] + (b' + [c]);
  }

  /** A non-empty text is its last character appended to the rest. */
  lemma LastOff(t: string, b: string)
    requires 0 < |b|
    ensures b == b[..|b| - 1] + [b[|b| - 1]]
    ensures t + b == (t + b[..|b| - 1]) + [b[|b| - 1]]
  {
  }

  /** Text without a comma extends the last piece. */
  lemma {:induction false} SplitAppendPlain(t: string, b: string)
    requires ',' !in b
    ensures Split(t + b) == Extended(Split(t), b)
    decreases |b|
  {
    var p := Split(t);
    if |b| == 0 {
      assert t + b == t;
      assert p[|p| - 1] + b == p[|p| - 1];
    } else {
      var b', c := b[..|b| - 1], b[|b| - 1];
      assert ',' !in b' && c != ',' by {
        assert forall i :: 0 <= i < |b'| ==> b'[i] == b[i];
        assert c in b;
      }
      SplitAppendPlain(t, b');
      SplitSnoc(t + b', c);
      ExtendedTwice(p, b', c);
      LastOff(t, b);
    }
  }

  /** A trailing comma starts an empty piece. */
  lemma SplitTrailingComma(t: string)
    ensures Split(t + ",") == Split(t) + [""]
  {
    assert (t + ",")[..|t|] == t;
  }

  /** Extending an empty last piece by the last of some pieces gives those
      pieces back. */
  lemma ExtendEmpty(pieces: seq<string>)
    requires 1 <= |pieces|
    ensures Extended(pieces[..|pieces| - 1] + [""], pieces[|pieces| - 1]) == pieces
  {
    assert "" + pieces[|pieces| - 1] == pieces[|pieces| - 1];
  }

  /** Splitting undoes joining, for pieces without commas. */
  lemma {:induction false} SplitJoin(pieces: seq<string>)
    requires 1 <= |pieces|
    requires forall i :: 0 <= i < |pieces| ==> ',' !in pieces[i]
    ensures Split(Join(pieces)) == pieces
  {
    var last := pieces[|pieces| - 1];
    if |pieces| == 1 {
      SplitAppendPlain("", last);
      assert "" + last == last;
    } else {
      var init := pieces[..|pieces| - 1];
      SplitJoin(init);
      SplitTrailingComma(Join(init));
      SplitAppendPlain(Join(init) + ",", last);
      ExtendEmpty(pieces);
    }
  }

  /** An empty last piece adds a trailing comma. */
  lemma JoinSnocEmpty(p: seq<string>)
    requires 1 <= |p|
    ensures Join(p + [""]) == Join(p) + ","
  {
    assert (p + [""])[..|p|] == p;
  }

  /** A character appended to the last piece is appended to the text. */
  lemma JoinExtendLast(p: seq<string>, c: char)
    requires 1 <= |p|
    ensures Join(p[..|p| - 1] + [p[|p| - 1] + [c]]) == Join(p) + [c]
  {
    var q := p[..|p| - 1] + [p[|p| - 1] + [c]];
    if |p| > 1 {
      assert q[..|q| - 1] == p[..|p| - 1];
    }
  }

  /** Joining undoes splitting, for any text. */
  lemma {:induction false} JoinSplit(s: string)
    ensures Join(Split(s)) == s
  {
    if |s| > 0 {
      var init := s[..|s| - 1];
      JoinSplit(init);
      if s[|s| - 1] == ',' {
        JoinSnocEmpty(Split(init));
      } else {
        JoinExtendLast(Split(init), s[|s| - 1]);
      }
      assert s == init + [s[|s| - 1]];
    }
  }

  // ---------------------------------------------------------------------
  // Comma-separated decimals
  // ---------------------------------------------------------------------

  function Renderings<T>(arr: seq<T>, render: T -> string): seq<string> {
    seq(|arr|, i requires 0 <= i < |arr| => render(arr[i]))
  }

  /** The text of the comma-separated encoder: "" for no items, otherwise
      each item's text with a comma between each two and none at the end. */
  function CommaSepText<T>(arr: seq<T>, render: T -> string): string {
    if |arr| == 0 then "" else Join(Renderings(arr, render))
  }

  /** Every item parsed in order. */
  function ParseAll<T>(items: seq<string>, parse: string -> Outcome<T>): (r: Outcome<seq<T>>)
    ensures r.Returned? ==> |r.value| == |items|
    ensures r.Returned? ==> forall i :: 0 <= i < |items| ==> parse(items[i]) == Returned(r.value[i])
  {
    if |items| == 0 then Returned([])
    else
      match ParseAll(items[..|items| - 1], parse)
      case Threw(e) => Threw(e)
      case Returned(init) =>
        match parse(items[|items| - 1])
        case Threw(e) => Threw(e)
        case Returned(v) => Returned(init + [v])
  }

  /** When every item parses, all of them are returned. */
  lemma {:induction false} ParseAllEach<T>(items: seq<string>, parse: string -> Outcome<T>, values: seq<T>)
    requires |values| == |items|
    requires forall i :: 0 <= i < |items| ==> parse(items[i]) == Returned(values[i])
    ensures ParseAll(items, parse) == Returned(values)
  {
    if |items| > 0 {
      ParseAllEach(items[..|items| - 1], parse, values[..|values| - 1]);
      assert values[..|values| - 1] + [values[|values| - 1]] == values;
    }
  }

  /** When an item does not parse, the first such item decides the
      exception. */
  lemma {:induction false} ParseAllFirstError<T>(items: seq<string>, parse: string -> Outcome<T>)
    requires ParseAll(items, parse).Threw?
    ensures exists j :: (0 <= j < |items| && parse(items[j]) == Threw(ParseAll(items, parse).error)
      && forall k :: 0 <= k < j ==> parse(items[k]).Returned?)
  {
    var init := items[..|items| - 1];
    var j := |items| - 1;
    if ParseAll(init, parse).Threw? {
      ParseAllFirstError(init, parse);
      j :| (0 <= j < |init| && parse(init[j]) == Threw(ParseAll(init, parse).error)
        && forall k :: 0 <= k < j ==> parse(init[k]).Returned?);
      assert forall k :: 0 <= k < j ==> init[k] == items[k];
    }
    assert forall k :: 0 <= k < j ==> parse(items[k]).Returned?;
  }

  /** A prefix that throws decides the outcome of the whole sequence. */
  lemma {:induction false} ParseAllPrefixThrows<T>(items: seq<string>, j: nat, parse: string -> Outcome<T>)
    requires j <= |items|
    requires ParseAll(items[..j], parse).Threw?
    ensures ParseAll(items, parse) == ParseAll(items[..j], parse)
    decreases |items|
  {
    if j < |items| {
      var init := items[..|items| - 1];
      assert init[..j] == items[..j];
      ParseAllPrefixThrows(init, j, parse);
    } else {
      assert items[..j] == items;
    }
  }

  /** One more item: the prefix's outcome extended by that item's. */
  lemma ParseAllStep<T>(items: seq<string>, i: nat, parse: string -> Outcome<T>)
    requires i < |items|
    ensures ParseAll(items[..i + 1], parse) ==
      match ParseAll(items[..i], parse)
      case Threw(e) => Threw(e)
      case Returned(init) =>
        match parse(items[i])
        case Threw(e) => Threw(e)
        case Returned(v) => Returned(init + [v])
  {
    assert items[..i + 1][..i] == items[..i];
  }

  /** One more item: its text after the text of the items before it and
      a comma. */
  lemma CommaSepSnoc<T>(arr: seq<T>, i: nat, render: T -> string)
    requires i < |arr|
    ensures CommaSepText(arr[..i + 1], render)
      == (if i == 0 then "" else CommaSepText(arr[..i], render) + ",") + render(arr[i])
  {
    var r := Renderings(arr[..i + 1], render);
    if i > 0 {
      assert r[..i] == Renderings(arr[..i], render);
    } else {
      assert r == [render(arr[0])];
    }
  }

  /** The builder loop of encodeCommaSepDecimals: each item's text, a comma
      after every item but the last. */
  method AppendItems<T>(arr: seq<T>, render: T -> string) returns (text: string)
    ensures text == CommaSepText(arr, render)
  {
    text := "";
    var i := 0;
    while i < |arr|
      invariant 0 <= i <= |arr|
      invariant text == if i == 0 then "" else CommaSepText(arr[..i], render) + (if i < |arr| then "," else "")
    {
      text := text + render(arr[i]);
      CommaSepSnoc(arr, i, render);
      if i < |arr| - 1 {
        text := text + ",";
      }
      i := i + 1;
    }
    assert arr[..|arr|] == arr;
  }

  /** The capacity `12 * n + n - 1` the decimal encoder gives its string
      builder, in C# `int` arithmetic: every step wraps, so the whole wraps
      once. */
  function CommaCapacity(n: int): Int32 {
    Wrap32(13 * n - 1)
  }

  /** encodeCommaSepDecimals. A negative builder capacity throws: an empty
      array's, and that of arrays long enough for `13 * n - 1` to wrap. */
  method EncodeCommaSepDecimals<T>(arr: seq<T>, render: T -> string) returns (r: Outcome<string>)
    ensures CommaCapacity(|arr|) < 0 ==> r == Threw(ArgumentOutOfRangeException)
    ensures 0 <= CommaCapacity(|arr|) ==> 0 < |arr| && r == Returned(CommaSepText(arr, render))
  {
    if CommaCapacity(|arr|) < 0 {
      return Threw(ArgumentOutOfRangeException);
    }
    var text := AppendItems(arr, render);
    r := Returned(text);
  }

  /** decodeCommaSepDecimals: the text split at the commas and every piece
      parsed; a piece that does not parse throws. */
  function DecodeCommaSep<T>(data: string, parse: string -> Outcome<T>): (r: Outcome<Decoded<T>>)
    ensures r.Returned? ==> r.value.Values? && |r.value.items| == Commas(data) + 1
  {
    match ParseAll(Split(data), parse)
    case Threw(e) => Threw(e)
    case Returned(items) => Returned(Values(items))
  }

  /** The decoders' loop: a new array of the items' count, filled item by
      item; the first item that does not parse throws. */
  method ParseEach<T(0)>(items: seq<string>, parse: string -> Outcome<T>) returns (r: Outcome<seq<T>>)
    ensures r == ParseAll(items, parse)
  {
    var arr := new T[|items|];
    var i := 0;
    while i < |items|
      invariant 0 <= i <= |items|
      invariant ParseAll(items[..i], parse) == Returned(arr[..i])
    {
      var v := parse(items[i]);
      ParseAllStep(items, i, parse);
      if v.Threw? {
        ParseAllPrefixThrows(items, i + 1, parse);
        return Threw(v.error);
      }
      ghost var prev := arr[..i];
      arr[i] := v.value;
      assert arr[..i + 1] == prev + [v.value];
      i := i + 1;
    }
    assert items[..i] == items;
    assert arr[..i] == arr[..];
    r := Returned(arr[..]);
  }

  method DecodeCommaSepDecimals<T(0)>(data: string, parse: string -> Outcome<T>) returns (r: Outcome<Decoded<T>>)
    ensures r == DecodeCommaSep(data, parse)
  {
    var items := Split(data);
    var parsed := ParseEach(items, parse);
    match parsed
    case Threw(e) => r := Threw(e);
    case Returned(values) => r := Returned(Values(values));
  }

  /** The comma-separated text of a non-empty array has one comma fewer
      than items and decodes to the array, when every item's text is free
      of commas and parses back to the item. */
  lemma CommaSepRoundTrip<T>(arr: seq<T>, render: T -> string, parse: string -> Outcome<T>)
    requires 0 < |arr|
    requires forall i :: 0 <= i < |arr| ==> ',' !in render(arr[i]) && parse(render(arr[i])) == Returned(arr[i])
    ensures Commas(CommaSepText(arr, render)) == |arr| - 1
    ensures DecodeCommaSep(CommaSepText(arr, render), parse) == Returned(Values(arr))
  {
    var pieces := Renderings(arr, render);
    SplitJoin(pieces);
    ParseAllEach(pieces, parse, arr);
  }

  // ---------------------------------------------------------------------
  // Hex digits
  // ---------------------------------------------------------------------

  function Pow16(k: nat): nat {
    if k == 0 then 1 else 16 * Pow16(k - 1)
  }

  function HexChar(d: int): char
    requires 0 <= d < 16
  {
    if d < 10 then ('0' as int + d) as char else ('A' as int + d - 10) as char
  }

  /** The value of a base-16 digit as the number parser reads it: decimal
      digits and the letters a to f in either case; -1 for anything else. */
  function HexDigitValue(c: char): int {
    if '0' <= c <= '9' then c as int - '0' as int
    else if 'A' <= c <= 'F' then c as int - 'A' as int + 10
    else if 'a' <= c <= 'f' then c as int - 'a' as int + 10
    else -1
  }

  /** The value of a string of base-16 digits, most significant first;
      `None` when some character is not a digit. */
  function HexValue(s: string): Option<nat> {
    if |s| == 0 then Some(0)
    else
      match HexValue(s[..|s| - 1])
      case None => None
      case Some(high) =>
        if HexDigitValue(s[|s| - 1]) < 0 then None else Some(high * 16 + HexDigitValue(s[|s| - 1]))
  }

  /** `u.ToString("X8")` for `width` 8: the last `width` base-16 digits of
      `u`, upper case, padded with zeros. */
  function HexDigits(u: nat, width: nat): (r: string)
    ensures |r| == width
    ensures forall i :: 0 <= i < width ==> ('0' <= r[i] <= '9' || 'A' <= r[i] <= 'F')
  {
    if width == 0 then "" else HexDigits(u / 16, width - 1) + [HexChar(u % 16)]
  }

  /** Digits of a number below 16^width read back as that number. */
  lemma {:induction false} HexDigitsValue(u: nat, width: nat)
    requires u < Pow16(width)
    ensures HexValue(HexDigits(u, width)) == Some(u)
  {
    var s := HexDigits(u, width);
    if width > 0 {
      HexDigitsValue(u / 16, width - 1);
      assert s[..|s| - 1] == HexDigits(u / 16, width - 1);
    }
  }

  /** `Convert.ToUInt32(word, 16)`: a leading minus sign is refused with an
      argument exception; an optional plus sign and then an optional "0x"
      or "0X" are skipped; the rest must be one or more base-16 digits and
      fit 32 bits. */
  function ParseHexWord(s: string): Outcome<UInt32> {
    if 0 < |s| && s[0] == '-' then Threw(ArgumentException)
    else
      var i := if 0 < |s| && s[0] == '+' then 1 else 0;
      var j := if i + 1 < |s| && s[i] == '0' && (s[i + 1] == 'x' || s[i + 1] == 'X') then i + 2 else i;
      var digits := s[j..];
      if |digits| == 0 then Threw(FormatException)
      else
        match HexValue(digits)
        case None => Threw(FormatException)
        case Some(v) => if TwoTo32 <= v then Threw(OverflowException) else Returned(v)
  }

  /** The number of digits of one word, `ToString("X8")`. */
  const WordDigits: nat := 8

  lemma Pow16Eight()
    ensures Pow16(8) == TwoTo32
  {
  }

  /** The eight digits of a 32-bit word parse back to the word. */
  lemma ParseHexDigits(w: UInt32)
    ensures ParseHexWord(HexDigits(w, WordDigits)) == Returned(w)
  {
    Pow16Eight();
    HexDigitsValue(w, WordDigits);
    var s := HexDigits(w, WordDigits);
    assert s[0..] == s;
  }

  // ---------------------------------------------------------------------
  // Endianness tag
  // ---------------------------------------------------------------------

  /** encodeEndianess: the tag of the host's byte order. */
  function EncodeEndianness(hostLittleEndian: bool): string {
    if hostLittleEndian then "LE" else "BE"
  }

  /** `data.StartsWith` for a two-character prefix. */
  predicate StartsWith2(data: string, first: char, second: char) {
    2 <= |data| && data[0] == first && data[1] == second
  }

  /** decodeEndianess: `Some(true)` after "LE", `Some(false)` after "BE",
      `None` (the call returns false) otherwise. */
  function DecodeEndianness(data: string): Option<bool> {
    if StartsWith2(data, 'L', 'E') then Some(true)
    else if StartsWith2(data, 'B', 'E') then Some(false)
    else None
  }

  /** The tag reads back as the byte order it was written for, whatever
      follows it. */
  lemma EndiannessRoundTrip(hostLittleEndian: bool, rest: string)
    ensures DecodeEndianness(EncodeEndianness(hostLittleEndian) + rest) == Some(hostLittleEndian)
  {
  }

  // ---------------------------------------------------------------------
  // Hex-coded binary
  // ---------------------------------------------------------------------

  /** The reinterpretation of a 32-bit pattern as a signed integer. */
  function ToSigned(u: UInt32): (x: Int32)
    ensures 0 <= x <==> u < TwoTo31
    ensures x % TwoTo32 == u
  {
    if u < TwoTo31 then u else u - TwoTo32
  }

  /** The two's-complement pattern of a signed integer; the signed
      reinterpretation undoes it. */
  function ToUnsigned(x: Int32): (u: UInt32)
    ensures u == x % TwoTo32
    ensures ToSigned(u) == x
  {
    if x < 0 then x + TwoTo32 else x
  }

  function Map<A, B>(xs: seq<A>, f: A -> B): seq<B> {
    seq(|xs|, i requires 0 <= i < |xs| => f(xs[i]))
  }

  /** The eight digits of every word, in order. */
  function HexWordsText(words: seq<UInt32>): string {
    if |words| == 0 then "" else HexWordsText(words[..|words| - 1]) + HexDigits(words[|words| - 1], WordDigits)
  }

  lemma {:induction false} HexWordsLength(words: seq<UInt32>)
    ensures |HexWordsText(words)| == 8 * |words|
  {
    if |words| != 0 {
      HexWordsLength(words[..|words| - 1]);
    }
  }

  /** Word `i` sits at characters `8*i` to `8*i+8`. */
  lemma {:induction false} HexWordsLayout(words: seq<UInt32>, i: int)
    requires 0 <= i < |words|
    ensures (HexWordsLength(words); HexWordsText(words)[8 * i..8 * i + 8] == HexDigits(words[i], WordDigits))
  {
    var init := words[..|words| - 1];
    var t := HexWordsText(words);
    HexWordsLength(words);
    HexWordsLength(init);
    if i < |words| - 1 {
      HexWordsLayout(init, i);
      assert t[8 * i..8 * i + 8] == HexWordsText(init)[8 * i..8 * i + 8];
    } else {
      assert t[8 * i..8 * i + 8] == t[|HexWordsText(init)|..];
    }
  }

  /** The text of the hex encoder: the host's tag, then eight upper-case
      digits per element's 32-bit pattern. */
  function HexText<T>(arr: seq<T>, toWord: T -> UInt32, hostLittleEndian: bool): string {
    EncodeEndianness(hostLittleEndian) + HexWordsText(Map(arr, toWord))
  }

  /** The capacity `8 * n` the hex encoder gives its string builder, in C#
      `int` arithmetic. */
  function HexCapacity(n: int): Int32 {
    Wrap32(8 * n)
  }

  /** encodeBinaryHex. A negative builder capacity, for arrays long enough
      for `8 * n` to wrap, throws. */
  method EncodeBinaryHex<T>(arr: seq<T>, toWord: T -> UInt32, hostLittleEndian: bool) returns (r: Outcome<string>)
    ensures HexCapacity(|arr|) < 0 ==> r == Threw(ArgumentOutOfRangeException)
    ensures 0 <= HexCapacity(|arr|) ==> r == Returned(HexText(arr, toWord, hostLittleEndian))
    ensures r.Returned? ==> |r.value| == 2 + 8 * |arr|
  {
    if HexCapacity(|arr|) < 0 {
      return Threw(ArgumentOutOfRangeException);
    }
    var text := EncodeEndianness(hostLittleEndian);
    var i := 0;
    while i < |arr|
      invariant 0 <= i <= |arr|
      invariant text == EncodeEndianness(hostLittleEndian) + HexWordsText(Map(arr[..i], toWord))
    {
      text := text + HexDigits(toWord(arr[i]), WordDigits);
      assert Map(arr[..i + 1], toWord)[..i] == Map(arr[..i], toWord);
      i := i + 1;
    }
    assert arr[..|arr|] == arr;
    HexWordsLength(Map(arr, toWord));
    r := Returned(text);
  }

  /** Word `i` of the text: the eight characters after the two-character
      tag and the `i` words before it. */
  function WordText(data: string, i: nat): string
    requires 2 + 8 * i + 8 <= |data|
  {
    data[2 + 8 * i..2 + 8 * i + 8]
  }

  /** The first `n` words after the tag, parsed in order; the first word
      that does not parse throws. */
  function ParseWords(data: string, n: nat): Outcome<seq<UInt32>>
    requires 2 + 8 * n <= |data|
  {
    if n == 0 then Returned([])
    else
      match ParseWords(data, n - 1)
      case Threw(e) => Threw(e)
      case Returned(init) =>
        match ParseHexWord(WordText(data, n - 1))
        case Threw(e) => Threw(e)
        case Returned(v) => Returned(init + [v])
  }

  /** Parsed words are `n` in number, and each is the value of its own
      eight characters. */
  lemma {:induction false} ParseWordsValues(data: string, n: nat)
    requires 2 + 8 * n <= |data|
    ensures ParseWords(data, n).Returned? ==> |ParseWords(data, n).value| == n
    ensures ParseWords(data, n).Returned? ==>
      forall i :: 0 <= i < n ==> ParseHexWord(WordText(data, i)) == Returned(ParseWords(data, n).value[i])
  {
    if n > 0 {
      ParseWordsValues(data, n - 1);
    }
  }

  /** When every word parses, all of them are returned. */
  lemma {:induction false} ParseWordsEach(data: string, n: nat, words: seq<UInt32>)
    requires 2 + 8 * n <= |data| && |words| == n
    requires forall i :: 0 <= i < n ==> ParseHexWord(WordText(data, i)) == Returned(words[i])
    ensures ParseWords(data, n) == Returned(words)
  {
    if n > 0 {
      ParseWordsEach(data, n - 1, words[..n - 1]);
      assert words[..n - 1] + [words[n - 1]] == words;
    }
  }

  /** A word that throws decides the outcome of every longer parse. */
  lemma {:induction false} ParseWordsPrefixThrows(data: string, j: nat, n: nat)
    requires j <= n && 2 + 8 * n <= |data|
    requires ParseWords(data, j).Threw?
    ensures ParseWords(data, n) == ParseWords(data, j)
    decreases n
  {
    if j < n {
      ParseWordsPrefixThrows(data, j, n - 1);
    }
  }

  /** decodeBinaryHex for words: false on a missing tag or a byte order
      other than the host's; otherwise one word per eight characters after
      the tag, surplus characters ignored, a word that does not parse
      throwing. */
  function DecodeHexWords(data: string, hostLittleEndian: bool): (r: Outcome<Decoded<UInt32>>)
    ensures DecodeEndianness(data) != Some(hostLittleEndian) ==> r == Returned(Failed)
  {
    match DecodeEndianness(data)
    case None => Returned(Failed)
    case Some(little) =>
      if little != hostLittleEndian then Returned(Failed)
      else
        match ParseWords(data, (|data| - 2) / 8)
        case Threw(e) => Threw(e)
        case Returned(words) => Returned(Values(words))
  }

  /** Decoded words: one per whole eight characters after the tag, each
      the value of its characters. */
  lemma DecodeHexWordsValues(data: string, hostLittleEndian: bool)
    ensures var r := DecodeHexWords(data, hostLittleEndian);
      r.Returned? && r.value.Values? ==>
        && 2 <= |data|
        && |r.value.items| == (|data| - 2) / 8
        && forall i :: 0 <= i < |r.value.items| ==> ParseHexWord(WordText(data, i)) == Returned(r.value.items[i])
  {
    if DecodeEndianness(data) == Some(hostLittleEndian) {
      ParseWordsValues(data, (|data| - 2) / 8);
    }
  }

  /** One pass of the loop of decodeBinaryHex: word `i` converted and
      appended to the words before it. */
  method ParseNextWord(data: string, i: nat, values: seq<UInt32>) returns (next: Outcome<seq<UInt32>>)
    requires 2 + 8 * (i + 1) <= |data|
    requires ParseWords(data, i) == Returned(values)
    ensures next == ParseWords(data, i + 1)
  {
    var word := ParseHexWord(data[2 + i * 8..2 + i * 8 + 8]);
    match word
    case Threw(e) => next := Threw(e);
    case Returned(v) => next := Returned(values + [v]);
  }

  /** The loop of decodeBinaryHex: `Convert.ToUInt32` on each word in
      turn, the first that throws ending the decode. */
  method ParseWordsLoop(data: string, numValues: nat) returns (r: Outcome<seq<UInt32>>)
    requires 2 + 8 * numValues <= |data|
    ensures r == ParseWords(data, numValues)
  {
    var values: seq<UInt32> := [];
    var i := 0;
    while i < numValues
      invariant 0 <= i <= numValues
      invariant ParseWords(data, i) == Returned(values)
    {
      var next := ParseNextWord(data, i, values);
      if next.Threw? {
        ParseWordsPrefixThrows(data, i + 1, numValues);
        return next;
      }
      values := next.value;
      i := i + 1;
    }
    r := Returned(values);
  }

  method DecodeBinaryHexWords(data: string, hostLittleEndian: bool) returns (r: Outcome<Decoded<UInt32>>)
    ensures r == DecodeHexWords(data, hostLittleEndian)
  {
    var little := DecodeEndianness(data);
    if little.None? || little.value != hostLittleEndian {
      return Returned(Failed);
    }
    assert 2 <= |data|;
    var parsed := ParseWordsLoop(data, (|data| - 2) / 8);
    match parsed
    case Threw(e) => r := Threw(e);
    case Returned(values) => r := Returned(Values(values));
  }

  /** decodeBinaryHex for an element type: the words, each reinterpreted. */
  function DecodeHex<T>(data: string, fromWord: UInt32 -> T, hostLittleEndian: bool): Outcome<Decoded<T>> {
    match DecodeHexWords(data, hostLittleEndian)
    case Threw(e) => Threw(e)
    case Returned(Failed) => Returned(Failed)
    case Returned(Values(words)) => Returned(Values(Map(words, fromWord)))
  }

  /** Word `i` after a two-character tag is characters `8*i` to `8*i+8`
      of the body. */
  lemma WordOf(tag: string, body: string, i: nat)
    requires |tag| == 2 && 8 * i + 8 <= |body|
    ensures WordText(tag + body, i) == body[8 * i..8 * i + 8]
  {
    var text := tag + body;
    assert forall k :: 2 <= k < |text| ==> text[k] == body[k - 2];
  }

  /** Each word's eight digits parse back to the word. */
  lemma HexWordsEachParse(words: seq<UInt32>)
    ensures |HexWordsText(words)| == 8 * |words|
    ensures forall i :: 0 <= i < |words| ==>
      ParseHexWord(HexWordsText(words)[8 * i..8 * i + 8]) == Returned(words[i])
  {
    HexWordsLength(words);
    forall i | 0 <= i < |words|
      ensures ParseHexWord(HexWordsText(words)[8 * i..8 * i + 8]) == Returned(words[i])
    {
      HexWordsLayout(words, i);
      ParseHexDigits(words[i]);
    }
  }

  /** The host's tag followed by the eight-character texts of some words
      decodes to those words on that host. */
  lemma DecodeTagged(tag: string, body: string, words: seq<UInt32>, hostLittleEndian: bool)
    requires tag == EncodeEndianness(hostLittleEndian)
    requires |body| == 8 * |words|
    requires forall i :: 0 <= i < |words| ==> ParseHexWord(body[8 * i..8 * i + 8]) == Returned(words[i])
    ensures DecodeHexWords(tag + body, hostLittleEndian) == Returned(Values(words))
  {
    var data := tag + body;
    EndiannessRoundTrip(hostLittleEndian, body);
    assert (|data| - 2) / 8 == |words|;
    forall i | 0 <= i < |words|
      ensures ParseHexWord(WordText(data, i)) == Returned(words[i])
    {
      WordOf(tag, body, i);
    }
    ParseWordsEach(data, |words|, words);
  }

  /** The words behind the host's tag decode to themselves on that host. */
  lemma HexWordsRoundTrip(words: seq<UInt32>, hostLittleEndian: bool)
    ensures DecodeHexWords(EncodeEndianness(hostLittleEndian) + HexWordsText(words), hostLittleEndian)
      == Returned(Values(words))
  {
    HexWordsEachParse(words);
    DecodeTagged(EncodeEndianness(hostLittleEndian), HexWordsText(words), words, hostLittleEndian);
  }

  /** Any text behind one host's tag fails to decode on a host of the
      other byte order. */
  lemma HexOtherHostFails(rest: string, hostLittleEndian: bool)
    ensures DecodeHexWords(EncodeEndianness(hostLittleEndian) + rest, !hostLittleEndian) == Returned(Failed)
  {
    EndiannessRoundTrip(hostLittleEndian, rest);
  }

  /** Reinterpreting each word undoes taking it, when every element
      survives its 32-bit pattern. */
  lemma MapInverse<T>(arr: seq<T>, toWord: T -> UInt32, fromWord: UInt32 -> T)
    requires forall i :: 0 <= i < |arr| ==> fromWord(toWord(arr[i])) == arr[i]
    ensures Map(Map(arr, toWord), fromWord) == arr
  {
  }

  /** The hex text decodes to the array on the host that wrote it, when
      every element survives its 32-bit pattern, and fails on a host of the
      other byte order. */
  lemma HexRoundTrip<T>(arr: seq<T>, toWord: T -> UInt32, fromWord: UInt32 -> T, hostLittleEndian: bool)
    requires forall i :: 0 <= i < |arr| ==> fromWord(toWord(arr[i])) == arr[i]
    ensures DecodeHex(HexText(arr, toWord, hostLittleEndian), fromWord, hostLittleEndian) == Returned(Values(arr))
    ensures DecodeHex(HexText(arr, toWord, hostLittleEndian), fromWord, !hostLittleEndian) == Returned(Failed)
  {
    HexWordsRoundTrip(Map(arr, toWord), hostLittleEndian);
    HexOtherHostFails(HexWordsText(Map(arr, toWord)), hostLittleEndian);
    MapInverse(arr, toWord, fromWord);
  }

  // ---------------------------------------------------------------------
  // Dispatch on the encoding type
  // ---------------------------------------------------------------------

  /** The codecs of C# `int`: invariant decimal text and the
      two's-complement pattern. */
  function IntCodecs(zipped: ZippedCodec<Int32>): Codecs<Int32> {
    Codecs(x => DecimalString(x), ParseInt32, ToUnsigned, ToSigned, zipped)
  }

  /** DataSerializer.encode: the codec the encoding names; any other value
      throws, and so do the decimal and the hex codec when their builder
      capacity is negative. */
  function Encode<T>(arr: seq<T>, encoding: Int32, hostLittleEndian: bool, c: Codecs<T>): Outcome<string> {
    if encoding == CommaSeparatedDecimals then
      (if CommaCapacity(|arr|) < 0 then Threw(ArgumentOutOfRangeException) else Returned(CommaSepText(arr, c.render)))
    else if encoding == HexCodedBinary then
      (if HexCapacity(|arr|) < 0 then Threw(ArgumentOutOfRangeException) else Returned(HexText(arr, c.toWord, hostLittleEndian)))
    else if encoding == Base64CodedZippedBinary then Returned(c.zipped.encode(arr))
    else Threw(NotImplementedEncoding(encoding))
  }

  /** DataSerializer.decode: the codec the encoding names; any other value
      throws. */
  function Decode<T>(data: string, encoding: Int32, hostLittleEndian: bool, c: Codecs<T>): Outcome<Decoded<T>> {
    if encoding == CommaSeparatedDecimals then DecodeCommaSep(data, c.parse)
    else if encoding == HexCodedBinary then DecodeHex(data, c.fromWord, hostLittleEndian)
    else if encoding == Base64CodedZippedBinary then c.zipped.decode(data)
    else Threw(NotImplementedEncoding(encoding))
  }

  /** An encoding outside the enumeration throws in both directions. */
  lemma UnknownEncodingThrows<T>(arr: seq<T>, data: string, encoding: Int32, hostLittleEndian: bool, c: Codecs<T>)
    requires encoding !in {CommaSeparatedDecimals, HexCodedBinary, Base64CodedZippedBinary}
    ensures Encode(arr, encoding, hostLittleEndian, c) == Threw(NotImplementedEncoding(encoding))
    ensures Decode(data, encoding, hostLittleEndian, c) == Threw(NotImplementedEncoding(encoding))
  {
  }

  /** The encoder's builder capacity is not negative. */
  predicate CapacityFits(n: int, encoding: Int32) {
    && (encoding == CommaSeparatedDecimals ==> 0 <= CommaCapacity(n))
    && (encoding == HexCodedBinary ==> 0 <= HexCapacity(n))
  }

  /** The builder capacity fits for up to 165191049 items; beyond, it wraps
      negative in the ranges stated (and again further up). */
  lemma CapacityThresholds(n: int)
    ensures n == 0 ==> CommaCapacity(n) < 0
    ensures 0 < n <= MaxEncodedItems ==> 0 <= CommaCapacity(n) && 0 <= HexCapacity(n)
    ensures MaxEncodedItems < n <= 330382099 ==> CommaCapacity(n) < 0
    ensures 0 <= n < 0x1000_0000 ==> 0 <= HexCapacity(n)
    ensures 0x1000_0000 <= n < 0x2000_0000 ==> HexCapacity(n) < 0
  {
    if 0 <= 13 * n - 1 + TwoTo31 < TwoTo32 {
      WrapInRange(13 * n - 1, 0);
    } else if TwoTo32 <= 13 * n - 1 + TwoTo31 < 2 * TwoTo32 {
      WrapInRange(13 * n - 1, 1);
    }
    if 0 <= 8 * n + TwoTo31 < TwoTo32 {
      WrapInRange(8 * n, 0);
    } else if TwoTo32 <= 8 * n + TwoTo31 < 2 * TwoTo32 {
      WrapInRange(8 * n, 1);
    }
  }

  /** Below this many items neither encoder's capacity wraps. */
  const MaxEncodedItems := 165191049

  /** `Wrap32` subtracts `k` whole turns of 2^32 from a value in the `k`-th
      turn. */
  lemma WrapInRange(x: int, k: int)
    requires k * TwoTo32 <= x + TwoTo31 < (k + 1) * TwoTo32
    ensures Wrap32(x) == x - k * TwoTo32
  {
  }

  /** When the element codecs invert each other on `arr` and the builder
      capacity fits, decoding what encoding wrote gives `arr` back: for the
      decimal codec a non-empty array whose items' text has no comma, for
      the hex codec any array on the same host, for the zipped codec what
      its own round trip gives. */
  ghost predicate RoundTrips<T>(arr: seq<T>, encoding: Int32, c: Codecs<T>) {
    CapacityFits(|arr|, encoding) &&
    if encoding == CommaSeparatedDecimals then
      0 < |arr| && forall i :: 0 <= i < |arr| ==> ',' !in c.render(arr[i]) && c.parse(c.render(arr[i])) == Returned(arr[i])
    else if encoding == HexCodedBinary then
      forall i :: 0 <= i < |arr| ==> c.fromWord(c.toWord(arr[i])) == arr[i]
    else if encoding == Base64CodedZippedBinary then
      c.zipped.decode(c.zipped.encode(arr)) == Returned(Values(arr))
    else false
  }

  lemma EncodeDecode<T>(arr: seq<T>, encoding: Int32, hostLittleEndian: bool, c: Codecs<T>)
    requires RoundTrips(arr, encoding, c)
    ensures Encode(arr, encoding, hostLittleEndian, c).Returned?
    ensures Decode(Encode(arr, encoding, hostLittleEndian, c).value, encoding, hostLittleEndian, c) == Returned(Values(arr))
  {
    if encoding == CommaSeparatedDecimals {
      CommaSepRoundTrip(arr, c.render, c.parse);
    } else if encoding == HexCodedBinary {
      HexRoundTrip(arr, c.toWord, c.fromWord, hostLittleEndian);
    }
  }

  /** Every non-empty `int` array of at most `MaxEncodedItems` items
      round-trips through the decimal and the hex codec. */
  lemma IntRoundTrips(arr: seq<Int32>, encoding: Int32, zipped: ZippedCodec<Int32>)
    requires encoding == CommaSeparatedDecimals || encoding == HexCodedBinary
    requires 0 < |arr| <= MaxEncodedItems
    ensures RoundTrips(arr, encoding, IntCodecs(zipped))
  {
    CapacityThresholds(|arr|);
    forall i | 0 <= i < |arr|
      ensures ',' !in DecimalString(arr[i]) && ParseInt32(DecimalString(arr[i])) == Returned(arr[i])
    {
      ParseDecimalString(arr[i]);
    }
  }

  // ---------------------------------------------------------------------
  // SerializeNativeArrayInt / SerializeNativeArrayFloat
  // ---------------------------------------------------------------------

  /** A stored array: its item count, its text and its encoding. */
  datatype SerializedArray = SerializedArray(numItems: Int32, data: string, encoding: Int32)

  /** The constructor: the count, and "" for an empty array without
      consulting the encoding, the encoder's text otherwise. */
  function Wrap<T>(arr: seq<T>, encoding: Int32, hostLittleEndian: bool, c: Codecs<T>): (r: Outcome<SerializedArray>)
    requires |arr| < TwoTo31
    ensures r.Returned? ==> r.value.numItems == |arr| && r.value.encoding == encoding
    ensures |arr| == 0 ==> r == Returned(SerializedArray(0, "", encoding))
  {
    if |arr| == 0 then Returned(SerializedArray(0, "", encoding))
    else
      match Encode(arr, encoding, hostLittleEndian, c)
      case Threw(e) => Threw(e)
      case Returned(text) => Returned(SerializedArray(|arr|, text, encoding))
  }

  /** readOut: `Some` (true) with the decoded items when decoding succeeds
      with exactly `numItems` items, `None` (false) otherwise; a decoder
      that throws propagates its exception. */
  function ReadOut<T>(w: SerializedArray, hostLittleEndian: bool, c: Codecs<T>): (r: Outcome<Option<seq<T>>>)
    ensures r.Returned? && r.value.Some? ==> |r.value.value| == w.numItems
  {
    match Decode(w.data, w.encoding, hostLittleEndian, c)
    case Threw(e) => Threw(e)
    case Returned(Failed) => Returned(None)
    case Returned(Values(items)) => if |items| == w.numItems then Returned(Some(items)) else Returned(None)
  }

  /** A non-empty array stored and read back on the same host is the same
      array, whenever its codec round-trips it. */
  lemma WrapReadOut<T>(arr: seq<T>, encoding: Int32, hostLittleEndian: bool, c: Codecs<T>)
    requires 0 < |arr| < TwoTo31
    requires RoundTrips(arr, encoding, c)
    ensures Wrap(arr, encoding, hostLittleEndian, c).Returned?
    ensures ReadOut(Wrap(arr, encoding, hostLittleEndian, c).value, hostLittleEndian, c) == Returned(Some(arr))
  {
    EncodeDecode(arr, encoding, hostLittleEndian, c);
  }

  /** An empty `int` array does not read back: the stored "" is one piece
      that is not a number for the decimal codec and lacks the tag for the
      hex codec; an unknown encoding throws. Only the zipped codec is left
      to its own behaviour. */
  lemma EmptyNeverReadsBack(encoding: Int32, hostLittleEndian: bool, zipped: ZippedCodec<Int32>)
    requires encoding != Base64CodedZippedBinary
    ensures ReadOut(Wrap([], encoding, hostLittleEndian, IntCodecs(zipped)).value, hostLittleEndian, IntCodecs(zipped))
      == (if encoding == CommaSeparatedDecimals then Threw(FormatException)
          else if encoding == HexCodedBinary then Returned(None)
          else Threw(NotImplementedEncoding(encoding)))
  {
    ParseEmpty();
    assert Split("") == [""];
    assert ParseAll([""], ParseInt32) == Threw(FormatException) by {
      assert [""][..0] == [];
    }
  }
}
