/** The byte lists of the UDP extension: the listener prints them, StringToBytes parses them. */
module ByteLists {
  import opened Bytes

  /** A Java byte. */
  type sbyte = x: int | -128 <= x < 128

  /** `(byte) b` */
  function ToByte(b: int): sbyte
    requires 0 <= b < 256
  {
    if b < 128 then b else b - 256
  }

  /** What the listener makes of a byte before printing it. */
  function Unsigned(b: sbyte): (n: nat)
    ensures n < 256 && ToByte(n) == b
  {
    if b < 0 then b + 256 else b
  }

  // ---- Printing ----------------------------------------------------------------------------

  function DigitChar(d: nat): (c: char)
    requires d < 10
    ensures '0' <= c <= '9'
  {
    '0' + d as char
  }

  /** A number in decimal, without leading zeros. */
  function Decimal(n: nat): (s: string)
    ensures s != [] && (forall c :: c in s ==> '0' <= c <= '9')
    ensures n > 0 ==> s[0] != '0'
    ensures n < 10 ==> |s| == 1
  {
    if n < 10 then [DigitChar(n)] else Decimal(n / 10) + [DigitChar(n % 10)]
  }

  /** The items of a list, each behind a semicolon. */
  function Behind(items: seq<string>): string {
    if items == [] then "" else Behind(items[..|items| - 1]) + ";" + items[|items| - 1]
  }

  function Items(d: seq<sbyte>): (items: seq<string>)
    ensures |items| == |d| && forall i :: 0 <= i < |d| ==> items[i] == Decimal(Unsigned(d[i]))
  {
    seq(|d|, i requires 0 <= i < |d| => Decimal(Unsigned(d[i])))
  }

  /** The text of a byte array. */
  function Listing(d: seq<sbyte>): string {
    var s := Behind(Items(d));
    if s == "" then "" else s[1..]
  }

  /** The binary branch of PacketReceived. */
  method PacketText(d: seq<sbyte>) returns (text: string)
    ensures text == Listing(d)
  {
    text := "";
    for i := 0 to |d|
      invariant text == Behind(Items(d)[..i])
    {
      var temp: int := d[i];
      if temp < 0 {
        temp := temp + 256;
      }
      assert Items(d)[..i + 1] == Items(d)[..i] + [Items(d)[i]];
      text := text + ";" + Decimal(temp);
    }
    assert Items(d)[..|d|] == Items(d);
    if |text| > 0 {
      text := text[1..];
    }
  }

  // ---- Parsing -----------------------------------------------------------------------------

  /** String.replace(',', ';') */
  function Replace(s: string): (r: string)
    ensures |r| == |s| && forall i :: 0 <= i < |s| ==> r[i] == if s[i] == ',' then ';' else s[i]
  {
    seq(|s|, i requires 0 <= i < |s| => if s[i] == ',' then ';' else s[i])
  }

  /** The pieces of `s` between semicolons, empty ones included. */
  function Pieces(s: string): (ps: seq<string>)
    ensures |ps| > 0
  {
    if s == "" then [""]
    else
      var ps := Pieces(s[1..]);
      if s[0] == ';' then [""] + ps else [[s[0]] + ps[0]] + ps[1..]
  }

  function DropTrailingEmpty(ps: seq<string>): seq<string> {
    if ps != [] && ps[|ps| - 1] == "" then DropTrailingEmpty(ps[..|ps| - 1]) else ps
  }

  /** String.split(";"): trailing empty pieces are dropped, unless there is no semicolon at all. */
  function Split(s: string): seq<string> {
    var ps := Pieces(s);
    if |ps| == 1 then ps else DropTrailingEmpty(ps)
  }

  function TrimLeft(s: string): string {
    if s != "" && s[0] <= ' ' then TrimLeft(s[1..]) else s
  }

  function TrimRight(s: string): string {
    if s != "" && s[|s| - 1] <= ' ' then TrimRight(s[..|s| - 1]) else s
  }

  /** String.trim() */
  function Trim(s: string): string {
    TrimRight(TrimLeft(s))
  }

  /** Character.digit for ASCII */
  function Digit(c: char, radix: nat): Option<nat> {
    var d := if '0' <= c <= '9' then c as int - '0' as int
             else if 'a' <= c <= 'z' then c as int - 'a' as int + 10
             else if 'A' <= c <= 'Z' then c as int - 'A' as int + 10
             else radix;
    if d < radix then Some(d) else None
  }

  function Digits(s: string, radix: nat): Option<nat> {
    if s == "" then Some(0)
    else
      match (Digits(s[..|s| - 1], radix), Digit(s[|s| - 1], radix))
      case (Some(v), Some(d)) => Some(v * radix + d)
      case _ => None
  }

  predicate StartsWith(s: string, p: string) {
    p <= s
  }

  /** Integer.decode: an optional sign, then hexadecimal behind 0x, 0X or #, octal behind 0, or decimal. */
  function Decode(s: string): Option<int> {
    if s == "" then None
    else
      var negative := s[0] == '-';
      var t := if s[0] == '-' || s[0] == '+' then s[1..] else s;
      var (digits, radix) :=
        if StartsWith(t, "0x") || StartsWith(t, "0X") then (t[2..], 16)
        else if StartsWith(t, "#") then (t[1..], 16)
        else if StartsWith(t, "0") && |t| > 1 then (t[1..], 8)
        else (t, 10);
      if digits == "" || StartsWith(digits, "-") || StartsWith(digits, "+") then None
      else
        match Digits(digits, radix)
        case None => None
        case Some(v) =>
          var n: int := if negative then -(v as int) else v as int;
          if -0x8000_0000 <= n < 0x8000_0000 then Some(n) else None
  }

  /** The byte that an item stands for, if it is one. */
  function Item(s: string): Option<sbyte> {
    match Decode(Trim(s))
    case Some(n) => if 0 <= n <= 255 then Some(ToByte(n)) else None
    case None => None
  }

  function Values(items: seq<string>): (values: seq<Option<sbyte>>)
    ensures |values| == |items| && forall i :: 0 <= i < |items| ==> values[i] == Item(items[i])
  {
    seq(|items|, i requires 0 <= i < |items| => Item(items[i]))
  }

  /** All of them, if none is missing. */
  function Collect(values: seq<Option<sbyte>>): Option<seq<sbyte>> {
    if values == [] then Some([])
    else
      match (Collect(values[..|values| - 1]), values[|values| - 1])
      case (Some(bs), Some(b)) => Some(bs + [b])
      case _ => None
  }

  function ItemValues(items: seq<string>): Option<seq<sbyte>> {
    Collect(Values(items))
  }

  /** The bytes of a text; `None` is the NumberFormatException. */
  function Parse(text: string): Option<seq<sbyte>> {
    ItemValues(Split(Replace(text)))
  }

  /** Helpers.StringToBytes */
  method StringToBytes(inp: string) returns (bytes: Option<seq<sbyte>>)
    ensures bytes == Parse(inp)
  {
    var bs := Split(Replace(inp));
    var out := new sbyte[|bs|](_ => 0);
    for i := 0 to |bs|
      invariant Collect(Values(bs)[..i]) == Some(out[..i])
    {
      var b := Decode(Trim(bs[i]));
      if b.None? || b.value > 255 || b.value < 0 {
        ItemValuesFail(bs, i);
        return None;
      }
      out[i] := ToByte(b.value);
      CollectSnoc(Values(bs), out[..i], i, out[i]);
      assert out[..i + 1] == out[..i] + [out[i]];
    }
    assert Values(bs)[..|bs|] == Values(bs) && out[..] == out[..|bs|];
    bytes := Some(out[..]);
  }

  lemma {:induction false} CollectSnoc(values: seq<Option<sbyte>>, bs: seq<sbyte>, i: nat, b: sbyte)
    requires i < |values| && values[i] == Some(b) && Collect(values[..i]) == Some(bs)
    ensures Collect(values[..i + 1]) == Some(bs + [b])
  {
    assert values[..i + 1][..i] == values[..i];
  }

  lemma {:induction false} CollectAll(values: seq<Option<sbyte>>, bs: seq<sbyte>)
    requires |values| == |bs| && forall i :: 0 <= i < |values| ==> values[i] == Some(bs[i])
    ensures Collect(values) == Some(bs)
  {
    if values != [] {
      var n := |values| - 1;
      CollectAll(values[..n], bs[..n]);
      assert bs == bs[..n] + [bs[n]];
    }
  }

  lemma {:induction false} CollectFail(values: seq<Option<sbyte>>, i: nat)
    requires i < |values| && values[i].None?
    ensures Collect(values).None?
    decreases |values|
  {
    if i < |values| - 1 {
      CollectFail(values[..|values| - 1], i);
    }
  }

  /** One bad item spoils the list. */
  lemma {:induction false} ItemValuesFail(items: seq<string>, i: nat)
    requires i < |items| && Item(items[i]).None?
    ensures ItemValues(items).None?
  {
    CollectFail(Values(items), i);
  }

  // ---- There and back ----------------------------------------------------------------------

  lemma {:induction false} PiecesPlain(s: string)
    requires ';' !in s
    ensures Pieces(s) == [s]
  {
    if s != "" {
      PiecesPlain(s[1..]);
      assert [s[0]] + s[1..] == s;
    }
  }

  lemma {:induction false} PiecesSnoc(s: string, item: string)
    requires ';' !in item
    ensures Pieces(s + ";" + item) == Pieces(s) + [item]
  {
    var t := s + ";" + item;
    if s == "" {
      assert t == ";" + item && t[1..] == item;
      PiecesPlain(item);
    } else {
      PiecesSnoc(s[1..], item);
      assert t[0] == s[0] && t[1..] == s[1..] + ";" + item;
    }
  }

  /** Splitting the text of a list gives its items. */
  lemma {:induction false} PiecesOfList(items: seq<string>)
    requires items != [] && forall i :: 0 <= i < |items| ==> ';' !in items[i]
    ensures Behind(items) != "" && Pieces(Behind(items)[1..]) == items
  {
    var front, last := items[..|items| - 1], items[|items| - 1];
    assert Behind(items) == Behind(front) + ";" + last;
    if front == [] {
      assert Behind(items)[1..] == last;
      PiecesPlain(last);
    } else {
      PiecesOfList(front);
      assert Behind(items)[1..] == Behind(front)[1..] + ";" + last;
      PiecesSnoc(Behind(front)[1..], last);
    }
  }

  lemma {:induction false} NoComma(items: seq<string>)
    requires forall i :: 0 <= i < |items| ==> ',' !in items[i]
    ensures ',' !in Behind(items)
  {
    if items != [] {
      NoComma(items[..|items| - 1]);
    }
  }

  lemma {:induction false} DigitsOfDecimal(n: nat)
    ensures Digits(Decimal(n), 10) == Some(n)
  {
    if n >= 10 {
      DigitsOfDecimal(n / 10);
      var s := Decimal(n);
      assert s[..|s| - 1] == Decimal(n / 10);
    }
  }

  lemma {:induction false} TrimDecimal(n: nat)
    ensures Trim(Decimal(n)) == Decimal(n)
  {
    var s := Decimal(n);
    assert s[0] in s && s[|s| - 1] in s;
  }

  /** A printed number has neither sign nor radix prefix. */
  lemma {:induction false} PlainDecimal(n: nat)
    ensures var s := Decimal(n);
            && s[0] != '-' && s[0] != '+' && !StartsWith(s, "#") && !StartsWith(s, "-") && !StartsWith(s, "+")
            && !StartsWith(s, "0x") && !StartsWith(s, "0X") && !(StartsWith(s, "0") && |s| > 1)
  {
    var s := Decimal(n);
    assert s[0] in s;
    assert |s| > 1 ==> s[1] in s;
  }

  /** Decoding reads back what was printed. */
  lemma {:induction false} DecodeDecimal(n: nat)
    requires n < 0x8000_0000
    ensures Decode(Trim(Decimal(n))) == Some(n)
  {
    TrimDecimal(n);
    PlainDecimal(n);
    DigitsOfDecimal(n);
  }

  lemma {:induction false} ItemValuesOf(d: seq<sbyte>)
    ensures ItemValues(Items(d)) == Some(d)
  {
    forall i | 0 <= i < |d|
      ensures Values(Items(d))[i] == Some(d[i])
    {
      DecodeDecimal(Unsigned(d[i]));
    }
    CollectAll(Values(Items(d)), d);
  }

  /** StringToBytes reads back every array that the listener prints, except the empty one. */
  lemma {:induction false} RoundTrip(d: seq<sbyte>)
    ensures Parse(Listing(d)) == Some(d) <==> d != []
  {
    var items := Items(d);
    if d == [] {
      assert Listing(d) == "";
      assert Split(Replace("")) == [""];
      assert ItemValues([""]) == None;
    } else {
      PiecesOfList(items);
      NoComma(items);
      assert Replace(Listing(d)) == Listing(d);
      assert Split(Listing(d)) == items;
      ItemValuesOf(d);
    }
  }

  // ---- What else can be read ---------------------------------------------------------------------

  predicate Blank(s: string) {
    forall i :: 0 <= i < |s| ==> s[i] <= ' '
  }

  /** Blanks around an item do not matter. */
  lemma {:induction false} TrimBlanks(a: string, s: string, b: string)
    requires Blank(a) && Blank(b) && s != "" && s[0] > ' ' && s[|s| - 1] > ' '
    ensures Trim(a + s + b) == s
  {
    TrimLeftBlanks(a, s + b);
    assert a + s + b == a + (s + b);
    TrimRightBlanks(s, b);
  }

  lemma {:induction false} TrimLeftBlanks(a: string, s: string)
    requires Blank(a) && s != "" && s[0] > ' '
    ensures TrimLeft(a + s) == s
  {
    if a == "" {
      assert a + s == s;
    } else {
      assert (a + s)[1..] == a[1..] + s;
      TrimLeftBlanks(a[1..], s);
    }
  }

  lemma {:induction false} TrimRightBlanks(s: string, b: string)
    requires Blank(b) && s != "" && s[|s| - 1] > ' '
    ensures TrimRight(s + b) == s
  {
    if b == "" {
      assert s + b == s;
    } else {
      var n := |b| - 1;
      assert (s + b)[..|s| + n] == s + b[..n];
      TrimRightBlanks(s, b[..n]);
    }
  }

  /** How a number may be written: in decimal, in hexadecimal with either case of letters, or in octal. */
  datatype Form = Decimals | Hex(prefix: string, upper: bool) | Octal

  predicate Correct(f: Form) {
    f.Hex? ==> f.prefix == "0x" || f.prefix == "0X" || f.prefix == "#"
  }

  function Figure(d: nat, upper: bool): (c: char)
    requires d < 16
    ensures '0' <= c <= '9' || 'A' <= c <= 'F' || 'a' <= c <= 'f'
    ensures Digit(c, 16) == Some(d) && (d < 8 ==> Digit(c, 8) == Some(d))
  {
    if d < 10 then '0' + d as char
    else if upper then 'A' + (d - 10) as char
    else 'a' + (d - 10) as char
  }

  /** A number in hexadecimal. */
  function Hexadecimal(n: nat, upper: bool): (s: string)
    ensures s != "" && s[0] !in "+-" && s[|s| - 1] > ' ' && ',' !in s && ';' !in s
  {
    if n < 16 then [Figure(n, upper)] else Hexadecimal(n / 16, upper) + [Figure(n % 16, upper)]
  }

  lemma {:induction false} DigitsOfHexadecimal(n: nat, upper: bool)
    ensures Digits(Hexadecimal(n, upper), 16) == Some(n)
  {
    if n >= 16 {
      DigitsOfHexadecimal(n / 16, upper);
      var s := Hexadecimal(n, upper);
      assert s[..|s| - 1] == Hexadecimal(n / 16, upper);
    }
  }

  /** A number in octal. */
  function Eights(n: nat): (s: string)
    ensures s != "" && s[0] !in "+-#" && s[|s| - 1] > ' ' && ',' !in s && ';' !in s && 'x' !in s && 'X' !in s
  {
    if n < 8 then [Figure(n, false)] else Eights(n / 8) + [Figure(n % 8, false)]
  }

  lemma {:induction false} DigitsOfEights(n: nat)
    ensures Digits(Eights(n), 8) == Some(n)
  {
    if n >= 8 {
      DigitsOfEights(n / 8);
      var s := Eights(n);
      assert s[..|s| - 1] == Eights(n / 8);
    }
  }

  /** A number between 0 and 255 as somebody may have written it, with blanks around it. */
  datatype Written = Written(before: string, form: Form, n: byte, after: string)

  function Bare(w: Written): string {
    match w.form
    case Decimals => Decimal(w.n)
    case Hex(prefix, upper) => prefix + Hexadecimal(w.n, upper)
    case Octal => "0" + Eights(w.n)
  }

  function Text(w: Written): string {
    w.before + Bare(w) + w.after
  }

  predicate Legible(w: Written) {
    Blank(w.before) && Blank(w.after) && Correct(w.form)
  }

  lemma {:induction false} DecodeHex(prefix: string, n: nat, upper: bool)
    requires n < 0x8000_0000 && (prefix == "0x" || prefix == "0X" || prefix == "#")
    ensures Decode(prefix + Hexadecimal(n, upper)) == Some(n)
  {
    var s := Hexadecimal(n, upper);
    DigitsOfHexadecimal(n, upper);
    assert (prefix + s)[|prefix|..] == s && (prefix + s)[0] == prefix[0];
    assert StartsWith(prefix + s, prefix);
    assert prefix == "#" ==> !StartsWith(prefix + s, "0x") && !StartsWith(prefix + s, "0X");
  }

  lemma {:induction false} DecodeOctal(n: nat)
    requires n < 0x8000_0000
    ensures Decode("0" + Eights(n)) == Some(n)
  {
    var s := Eights(n);
    var t := "0" + s;
    DigitsOfEights(n);
    assert t[1..] == s && t[0] == '0' && t[1] == s[0] && s[0] in s;
  }

  /** A sign may stand before a decimal number. */
  lemma {:induction false} DecodeSigned(n: nat)
    requires n < 0x8000_0000
    ensures Decode("+" + Decimal(n)) == Some(n)
    ensures Decode("-" + Decimal(n)).Some? && Decode("-" + Decimal(n)).value == 0 - n
  {
    var s := Decimal(n);
    PlainDecimal(n);
    DigitsOfDecimal(n);
    assert ("+" + s)[1..] == s && ("-" + s)[1..] == s;
  }

  /** A written number stands for its byte. */
  lemma {:induction false} ItemWritten(w: Written)
    requires Legible(w)
    ensures Item(Text(w)) == Some(ToByte(w.n))
  {
    var s := Bare(w);
    match w.form {
      case Decimals =>
        DecodeDecimal(w.n);
        TrimDecimal(w.n);
      case Hex(prefix, upper) => DecodeHex(prefix, w.n, upper);
      case Octal => DecodeOctal(w.n);
    }
    BareEnds(w);
    TrimBlanks(w.before, s, w.after);
  }

  lemma {:induction false} BareEnds(w: Written)
    requires Legible(w)
    ensures var s := Bare(w); s != "" && s[0] > ' ' && s[|s| - 1] > ' '
  {
    var s := Bare(w);
    if w.form.Decimals? {
      assert s[0] in s && s[|s| - 1] in s;
    }
  }

  // ---- Lists of such numbers -----------------------------------------------------------------------

  function Texts(ws: seq<Written>): (items: seq<string>)
    ensures |items| == |ws| && forall i :: 0 <= i < |ws| ==> items[i] == Text(ws[i])
  {
    seq(|ws|, i requires 0 <= i < |ws| => Text(ws[i]))
  }

  function ValuesOf(ws: seq<Written>): (bytes: seq<sbyte>)
    ensures |bytes| == |ws| && forall i :: 0 <= i < |ws| ==> bytes[i] == ToByte(ws[i].n)
  {
    seq(|ws|, i requires 0 <= i < |ws| => ToByte(ws[i].n))
  }

  lemma {:induction false} ItemValuesWritten(ws: seq<Written>)
    requires forall i :: 0 <= i < |ws| ==> Legible(ws[i])
    ensures ItemValues(Texts(ws)) == Some(ValuesOf(ws))
  {
    forall i | 0 <= i < |ws|
      ensures Values(Texts(ws))[i] == Some(ValuesOf(ws)[i])
    {
      ItemWritten(ws[i]);
    }
    CollectAll(Values(Texts(ws)), ValuesOf(ws));
  }

  /** `k` semicolons. */
  function Semicolons(k: nat): string {
    if k == 0 then "" else Semicolons(k - 1) + ";"
  }

  lemma {:induction false} PiecesTrailing(s: string, k: nat)
    ensures Pieces(s + Semicolons(k)) == Pieces(s) + seq(k, _ => "")
  {
    if k == 0 {
      assert s + "" == s && Pieces(s) + seq(0, _ => "") == Pieces(s);
    } else {
      PiecesTrailing(s, k - 1);
      PiecesSnoc(s + Semicolons(k - 1), "");
      assert s + Semicolons(k) == (s + Semicolons(k - 1)) + ";" + "";
      assert seq(k, _ => "") == seq(k - 1, _ => "") + [""];
    }
  }

  lemma {:induction false} DropTrailing(items: seq<string>, k: nat)
    requires items != [] && items[|items| - 1] != ""
    ensures DropTrailingEmpty(items + seq(k, _ => "")) == items
  {
    var all := items + seq(k, _ => "");
    if k == 0 {
      assert all == items;
    } else {
      DropTrailing(items, k - 1);
      assert all[..|all| - 1] == items + seq(k - 1, _ => "");
    }
  }

  lemma {:induction false} PlainText(w: Written)
    requires Legible(w)
    ensures ';' !in Text(w) && ',' !in Text(w) && Text(w) != ""
  {
    var s := Decimal(w.n);
    assert forall c :: c in s ==> '0' <= c <= '9';
  }

  predicate Separator(c: char) {
    c == ',' || c == ';'
  }

  predicate Separators(s: string) {
    forall i :: 0 <= i < |s| ==> Separator(s[i])
  }

  /** The items of a list, each behind a separator. */
  function Joined(items: seq<string>, seps: string): string
    requires |items| == |seps|
  {
    if items == [] then ""
    else
      var n := |items| - 1;
      Joined(items[..n], seps[..n]) + [seps[n]] + items[n]
  }

  lemma {:induction false} ReplaceAppend(a: string, b: string)
    ensures Replace(a + b) == Replace(a) + Replace(b)
  {
    forall i | 0 <= i < |a + b|
      ensures Replace(a + b)[i] == (Replace(a) + Replace(b))[i]
    {
      assert (a + b)[i] == if i < |a| then a[i] else b[i - |a|];
    }
  }

  /** Commas separate like semicolons. */
  lemma {:induction false} ReplaceJoined(items: seq<string>, seps: string)
    requires |items| == |seps| && Separators(seps) && forall i :: 0 <= i < |items| ==> ',' !in items[i]
    ensures Replace(Joined(items, seps)) == Behind(items)
  {
    if items != [] {
      var n := |items| - 1;
      var front, last := Joined(items[..n], seps[..n]), items[n];
      ReplaceJoined(items[..n], seps[..n]);
      ReplaceAppend(front + [seps[n]], last);
      ReplaceAppend(front, [seps[n]]);
      assert Replace([seps[n]]) == ";" && Replace(last) == last;
    }
  }

  lemma {:induction false} ReplaceSeparators(s: string)
    requires Separators(s)
    ensures Replace(s) == Semicolons(|s|)
  {
    if s != "" {
      var n := |s| - 1;
      ReplaceSeparators(s[..n]);
      ReplaceAppend(s[..n], [s[n]]);
      assert s == s[..n] + [s[n]] && Replace([s[n]]) == ";";
    }
  }

  /**
   * A list of numbers, however they are written and whatever blanks surround them, separated by semicolons or commas
   * and perhaps followed by more of these, is parsed into their bytes.
   */
  lemma {:induction false} ParseWritten(ws: seq<Written>, seps: string, trailing: string)
    requires ws != [] && (forall i :: 0 <= i < |ws| ==> Legible(ws[i]))
    requires |seps| == |ws| && Separators(seps) && Separators(trailing)
    ensures Joined(Texts(ws), seps) != ""
    ensures Parse(Joined(Texts(ws), seps)[1..] + trailing) == Some(ValuesOf(ws))
  {
    var items := Texts(ws);
    forall i | 0 <= i < |ws|
      ensures ';' !in items[i] && ',' !in items[i] && items[i] != ""
    {
      PlainText(ws[i]);
    }
    PiecesOfList(items);
    ReplaceJoined(items, seps);
    var text := Joined(items, seps);
    ReplaceAppend(text[1..], trailing);
    ReplaceSeparators(trailing);
    assert Replace(text[1..]) == Replace(text)[1..];
    PiecesTrailing(Behind(items)[1..], |trailing|);
    DropTrailing(items, |trailing|);
    assert items + seq(0, _ => "") == items;
    ItemValuesWritten(ws);
  }
}
