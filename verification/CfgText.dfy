/** Fields of a configuration line (dvbcfg_common.c). */
module CfgText {
  /** What a field yields and the text behind its separator; `Failed` is the null pointer left in `*text`. */
  datatype Parsed<+T> = Failed | Parsed(value: T, rest: string) {
    predicate IsFailure() { Failed? }

    function PropagateFailure<U>(): Parsed<U>
      requires Failed?
    {
      Failed
    }

    function Extract(): (T, string)
      requires Parsed?
    {
      (value, rest)
    }
  }

  /** A `dvbcfg_setting` array up to its null entry. */
  datatype Table = End | Entry(name: string, value: nat, more: Table)

  /** `dvbcfg_lookup_setting`; `None` is the null pointer. */
  datatype Found<+T> = None | Some(value: T)

  function NameOf(setting: nat, t: Table): Found<string> {
    if t.End? then None else if setting == t.value then Some(t.name) else NameOf(setting, t.more)
  }

  function ValueOf(name: string, t: Table): Found<nat> {
    if t.End? then None else if name == t.name then Some(t.value) else ValueOf(name, t.more)
  }

  predicate Absent(name: string, t: Table) {
    t.Entry? ==> name != t.name && Absent(name, t.more)
  }

  predicate Distinct(t: Table) {
    t.Entry? ==> Absent(t.name, t.more) && Distinct(t.more)
  }

  /** The text up to the first separator. */
  function Token(text: string): (r: string)
    ensures ':' !in r && |r| <= |text|
  {
    if text == "" || text[0] == ':' then "" else [text[0]] + Token(text[1..])
  }

  function Behind(text: string): string {
    if text == "" then "" else if text[0] == ':' then text[1..] else Behind(text[1..])
  }

  lemma {:induction false} FirstColon(text: string, n: nat)
    requires n <= |text| && ':' !in text[..n] && (n < |text| ==> text[n] == ':')
    ensures Token(text) == text[..n] && Behind(text) == if n < |text| then text[n + 1..] else ""
  {
    if n > 0 {
      assert text[0] in text[..n];
      assert text[1..][..n - 1] == text[..n][1..];
      FirstColon(text[1..], n - 1);
    }
  }

  /** The scan common to the parse functions: cuts the text at the first separator. */
  method Split(text: string) returns (token: string, rest: string)
    ensures token == Token(text) && rest == Behind(text)
  {
    var stop := 0;
    while stop < |text| && text[stop] != ':'
      invariant stop <= |text| && ':' !in text[..stop]
    {
      stop := stop + 1;
    }
    token := text[..stop];
    rest := if stop < |text| then text[stop + 1..] else "";
    FirstColon(text, stop);
  }

  /* ---- Numbers, as `%i` prints and reads them ---- */

  type Int32 = x: int | -0x8000_0000 <= x < 0x8000_0000
  type UInt32 = x: int | 0 <= x < 0x1_0000_0000

  function Signed(x: int): Int32 {
    (x + 0x8000_0000) % 0x1_0000_0000 - 0x8000_0000
  }

  function Unsigned(x: int): UInt32 { x % 0x1_0000_0000 }

  function DigitChar(d: nat): char
    requires d < 10
  {
    ['0', '1', '2', '3', '4', '5', '6', '7', '8', '9'][d]
  }

  function DigitOf(c: char): nat {
    if '0' <= c <= '9' then c as int - '0' as int
    else if 'a' <= c <= 'f' then c as int - 'a' as int + 10
    else if 'A' <= c <= 'F' then c as int - 'A' as int + 10
    else 16
  }

  function Decimal(n: nat): (r: string)
    ensures r != ""
  {
    if n < 10 then [DigitChar(n)] else Decimal(n / 10) + [DigitChar(n % 10)]
  }

  function IntText(v: int): string {
    if v < 0 then "-" + Decimal(-v) else Decimal(v)
  }

  predicate StartsNumber(s: string, base: nat) { s != "" && DigitOf(s[0]) < base }

  /** The digits at the front of the text, in a base, with what stood before them. */
  function Digits(s: string, base: nat, sofar: nat): nat {
    if StartsNumber(s, base) then Digits(s[1..], base, sofar * base + DigitOf(s[0])) else sofar
  }

  function SkipSpace(s: string): string {
    if s != "" && s[0] in " \t\n\r\U{0B}\U{0C}" then SkipSpace(s[1..]) else s
  }

  /** An octal, hexadecimal or decimal number, as its front says. */
  function ScanUnsigned(s: string): Found<nat> {
    if |s| >= 3 && s[0] == '0' && s[1] in "xX" && DigitOf(s[2]) < 16 then Some(Digits(s[2..], 16, 0))
    else if s != "" && s[0] == '0' then Some(Digits(s, 8, 0))
    else if StartsNumber(s, 10) then Some(Digits(s, 10, 0))
    else None
  }

  function ScanInt(s: string): Found<int> {
    var t := SkipSpace(s);
    var negative := t != "" && t[0] == '-';
    match ScanUnsigned(if t != "" && t[0] in "+-" then t[1..] else t)
    case None => None
    case Some(n) => Some(if negative then -(n as int) else n)
  }

  /* ---- The parse functions ---- */

  /** `dvbcfg_parse_int` */
  function ParseInt(text: string): Parsed<Int32> {
    match ScanInt(Token(text))
    case None => Failed
    case Some(v) => Parsed(Signed(v), Behind(text))
  }

  /** `dvbcfg_parse_char` */
  function ParseChar(text: string): Parsed<char> {
    if Token(text) == "" then Failed else Parsed(Token(text)[0], Behind(text))
  }

  /** `dvbcfg_parse_setting` */
  function ParseSetting(text: string, t: Table): Parsed<nat> {
    match ValueOf(Token(text), t)
    case None => Failed
    case Some(v) => Parsed(v, Behind(text))
  }

  method ParseSettingLoop(text: string, settings: Table) returns (r: Parsed<nat>)
    ensures r == ParseSetting(text, settings)
  {
    var start, stop := Split(text);
    var t := settings;
    while t.Entry?
      invariant ValueOf(start, t) == ValueOf(start, settings)
      decreases t
    {
      if start == t.name {
        return Parsed(t.value, stop);
      }
      t := t.more;
    }
    r := Failed;
  }

  method LookupSetting(setting: nat, settings: Table) returns (r: Found<string>)
    ensures r == NameOf(setting, settings)
  {
    var t := settings;
    while t.Entry?
      invariant NameOf(setting, t) == NameOf(setting, settings)
      decreases t
    {
      if setting == t.value {
        return Some(t.name);
      }
      t := t.more;
    }
    r := None;
  }

  /* ---- Round trips ---- */

  /** A field and its separator in front of more text. */
  function Field(f: string, rest: string): string { f + ":" + rest }

  lemma FieldSplits(f: string, rest: string)
    requires ':' !in f
    ensures Token(Field(f, rest)) == f && Behind(Field(f, rest)) == rest
  {
    var text := Field(f, rest);
    assert text[|f|] == ':' && text[..|f|] == f && text[|f| + 1..] == rest;
    FirstColon(text, |f|);
  }

  lemma {:induction false} NamesDiffer(s: nat, t: Table)
    requires Distinct(t) && NameOf(s, t).Some?
    ensures ValueOf(NameOf(s, t).value, t) == Some(s)
    ensures forall n: string :: Absent(n, t) ==> NameOf(s, t).value != n
  {
    if s != t.value {
      NamesDiffer(s, t.more);
    }
  }

  /** A number in text is made of digits and perhaps a sign. */
  predicate NumberChar(c: char) { '0' <= c <= '9' || c == '-' }

  lemma {:induction false} DecimalChars(n: nat)
    ensures forall c <- Decimal(n) :: '0' <= c <= '9'
    ensures n > 0 ==> Decimal(n)[0] != '0'
  {
    if n >= 10 {
      DecimalChars(n / 10);
    }
  }

  lemma IntTextChars(v: int)
    ensures forall c <- IntText(v) :: NumberChar(c)
  {
    DecimalChars(if v < 0 then -v else v);
  }

  lemma DigitReads(d: nat, t: string, sofar: nat)
    requires d < 10
    ensures Digits([DigitChar(d)] + t, 10, sofar) == Digits(t, 10, sofar * 10 + d)
  {
    assert ([DigitChar(d)] + t)[1..] == t;
  }

  lemma {:induction false} DecimalReads(n: nat, t: string)
    ensures Digits(Decimal(n) + t, 10, 0) == Digits(t, 10, n)
  {
    hide Digits, DigitChar;
    if n < 10 {
      DigitReads(n, t, 0);
    } else {
      var u := [DigitChar(n % 10)] + t;
      assert Decimal(n) + t == Decimal(n / 10) + u;
      DecimalReads(n / 10, u);
      DigitReads(n % 10, t, n / 10);
    }
  }

  /** What ends a number. */
  predicate Stops(t: string) { t == "" || (DigitOf(t[0]) == 16 && t[0] !in "xX") }

  lemma ZeroReads(t: string)
    requires Stops(t)
    ensures ScanUnsigned("0" + t) == Some(0)
  {
    var s := "0" + t;
    assert s[1..] == t;
    assert t != "" ==> s[1] == t[0];
    assert Digits(t, 8, 0) == 0;
  }

  lemma UnsignedReads(n: nat, t: string)
    requires Stops(t)
    ensures ScanUnsigned(Decimal(n) + t) == Some(n)
  {
    if n == 0 {
      ZeroReads(t);
    } else {
      var s := Decimal(n) + t;
      DecimalChars(n);
      DecimalReads(n, t);
      assert s[0] == Decimal(n)[0] && s[0] in Decimal(n);
    }
  }

  /** Every number reads back as printed, whatever stands behind it that is no digit. */
  lemma IntReads(v: int, t: string)
    requires Stops(t)
    ensures ScanInt(IntText(v) + t) == Some(v)
  {
    hide Decimal, ScanUnsigned, Digits;
    var n := if v < 0 then -v else v;
    UnsignedReads(n, t);
    DecimalChars(n);
    var s := Decimal(n) + t;
    assert s[0] == Decimal(n)[0] && s[0] in Decimal(n);
    if v < 0 {
      assert IntText(v) + t == "-" + s && ("-" + s)[1..] == s;
    }
  }

  lemma IntFieldReads(v: Int32, rest: string)
    ensures ParseInt(Field(IntText(v), rest)) == Parsed(v, rest)
  {
    IntTextChars(v);
    FieldSplits(IntText(v), rest);
    IntReads(v, "");
    assert IntText(v) + "" == IntText(v);
  }

  lemma LastIntReads(v: Int32)
    ensures ParseInt(IntText(v)) == Parsed(v, "")
  {
    IntTextChars(v);
    var s := IntText(v);
    assert s[..|s|] == s;
    FirstColon(s, |s|);
    IntReads(v, "");
    assert IntText(v) + "" == IntText(v);
  }
}
