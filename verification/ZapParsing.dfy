/** Parsing channel files of any kind: which lines are delivered, where it stops, and the forms that are read but never
 *  written. */
module ZapParsing {
  import opened CfgText
  import opened Zapchannel
  import opened ZapRoundTrip

  /* ---- A file line by line ---- */

  function FileOf(lines: seq<string>): string { if lines == [] then "" else lines[0] + "\n" + FileOf(lines[1..]) }

  /** The channels of the lines that hold one, in order. */
  function ChannelsOf(lines: seq<string>): seq<Channel> {
    if lines == [] then []
    else (match ParseLine(lines[0] + "\n") case Delivered(c) => [c] case _ => []) + ChannelsOf(lines[1..])
  }

  /** The callback, whose answers are `answer`, does not object to numbers `k` up to, but not including, `n`. */
  predicate TakesUpTo(answer: nat -> int, k: nat, n: nat) { forall j :: k <= j < n ==> answer(j) == 0 }

  /** Only a last line without its end can be parsed beyond the buffer: one without separator and comment that is no
   *  longer than a name. */
  lemma BeyondExactly(line: string)
    ensures ParseLine(line) == Beyond <==> ':' !in line && '#' !in line && '\n' !in line && |line| < 128
  {
    BodyWhole(line);
    var body := Body(line);
    if ':' !in body {
      assert body[..|body|] == body;
      FirstColon(body, |body|);
    }
  }

  lemma {:induction false} BodyWhole(line: string)
    ensures |Body(line)| <= |line| && (|Body(line)| == |line| <==> '#' !in line && '\n' !in line)
    ensures |Body(line)| == |line| ==> Body(line) == line
  {
    if line != "" && line[0] != '\n' && line[0] != '#' { BodyWhole(line[1..]); }
  }

  lemma OneLine(l: string, rest: string, answer: nat -> int, k: nat)
    requires '\n' !in l
    ensures ParseLine(l + "\n").Delivered? || (ParseLine(l + "\n").Skipped?
      && ParseFile(l + "\n" + rest, answer, k) == ParseFile(rest, answer, k))
    ensures ParseLine(l + "\n").Delivered? ==>
      var c, more := ParseLine(l + "\n").channel, ParseFile(rest, answer, k + 1);
      ParseFile(l + "\n" + rest, answer, k) ==
        if answer(k) != 0 then Some(([c], if answer(k) < 0 then 0 else answer(k)))
        else if more == None then None else Some(([c] + more.value.0, more.value.1))
  {
    hide ParseLine;
    var line := l + "\n";
    FirstLineEnds(l, rest);
    assert (line + rest)[|line|..] == rest;
    BeyondExactly(line);
    assert line[|l|] == '\n';
  }

  /** The channels up to the first the callback objects to, and the value returned. */
  function Offered(cs: seq<Channel>, answer: nat -> int, k: nat): (seq<Channel>, int) {
    if cs == [] then ([], 0)
    else if answer(k) != 0 then ([cs[0]], if answer(k) < 0 then 0 else answer(k))
    else
      var (more, ret) := Offered(cs[1..], answer, k + 1);
      ([cs[0]] + more, ret)
  }

  lemma {:induction false} OfferedUpTo(cs: seq<Channel>, answer: nat -> int, k: nat, n: nat)
    requires n <= |cs| && TakesUpTo(answer, k, k + n) && (n < |cs| ==> answer(k + n) != 0)
    ensures Offered(cs, answer, k) ==
      if n == |cs| then (cs, 0) else (cs[..n + 1], if answer(k + n) < 0 then 0 else answer(k + n))
    decreases |cs|
  {
    assert cs != [] ==> cs[..1] == [cs[0]];
    if n > 0 {
      OfferedUpTo(cs[1..], answer, k + 1, n - 1);
      assert cs == [cs[0]] + cs[1..] && (n < |cs| ==> cs[..n + 1] == [cs[0]] + cs[1..][..n]);
    }
  }

  lemma {:induction false} LinesOffered(lines: seq<string>, answer: nat -> int, k: nat)
    requires forall l <- lines :: '\n' !in l
    ensures ParseFile(FileOf(lines), answer, k) == Some(Offered(ChannelsOf(lines), answer, k))
    decreases |lines|
  {
    hide ParseLine;
    if lines != [] {
      var l, more := lines[0], lines[1..];
      assert l in lines && forall m <- more :: m in lines;
      OneLine(l, FileOf(more), answer, k);
      LinesOffered(more, answer, if ParseLine(l + "\n").Skipped? then k else k + 1);
      hide ParseFile;
      assert FileOf(lines) == l + "\n" + FileOf(more);
      assert ChannelsOf(lines)[if ParseLine(l + "\n").Skipped? then 0 else 1..] == ChannelsOf(more);
    }
  }

  /** The channels of a file are handed to the callback one by one, those of other lines passed over, until it answers
   *  something else than 0; the value returned is that answer, unless it is negative, and 0 when all are taken. */
  lemma FileByLines(lines: seq<string>, answer: nat -> int, k: nat, n: nat)
    requires forall l <- lines :: '\n' !in l
    requires n <= |ChannelsOf(lines)| && TakesUpTo(answer, k, k + n) && (n < |ChannelsOf(lines)| ==> answer(k + n) != 0)
    ensures ParseFile(FileOf(lines), answer, k) == Some(
      if n == |ChannelsOf(lines)| then (ChannelsOf(lines), 0)
      else (ChannelsOf(lines)[..n + 1], if answer(k + n) < 0 then 0 else answer(k + n)))
  {
    hide *;
    LinesOffered(lines, answer, k);
    OfferedUpTo(ChannelsOf(lines), answer, k, n);
  }

  /* ---- The fields of a line ---- */

  /** The text between the separators. */
  function Fields(text: string): seq<string>
    decreases |text|
  {
    if ':' !in text then [text] else BehindShorter(text); [Token(text)] + Fields(Behind(text))
  }

  lemma {:induction false} BehindShorter(text: string)
    requires ':' in text
    ensures |Behind(text)| < |text|
  {
    if text[0] != ':' { BehindShorter(text[1..]); }
  }

  lemma FieldCut(f: string, rest: string)
    requires ':' !in f
    ensures Fields(Field(f, rest)) == [f] + Fields(rest)
  {
    assert Field(f, rest)[|f|] == ':';
    FieldSplits(f, rest);
  }

  /** The settings of a frontend type in the order of the file. */
  function SettingsInOrder(inversion: nat, t: Tuning): seq<string> {
    match t
    case Atsc(modulation) => [Shown(modulation, ATSC_MODULATIONS)]
    case Dvbc(rate, fec, modulation) =>
      [Shown(inversion, INVERSIONS), IntText(Signed(rate)), Shown(fec, FECS), Shown(modulation, DVBC_MODULATIONS)]
    case Dvbs(polarization, switch, rate, _) => [[polarization], IntText(switch), IntText(rate / 1000)]
    case Dvbt(bandwidth, high, low, constellation, mode, guard, hierarchy) =>
      [Shown(inversion, INVERSIONS), Shown(bandwidth, BANDWIDTHS), Shown(high, FECS), Shown(low, FECS),
       Shown(constellation, CONSTELLATIONS), Shown(mode, TRANSMISSION_MODES), Shown(guard, GUARD_INTERVALS),
       Shown(hierarchy, HIERARCHIES)]
  }

  /** Cut at its separators a saved line has the name, the frequency, the settings in their order, the video and the
   *  audio pid and the service id, and nothing else. */
  lemma LineInOrder(c: Channel)
    requires Tunable(c) && Lacks(c.name, ':')
    ensures Fields(LineOf(c)) ==
      [c.name, IntText(ShownFrequency(c))] + SettingsInOrder(c.inversion, c.tuning)
      + [IntText(c.videoPid), IntText(c.audioPid), IntText(c.serviceId)]
  {
    hide Settings, SettingsInOrder, Fields, Shown, ShownFrequency, Tunable, IntText;
    SettingsCut(c);
    IntCut(ShownFrequency(c), Settings(c));
    FieldCut(c.name, RestOf(c));
  }

  lemma ShownCut(v: nat, t: Table, rest: string)
    requires Sound(t) && Listed(v, t)
    ensures Fields(Field(Shown(v, t), rest)) == [Shown(v, t)] + Fields(rest)
  {
    ShownPlain(v, t);
    FieldCut(Shown(v, t), rest);
  }

  lemma SettingsCut(c: Channel)
    requires Tunable(c)
    ensures Fields(Settings(c)) ==
      SettingsInOrder(c.inversion, c.tuning) + [IntText(c.videoPid), IntText(c.audioPid), IntText(c.serviceId)]
  {
    hide Fields, Shown, Sound, Field;
    PidsCut(c);
    TablesSound();
    match c.tuning
    case Atsc(modulation) => ShownCut(modulation, ATSC_MODULATIONS, Pids(c));
    case Dvbc(rate, fec, modulation) =>
      var s1 := Field(Shown(modulation, DVBC_MODULATIONS), Pids(c));
      var s2 := Field(Shown(fec, FECS), s1);
      ShownCut(modulation, DVBC_MODULATIONS, Pids(c));
      ShownCut(fec, FECS, s1);
      IntCut(Signed(rate), s2);
      ShownCut(c.inversion, INVERSIONS, Field(IntText(Signed(rate)), s2));
    case Dvbs(polarization, switch, rate, _) =>
      var s1 := Field(IntText(rate / 1000), Pids(c));
      IntCut(rate / 1000, Pids(c));
      IntCut(switch, s1);
      FieldCut([polarization], Field(IntText(switch), s1));
    case Dvbt(bandwidth, high, low, constellation, mode, guard, hierarchy) =>
      TailCut(c);
      var s1 := Field(Shown(low, FECS), DvbtTail(c));
      var s2 := Field(Shown(high, FECS), s1);
      ShownCut(low, FECS, DvbtTail(c));
      ShownCut(high, FECS, s1);
      ShownCut(bandwidth, BANDWIDTHS, s2);
      ShownCut(c.inversion, INVERSIONS, Field(Shown(bandwidth, BANDWIDTHS), s2));
  }

  lemma TailCut(c: Channel)
    requires Tunable(c) && c.tuning.Dvbt?
    ensures var t := c.tuning;
      Fields(DvbtTail(c)) == [Shown(t.constellation, CONSTELLATIONS), Shown(t.mode, TRANSMISSION_MODES),
        Shown(t.guard, GUARD_INTERVALS), Shown(t.hierarchy, HIERARCHIES)] + Fields(Pids(c))
  {
    hide Fields, Shown, Sound, Field;
    TablesSound();
    var t := c.tuning;
    var s1 := Field(Shown(t.hierarchy, HIERARCHIES), Pids(c));
    var s2 := Field(Shown(t.guard, GUARD_INTERVALS), s1);
    ShownCut(t.hierarchy, HIERARCHIES, Pids(c));
    ShownCut(t.guard, GUARD_INTERVALS, s1);
    ShownCut(t.mode, TRANSMISSION_MODES, s2);
    ShownCut(t.constellation, CONSTELLATIONS, Field(Shown(t.mode, TRANSMISSION_MODES), s2));
  }

  lemma IntCut(v: int, rest: string)
    ensures Fields(Field(IntText(v), rest)) == [IntText(v)] + Fields(rest)
  {
    IntLacks(v, ':');
    FieldCut(IntText(v), rest);
  }

  lemma PidsCut(c: Channel)
    ensures Fields(Pids(c)) == [IntText(c.videoPid), IntText(c.audioPid), IntText(c.serviceId)]
  {
    IntLacks(c.serviceId, ':');
    IntCut(c.audioPid, IntText(c.serviceId));
    IntCut(c.videoPid, Field(IntText(c.audioPid), IntText(c.serviceId)));
  }

  /* ---- Forms that are read only ---- */

  /** A name is taken up to 127 characters. */
  lemma NameLengthExactly(c: Channel)
    requires Tunable(c) && Lacks(c.name, ':') && Quiet(c.name)
    ensures ParseLine(LineOf(c) + "\n") == if |c.name| <= 127 then Delivered(Rounded(c)) else Skipped
  {
    hide ParseRest, Settings, Tunable, Rounded;
    if |c.name| <= 127 {
      LineReads(c);
    } else {
      NameKept(c.name, RestOf(c));
    }
  }

  /** What stands in front of the first separator is in front of any comment. */
  lemma NameKept(name: string, rest: string)
    requires Lacks(name, ':') && Quiet(name)
    ensures Token(Body(Field(name, rest) + "\n")) == name
  {
    var text := Field(name, rest) + "\n";
    assert text == name + (":" + rest + "\n");
    BodyBehind(name, ":" + rest + "\n");
    var tail := Body(":" + rest + "\n");
    assert tail[0] == ':' && (name + tail)[..|name|] == name && (name + tail)[|name|] == ':';
    FirstColon(name + tail, |name|);
  }

  lemma {:induction false} BodyBehind(s: string, t: string)
    requires Quiet(s)
    ensures Body(s + t) == s + Body(t)
  {
    if s == "" {
      assert s + t == t && s + Body(t) == Body(t);
    } else {
      assert (s + t)[1..] == s[1..] + t;
      BodyBehind(s[1..], t);
    }
  }

  /** Files without service ids are read, too: behind the audio pid nothing is missed, and the service id is 0. */
  lemma NoServiceId(name: string, text: string, frequency: Int32, more: string, f: UInt32, inversion: nat, t: Tuning,
                    video: Int32, audio: Int32)
    requires ParseInt(text) == Parsed(frequency, more)
    requires ParseTuning(Guess(more), Unsigned(frequency), more) == Parsed((f, inversion, t), Field(IntText(video), IntText(audio)))
    ensures ParseRest(name, text) == Some(Channel(name, f, inversion, t, video, audio, 0))
  {
    hide ParseTuning, Guess;
    IntFieldReads(video, IntText(audio));
    LastIntReads(audio);
    assert ParseInt("") == Failed;
  }

  /** The polarization of a DVB-S line is the first letter of its field, one of four, large or small, and is kept small;
   *  frequency and symbol rate are thousands. */
  lemma PolarizationExactly(p: string, switch: Int32, rate: Int32, f: UInt32, rest: string)
    requires ':' !in p
    ensures ParseTuning(DvbS, f, Field(p, Field(IntText(switch), Field(IntText(rate), rest)))) ==
      if p == "" then Failed
      else if p[0] in "hH" then Satellite('h', switch, rate, f, rest)
      else if p[0] in "vV" then Satellite('v', switch, rate, f, rest)
      else if p[0] in "lL" then Satellite('l', switch, rate, f, rest)
      else if p[0] in "rR" then Satellite('r', switch, rate, f, rest)
      else Failed
  {
    hide ParseInt;
    FieldSplits(p, Field(IntText(switch), Field(IntText(rate), rest)));
    IntFieldReads(switch, Field(IntText(rate), rest));
    IntFieldReads(rate, rest);
  }

  /** Frequency and symbol rate in units of one, inversion (2) and code rate (9) left to the frontend. */
  function Satellite(p: char, switch: Int32, rate: Int32, f: UInt32, rest: string): Parsed<(UInt32, nat, Tuning)> {
    Parsed((f * 1000 % 0x1_0000_0000, 2, Dvbs(p, switch, rate * 1000 % 0x1_0000_0000, 9)), rest)
  }

  /* ---- Numbers in other bases ---- */

  /** A number that does not fit 32 bits wraps around. */
  lemma NumbersWrap(v: int, rest: string)
    ensures ParseInt(Field(IntText(v), rest)) == Parsed((v + 0x8000_0000) % 0x1_0000_0000 - 0x8000_0000, rest)
  {
    hide ScanInt, IntText;
    IntLacks(v, ':');
    FieldSplits(IntText(v), rest);
    IntReads(v, "");
    assert IntText(v) + "" == IntText(v);
  }

  /** The number digits stand for in a base. */
  function Worth(s: string, base: nat): nat { if s == "" then 0 else Worth(s[..|s| - 1], base) * base + Digit(s[|s| - 1]) }

  /** What a digit is worth, a letter in either case. */
  function Digit(c: char): nat {
    if c in "0123456789" then c as nat - '0' as nat
    else if c in "abcdef" then c as nat - 'a' as nat + 10
    else if c in "ABCDEF" then c as nat - 'A' as nat + 10
    else 99
  }

  predicate Numeral(s: string, base: nat) { forall c <- s :: Digit(c) < base }

  lemma DigitAgrees(c: char)
    ensures Digit(c) < 16 ==> DigitOf(c) == Digit(c)
    ensures Digit(c) >= 16 ==> DigitOf(c) == 16
  {
  }

  lemma WorthFromFront(c: char, s: string, base: nat, sofar: nat)
    ensures Digits([c] + s, base, sofar) == if DigitOf(c) < base then Digits(s, base, sofar * base + DigitOf(c)) else sofar
  {
    assert ([c] + s)[1..] == s;
  }

  lemma {:induction false} NumeralReads(s: string, t: string, base: nat)
    requires Numeral(s, base) && base <= 16
    ensures Digits(s + t, base, 0) == Digits(t, base, Worth(s, base))
    decreases |s|
  {
    hide Digits;
    if s == "" {
      assert s + t == t;
    } else {
      var n := |s| - 1;
      assert s + t == s[..n] + ([s[n]] + t);
      assert s[n] in s && forall c <- s[..n] :: c in s;
      NumeralReads(s[..n], [s[n]] + t, base);
      DigitAgrees(s[n]);
      WorthFromFront(s[n], t, base, Worth(s[..n], base));
    }
  }

  lemma StopsDigits(t: string, base: nat, n: nat)
    requires Stops(t) && base <= 16
    ensures Digits(t, base, n) == n
  {
  }

  /** A number may be given in hexadecimal digits behind 0x or 0X, or in octal ones behind 0. */
  lemma OtherBasesRead(s: string, t: string)
    requires Stops(t)
    ensures s != "" && Numeral(s, 16) ==>
      ScanUnsigned("0x" + s + t) == Some(Worth(s, 16)) && ScanUnsigned("0X" + s + t) == Some(Worth(s, 16))
    ensures Numeral(s, 8) ==> ScanUnsigned("0" + s + t) == Some(Worth("0" + s, 8))
  {
    hide ScanUnsigned, Worth, Stops;
    if s != "" && Numeral(s, 16) {
      HexRead("0x", s, t);
      HexRead("0X", s, t);
    }
    if Numeral(s, 8) { OctalRead(s, t); }
  }

  lemma HexRead(x: string, s: string, t: string)
    requires Stops(t) && s != "" && Numeral(s, 16) && (x == "0x" || x == "0X")
    ensures ScanUnsigned(x + s + t) == Some(Worth(s, 16))
  {
    hide Digits, Worth;
    assert s[0] in s;
    DigitAgrees(s[0]);
    var text := x + s + t;
    assert text[2..] == s + t && text[2] == s[0] && text[1] == x[1];
    NumeralReads(s, t, 16);
    StopsDigits(t, 16, Worth(s, 16));
  }

  lemma OctalRead(s: string, t: string)
    requires Stops(t) && Numeral(s, 8)
    ensures ScanUnsigned("0" + s + t) == Some(Worth("0" + s, 8))
  {
    hide Digits, Worth;
    var text := "0" + s + t;
    assert text == ("0" + s) + t;
    assert s != "" ==> text[1] == s[0] && s[0] in s;
    assert s == "" && t != "" ==> text[1] == t[0];
    NumeralReads("0" + s, t, 8);
    StopsDigits(t, 8, Worth("0" + s, 8));
  }

  predicate Spaces(s: string) { forall c <- s :: c in " \t\n\r\U{0B}\U{0C}" }

  /** Space in front of a number is passed over, and a sign may stand in front of its digits. */
  lemma SignsAndSpaceRead(space: string, n: nat, t: string)
    requires Spaces(space) && Stops(t)
    ensures ScanInt(space + IntText(n) + t) == Some(n)
    ensures ScanInt(space + "+" + IntText(n) + t) == Some(n)
    ensures ScanInt(space + "-" + IntText(n) + t) == Some(-(n as int))
  {
    hide ScanInt, Decimal, Stops, Spaces;
    SignRead(space, "", n, t);
    SignRead(space, "+", n, t);
    SignRead(space, "-", n, t);
    assert space + IntText(n) + t == space + ("" + (Decimal(n) + t));
    assert space + "+" + IntText(n) + t == space + ("+" + (Decimal(n) + t));
    assert space + "-" + IntText(n) + t == space + ("-" + (Decimal(n) + t));
  }

  lemma SignRead(space: string, sign: string, n: nat, t: string)
    requires Spaces(space) && Stops(t) && sign in {"", "+", "-"}
    ensures ScanInt(space + (sign + (Decimal(n) + t))) == Some(if sign == "-" then -(n as int) else n)
  {
    hide ScanUnsigned, Decimal, SkipSpace;
    UnsignedReads(n, t);
    DecimalChars(n);
    var d := Decimal(n) + t;
    assert d[0] == Decimal(n)[0] && d[0] in Decimal(n);
    var text := sign + d;
    SpaceSkipped(space, text);
    assert text[|sign|..] == d;
  }

  lemma {:induction false} SpaceSkipped(space: string, t: string)
    requires Spaces(space) && t != "" && t[0] !in " \t\n\r\U{0B}\U{0C}"
    ensures SkipSpace(space + t) == t
  {
    if space == "" {
      assert space + t == t;
    } else {
      assert space[0] in space && (space + t)[0] == space[0] && (space + t)[1..] == space[1..] + t;
      SpaceSkipped(space[1..], t);
    }
  }
}
