/**
  The class-name input's colour lightening: a `#RRGGBB` colour has a fixed
  amount added to each channel, capped at 255, and is written back as
  `rgb(r, g, b)` text.
 */
module ClassesInput {
  import opened Wrappers
  import opened HexDigits
  import opened DecimalText

  /** The amount the reload icon's colour is lightened by. */
  const IconLightening: int := 99

  /**
    `s` with its first occurrence of `c` removed, wherever it is: a string
    pattern given to `replace` matches once only.
   */
  function RemoveFirst(s: string, c: char): (r: string)
    ensures c !in s ==> r == s
    ensures c in s ==> |r| == |s| - 1
    ensures |s| > 0 && s[0] == c ==> r == s[1..]
    decreases |s|
  {
    if |s| == 0 then s
    else if s[0] == c then s[1..]
    else [s[0]] + RemoveFirst(s[1..], c)
  }

  /** Exactly the first occurrence goes: everything before and after it stays. */
  lemma {:induction false} RemoveFirstAt(s: string, c: char, k: nat)
    requires k < |s| && s[k] == c
    requires forall i :: 0 <= i < k ==> s[i] != c
    ensures RemoveFirst(s, c) == s[..k] + s[k + 1..]
    decreases k
  {
    if k > 0 {
      RemoveFirstAt(s[1..], c, k - 1);
      assert s[1..][..k - 1] == s[1..k];
      assert s[1..][k..] == s[k + 1..];
      assert s[..k] == [s[0]] + s[1..k];
    }
  }

  /** The text the three pairs are cut from. */
  function Sanitize(hex: string): string {
    RemoveFirst(hex, '#')
  }

  /** The first six characters after the `#` is removed are hexadecimal digits. */
  predicate ValidColor(hex: string) {
    var s := Sanitize(hex);
    |s| >= 6 && AllHex(s[..6])
  }

  datatype Rgb = Rgb(red: int, green: int, blue: int)

  /** The three channels as read from the pairs at offsets 0, 2 and 4. */
  function Channels(hex: string): (c: Rgb)
    requires ValidColor(hex)
    ensures 0 <= c.red < 256 && 0 <= c.green < 256 && 0 <= c.blue < 256
  {
    var s := Sanitize(hex);
    assert AllHex(s[0..2]) && AllHex(s[2..4]) && AllHex(s[4..6]) by {
      assert s[0..2] == s[..6][0..2];
      assert s[2..4] == s[..6][2..4];
      assert s[4..6] == s[..6][4..6];
    }
    Rgb(ParseHex(s[0..2]), ParseHex(s[2..4]), ParseHex(s[4..6]))
  }

  function Min(a: int, b: int): int {
    if a < b then a else b
  }

  /** The channels after lightening; there is no lower cap. */
  function Lighten(hex: string, amount: int): (c: Rgb)
    requires ValidColor(hex)
    ensures c.red <= 255 && c.green <= 255 && c.blue <= 255
  {
    var orig := Channels(hex);
    Rgb(Min(255, orig.red + amount), Min(255, orig.green + amount), Min(255, orig.blue + amount))
  }

  /** The channels written as `rgb(...)` text. */
  function FormatRgb(c: Rgb): (s: string)
    ensures |s| >= 5 && s[..4] == "rgb(" && s[|s| - 1] == ')'
  {
    "rgb(" + IntToString(c.red) + ", " + IntToString(c.green) + ", " + IntToString(c.blue) + ")"
  }

  /** The colour as the icon style receives it: `rgb(...)` text, never hex. */
  function LightenColor(hex: string, amount: int): (r: string)
    requires ValidColor(hex)
    ensures ParseRgb(r) == Some(Lighten(hex, amount))
    ensures '#' !in r
  {
    FormatRgbRoundTrip(Lighten(hex, amount));
    FormatRgb(Lighten(hex, amount))
  }

  // ---------------------------------------------------------------------
  // Reading `rgb(r, g, b)` text back
  // ---------------------------------------------------------------------

  /** `s` cut at every `sep`; always at least one piece. */
  function Split(s: string, sep: char): (parts: seq<string>)
    ensures |parts| >= 1
    decreases |s|
  {
    if |s| == 0 then [""]
    else
      var rest := Split(s[1..], sep);
      if s[0] == sep then [""] + rest
      else [[s[0]] + rest[0]] + rest[1..]
  }

  /** Reads text of the form `rgb(R, G, B)` with decimal integers R, G, B. */
  function ParseRgb(s: string): Option<Rgb> {
    if |s| < 5 || s[..4] != "rgb(" || s[|s| - 1] != ')' then None
    else
      var parts := Split(s[4..|s| - 1], ',');
      if |parts| != 3 || |parts[1]| == 0 || parts[1][0] != ' ' || |parts[2]| == 0 || parts[2][0] != ' ' then None
      else
        match (ParseInt(parts[0]), ParseInt(parts[1][1..]), ParseInt(parts[2][1..]))
        case (Some(r), Some(g), Some(b)) => Some(Rgb(r, g, b))
        case _ => None
  }

  lemma {:induction false} SplitNoSeparator(a: string, t: string, sep: char)
    requires sep !in a
    ensures Split(a + t, sep) == [a + Split(t, sep)[0]] + Split(t, sep)[1..]
    decreases |a|
  {
    var tail := Split(t, sep);
    if |a| == 0 {
      assert a + t == t;
      assert a + tail[0] == tail[0];
      assert tail == [tail[0]] + tail[1..];
    } else {
      var x := a + t;
      assert x[0] == a[0] && x[0] != sep;
      assert x[1..] == a[1..] + t;
      SplitNoSeparator(a[1..], t, sep);
      var rest := Split(x[1..], sep);
      assert rest == [a[1..] + tail[0]] + tail[1..];
      assert Split(x, sep) == [[x[0]] + rest[0]] + rest[1..];
      assert [a[0]] + (a[1..] + tail[0]) == a + tail[0];
    }
  }

  /** A piece without the separator stays whole. */
  lemma SplitWhole(c: string, sep: char)
    requires sep !in c
    ensures Split(c, sep) == [c]
  {
    SplitNoSeparator(c, "", sep);
    assert c + "" == c;
  }

  /** A separator in front starts a new, empty, first piece. */
  lemma SplitLeadingSeparator(t: string, sep: char)
    ensures Split([sep] + t, sep) == [""] + Split(t, sep)
  {
  }

  /** A piece without the separator, then the separator, is the first piece. */
  lemma SplitCons(a: string, t: string, sep: char)
    requires sep !in a
    ensures Split(a + [sep] + t, sep) == [a] + Split(t, sep)
  {
    SplitNoSeparator(a, [sep] + t, sep);
    SplitLeadingSeparator(t, sep);
    assert a + ([sep] + t) == a + [sep] + t;
    assert a + "" == a;
  }

  /** Two pieces without the separator, joined by it, split back into the two. */
  lemma SplitThreeTail(b: string, c: string, sep: char)
    requires sep !in b && sep !in c
    ensures Split(b + [sep] + c, sep) == [b, c]
  {
    SplitWhole(c, sep);
    SplitCons(b, c, sep);
  }

  lemma SplitThree(a: string, b: string, c: string, sep: char)
    requires sep !in a && sep !in b && sep !in c
    ensures Split(a + [sep] + (b + [sep] + c), sep) == [a, b, c]
  {
    SplitThreeTail(b, c, sep);
    SplitCons(a, b + [sep] + c, sep);
  }

  /** The text between the parentheses of `FormatRgb`. */
  lemma FormatRgbShape(c: Rgb)
    ensures var s := FormatRgb(c);
      && |s| >= 5 && s[..4] == "rgb(" && s[|s| - 1] == ')'
      && s[4..|s| - 1] == IntToString(c.red) + [','] + ((" " + IntToString(c.green)) + [','] + (" " + IntToString(c.blue)))
  {
  }

  /** Formatting is unambiguous: the channels can be read back from the text. */
  lemma FormatRgbRoundTrip(c: Rgb)
    ensures ParseRgb(FormatRgb(c)) == Some(c)
    ensures '#' !in FormatRgb(c)
  {
    var r, g, b := IntToString(c.red), IntToString(c.green), IntToString(c.blue);
    var s := FormatRgb(c);
    FormatRgbShape(c);
    SplitThree(r, " " + g, " " + b, ',');
    var parts := Split(s[4..|s| - 1], ',');
    assert parts == [r, " " + g, " " + b];
    assert parts[1][1..] == g;
    assert parts[2][1..] == b;
    IntRoundTrip(c.red);
    IntRoundTrip(c.green);
    IntRoundTrip(c.blue);
    assert '#' !in s by {
      assert '#' !in r && '#' !in g && '#' !in b;
    }
  }

  // ---------------------------------------------------------------------
  // Properties of the lightening
  // ---------------------------------------------------------------------

  /** With a non-negative amount each channel lies between its original value and 255. */
  lemma LightenBounds(hex: string, amount: int)
    requires ValidColor(hex) && amount >= 0
    ensures var c, o := Lighten(hex, amount), Channels(hex);
      && o.red <= c.red <= 255
      && o.green <= c.green <= 255
      && o.blue <= c.blue <= 255
  {
  }

  /** Lightening by nothing gives the original channels back. */
  lemma LightenByZero(hex: string)
    requires ValidColor(hex)
    ensures Lighten(hex, 0) == Channels(hex)
  {
  }

  /** A larger amount never gives a smaller channel. */
  lemma LightenMonotone(hex: string, a: int, b: int)
    requires ValidColor(hex) && a <= b
    ensures var x, y := Lighten(hex, a), Lighten(hex, b);
      x.red <= y.red && x.green <= y.green && x.blue <= y.blue
  {
  }

  /** The leading `#` is optional. */
  lemma HashIsOptional(hex: string, amount: int)
    requires '#' !in hex && |hex| >= 6 && AllHex(hex[..6])
    ensures ValidColor(hex) && ValidColor("#" + hex)
    ensures LightenColor("#" + hex, amount) == LightenColor(hex, amount)
  {
    assert Sanitize("#" + hex) == hex;
    assert Sanitize(hex) == hex;
    assert Channels("#" + hex) == Channels(hex);
    assert Lighten("#" + hex, amount) == Lighten(hex, amount);
  }

  /** With the icon's amount, a channel saturates exactly when it is at least 156. */
  lemma IconLighteningSaturates(hex: string)
    requires ValidColor(hex)
    ensures var c, o := Lighten(hex, IconLightening), Channels(hex);
      && (c.red == 255 <==> o.red >= 156)
      && (c.green == 255 <==> o.green >= 156)
      && (c.blue == 255 <==> o.blue >= 156)
      && (o.red < 156 ==> c.red == o.red + IconLightening)
      && (o.green < 156 ==> c.green == o.green + IconLightening)
      && (o.blue < 156 ==> c.blue == o.blue + IconLightening)
  {
  }

  /** A six-digit colour with or without `#` is read pair by pair. */
  lemma {:induction false} ChannelsOfDigits(hex: string)
    requires ValidColor(hex)
    ensures var s, c := Sanitize(hex), Channels(hex);
      && c.red == 16 * DigitValue(s[0]) + DigitValue(s[1])
      && c.green == 16 * DigitValue(s[2]) + DigitValue(s[3])
      && c.blue == 16 * DigitValue(s[4]) + DigitValue(s[5])
  {
    var s := Sanitize(hex);
    assert forall i :: 0 <= i < 6 ==> IsHexDigit(s[i]) by {
      forall i | 0 <= i < 6 ensures IsHexDigit(s[i]) {
        assert s[i] == s[..6][i];
      }
    }
    assert s[0..2] == [s[0], s[1]];
    assert s[2..4] == [s[2], s[3]];
    assert s[4..6] == [s[4], s[5]];
    ParsePair(s[0], s[1]);
    ParsePair(s[2], s[3]);
    ParsePair(s[4], s[5]);
  }
}
