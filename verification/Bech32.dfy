/** Bech32 strings (bech32/bech32.go:61-74, 174-252): a human readable part, the last
    "1" as separator, and the data with its checksum in letters. */
module Bech32 {
  import opened Wrappers
  import opened Squasher
  import opened Checksum

  const CHARSET: string := "qpzry9x8gf2tvdw0s3jn54khce6mua7l"

  /** The rows of the table that gives each character its place in the charset, or -1.
      Upper and lower case letters share rows, and only the first half of the table is
      filled in: from 128 on every place is 0, that of "q". */
  const NONE: seq<int> := [-1, -1, -1, -1, -1, -1, -1, -1, -1, -1, -1, -1, -1, -1, -1, -1]
  const DIGITS: seq<int> := [15, -1, 10, 17, 21, 20, 26, 30, 7, 5, -1, -1, -1, -1, -1, -1]
  const LETTERS_A_O: seq<int> := [-1, 29, -1, 24, 13, 25, 9, 8, 23, -1, 18, 22, 31, 27, 19, -1]
  const LETTERS_P_Z: seq<int> := [1, 0, 3, 16, 11, 28, 12, 14, 6, 4, 2, -1, -1, -1, -1, -1]

  const UNFILLED: seq<int> := [0, 0, 0, 0, 0, 0, 0, 0, 0, 0, 0, 0, 0, 0, 0, 0]

  function InverseRow(row: nat): (r: seq<int>)
    ensures |r| == 16
  {
    if row == 3 then DIGITS
    else if row == 4 || row == 6 then LETTERS_A_O
    else if row == 5 || row == 7 then LETTERS_P_Z
    else if row < 8 then NONE
    else UNFILLED
  }

  function Inverse(c: char): int {
    InverseRow(c as int / 16)[c as int % 16]
  }

  predicate Ascii(s: string) {
    forall i :: 0 <= i < |s| ==> s[i] as int < 128
  }

  function Codes(s: string): (r: seq<nat>)
    ensures |r| == |s|
  {
    seq(|s|, i requires 0 <= i < |s| => s[i] as nat)
  }

  function LowerChar(c: char): char {
    if 'A' <= c <= 'Z' then (c as int + 32) as char else c
  }

  function UpperChar(c: char): char {
    if 'a' <= c <= 'z' then (c as int - 32) as char else c
  }

  function ToLower(s: string): (r: string)
    ensures |r| == |s|
  {
    seq(|s|, i requires 0 <= i < |s| => LowerChar(s[i]))
  }

  function ToUpper(s: string): (r: string)
    ensures |r| == |s|
  {
    seq(|s|, i requires 0 <= i < |s| => UpperChar(s[i]))
  }

  // ---------------------------------------------------------------- letters

  function Letters(five: seq<nat>): (r: string)
    requires Squashed(five)
    ensures |r| == |five|
  {
    seq(|five|, i requires 0 <= i < |five| => CHARSET[five[i]])
  }

  lemma LetterBack(v: nat)
    requires v < 32
    ensures CHARSET[v] as int < 128 && Inverse(CHARSET[v]) == v
    ensures CHARSET[v] != '1' && LowerChar(CHARSET[v]) == CHARSET[v]
  {
    match v
    case 0 =>  case 1 =>  case 2 =>  case 3 =>  case 4 =>  case 5 =>  case 6 =>  case 7 =>
    case 8 =>  case 9 =>  case 10 =>  case 11 =>  case 12 =>  case 13 =>  case 14 =>  case 15 =>
    case 16 =>  case 17 =>  case 18 =>  case 19 =>  case 20 =>  case 21 =>  case 22 =>  case 23 =>
    case 24 =>  case 25 =>  case 26 =>  case 27 =>  case 28 =>  case 29 =>  case 30 =>  case 31 =>
    case _ =>
  }

  lemma LetterForth(c: char)
    requires c as int < 128 && Inverse(c) != -1
    ensures 0 <= Inverse(c) < 32 && CHARSET[Inverse(c)] == LowerChar(c)
  {}

  /** Letters for squashed data; unsquashed data is refused. */
  method SquashedBytesToString(input: seq<nat>) returns (r: Option<string>)
    ensures r.Some? <==> Squashed(input)
    ensures r.Some? ==> r.value == Letters(input)
  {
    var s := "";
    for i := 0 to |input|
      invariant Squashed(input[..i]) && s == Letters(input[..i])
    {
      if input[i] >= 32 {
        return None;
      }
      assert input[..i + 1] == input[..i] + [input[i]];
      s := s + [CHARSET[input[i]]];
    }
    assert input[..|input|] == input;
    r := Some(s);
  }

  /** What the table takes a string for: letters of either case, and two q's for each
      character above ASCII, which has two bytes. */
  function Spelled(s: string): string {
    if s == "" then ""
    else
      var c := s[|s| - 1];
      Spelled(s[..|s| - 1]) + if c as int < 128 then [LowerChar(c)] else "qq"
  }

  /** Back to symbols, unless a character is not in the charset.  The table ends at 255. */
  method StringToSquashedBytes(input: string) returns (r: Option<seq<nat>>)
    requires forall i :: 0 <= i < |input| ==> input[i] as int < 256
    ensures r.Some? ==> Squashed(r.value) && Letters(r.value) == Spelled(input)
    ensures r.None? ==> !exists five :: Squashed(five) && Letters(five) == Spelled(input)
  {
    hide Letters, Spelled;
    var b: seq<nat> := [];
    NoLetters();
    for i := 0 to |input|
      invariant Squashed(b) && Letters(b) == Spelled(input[..i])
    {
      var c := input[i];
      SpelledNext(input, i);
      if Inverse(c) == -1 {
        SpelledPrefix(input, i + 1);
        forall five | Squashed(five) && Letters(five) == Spelled(input) ensures false {
          BadLetter(five, Spelled(input), |b|, c);
        }
        return None;
      }
      if c as int < 128 { LetterForth(c); } else { AboveAscii(c); }
      LettersPush(b, Inverse(c));
      b := b + [Inverse(c)];
      if c as int >= 128 {
        // the place of its second byte is left as it was made
        LettersPush(b, 0);
        b := b + [0];
      }
    }
    assert input[..|input|] == input;
    r := Some(b);
  }

  lemma NoLetters()
    ensures Letters([]) == "" == Spelled("")
  {}

  lemma SpelledNext(s: string, i: nat)
    requires i < |s|
    ensures Spelled(s[..i + 1]) == Spelled(s[..i]) + if s[i] as int < 128 then [LowerChar(s[i])] else "qq"
  {
    assert s[..i + 1][..i] == s[..i];
  }

  lemma {:induction false} SpelledPrefix(s: string, i: nat)
    requires i <= |s|
    ensures Spelled(s[..i]) <= Spelled(s)
    decreases |s| - i
  {
    if i < |s| {
      SpelledNext(s, i);
      SpelledPrefix(s, i + 1);
    } else {
      assert s[..i] == s;
    }
  }

  lemma AboveAscii(c: char)
    requires 128 <= c as int < 256
    ensures Inverse(c) == 0 && CHARSET[0] == 'q'
  {}

  lemma LettersPush(b: seq<nat>, v: nat)
    requires Squashed(b) && v < 32
    ensures Squashed(b + [v]) && Letters(b + [v]) == Letters(b) + [CHARSET[v]]
  {}

  /** A character that the table refuses has no place among letters. */
  lemma BadLetter(five: seq<nat>, s: string, i: nat, c: char)
    requires Squashed(five) && Letters(five) == s && i < |s| && s[i] == LowerChar(c) && c as int < 128
    ensures Inverse(c) != -1
  {
    LetterBack(five[i]);
  }

  /** A string is taken for itself, up to case, exactly when it is ASCII. */
  lemma {:induction false} SpelledAscii(s: string)
    ensures |Spelled(s)| >= |s|
    ensures Spelled(s) == ToLower(s) <==> Ascii(s)
    decreases |s|
  {
    if s != "" {
      var n := |s| - 1;
      SpelledAscii(s[..n]);
      assert ToLower(s) == ToLower(s[..n]) + [LowerChar(s[n])];
      if s[n] as int < 128 && Spelled(s) == ToLower(s) {
        assert Spelled(s)[..n] == Spelled(s[..n]) && ToLower(s)[..n] == ToLower(s[..n]);
      }
    }
  }

  lemma {:induction false} SpelledConcat(a: string, b: string)
    ensures Spelled(a + b) == Spelled(a) + Spelled(b)
    decreases |b|
  {
    if b == "" {
      assert a + b == a;
    } else {
      var n := |b| - 1;
      SpelledConcat(a, b[..n]);
      assert (a + b)[..|a + b| - 1] == a + b[..n];
    }
  }

  /** A character from 128 to 255 is read as "qq" wherever it stands, so different strings
      are read alike. */
  lemma ReadAlike(a: string, c: char, b: string)
    requires 128 <= c as int < 256
    ensures Spelled(a + [c] + b) == Spelled(a + "qq" + b)
  {
    hide Spelled;
    SpelledConcat(a + [c], b);
    SpelledConcat(a, [c]);
    SpelledConcat(a + "qq", b);
    SpelledConcat(a, "qq");
    SpelledLetter(c);
    SpelledLetter('q');
    SpelledConcat("q", "q");
    assert "qq" == "q" + "q" && "q" == ['q'];
  }

  lemma SpelledLetter(c: char)
    ensures Spelled([c]) == if c as int < 128 then [LowerChar(c)] else "qq"
  {
    assert [c][..0] == "" && Spelled("") == "";
  }

  lemma LettersUnique(a: seq<nat>, b: seq<nat>)
    requires Squashed(a) && Squashed(b) && Letters(a) == Letters(b)
    ensures a == b
  {
    forall i | 0 <= i < |a| ensures a[i] == b[i] {
      LetterBack(a[i]);
      LetterBack(b[i]);
      assert Letters(a)[i] == Letters(b)[i];
    }
  }

  lemma NoSeparator(five: seq<nat>)
    requires Squashed(five)
    ensures Ascii(Letters(five)) && ToLower(Letters(five)) == Letters(five)
    ensures forall i :: 0 <= i < |five| ==> Letters(five)[i] != '1'
  {
    forall i | 0 <= i < |five|
      ensures var c := Letters(five)[i]; c as int < 128 && LowerChar(c) == c && c != '1'
    {
      LetterBack(five[i]);
    }
  }

  // ------------------------------------------------------- encode and decode

  /** adr is squashed data under hrp, with a checksum that fits. */
  ghost predicate SquashedForm(hrp: string, five: seq<nat>, sum: seq<nat>, adr: string) {
    && Squashed(five) && Squashed(sum) && |sum| == 6
    && adr == hrp + "1" + Letters(five + sum)
    && Sum(Codes(hrp), five + sum) == One()
  }

  /** adr is what hrp and data encode to. */
  ghost predicate Encodes(hrp: string, data: seq<nat>, adr: string) {
    exists five, sum :: Squashes(data, five) && SquashedForm(hrp, five, sum, adr)
  }

  lemma SquashesSquashed(data: seq<nat>, five: seq<nat>)
    requires Squashes(data, five)
    ensures Squashed(five)
  {
    PowFive();
  }

  /** Data that is not squashed encodes to the empty string. */
  method EncodeSquashed(hrp: string, data: seq<nat>) returns (adr: string)
    ensures Squashed(data) ==> exists sum :: SquashedForm(hrp, data, sum, adr)
    ensures !Squashed(data) ==> adr == ""
  {
    hide Letters, Sum;
    var sum := CreateChecksum(Codes(hrp), data);
    var dataString := SquashedBytesToString(data + sum);
    if dataString.None? {
      if Squashed(data) { SquashedBoth(data, sum); }
      return "";
    }
    SquashedParts(data, sum);
    adr := hrp + "1" + dataString.value;
    assert SquashedForm(hrp, data, sum, adr);
  }

  lemma SquashedBoth(a: seq<nat>, b: seq<nat>)
    requires Squashed(a) && Squashed(b)
    ensures Squashed(a + b)
  {}

  lemma SquashedParts(a: seq<nat>, b: seq<nat>)
    requires Squashed(a + b)
    ensures Squashed(a) && Squashed(b)
  {
    forall i | 0 <= i < |a| ensures a[i] < 32 { assert (a + b)[i] == a[i]; }
    forall i | 0 <= i < |b| ensures b[i] < 32 { assert (a + b)[|a| + i] == b[i]; }
  }

  method Encode(hrp: string, data: seq<nat>) returns (adr: string)
    requires Below(data, 8)
    ensures Encodes(hrp, data, adr)
  {
    hide Squashes, SquashedForm;
    var fiveData := Bytes8to5(data);
    SquashesSquashed(data, fiveData);
    adr := EncodeSquashed(hrp, fiveData);
  }

  method LastIndex(adr: string) returns (at: int)
    ensures at == -1 ==> forall i :: 0 <= i < |adr| ==> adr[i] != '1'
    ensures at != -1 ==> 0 <= at < |adr| && adr[at] == '1' && forall i :: at < i < |adr| ==> adr[i] != '1'
  {
    at := |adr| - 1;
    while at >= 0 && adr[at] != '1'
      invariant -1 <= at < |adr| && forall i :: at < i < |adr| ==> adr[i] != '1'
    {
      at := at - 1;
    }
  }

  predicate MixedCase(adr: string) {
    adr != ToLower(adr) && adr != ToUpper(adr)
  }

  /** The human readable part and the squashed data, if the string is well formed. */
  method DecodeSquashed(adr0: string) returns (r: Option<(string, seq<nat>)>)
    requires Ascii(adr0)
    ensures r.Some? ==> !MixedCase(adr0) && exists sum :: SquashedForm(r.value.0, r.value.1, sum, ToLower(adr0))
    ensures r.None? ==> MixedCase(adr0) || !exists hrp, five, sum :: SquashedForm(hrp, five, sum, ToLower(adr0))
  {
    hide Letters, Sum, Squashed, SquashedForm;
    var lowAdr := ToLower(adr0);
    var highAdr := ToUpper(adr0);
    if adr0 != lowAdr && adr0 != highAdr {
      return None;
    }
    var adr := lowAdr;
    LowerTwice(adr0);
    var splitLoc := LastIndex(adr);
    if splitLoc == -1 {
      forall hrp, five, sum { NeedsSeparator(hrp, five, sum, adr); }
      return None;
    }
    var hrp := adr[..splitLoc];
    LowerTail(adr, splitLoc + 1);
    SpelledAscii(adr[splitLoc + 1..]);
    var data := StringToSquashedBytes(adr[splitLoc + 1..]);
    if data.None? {
      forall hrp', five, sum { NeedsLetters(hrp', five, sum, adr, splitLoc); }
      return None;
    }
    forall hrp', five, sum { NeedsSum(hrp', five, sum, adr, splitLoc, data.value); }
    var sumOk := VerifyChecksum(Codes(hrp), data.value);
    if !sumOk {
      return None;
    }
    if |data.value| < 6 {
      return None;
    }
    FormMade(adr, splitLoc, data.value);
    r := Some((hrp, data.value[..|data.value| - 6]));
  }

  lemma NeedsSeparator(hrp: string, five: seq<nat>, sum: seq<nat>, adr: string)
    requires forall i :: 0 <= i < |adr| ==> adr[i] != '1'
    ensures !SquashedForm(hrp, five, sum, adr)
  {
    if SquashedForm(hrp, five, sum, adr) { SplitsAt(hrp, five, sum, adr); }
  }

  /** Where the last "1" is, and what follows it. */
  predicate LastOne(adr: string, at: int) {
    0 <= at < |adr| && adr[at] == '1' && forall i :: at < i < |adr| ==> adr[i] != '1'
  }

  lemma NeedsLetters(hrp: string, five: seq<nat>, sum: seq<nat>, adr: string, at: int)
    requires LastOne(adr, at) && !exists all :: Squashed(all) && Letters(all) == adr[at + 1..]
    ensures !SquashedForm(hrp, five, sum, adr)
  {
    hide Letters, Sum;
    if SquashedForm(hrp, five, sum, adr) { SplitsAt(hrp, five, sum, adr); }
  }

  lemma NeedsSum(hrp: string, five: seq<nat>, sum: seq<nat>, adr: string, at: int, data: seq<nat>)
    requires LastOne(adr, at) && Squashed(data) && Letters(data) == adr[at + 1..]
    ensures SquashedForm(hrp, five, sum, adr) ==> |data| >= 6 && Sum(Codes(adr[..at]), data) == One()
  {
    hide Letters, Sum;
    if SquashedForm(hrp, five, sum, adr) {
      SplitsAt(hrp, five, sum, adr);
      LettersUnique(five + sum, data);
    }
  }

  lemma FormMade(adr: string, at: int, data: seq<nat>)
    requires LastOne(adr, at) && Squashed(data) && Letters(data) == adr[at + 1..]
    requires |data| >= 6 && Sum(Codes(adr[..at]), data) == One()
    ensures SquashedForm(adr[..at], data[..|data| - 6], data[|data| - 6..], adr)
  {
    hide Letters, Sum, Squashed;
    var cut := |data| - 6;
    assert data == data[..cut] + data[cut..];
    SquashedParts(data[..cut], data[cut..]);
    assert adr == adr[..at] + "1" + adr[at + 1..];
  }

  lemma LowerTwice(s: string)
    requires Ascii(s)
    ensures ToLower(ToLower(s)) == ToLower(s) && Ascii(ToLower(s))
  {}

  lemma LowerTail(s: string, k: nat)
    requires k <= |s| && ToLower(s) == s && Ascii(s)
    ensures ToLower(s[k..]) == s[k..] && Ascii(s[k..])
  {}

  /** The separator of an encoded string is its last "1". */
  lemma SplitsAt(hrp: string, five: seq<nat>, sum: seq<nat>, adr: string)
    requires SquashedForm(hrp, five, sum, adr)
    ensures |hrp| < |adr| && adr[|hrp|] == '1' && (forall i :: |hrp| < i < |adr| ==> adr[i] != '1')
    ensures hrp == adr[..|hrp|] && Squashed(five + sum) && Letters(five + sum) == adr[|hrp| + 1..]
  {
    hide Letters, Sum;
    SquashedBoth(five, sum);
    NoSeparator(five + sum);
    var tail := Letters(five + sum);
    forall i | |hrp| < i < |adr| ensures adr[i] != '1' {
      assert adr[i] == tail[i - |hrp| - 1];
    }
  }

  /** A string is decoded exactly when it is, in one case, what some hrp and bytes
      encode to. */
  method Decode(adr: string) returns (r: Option<(string, seq<nat>)>)
    requires Ascii(adr)
    ensures r.Some? ==> !MixedCase(adr) && Encodes(r.value.0, r.value.1, ToLower(adr))
    ensures r.None? ==> MixedCase(adr) || !exists hrp, data :: Encodes(hrp, data, ToLower(adr))
  {
    hide Squashes, SquashedForm;
    var squashed := DecodeSquashed(adr);
    if squashed.None? {
      return None;
    }
    var data := Bytes5to8(squashed.value.1);
    if data.None? {
      forall hrp, d, five, sum | Squashes(d, five) && SquashedForm(hrp, five, sum, ToLower(adr)) ensures false {
        var s :| SquashedForm(squashed.value.0, squashed.value.1, s, ToLower(adr));
        FormUnique(hrp, five, sum, squashed.value.0, squashed.value.1, s, ToLower(adr));
      }
      return None;
    }
    r := Some((squashed.value.0, data.value));
  }

  lemma FormUnique(hrp: string, five: seq<nat>, sum: seq<nat>, hrp': string, five': seq<nat>, sum': seq<nat>, adr: string)
    requires SquashedForm(hrp, five, sum, adr) && SquashedForm(hrp', five', sum', adr)
    ensures hrp == hrp' && five == five' && sum == sum'
  {
    hide Letters, Sum;
    SplitsAt(hrp, five, sum, adr);
    SplitsAt(hrp', five', sum', adr);
    LettersUnique(five + sum, five' + sum');
    assert five == (five + sum)[..|five|] && five' == (five' + sum')[..|five|];
    assert sum == (five + sum)[|five|..] && sum' == (five' + sum')[|five|..];
  }

  /** A string encodes at most one human readable part and one list of bytes. */
  lemma EncodesUnique(hrp: string, data: seq<nat>, hrp': string, data': seq<nat>, adr: string)
    requires Encodes(hrp, data, adr) && Encodes(hrp', data', adr)
    ensures hrp == hrp' && data == data'
  {
    hide Squashes, SquashedForm;
    var five, sum :| Squashes(data, five) && SquashedForm(hrp, five, sum, adr);
    var five', sum' :| Squashes(data', five') && SquashedForm(hrp', five', sum', adr);
    FormUnique(hrp, five, sum, hrp', five', sum', adr);
    SquashesOneToOne(data, five, data', five');
  }

  lemma EncodedLower(hrp: string, data: seq<nat>, adr: string)
    requires Encodes(hrp, data, adr) && Ascii(hrp) && ToLower(hrp) == hrp
    ensures Ascii(adr) && ToLower(adr) == adr
  {
    hide Squashes, Letters, Sum;
    var five, sum :| Squashes(data, five) && SquashedForm(hrp, five, sum, adr);
    SquashedBoth(five, sum);
    NoSeparator(five + sum);
    var tail := Letters(five + sum);
    forall i | 0 <= i < |adr| ensures adr[i] as int < 128 && LowerChar(adr[i]) == adr[i] {
      if i < |hrp| { assert adr[i] == hrp[i] == ToLower(hrp)[i]; }
      else if i > |hrp| { assert adr[i] == tail[i - |hrp| - 1] == ToLower(tail)[i - |hrp| - 1]; }
    }
  }

  /** Decoding what was encoded gives back the human readable part and the bytes. */
  method RoundTrip(hrp: string, data: seq<nat>) returns (back: Option<(string, seq<nat>)>)
    requires Ascii(hrp) && ToLower(hrp) == hrp && Below(data, 8)
    ensures back == Some((hrp, data))
  {
    hide Encodes;
    var adr := Encode(hrp, data);
    EncodedLower(hrp, data, adr);
    back := Decode(adr);
    EncodesUnique(hrp, data, back.value.0, back.value.1, adr);
  }
}
