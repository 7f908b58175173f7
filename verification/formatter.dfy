/**
 * Colour and padding rules of the text formatters (log/formatter.go). The escape codes are those
 * of ansicode/codes.go. Time formatting and fmt verbs are not modelled.
 */
module LogFormatter {
  import opened LogLevels
  import opened AnsiCode

  /** GetLogLevelString: the five named levels, anything else (Disabled included) is "msg". */
  function GetLogLevelString(lvl: Level): (s: string)
    ensures IsValidLevel(lvl) && lvl != DisabledLevel ==> s == LogLevelString(lvl)
    ensures !IsValidLevel(lvl) || lvl == DisabledLevel ==> s == "msg"
  {
    if lvl == InfoLevel then "info"
    else if lvl == WarnLevel then "warn"
    else if lvl == ErrorLevel then "error"
    else if lvl == DebugLevel then "debug"
    else if lvl == TraceLevel then "trace"
    else "msg"
  }

  function LevelColor(lvl: Level): string {
    if lvl == InfoLevel then Blue
    else if lvl == WarnLevel then YellowBright
    else if lvl == ErrorLevel then RedBright
    else if lvl == DebugLevel then White
    else BlackBright
  }

  /** GetLogLevelColoredMsg: the level's colour, the message, then Reset; unknown levels look like Trace. */
  function GetLogLevelColoredMsg(lvl: Level, msg: string): (r: string)
    ensures r == LevelColor(lvl) + msg + Reset
    ensures !IsValidLevel(lvl) || lvl == DisabledLevel ==> r == LevelColor(TraceLevel) + msg + Reset
    ensures r[|LevelColor(lvl)|..|r| - |Reset|] == msg
  {
    var c := LevelColor(lvl);
    var r := c + msg + Reset;
    assert r[|c|..|r| - |Reset|] == msg;
    r
  }

  /** logLevelColoredString: the level name padded to five characters, coloured. */
  function LogLevelColoredString(lvl: Level): (r: string)
    ensures |r| == |LevelColor(lvl)| + 5 + |Reset|
    ensures r[|LevelColor(lvl)|..|LevelColor(lvl)| + |GetLogLevelString(lvl)|] == GetLogLevelString(lvl)
  {
    var name := GetLogLevelString(lvl);
    var padded := PaddedString(name, 5);
    assert padded[..|name|] == name;
    GetLogLevelColoredMsg(lvl, padded)
  }

  const ColorMap: seq<string> := [BlackBright, Cyan, Green, Magenta]

  /** The number of bytes of a code point in UTF-8. */
  function RuneWidth(c: char): (w: nat)
    ensures 1 <= w <= 4
  {
    if c as int < 0x80 then 1 else if c as int < 0x800 then 2 else if c as int < 0x10000 then 3 else 4
  }

  /** len(s) in Go: the UTF-8 byte length. */
  function ByteLen(s: string): nat {
    if |s| == 0 then 0 else RuneWidth(s[0]) + ByteLen(s[1..])
  }

  /** The sum of the code points of the runes whose byte offset (starting at `offset`) is at most 10. */
  function RuneSum(s: string, offset: nat): nat {
    if |s| == 0 || offset > 10 then 0 else s[0] as nat + RuneSum(s[1..], offset + RuneWidth(s[0]))
  }

  function Min(a: nat, b: nat): nat { if a < b then a else b }

  /** The colour index HashColoredText computes for a name. */
  function HashIndex(name: string): (k: nat)
    ensures k < |ColorMap|
  {
    (Min(ByteLen(name), 10) + RuneSum(name, 0)) % |ColorMap|
  }

  /** HashColoredText: colours a field name by a cheap hash of its first bytes. */
  method HashColoredText(name: string) returns (r: string)
    ensures r == ColorMap[HashIndex(name)] + name + Reset
  {
    var l: int := ByteLen(name);
    if l > 10 {
      l := 10;
    }
    var i := 0;
    var offset: nat := 0;
    while i < |name|
      invariant 0 <= i <= |name|
      invariant l + RuneSum(name[i..], offset) == Min(ByteLen(name), 10) + RuneSum(name, 0)
      decreases |name| - i
    {
      if offset > 10 {
        break;
      }
      assert name[i..][1..] == name[i + 1..];
      l := l + name[i] as int;
      offset := offset + RuneWidth(name[i]);
      i := i + 1;
    }
    var index := l % |ColorMap|;
    if index < 0 {
      index := 0;
    }
    r := ColorMap[index] + name + Reset;
  }

  predicate IsAscii(s: string) {
    forall i :: 0 <= i < |s| ==> s[i] as int < 0x80
  }

  function CodeSum(s: string): nat {
    if |s| == 0 then 0 else s[0] as nat + CodeSum(s[1..])
  }

  /** For an ASCII name the hash is its length capped at 10 plus the codes of its first 11 characters. */
  lemma {:induction false} AsciiHash(name: string)
    requires IsAscii(name)
    ensures ByteLen(name) == |name|
    ensures RuneSum(name, 0) == CodeSum(name[..Min(|name|, 11)])
  {
    AsciiByteLen(name);
    AsciiRuneSum(name, 0);
  }

  lemma {:induction false} AsciiByteLen(s: string)
    requires IsAscii(s)
    ensures ByteLen(s) == |s|
  {
    if |s| > 0 {
      AsciiByteLen(s[1..]);
    }
  }

  lemma {:induction false} AsciiRuneSum(s: string, offset: nat)
    requires IsAscii(s) && offset <= 11
    ensures RuneSum(s, offset) == CodeSum(s[..Min(|s|, 11 - offset)])
    decreases |s|
  {
    if |s| > 0 && offset <= 10 {
      AsciiRuneSum(s[1..], offset + 1);
      assert s[..Min(|s|, 11 - offset)][1..] == s[1..][..Min(|s| - 1, 11 - offset - 1)];
    }
  }
}
