/** The string operations the protocol layer relies on, over ASCII. */
module Text {
  import opened Prelude

  // str.isspace for the ASCII range: TAB..CR, FS..US and the blank.
  predicate IsSpace(c: char) {
    '\t' <= c <= '\r' || '\U{1C}' <= c <= ' '
  }

  function UpperChar(c: char): char {
    if 'a' <= c <= 'z' then c - ' ' else c
  }

  function Upper(s: string): (r: string)
    ensures |r| == |s|
  {
    seq(|s|, i requires 0 <= i < |s| => UpperChar(s[i]))
  }

  function StripLeft(s: string): string {
    if s != "" && IsSpace(s[0]) then StripLeft(s[1..]) else s
  }

  function StripRight(s: string): string {
    if s != "" && IsSpace(s[|s| - 1]) then StripRight(s[..|s| - 1]) else s
  }

  function Strip(s: string): string {
    StripRight(StripLeft(s))
  }

  predicate Trimmed(s: string) {
    s == "" || (!IsSpace(s[0]) && !IsSpace(s[|s| - 1]))
  }

  ghost predicate Blank(s: string) {
    forall i :: 0 <= i < |s| ==> IsSpace(s[i])
  }

  lemma {:induction false} StripLeftSplits(s: string) returns (pre: string)
    ensures Blank(pre) && s == pre + StripLeft(s)
    ensures StripLeft(s) == "" || !IsSpace(StripLeft(s)[0])
  {
    if s != "" && IsSpace(s[0]) {
      var rest := StripLeftSplits(s[1..]);
      pre := [s[0]] + rest;
    } else {
      pre := "";
    }
  }

  lemma {:induction false} StripRightSplits(s: string) returns (post: string)
    ensures Blank(post) && s == StripRight(s) + post
    ensures StripRight(s) == "" || !IsSpace(StripRight(s)[|StripRight(s)| - 1])
  {
    if s != "" && IsSpace(s[|s| - 1]) {
      var rest := StripRightSplits(s[..|s| - 1]);
      post := rest + [s[|s| - 1]];
      assert s == s[..|s| - 1] + [s[|s| - 1]];
    } else {
      post := "";
    }
  }

  /** Stripping removes blanks at both ends and nothing else. */
  lemma StripSplits(s: string) returns (pre: string, post: string)
    ensures Blank(pre) && Blank(post)
    ensures s == pre + Strip(s) + post
    ensures Trimmed(Strip(s))
  {
    pre := StripLeftSplits(s);
    post := StripRightSplits(StripLeft(s));
    var r := Strip(s);
    if r != "" {
      assert StripLeft(s)[0] == r[0];
    }
  }

  lemma StripFixed(s: string)
    requires Trimmed(s)
    ensures Strip(s) == s
  {
  }

  lemma UpperFixed(s: string)
    ensures Upper(Upper(s)) == Upper(s)
    ensures Trimmed(s) ==> Trimmed(Upper(s))
  {
  }

  lemma UpperKeepsOut(s: string, c: char)
    requires c !in s && !('A' <= c <= 'Z')
    ensures c !in Upper(s)
  {
  }

  /** Pieces between occurrences of `sep`; one more piece than separators. */
  function Split(s: string, sep: char): (r: seq<string>)
    ensures |r| >= 1
    ensures forall i :: 0 <= i < |r| ==> sep !in r[i]
  {
    if s == "" then [""]
    else
      var r := Split(s[1..], sep);
      if s[0] == sep then [""] + r else [[s[0]] + r[0]] + r[1..]
  }

  lemma {:induction false} SplitWhole(s: string, sep: char)
    requires sep !in s
    ensures Split(s, sep) == [s]
  {
    if s != "" {
      SplitWhole(s[1..], sep);
      assert [s[0]] + s[1..] == s;
    }
  }

  lemma {:induction false} SplitJoin(a: string, sep: char, b: string)
    ensures Split(a + [sep] + b, sep) == Split(a, sep) + Split(b, sep)
  {
    if a == "" {
      assert (a + [sep] + b)[1..] == b;
    } else {
      assert (a + [sep] + b)[1..] == a[1..] + [sep] + b;
      SplitJoin(a[1..], sep, b);
    }
  }

  /** The pieces with the separator between them. */
  function Join(parts: seq<string>, sep: char): string
    requires parts != []
  {
    if |parts| == 1 then parts[0] else parts[0] + [sep] + Join(parts[1..], sep)
  }

  lemma JoinHead(c: char, parts: seq<string>, sep: char)
    requires parts != []
    ensures Join([[c] + parts[0]] + parts[1..], sep) == [c] + Join(parts, sep)
  {
    var after := [[c] + parts[0]] + parts[1..];
    if |parts| > 1 {
      assert after[1..] == parts[1..];
      assert [c] + parts[0] + [sep] + Join(parts[1..], sep) == [c] + (parts[0] + [sep] + Join(parts[1..], sep));
    }
  }

  /** Splitting and joining undo each other, as long as no piece holds the separator. */
  lemma {:induction false} JoinSplit(s: string, sep: char)
    ensures Join(Split(s, sep), sep) == s
  {
    if s != "" {
      JoinSplit(s[1..], sep);
      var r := Split(s[1..], sep);
      if s[0] == sep {
        assert ([""] + r)[1..] == r;
        assert s == "" + [sep] + s[1..];
      } else {
        JoinHead(s[0], r, sep);
        assert s == [s[0]] + s[1..];
      }
    }
  }

  lemma {:induction false} SplitJoined(parts: seq<string>, sep: char)
    requires parts != [] && forall p :: p in parts ==> sep !in p
    ensures Split(Join(parts, sep), sep) == parts
  {
    SplitWhole(parts[0], sep);
    if |parts| > 1 {
      SplitJoined(parts[1..], sep);
      SplitJoin(parts[0], sep, Join(parts[1..], sep));
      assert parts == [parts[0]] + parts[1..];
    } else {
      assert parts == [parts[0]];
    }
  }

  // ---- Letters and blanks ----

  /** Each small letter has the capital of the same place in the alphabet; nothing else changes. */
  lemma UpperLetters(s: string, i: nat)
    requires i < |s|
    ensures var small, capital := "abcdefghijklmnopqrstuvwxyz", "ABCDEFGHIJKLMNOPQRSTUVWXYZ";
            && (forall j :: 0 <= j < 26 && s[i] == small[j] ==> Upper(s)[i] == capital[j])
            && (s[i] !in small ==> Upper(s)[i] == s[i])
  {
    var small, capital := "abcdefghijklmnopqrstuvwxyz", "ABCDEFGHIJKLMNOPQRSTUVWXYZ";
    AlphabetsMatch();
    if 'a' <= s[i] <= 'z' { assert small[(s[i] - 'a') as int] == s[i]; }
  }

  lemma AlphabetsMatch()
    ensures var small, capital := "abcdefghijklmnopqrstuvwxyz", "ABCDEFGHIJKLMNOPQRSTUVWXYZ";
            |small| == |capital| == 26
            && forall j :: 0 <= j < 26 ==> small[j] == 'a' + j as char && capital[j] == small[j] - ' '
  {
  }

  /** What counts as a blank. */
  lemma Blanks(c: char)
    ensures IsSpace(c) <==> c in "\t\n\U{B}\U{C}\r\U{1C}\U{1D}\U{1E}\U{1F} "
  {
  }

  // ---- Decimal text of integers ----

  function Digit(d: nat): char
    requires d < 10
  {
    "0123456789"[d]
  }

  function NatText(n: nat): (r: string)
    ensures r != ""
  {
    if n < 10 then [Digit(n)] else NatText(n / 10) + [Digit(n % 10)]
  }

  function IntText(i: int): (r: string)
    ensures r != ""
  {
    if i < 0 then "-" + NatText(-i) else NatText(i)
  }

  function DigitValue(c: char): Option<nat> {
    if '0' <= c <= '9' then Some((c - '0') as nat) else None
  }

  function NatValue(s: string): Option<nat> {
    if s == "" then None
    else
      var last := DigitValue(s[|s| - 1]);
      if |s| == 1 then last
      else
        var before := NatValue(s[..|s| - 1]);
        if before.None? || last.None? then None else Some(10 * before.value + last.value)
  }

  /** The integer a decimal text denotes. */
  function IntValue(s: string): Option<int> {
    if s != "" && s[0] == '-' then
      var v := NatValue(s[1..]);
      if v.None? then None else Some(0 - v.value as int)
    else
      var v := NatValue(s);
      if v.None? then None else Some(v.value)
  }

  lemma DigitRead(d: nat)
    requires d < 10
    ensures DigitValue(Digit(d)) == Some(d) && Digit(d) != '-'
  {
  }

  lemma {:induction false} NatTextValue(n: nat)
    ensures NatValue(NatText(n)) == Some(n) && NatText(n)[0] != '-'
  {
    DigitRead(n % 10);
    if n >= 10 {
      NatTextValue(n / 10);
      assert NatText(n)[..|NatText(n)| - 1] == NatText(n / 10);
    }
  }

  /** Reading the decimal text of an integer gives the integer. */
  lemma IntTextValue(i: int)
    ensures IntValue(IntText(i)) == Some(i)
  {
    NatTextValue(if i < 0 then -i else i);
    if i < 0 { assert IntText(i)[1..] == NatText(-i); }
  }
}
