/** `capitalize` (src/utils/utils.ts): split on single spaces, upper-case the first
    character of each token, join with single spaces. Upper-casing is the ASCII map. */
module Capitalizer {

  /** `toUpperCase` on one character, restricted to ASCII letters. */
  function Upper(c: char): (u: char)
    ensures 'a' <= c <= 'z' ==> u as int == c as int - 32
    ensures !('a' <= c <= 'z') ==> u == c
  {
    if 'a' <= c <= 'z' then (c as int - 32) as char else c
  }

  /** Upper-casing is idempotent, changes exactly the lower-case letters, sends them
      onto the capitals, and leaves spaces (and only spaces) as spaces. */
  lemma UpperFacts(c: char)
    ensures Upper(Upper(c)) == Upper(c)
    ensures Upper(c) == ' ' <==> c == ' '
    ensures Upper(c) != c <==> 'a' <= c <= 'z'
    ensures 'a' <= c <= 'z' ==> 'A' <= Upper(c) <= 'Z'
  {
  }

  /** Distinct lower-case letters have distinct capitals, so with `UpperFacts` the
      letters `a`-`z` map one-to-one onto `A`-`Z`. */
  lemma UpperOneToOne(c: char, d: char)
    requires 'a' <= c <= 'z' && 'a' <= d <= 'z' && c != d
    ensures Upper(c) != Upper(d)
  {
  }

  /** `str.split(' ')`: the tokens between single spaces; never empty, and an
      empty string gives one empty token. */
  function Split(s: string): (ws: seq<string>)
    ensures |ws| >= 1
    decreases |s|
  {
    if |s| == 0 then [""]
    else if s[0] == ' ' then [""] + Split(s[1..])
    else
      var rest := Split(s[1..]);
      [[s[0]] + rest[0]] + rest[1..]
  }

  /** `words.join(' ')` */
  function Join(ws: seq<string>): string
    requires |ws| >= 1
    decreases |ws|
  {
    if |ws| == 1 then ws[0] else ws[0] + " " + Join(ws[1..])
  }

  /** `word.charAt(0).toUpperCase() + word.slice(1)` */
  function CapitalizeWord(w: string): (r: string)
    ensures |r| == |w|
  {
    if w == "" then "" else [Upper(w[0])] + w[1..]
  }

  function MapCapitalize(ws: seq<string>): (rs: seq<string>)
    ensures |rs| == |ws|
    ensures forall i :: 0 <= i < |ws| ==> rs[i] == CapitalizeWord(ws[i])
  {
    seq(|ws|, i requires 0 <= i < |ws| => CapitalizeWord(ws[i]))
  }

  /** `capitalize` as the source composes it. */
  function Capitalize(s: string): string {
    Join(MapCapitalize(Split(s)))
  }

  /** Reference definition, one character at a time: a character is upper-cased when
      it starts a token, that is when it is the first character or follows a space. */
  function CapitalizeFrom(s: string, atStart: bool): (r: string)
    ensures |r| == |s|
    decreases |s|
  {
    if s == "" then ""
    else [if atStart then Upper(s[0]) else s[0]] + CapitalizeFrom(s[1..], s[0] == ' ')
  }

  /** Prepending a character to the first token prepends it to the joined string. */
  lemma {:induction false} JoinConsFirst(c: char, ws: seq<string>)
    requires |ws| >= 1
    ensures Join([[c] + ws[0]] + ws[1..]) == [c] + Join(ws)
  {
    var vs := [[c] + ws[0]] + ws[1..];
    assert |vs| == |ws| && vs[0] == [c] + ws[0];
    if |ws| == 1 {
      assert Join(vs) == vs[0];
    } else {
      assert vs[1..] == ws[1..];
      var rest := Join(ws[1..]);
      assert Join(vs) == ([c] + ws[0]) + " " + rest;
      assert Join(ws) == ws[0] + " " + rest;
      assert ([c] + ws[0]) + " " + rest == [c] + (ws[0] + " " + rest);
    }
  }

  /** Joining tokens whose first one is capitalized when `atStart` holds gives the
      reference result. */
  lemma {:induction false} CapitalizeFromSplit(s: string, atStart: bool)
    ensures
      var ws := Split(s);
      var first := if atStart then CapitalizeWord(ws[0]) else ws[0];
      Join([first] + MapCapitalize(ws[1..])) == CapitalizeFrom(s, atStart)
    decreases |s|
  {
    var ws := Split(s);
    if |s| == 0 {
    } else if s[0] == ' ' {
      var tail := Split(s[1..]);
      assert ws == [""] + tail;
      assert ws[1..] == tail;
      var caps := MapCapitalize(tail);
      assert caps == [CapitalizeWord(tail[0])] + MapCapitalize(tail[1..]);
      CapitalizeFromSplit(s[1..], true);
      assert Join([""] + caps) == "" + " " + Join(caps);
    } else {
      var tail := Split(s[1..]);
      assert ws == [[s[0]] + tail[0]] + tail[1..];
      assert ws[1..] == tail[1..];
      var c := if atStart then Upper(s[0]) else s[0];
      var first := if atStart then CapitalizeWord(ws[0]) else ws[0];
      assert first == [c] + tail[0];
      CapitalizeFromSplit(s[1..], false);
      JoinConsFirst(c, [tail[0]] + MapCapitalize(tail[1..]));
      assert [[c] + tail[0]] + MapCapitalize(tail[1..])
          == [[c] + ([tail[0]] + MapCapitalize(tail[1..]))[0]] + ([tail[0]] + MapCapitalize(tail[1..]))[1..];
    }
  }

  /** `capitalize` agrees with the character-at-a-time reference. */
  lemma CapitalizeIsReference(s: string)
    ensures Capitalize(s) == CapitalizeFrom(s, true)
  {
    var ws := Split(s);
    CapitalizeFromSplit(s, true);
    assert MapCapitalize(ws) == [CapitalizeWord(ws[0])] + MapCapitalize(ws[1..]);
  }

  /** Character `i` of the reference result. */
  lemma {:induction false} CapitalizeFromAt(s: string, atStart: bool, i: nat)
    requires i < |s|
    ensures CapitalizeFrom(s, atStart)[i]
         == if (if i == 0 then atStart else s[i - 1] == ' ') then Upper(s[i]) else s[i]
    decreases |s|
  {
    if i > 0 {
      CapitalizeFromAt(s[1..], s[0] == ' ', i - 1);
    }
  }

  /** What `capitalize` does, character by character: the length is kept, the first
      character of each token is upper-cased and every other character (spaces
      included) is unchanged. */
  lemma CapitalizeChars(s: string)
    ensures |Capitalize(s)| == |s|
    ensures forall i :: 0 <= i < |s| ==>
      Capitalize(s)[i] == if i == 0 || s[i - 1] == ' ' then Upper(s[i]) else s[i]
  {
    CapitalizeIsReference(s);
    forall i | 0 <= i < |s|
      ensures Capitalize(s)[i] == if i == 0 || s[i - 1] == ' ' then Upper(s[i]) else s[i]
    {
      CapitalizeFromAt(s, true, i);
    }
  }

  /** Spaces stay where they are, so consecutive spaces (empty tokens) pass through. */
  lemma CapitalizeKeepsSpaces(s: string)
    ensures |Capitalize(s)| == |s|
    ensures forall i :: 0 <= i < |s| ==> (Capitalize(s)[i] == ' ' <==> s[i] == ' ')
  {
    CapitalizeChars(s);
    forall i | 0 <= i < |s| ensures Capitalize(s)[i] == ' ' <==> s[i] == ' ' {
      assert Capitalize(s)[i] == if i == 0 || s[i - 1] == ' ' then Upper(s[i]) else s[i];
      UpperFacts(s[i]);
    }
  }

  /** The number of spaces in a string. */
  function Spaces(s: string): nat {
    if s == "" then 0 else (if s[0] == ' ' then 1 else 0) + Spaces(s[1..])
  }

  /** `split(' ')` yields one token more than there are spaces. */
  lemma {:induction false} SplitCount(s: string)
    ensures |Split(s)| == Spaces(s) + 1
    decreases |s|
  {
    if |s| > 0 {
      SplitCount(s[1..]);
    }
  }

  lemma {:induction false} SpacesSamePositions(s: string, t: string)
    requires |s| == |t|
    requires forall i :: 0 <= i < |s| ==> (s[i] == ' ' <==> t[i] == ' ')
    ensures Spaces(s) == Spaces(t)
    decreases |s|
  {
    if |s| > 0 {
      SpacesSamePositions(s[1..], t[1..]);
    }
  }

  /** Splitting the result gives as many tokens as splitting the input. */
  lemma CapitalizeTokenCount(s: string)
    ensures |Split(Capitalize(s))| == |Split(s)|
  {
    CapitalizeChars(s);
    CapitalizeKeepsSpaces(s);
    SplitCount(s);
    SplitCount(Capitalize(s));
    SpacesSamePositions(s, Capitalize(s));
  }

  /** Capitalizing twice is capitalizing once. */
  lemma CapitalizeIdempotent(s: string)
    ensures Capitalize(Capitalize(s)) == Capitalize(s)
  {
    var t := Capitalize(s);
    CapitalizeChars(s);
    CapitalizeKeepsSpaces(s);
    CapitalizeChars(t);
    forall i | 0 <= i < |s| ensures Capitalize(t)[i] == t[i] {
      var start := i == 0 || s[i - 1] == ' ';
      assert t[i] == if start then Upper(s[i]) else s[i];
      assert start == (i == 0 || t[i - 1] == ' ');
      assert Capitalize(t)[i] == if start then Upper(t[i]) else t[i];
      UpperFacts(s[i]);
    }
  }

  /** `capitalize("")` is `""` (one empty token, joined back). */
  lemma CapitalizeEmpty()
    ensures Capitalize("") == ""
  {
    assert Split("") == [""];
  }

  /** The usage example `capitalize("hello")`. */
  lemma CapitalizeHello()
    ensures Capitalize("hello") == "Hello"
  {
    CapitalizeIsReference("hello");
    assert CapitalizeFrom("o", false) == "o";
    assert CapitalizeFrom("lo", false) == "lo";
    assert CapitalizeFrom("llo", false) == "llo";
    assert CapitalizeFrom("ello", false) == "ello";
  }

  /** A double space keeps both (empty) tokens apart, each side capitalized. */
  lemma CapitalizeDoubleSpace()
    ensures Capitalize("a  b") == "A  B"
  {
    CapitalizeIsReference("a  b");
    assert CapitalizeFrom("b", true) == "B";
    assert CapitalizeFrom(" b", true) == " B";
    assert CapitalizeFrom("  b", false) == "  B";
  }

  /** Text after a space is capitalized independently of the text before it. */
  lemma {:induction false} CapitalizeFromAppend(a: string, b: string, atStart: bool)
    ensures CapitalizeFrom(a + " " + b, atStart) == CapitalizeFrom(a, atStart) + " " + CapitalizeFrom(b, true)
    decreases |a|
  {
    if a == "" {
      assert a + " " + b == [' '] + b;
    } else {
      assert (a + " " + b)[1..] == a[1..] + " " + b;
      CapitalizeFromAppend(a[1..], b, a[0] == ' ');
    }
  }

  /** `capitalize(a + " " + b) == capitalize(a) + " " + capitalize(b)` */
  lemma CapitalizeAppend(a: string, b: string)
    ensures Capitalize(a + " " + b) == Capitalize(a) + " " + Capitalize(b)
  {
    CapitalizeIsReference(a + " " + b);
    CapitalizeIsReference(a);
    CapitalizeIsReference(b);
    CapitalizeFromAppend(a, b, true);
  }

  lemma CapitalizeWorld()
    ensures Capitalize("world") == "World"
  {
    CapitalizeIsReference("world");
    assert CapitalizeFrom("d", false) == "d";
    assert CapitalizeFrom("ld", false) == "ld";
    assert CapitalizeFrom("rld", false) == "rld";
    assert CapitalizeFrom("orld", false) == "orld";
  }

  /** Two words, each capitalized. */
  lemma CapitalizeHelloWorld()
    ensures Capitalize("hello" + " " + "world") == "Hello" + " " + "World"
  {
    CapitalizeHello();
    CapitalizeWorld();
    CapitalizeAppend("hello", "world");
  }
}
