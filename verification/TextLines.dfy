/** Text as lines: Python's `split("\n")`, `"\n".join`, `strip` and `startswith`. */
module TextLines {

  /** `str.isspace` for one character. */
  predicate IsSpace(c: char) {
    var i := c as int;
    || 9 <= i <= 13 || 28 <= i <= 32 || i == 0x85 || i == 0xA0 || i == 0x1680
    || 0x2000 <= i <= 0x200A || i == 0x2028 || i == 0x2029 || i == 0x202F || i == 0x205F || i == 0x3000
  }

  function StripLeft(s: string): string {
    if s != "" && IsSpace(s[0]) then StripLeft(s[1..]) else s
  }

  function StripRight(s: string): string {
    if s != "" && IsSpace(s[|s| - 1]) then StripRight(s[..|s| - 1]) else s
  }

  function Strip(s: string): string {
    StripRight(StripLeft(s))
  }

  predicate EndsWith(s: string, c: char) {
    s != "" && s[|s| - 1] == c
  }

  predicate NoNewline(s: string) {
    forall i :: 0 <= i < |s| ==> s[i] != '\n'
  }

  function SplitLines(s: string): (lines: seq<string>)
    ensures lines != []
    ensures forall i :: 0 <= i < |lines| ==> NoNewline(lines[i])
  {
    if s == "" then [""]
    else
      var rest := SplitLines(s[1..]);
      if s[0] == '\n' then [""] + rest else [[s[0]] + rest[0]] + rest[1..]
  }

  function JoinLines(lines: seq<string>): string {
    if lines == [] then ""
    else if |lines| == 1 then lines[0]
    else lines[0] + "\n" + JoinLines(lines[1..])
  }

  lemma {:induction false} SplitOneLine(s: string)
    requires NoNewline(s)
    ensures SplitLines(s) == [s]
  {
    if s != "" {
      SplitOneLine(s[1..]);
      assert [s[0]] + s[1..] == s;
    }
  }

  lemma {:induction false} SplitAtNewline(a: string, b: string)
    ensures SplitLines(a + "\n" + b) == SplitLines(a) + SplitLines(b)
  {
    var s := a + "\n" + b;
    if a == "" {
      assert s[1..] == b;
    } else {
      SplitAtNewline(a[1..], b);
      assert s[1..] == a[1..] + "\n" + b && s[0] == a[0];
      FirstLineGrows(s[0], SplitLines(a[1..]), SplitLines(b));
    }
  }

  /** Prepending a character to the first of some lines commutes with adding lines. */
  lemma FirstLineGrows(c: char, a: seq<string>, b: seq<string>)
    requires a != []
    ensures [""] + (a + b) == [""] + a + b
    ensures [[c] + (a + b)[0]] + (a + b)[1..] == [[c] + a[0]] + a[1..] + b
  {
  }

  /** Joining undoes splitting. */
  lemma {:induction false} JoinSplit(s: string)
    ensures JoinLines(SplitLines(s)) == s
  {
    if s != "" {
      JoinSplit(s[1..]);
      var rest := SplitLines(s[1..]);
      if s[0] == '\n' {
        assert ([""] + rest)[1..] == rest;
        assert s == "" + "\n" + s[1..];
      } else if |rest| == 1 {
        assert s == [s[0]] + s[1..];
      } else {
        var lines := [[s[0]] + rest[0]] + rest[1..];
        assert lines[1..] == rest[1..];
        assert s == [s[0]] + s[1..];
      }
    }
  }

  /** All lines of several texts put one below the other. */
  function AllLines(texts: seq<string>): seq<string> {
    if texts == [] then [] else SplitLines(texts[0]) + AllLines(texts[1..])
  }

  /** Splitting a joined text gives the lines of its parts, in order. */
  lemma {:induction false} SplitJoin(texts: seq<string>)
    requires texts != []
    ensures SplitLines(JoinLines(texts)) == AllLines(texts)
  {
    if |texts| == 1 {
      assert AllLines(texts[1..]) == [];
    } else {
      SplitJoin(texts[1..]);
      SplitAtNewline(texts[0], JoinLines(texts[1..]));
    }
  }

  lemma {:induction false} JoinConcat(a: seq<string>, b: seq<string>)
    requires a != [] && b != []
    ensures JoinLines(a + b) == JoinLines(a) + "\n" + JoinLines(b)
  {
    if |a| == 1 {
      assert (a + b)[1..] == b;
    } else {
      assert (a + b)[1..] == a[1..] + b;
      JoinConcat(a[1..], b);
      assert a[0] + "\n" + (JoinLines(a[1..]) + "\n" + JoinLines(b)) == JoinLines(a) + "\n" + JoinLines(b);
    }
  }

  lemma {:induction false} AllLinesConcat(a: seq<string>, b: seq<string>)
    ensures AllLines(a + b) == AllLines(a) + AllLines(b)
  {
    if a == [] {
      assert a + b == b;
    } else {
      assert (a + b)[1..] == a[1..] + b;
      AllLinesConcat(a[1..], b);
    }
  }
}
