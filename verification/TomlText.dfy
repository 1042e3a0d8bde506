/** The string operations the TOML parser is built from: find, trim and splitting into lines. */
module TomlText {

  predicate Blank(c: char) {
    c == ' ' || c == '\t' || c == '\r' || c == '\n'
  }

  predicate AllBlank(s: string) {
    forall i :: 0 <= i < |s| ==> Blank(s[i])
  }

  /** No blank at either end. */
  predicate Trimmed(s: string) {
    s == "" || (!Blank(s[0]) && !Blank(s[|s| - 1]))
  }

  /** The first position of c, or |s| where the library answers npos. */
  function IndexOf(s: string, c: char): (k: nat)
    ensures k <= |s|
    ensures k < |s| ==> s[k] == c
    ensures k == |s| <==> c !in s
    decreases |s|
  {
    if s == "" || s[0] == c then 0 else IndexOf(s[1..], c) + 1
  }

  /** Erase everything before the first non-blank. */
  function TrimLeft(s: string): (r: string)
    ensures r == "" || !Blank(r[0])
    ensures |r| <= |s|
    decreases |s|
  {
    if s != "" && Blank(s[0]) then TrimLeft(s[1..]) else s
  }

  /** Erase everything after the last non-blank. */
  function TrimRight(s: string): (r: string)
    ensures r == "" || !Blank(r[|r| - 1])
    ensures |r| <= |s|
    decreases |s|
  {
    if s != "" && Blank(s[|s| - 1]) then TrimRight(s[..|s| - 1]) else s
  }

  function Trim(s: string): (r: string)
    ensures Trimmed(r)
  {
    TrimRightKeepsFirst(TrimLeft(s));
    TrimRight(TrimLeft(s))
  }

  lemma {:induction false} TrimRightKeepsFirst(s: string)
    ensures TrimRight(s) != "" ==> s != "" && TrimRight(s)[0] == s[0]
    decreases |s|
  {
    if s != "" && Blank(s[|s| - 1]) {
      TrimRightKeepsFirst(s[..|s| - 1]);
    }
  }

  lemma {:induction false} IndexOfFirst(s: string, c: char)
    ensures c !in s[..IndexOf(s, c)]
    decreases |s|
  {
    if s != "" && s[0] != c {
      IndexOfFirst(s[1..], c);
      var k := IndexOf(s, c);
      assert s[..k] == [s[0]] + s[1..][..k - 1];
    }
  }

  lemma {:induction false} TrimLeftCuts(s: string) returns (pre: string)
    ensures AllBlank(pre) && s == pre + TrimLeft(s)
    decreases |s|
  {
    if s != "" && Blank(s[0]) {
      var p := TrimLeftCuts(s[1..]);
      pre := [s[0]] + p;
    } else {
      pre := "";
    }
  }

  lemma {:induction false} TrimRightCuts(s: string) returns (post: string)
    ensures AllBlank(post) && s == TrimRight(s) + post
    decreases |s|
  {
    if s != "" && Blank(s[|s| - 1]) {
      var p := TrimRightCuts(s[..|s| - 1]);
      post := p + [s[|s| - 1]];
    } else {
      post := "";
    }
  }

  lemma {:induction false} IndexAfter(a: string, c: char, b: string)
    requires c !in a
    ensures IndexOf(a + [c] + b, c) == |a|
  {
    if a != "" {
      assert (a + [c] + b)[1..] == a[1..] + [c] + b;
      IndexAfter(a[1..], c, b);
    }
  }

  /** Erasing from the left undoes any blanks put there. */
  lemma {:induction false} TrimLeftUndoes(pre: string, s: string)
    requires AllBlank(pre) && (s == "" || !Blank(s[0]))
    ensures TrimLeft(pre + s) == s
  {
    if pre == "" {
      assert pre + s == s;
    } else {
      assert (pre + s)[1..] == pre[1..] + s;
      TrimLeftUndoes(pre[1..], s);
    }
  }

  lemma {:induction false} TrimRightUndoes(s: string, post: string)
    requires AllBlank(post) && (s == "" || !Blank(s[|s| - 1]))
    ensures TrimRight(s + post) == s
  {
    if post == "" {
      assert s + post == s;
    } else {
      var last := |post| - 1;
      assert (s + post)[..|s| + last] == s + post[..last];
      TrimRightUndoes(s, post[..last]);
    }
  }

  /** Up to a non-blank c nothing on its left is erased from the right. */
  lemma TrimRightAfter(a: string, c: char, b: string)
    requires !Blank(c)
    ensures TrimRight(a + [c] + b) == a + [c] + TrimRight(b)
  {
    var post := TrimRightCuts(b);
    var r := TrimRight(b);
    assert a + [c] + b == (a + [c] + r) + post;
    TrimRightUndoes(a + [c] + r, post);
  }

  lemma TrimPadded(pre: string, s: string, post: string)
    requires AllBlank(pre) && AllBlank(post) && Trimmed(s)
    ensures Trim(pre + s + post) == s
    ensures TrimLeft(TrimRight(pre + s + post)) == s
  {
    if s == "" {
      assert AllBlank(pre + post);
      assert pre + s + post == (pre + post) + "" == "" + (pre + post);
      TrimLeftUndoes(pre + post, "");
      TrimRightUndoes("", pre + post);
      TrimRightUndoes("", "");
      TrimLeftUndoes("", "");
    } else {
      assert pre + s + post == pre + (s + post);
      TrimLeftUndoes(pre, s + post);
      TrimRightUndoes(s, post);
      TrimRightUndoes(pre + s, post);
      TrimLeftUndoes(pre, s);
    }
  }

  /** Trimming loses no character but blanks, and adds none. */
  lemma TrimKeeps(s: string, c: char)
    ensures c in TrimLeft(s) || Blank(c) <==> c in s || Blank(c)
    ensures c in TrimRight(s) || Blank(c) <==> c in s || Blank(c)
    ensures c in Trim(s) || Blank(c) <==> c in s || Blank(c)
    ensures c in TrimLeft(s) || c in TrimRight(s) || c in Trim(s) ==> c in s
  {
    hide TrimLeft, TrimRight;
    var pre := TrimLeftCuts(s);
    var post := TrimRightCuts(s);
    var post' := TrimRightCuts(TrimLeft(s));
  }

  // --------------------------------------------------------------------------- lines

  /** The lines getline reads: each ends at a newline or at the end of the text. */
  function GetLines(text: string): seq<string>
    decreases |text|
  {
    if text == "" then []
    else
      var k := IndexOf(text, '\n');
      if k == |text| then [text] else [text[..k]] + GetLines(text[k + 1..])
  }

  function JoinLines(lines: seq<string>): string {
    if lines == [] then "" else lines[0] + ['\n'] + JoinLines(lines[1..])
  }

  lemma {:induction false} LinesRoundTrip(lines: seq<string>)
    requires forall i :: 0 <= i < |lines| ==> '\n' !in lines[i]
    ensures GetLines(JoinLines(lines)) == lines
  {
    if lines != [] {
      var rest := JoinLines(lines[1..]);
      var text := JoinLines(lines);
      assert text == lines[0] + ['\n'] + rest;
      IndexAfter(lines[0], '\n', rest);
      assert text[..|lines[0]|] == lines[0] && text[|lines[0]| + 1..] == rest;
      LinesRoundTrip(lines[1..]);
    }
  }

  lemma {:induction false} GetLinesHaveNoNewline(text: string)
    ensures forall i :: 0 <= i < |GetLines(text)| ==> '\n' !in GetLines(text)[i]
    decreases |text|
  {
    if text != "" {
      var k := IndexOf(text, '\n');
      IndexOfFirst(text, '\n');
      assert text[..k] == text || k < |text|;
      if k < |text| {
        GetLinesHaveNoNewline(text[k + 1..]);
      }
    }
  }
}
